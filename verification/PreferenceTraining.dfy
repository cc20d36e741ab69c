/** The DPO/MPO training loop, its checkpoints and resuming from them
    (nemo_rl/algorithms/dpo.py, nemo_rl/algorithms/mpo.py). */
module PreferenceTraining {
  import opened Common
  import opened Schedule

  // The policy with its optimizer is an abstract state updated by a pure step
  // function. A restored data loader yields the rest of the saved epoch, which is
  // empty if the save came after its last batch.

  /** What policy.train returns. */
  datatype TrainResult<S> = TrainResult(policy: S, validTokens: real, rewardSum: real, rewardCount: real)

  /** The step function, the batches of each epoch and the starting point. */
  datatype Problem<!S, !B> = Problem(train: (S, B, real) -> TrainResult<S>, data: nat -> seq<B>, length: nat,
                                     start: S, startShift: real)

  ghost predicate ValidProblem<S, B>(pb: Problem<S, B>) {
    forall e :: |pb.data(e)| == pb.length
  }

  /** `momentum` is set for MPO, whose hook updates the reward shift. */
  datatype Config = Config(limits: Limits, batchSize: nat, momentum: Option<real>)

  predicate ValidConfig(cfg: Config) {
    ValidLimits(cfg.limits)
  }

  // ----- the uncut run, step by step -----

  datatype Trained<B> = Trained(epoch: nat, step: nat, batch: B)

  datatype Progress<S, B> = Progress(policy: S, consumed: nat, tokens: real, shift: real, updates: nat,
                                     trace: seq<Trained<B>>)

  /** The exponential moving average of the BCO reward. */
  function ShiftAfter(momentum: real, shift: real, sum: real, count: real): (r: real)
    requires count > 0.0
  {
    momentum * shift + (1.0 - momentum) * (sum / count)
  }

  ghost predicate Between(lo: real, x: real, hi: real) {
    lo <= x <= hi
  }

  /** Averaging two numbers of a range stays in the range. */
  lemma AverageBetween(m: real, x: real, y: real, lo: real, hi: real)
    requires 0.0 <= m <= 1.0 && Between(lo, x, hi) && Between(lo, y, hi)
    ensures Between(lo, m * x + (1.0 - m) * y, hi)
  {
    Scaled(m, lo, x, hi);
    Scaled(1.0 - m, lo, y, hi);
    Complement(m, lo);
    Complement(m, hi);
  }

  lemma Scaled(m: real, lo: real, x: real, hi: real)
    requires m >= 0.0 && Between(lo, x, hi)
    ensures Between(m * lo, m * x, m * hi)
  {
    assert m * (x - lo) >= 0.0 && m * (hi - x) >= 0.0;
  }

  lemma Complement(m: real, x: real)
    ensures m * x + (1.0 - m) * x == x
  {
  }

  function UpdatesShift<S>(cfg: Config, r: TrainResult<S>): (b: bool) {
    cfg.momentum.Some? && r.rewardCount > 0.0
  }

  ghost function StepFrom<S, B>(pb: Problem<S, B>, cfg: Config, p: Progress<S, B>, n: nat): (q: Progress<S, B>)
    requires ValidProblem(pb) && pb.length > 0
  {
    var (e, s) := BatchPosition(pb.length, n);
    assert |pb.data(e)| == pb.length;
    var batch := pb.data(e)[s];
    var r := pb.train(p.policy, batch, p.shift);
    Progress(r.policy, p.consumed + cfg.batchSize, p.tokens + r.validTokens,
             if UpdatesShift(cfg, r) then ShiftAfter(cfg.momentum.value, p.shift, r.rewardSum, r.rewardCount)
             else p.shift,
             p.updates + (if UpdatesShift(cfg, r) then 1 else 0), p.trace + [Trained(e, s, batch)])
  }

  /** The state of the uncut run after n steps. */
  ghost function After<S, B>(pb: Problem<S, B>, cfg: Config, n: nat): (p: Progress<S, B>)
    requires ValidProblem(pb) && (n > 0 ==> pb.length > 0)
    ensures |p.trace| == n
  {
    if n == 0 then Progress(pb.start, 0, 0.0, pb.startShift, 0, []) else StepFrom(pb, cfg, After(pb, cfg, n - 1), n - 1)
  }

  // ----- checkpoints -----

  datatype Saved = Saved(epoch: int, step: int, totalSteps: int, consumed: nat, tokens: real, shift: real, updates: nat)

  datatype Checkpoint<S> = Checkpoint(saved: Saved, policy: S, loaderPosition: nat)

  /** A checkpoint of the run after n steps. */
  ghost predicate CheckpointOf<S, B>(c: Checkpoint<S>, pb: Problem<S, B>, cfg: Config, n: nat)
    requires ValidProblem(pb)
  {
    && (n > 0 ==> pb.length > 0)
    && var p := After(pb, cfg, n);
       var (e, s) := if n > 0 then Position(pb.length, n) else (0, 0);
       && c.policy == p.policy && c.loaderPosition == s
       && c.saved == Saved(e, if s == pb.length then 0 else s, n, p.consumed, p.tokens, p.shift, p.updates)
  }

  function Fresh<S, B>(pb: Problem<S, B>): (c: Checkpoint<S>) {
    Checkpoint(Saved(0, 0, 0, 0, 0.0, pb.startShift, 0), pb.start, 0)
  }

  lemma FreshIsCheckpoint<S, B>(pb: Problem<S, B>, cfg: Config)
    requires ValidProblem(pb)
    ensures CheckpointOf(Fresh(pb), pb, cfg, 0)
  {
  }

  // ----- the objects a run mutates -----

  class SaveState {
    var epoch: int
    var step: int
    var totalSteps: int
    var consumed: nat
    var tokens: real
    var shift: real
    var updates: nat

    constructor (s: Saved)
      ensures View() == s
    {
      epoch, step, totalSteps, consumed, tokens, shift, updates :=
        s.epoch, s.step, s.totalSteps, s.consumed, s.tokens, s.shift, s.updates;
    }

    function View(): (s: Saved)
      reads this
    {
      Saved(epoch, step, totalSteps, consumed, tokens, shift, updates)
    }
  }

  class LossFn {
    var shift: real

    constructor (shift: real)
      ensures this.shift == shift
    {
      this.shift := shift;
    }

    /** With no rewards counted nothing moves; otherwise the shift moves towards
        the batch mean and, for a momentum in [0, 1], never past it. */
    method UpdateRewardShift(momentum: real, sum: real, count: real) returns (r: real)
      modifies this
      ensures r == shift
      ensures count <= 0.0 ==> shift == old(shift)
      ensures count > 0.0 ==> shift == ShiftAfter(momentum, old(shift), sum, count)
      ensures count > 0.0 && 0.0 <= momentum <= 1.0 ==>
                forall lo, hi :: Between(lo, old(shift), hi) && Between(lo, sum / count, hi) ==> Between(lo, shift, hi)
    {
      if count <= 0.0 {
        return shift;
      }
      var mean := sum / count;
      ghost var before := shift;
      shift := momentum * shift + (1.0 - momentum) * mean;
      if 0.0 <= momentum <= 1.0 {
        forall lo, hi | Between(lo, before, hi) && Between(lo, mean, hi)
          ensures Between(lo, shift, hi)
        {
          AverageBetween(momentum, before, mean, lo, hi);
        }
      }
      r := shift;
    }
  }

  /** The MPO hook after each optimizer step. */
  method PostTrainStep<S>(cfg: Config, r: TrainResult<S>, loss: LossFn, save: SaveState)
    modifies loss, save
    ensures loss.shift ==
              if UpdatesShift(cfg, r) then ShiftAfter(cfg.momentum.value, old(loss.shift), r.rewardSum, r.rewardCount)
              else old(loss.shift)
    ensures save.View() == old(save.View()).(
              shift := if UpdatesShift(cfg, r) then loss.shift else old(save.shift),
              updates := old(save.updates) + (if UpdatesShift(cfg, r) then 1 else 0))
  {
    if cfg.momentum.Some? {
      if r.rewardCount > 0.0 {
        save.shift := loss.UpdateRewardShift(cfg.momentum.value, r.rewardSum, r.rewardCount);
        save.updates := save.updates + 1;
      }
    }
  }

  // ----- when the loop saves and stops -----

  /** A time slice: an optional step boundary, and the steps at which the deadline fires. */
  datatype Slice = Slice(stopAfter: Option<int>, deadline: int -> bool)

  predicate ReachedStop(slice: Slice, n: int) {
    slice.stopAfter.Some? && n >= slice.stopAfter.value
  }

  /** The loop returns right after making step number n. */
  predicate StopsAt(cfg: Config, slice: Slice, n: int) {
    slice.deadline(n) || ReachedStop(slice, n) || n >= cfg.limits.maxSteps
  }

  datatype Exit = Timeout | StopAfter | MaxSteps | EpochsDone

  /** The three early exits, in the order they are tested. */
  function EarlyExit(cfg: Config, slice: Slice, n: int): (exit: Option<Exit>)
    ensures exit.Some? <==> StopsAt(cfg, slice, n)
  {
    if slice.deadline(n) then Some(Timeout)
    else if ReachedStop(slice, n) then Some(StopAfter)
    else if n >= cfg.limits.maxSteps then Some(MaxSteps)
    else None
  }

  /** Why a run ends after n steps. */
  predicate Explains(exit: Exit, length: nat, cfg: Config, slice: Slice, n: nat) {
    match exit
    case Timeout => slice.deadline(n)
    case StopAfter => ReachedStop(slice, n)
    case MaxSteps => n >= cfg.limits.maxSteps
    case EpochsDone => !CanTrain(length, cfg.limits, n)
  }

  /** After n steps of the run: the objects, the trace, and where the loop stands. */
  ghost predicate InStep<S, B>(pb: Problem<S, B>, cfg: Config, n: nat, policy: S, loss: LossFn, save: SaveState,
                               tokens: real)
    requires ValidProblem(pb)
    reads loss, save
  {
    && (n > 0 ==> pb.length > 0)
    && var p := After(pb, cfg, n);
       && policy == p.policy && tokens == p.tokens && loss.shift == p.shift && save.shift == p.shift
       && save.consumed == p.consumed && save.updates == p.updates
  }

  lemma Wrap(step: nat, length: nat)
    requires step < length
    ensures (step + 1) % length == if step + 1 == length then 0 else step + 1
  {
    if step + 1 < length {
      SmallModulus(step + 1, length);
    }
  }

  lemma SmallModulus(a: nat, b: nat)
    requires a < b
    ensures a % b == a
  {
  }

  /** Whether step number n is saved. */
  predicate Saves(length: nat, cfg: Config, slice: Slice, epoch: int, step: int, n: int)
    requires ValidConfig(cfg)
  {
    && cfg.limits.checkpointing
    && (|| IsLastStep(length, cfg.limits, epoch, step, n - 1) || ReachedStop(slice, n)
        || PeriodicSave(cfg.limits, n) || slice.deadline(n))
  }

  /** Saves that do not depend on a period. */
  predicate MustSave(length: nat, cfg: Config, slice: Slice, epoch: int, step: int, n: int) {
    cfg.limits.checkpointing
    && (IsLastStep(length, cfg.limits, epoch, step, n - 1) || ReachedStop(slice, n) || slice.deadline(n))
  }

  /** One pass through the loop body, for batch `position` of epoch `epoch`. */
  method TrainOne<S, B>(pb: Problem<S, B>, cfg: Config, slice: Slice, policy0: S, loss: LossFn, save: SaveState,
                        tokens0: real, epoch: nat, step: nat, batch: B, total: nat)
    returns (policy: S, tokens: real, saved: Option<Checkpoint<S>>)
    requires ValidProblem(pb) && ValidConfig(cfg) && step < pb.length
    requires BatchPosition(pb.length, total) == (epoch, step) && Position(pb.length, total + 1) == (epoch, step + 1)
    requires batch == pb.data(epoch)[step]
    requires InStep(pb, cfg, total, policy0, loss, save, tokens0)
    modifies loss, save
    ensures InStep(pb, cfg, total + 1, policy, loss, save, tokens)
    ensures saved.Some? <==> Saves(pb.length, cfg, slice, epoch, step, total + 1)
    ensures saved.Some? ==> CheckpointOf(saved.value, pb, cfg, total + 1)
  {
    var r := pb.train(policy0, batch, loss.shift);
    policy := r.policy;
    PostTrainStep(cfg, r, loss, save);
    var isLast := IsLastStep(pb.length, cfg.limits, epoch, step, total);
    tokens := tokens0 + r.validTokens;
    save.consumed := save.consumed + cfg.batchSize;
    var bySteps := isLast || ReachedStop(slice, total + 1) || PeriodicSave(cfg.limits, total + 1);
    saved := None;
    if cfg.limits.checkpointing && (bySteps || slice.deadline(total + 1)) {
      Wrap(step, pb.length);
      save.step := (step + 1) % pb.length;
      save.totalSteps, save.epoch, save.tokens := total + 1, epoch, tokens;
      saved := Some(Checkpoint(save.View(), policy, step + 1));
    }
  }

  // ----- one run -----

  /** The checkpoints written between n0 and n: genuine, and none missing. */
  ghost predicate GoodSaves<S, B>(pb: Problem<S, B>, cfg: Config, saves: seq<Save<Checkpoint<S>>>, n0: nat, n: nat)
    requires ValidProblem(pb) && ValidConfig(cfg)
  {
    && Complete(cfg.limits, saves, n0, n)
    && (forall i :: 0 <= i < |saves| ==> CheckpointOf(saves[i].content, pb, cfg, saves[i].total))
  }

  /** The steps n0 .. n were within limits and none but the last ended the run. */
  ghost predicate Allowed(length: nat, cfg: Config, slice: Slice, n0: nat, n: nat) {
    && Within(length, cfg.limits, n0, n)
    && (forall k :: n0 < k < n ==> !StopsAt(cfg, slice, k))
  }

  /** What a run hands out as it goes. */
  datatype Output<S, B> = Output(policy: S, tokens: real, total: nat, saves: seq<Save<Checkpoint<S>>>,
                                 trace: seq<Trained<B>>)

  /** Policy, tokens and batches of steps n0 .. total of the uncut run. */
  ghost predicate Traces<S, B>(pb: Problem<S, B>, cfg: Config, n0: nat, o: Output<S, B>)
    requires ValidProblem(pb)
  {
    && n0 <= o.total && (o.total > 0 ==> pb.length > 0)
    && var p := After(pb, cfg, o.total);
       o.policy == p.policy && o.tokens == p.tokens && After(pb, cfg, n0).trace + o.trace == p.trace
  }

  /** The output belongs to steps n0 .. total of the uncut run: the same batches
      in the same order, the policy they lead to, and genuine checkpoints. */
  ghost predicate Follows<S, B>(pb: Problem<S, B>, cfg: Config, slice: Slice, n0: nat, o: Output<S, B>)
    requires ValidProblem(pb) && ValidConfig(cfg)
  {
    && Traces(pb, cfg, n0, o)
    && GoodSaves(pb, cfg, o.saves, n0, o.total)
    && Allowed(pb.length, cfg, slice, n0, o.total)
  }

  ghost predicate Going<S, B>(pb: Problem<S, B>, cfg: Config, slice: Slice, n0: nat, loss: LossFn, save: SaveState,
                              o: Output<S, B>)
    requires ValidProblem(pb) && ValidConfig(cfg)
    reads loss, save
  {
    Follows(pb, cfg, slice, n0, o) && InStep(pb, cfg, o.total, o.policy, loss, save, o.tokens)
  }

  lemma StepGoesOn<S, B>(pb: Problem<S, B>, cfg: Config, n0: nat, n: nat, trace: seq<Trained<B>>)
    requires ValidProblem(pb) && pb.length > 0 && n0 <= n
    requires After(pb, cfg, n0).trace + trace == After(pb, cfg, n).trace
    ensures var (e, s) := BatchPosition(pb.length, n);
            && |pb.data(e)| == pb.length
            && After(pb, cfg, n0).trace + (trace + [Trained(e, s, pb.data(e)[s])]) == After(pb, cfg, n + 1).trace
  {
    var (e, s) := BatchPosition(pb.length, n);
    assert |pb.data(e)| == pb.length;
    var t := Trained(e, s, pb.data(e)[s]);
    assert After(pb, cfg, n0).trace + (trace + [t]) == After(pb, cfg, n0).trace + trace + [t];
  }

  lemma AllowedStep(length: nat, cfg: Config, slice: Slice, n0: nat, n: nat)
    requires Allowed(length, cfg, slice, n0, n) && n0 <= n && CanTrain(length, cfg.limits, n)
              && (n > n0 ==> !StopsAt(cfg, slice, n))
    ensures Allowed(length, cfg, slice, n0, n + 1)
  {
  }

  /** What a run hands out after one more batch. */
  function Extended<S, B>(o: Output<S, B>, policy: S, tokens: real, saved: Option<Checkpoint<S>>,
                          t: Trained<B>): (r: Output<S, B>) {
    Output(policy, tokens, o.total + 1, WithSave(o.saves, saved, o.total + 1), o.trace + [t])
  }

  lemma SavesFollow<S, B>(pb: Problem<S, B>, cfg: Config, saves: seq<Save<Checkpoint<S>>>, saved: Option<Checkpoint<S>>,
                          n0: nat, n: nat)
    requires ValidProblem(pb) && ValidConfig(cfg) && GoodSaves(pb, cfg, saves, n0, n) && n0 <= n
    requires cfg.limits.checkpointing && PeriodicSave(cfg.limits, n + 1) ==> saved.Some?
    requires saved.Some? ==> CheckpointOf(saved.value, pb, cfg, n + 1)
    ensures GoodSaves(pb, cfg, WithSave(saves, saved, n + 1), n0, n + 1)
    ensures saved.Some? ==> LastSaved(WithSave(saves, saved, n + 1), n + 1)
  {
    OneMoreSave(cfg.limits, saves, saved, n0, n);
    var all := WithSave(saves, saved, n + 1);
    forall i | 0 <= i < |all|
      ensures CheckpointOf(all[i].content, pb, cfg, all[i].total)
    {
      if i < |saves| {
        assert all[i] == saves[i];
      }
    }
  }

  lemma TraceFollows<S, B>(pb: Problem<S, B>, cfg: Config, n0: nat, o: Output<S, B>, r: Output<S, B>, epoch: nat,
                           step: nat)
    requires ValidProblem(pb) && pb.length > 0 && Traces(pb, cfg, n0, o) && r.total == o.total + 1
    requires BatchPosition(pb.length, o.total) == (epoch, step) && step < |pb.data(epoch)|
    requires r.policy == After(pb, cfg, r.total).policy && r.tokens == After(pb, cfg, r.total).tokens
    requires r.trace == o.trace + [Trained(epoch, step, pb.data(epoch)[step])]
    ensures Traces(pb, cfg, n0, r)
  {
    StepGoesOn(pb, cfg, n0, o.total, o.trace);
  }

  /** It belongs to one more step of the uncut run. */
  lemma StepFollows<S, B>(pb: Problem<S, B>, cfg: Config, slice: Slice, n0: nat, o: Output<S, B>, r: Output<S, B>,
                          saved: Option<Checkpoint<S>>, epoch: nat, step: nat)
    requires ValidProblem(pb) && ValidConfig(cfg) && Follows(pb, cfg, slice, n0, o)
    requires CanTrain(pb.length, cfg.limits, o.total) && (o.total > n0 ==> !StopsAt(cfg, slice, o.total))
    requires BatchPosition(pb.length, o.total) == (epoch, step) && step < |pb.data(epoch)|
    requires r == Extended(o, r.policy, r.tokens, saved, Trained(epoch, step, pb.data(epoch)[step]))
    requires r.policy == After(pb, cfg, r.total).policy && r.tokens == After(pb, cfg, r.total).tokens
    requires cfg.limits.checkpointing && PeriodicSave(cfg.limits, r.total) ==> saved.Some?
    requires saved.Some? ==> CheckpointOf(saved.value, pb, cfg, r.total)
    ensures Follows(pb, cfg, slice, n0, r) && (saved.Some? ==> LastSaved(r.saves, r.total))
  {
    TraceFollows(pb, cfg, n0, o, r, epoch, step);
    AllowedStep(pb.length, cfg, slice, n0, o.total);
    SavesFollow(pb, cfg, o.saves, saved, n0, o.total);
  }

  /** One batch, with its bookkeeping. */
  method TrainNext<S, B>(pb: Problem<S, B>, cfg: Config, slice: Slice, loss: LossFn, save: SaveState,
                         epoch: nat, step: nat, o0: Output<S, B>, ghost n0: nat)
    returns (o: Output<S, B>)
    requires ValidProblem(pb) && ValidConfig(cfg) && Going(pb, cfg, slice, n0, loss, save, o0)
    requires epoch < cfg.limits.maxEpochs && o0.total < cfg.limits.maxSteps
              && (o0.total > n0 ==> !StopsAt(cfg, slice, o0.total))
    requires step < pb.length && Stands(pb.length, o0.total, epoch, step)
    modifies loss, save
    ensures Going(pb, cfg, slice, n0, loss, save, o)
    ensures o.total == o0.total + 1 && Stands(pb.length, o.total, epoch, step + 1)
    ensures MustSave(pb.length, cfg, slice, epoch, step, o.total) ==> LastSaved(o.saves, o.total)
  {
    StandsForBatch(pb.length, o0.total, epoch, step);
    var batch := pb.data(epoch)[step];
    var policy, tokens, saved :=
      TrainOne(pb, cfg, slice, o0.policy, loss, save, o0.tokens, epoch, step, batch, o0.total);
    o := Extended(o0, policy, tokens, saved, Trained(epoch, step, batch));
    StepFollows(pb, cfg, slice, n0, o0, o, saved, epoch, step);
  }

  /** The rest of one epoch. */
  method TrainEpoch<S, B>(pb: Problem<S, B>, cfg: Config, slice: Slice, loss: LossFn, save: SaveState,
                          epoch: nat, step0: int, position0: nat, o0: Output<S, B>, ghost n0: nat)
    returns (o: Output<S, B>, exit: Option<Exit>)
    requires ValidProblem(pb) && ValidConfig(cfg) && Going(pb, cfg, slice, n0, loss, save, o0)
    requires epoch < cfg.limits.maxEpochs && o0.total < cfg.limits.maxSteps
              && (o0.total > n0 ==> !StopsAt(cfg, slice, o0.total))
    requires position0 <= pb.length && Stands(pb.length, o0.total, epoch, position0)
              && (position0 < pb.length ==> step0 == position0)
    modifies loss, save
    ensures Going(pb, cfg, slice, n0, loss, save, o)
    ensures exit.None? ==>
              && o.total < cfg.limits.maxSteps && Stands(pb.length, o.total, epoch + 1, 0)
              && (o.total > n0 ==> !StopsAt(cfg, slice, o.total))
              && o.total == o0.total + (pb.length - position0)
              && (cfg.limits.checkpointing && o.total > o0.total && epoch + 1 == cfg.limits.maxEpochs ==>
                  LastSaved(o.saves, o.total))
    ensures exit.Some? ==>
              o.total > n0 && (cfg.limits.checkpointing ==> LastSaved(o.saves, o.total))
                  && Explains(exit.value, pb.length, cfg, slice, o.total)
  {
    o := o0;
    var step, position := step0, position0;
    while position < pb.length
      invariant Going(pb, cfg, slice, n0, loss, save, o)
      invariant o.total < cfg.limits.maxSteps && (o.total > n0 ==> !StopsAt(cfg, slice, o.total))
      invariant position <= pb.length && Stands(pb.length, o.total, epoch, position)
      invariant position < pb.length ==> step == position
      invariant o.total - o0.total == position - position0
      invariant position >= position0
      invariant position == pb.length && cfg.limits.checkpointing && o.total > o0.total ==>
                  (epoch + 1 == cfg.limits.maxEpochs ==> LastSaved(o.saves, o.total))
      decreases pb.length - position
    {
      o := TrainNext(pb, cfg, slice, loss, save, epoch, step, o, n0);
      position, step := position + 1, step + 1;
      exit := EarlyExit(cfg, slice, o.total);
      if exit.Some? {
        return;
      }
    }
    StandsForBatch(pb.length, o.total, epoch, position);
    exit := None;
  }

  /** A checkpoint is where a run that has handed out nothing stands. */
  lemma Resumes<S, B>(pb: Problem<S, B>, cfg: Config, slice: Slice, c: Checkpoint<S>, n0: nat)
    requires ValidProblem(pb) && ValidConfig(cfg) && CheckpointOf(c, pb, cfg, n0)
    ensures c.saved.totalSteps == n0 && c.saved.epoch >= 0
              && Follows(pb, cfg, slice, n0, Output(c.policy, c.saved.tokens, n0, [], []))
    ensures c.loaderPosition <= pb.length && Stands(pb.length, n0, c.saved.epoch, c.loaderPosition)
    ensures c.loaderPosition < pb.length ==> c.saved.step == c.loaderPosition
  {
    if n0 > 0 {
      PositionStands(pb.length, n0);
    }
  }

  /** The loop over epochs, from where a checkpoint left off. */
  method TrainEpochs<S, B>(pb: Problem<S, B>, cfg: Config, slice: Slice, loss: LossFn, save: SaveState,
                           epoch0: int, step0: int, position0: nat, o0: Output<S, B>, ghost n0: nat)
    returns (o: Output<S, B>, exit: Exit)
    requires ValidProblem(pb) && ValidConfig(cfg) && Going(pb, cfg, slice, n0, loss, save, o0) && o0.total == n0
    requires Stands(pb.length, n0, epoch0, position0) && (position0 < pb.length ==> step0 == position0)
    modifies loss, save
    ensures Follows(pb, cfg, slice, n0, o)
    ensures cfg.limits.checkpointing && o.total > n0 ==> LastSaved(o.saves, o.total)
    ensures Explains(exit, pb.length, cfg, slice, o.total)
  {
    var epoch, step := epoch0, step0;
    var position: nat := position0;
    o := o0;
    while epoch < cfg.limits.maxEpochs && o.total < cfg.limits.maxSteps
      invariant Going(pb, cfg, slice, n0, loss, save, o) && Stands(pb.length, o.total, epoch, position)
      invariant position < pb.length ==> step == position
      invariant o.total > n0 ==> position == 0 && epoch <= cfg.limits.maxEpochs && !StopsAt(cfg, slice, o.total)
      invariant cfg.limits.checkpointing && o.total > n0 && epoch == cfg.limits.maxEpochs ==>
                LastSaved(o.saves, o.total)
      decreases cfg.limits.maxEpochs - epoch
    {
      var stop;
      o, stop := TrainEpoch(pb, cfg, slice, loss, save, epoch, step, position, o, n0);
      if stop.Some? {
        return o, stop.value;
      }
      epoch, step, position := epoch + 1, 0, 0;
    }
    LimitReached(pb.length, cfg.limits, o.total, epoch, position);
    exit := EpochsDone;
  }

  method DpoTrain<S, B>(pb: Problem<S, B>, cfg: Config, slice: Slice, c: Checkpoint<S>, ghost n0: nat)
    returns (o: Output<S, B>, exit: Exit)
    requires ValidProblem(pb) && ValidConfig(cfg) && CheckpointOf(c, pb, cfg, n0)
    ensures Follows(pb, cfg, slice, n0, o)
    ensures cfg.limits.checkpointing && o.total > n0 ==> LastSaved(o.saves, o.total)
    ensures Explains(exit, pb.length, cfg, slice, o.total)
  {
    Resumes(pb, cfg, slice, c, n0);
    var save := new SaveState(c.saved);
    var loss := new LossFn(c.saved.shift);
    o := Output(c.policy, save.tokens, save.totalSteps, [], []);
    if ReachedStop(slice, o.total) {
      return o, StopAfter;
    }
    o, exit := TrainEpochs(pb, cfg, slice, loss, save, save.epoch, save.step, c.loaderPosition, o, n0);
  }

  // ----- slices -----

  /** A slice without a boundary or a deadline runs to the end. */
  ghost predicate Unbounded(slice: Slice) {
    slice.stopAfter.None? && forall n :: !slice.deadline(n)
  }

  /** Training in slices: each starts from the last checkpoint of the one before. */
  method TrainInSlices<S, B>(pb: Problem<S, B>, cfg: Config, slices: seq<Slice>)
    returns (last: Checkpoint<S>, trace: seq<Trained<B>>, total: nat, finished: bool)
    requires ValidProblem(pb) && ValidConfig(cfg) && cfg.limits.checkpointing
    ensures CheckpointOf(last, pb, cfg, total)
    ensures (total > 0 ==> pb.length > 0) && trace == After(pb, cfg, total).trace
    ensures Within(pb.length, cfg.limits, 0, total)
    ensures finished ==> UncutLength(pb.length, cfg.limits, total)
    ensures (exists i :: 0 <= i < |slices| && Unbounded(slices[i])) ==> finished
  {
    last, trace, total, finished := Fresh(pb), [], 0, false;
    FreshIsCheckpoint(pb, cfg);
    for i := 0 to |slices|
      invariant CheckpointOf(last, pb, cfg, total) && (total > 0 ==> pb.length > 0)
      invariant trace == After(pb, cfg, total).trace
      invariant Within(pb.length, cfg.limits, 0, total)
      invariant finished ==> !CanTrain(pb.length, cfg.limits, total)
      invariant (exists j :: 0 <= j < i && Unbounded(slices[j])) ==> finished
    {
      if !finished {
        var o, exit := DpoTrain(pb, cfg, slices[i], last, total);
        if o.total > total {
          last := o.saves[|o.saves| - 1].content;
        }
        trace, total := trace + o.trace, o.total;
        finished := exit == MaxSteps || exit == EpochsDone;
      }
    }
  }

  /** However a run is cut, once it is finished it has trained on the same batches
      in the same order and left the same checkpoint. */
  lemma SlicingChangesNothing<S, B>(pb: Problem<S, B>, cfg: Config, a: nat, b: nat, c: Checkpoint<S>, d: Checkpoint<S>)
    requires ValidProblem(pb)
    requires UncutLength(pb.length, cfg.limits, a) && CheckpointOf(c, pb, cfg, a)
    requires UncutLength(pb.length, cfg.limits, b) && CheckpointOf(d, pb, cfg, b)
    ensures a == b && c == d && After(pb, cfg, a) == After(pb, cfg, b)
  {
  }

  // ----- the reward shift over a run -----

  /** What step k (from 0) of the uncut run returns. */
  ghost function ResultAt<S, B>(pb: Problem<S, B>, cfg: Config, k: nat): (r: TrainResult<S>)
    requires ValidProblem(pb) && pb.length > 0
  {
    var (e, s) := BatchPosition(pb.length, k);
    assert |pb.data(e)| == pb.length;
    pb.train(After(pb, cfg, k).policy, pb.data(e)[s], After(pb, cfg, k).shift)
  }

  /** The mean reward of step k, if it has one, lies in the range. */
  ghost predicate MeanWithin<S, B>(pb: Problem<S, B>, cfg: Config, k: nat, lo: real, hi: real)
    requires ValidProblem(pb) && pb.length > 0
  {
    var r := ResultAt(pb, cfg, k);
    r.rewardCount > 0.0 ==> Between(lo, r.rewardSum / r.rewardCount, hi)
  }

  /** With a momentum in [0, 1] the reward shift never leaves a range that holds
      its start and every batch mean, however long the run. */
  lemma {:induction false} RewardShiftStaysInRange<S, B>(pb: Problem<S, B>, cfg: Config, n: nat, lo: real, hi: real)
    requires ValidProblem(pb) && pb.length > 0 && cfg.momentum.Some? && 0.0 <= cfg.momentum.value <= 1.0
    requires Between(lo, pb.startShift, hi) && forall k :: 0 <= k < n ==> MeanWithin(pb, cfg, k, lo, hi)
    ensures Between(lo, After(pb, cfg, n).shift, hi)
  {
    if n > 0 {
      RewardShiftStaysInRange(pb, cfg, n - 1, lo, hi);
      assert MeanWithin(pb, cfg, n - 1, lo, hi);
      var r, shift := ResultAt(pb, cfg, n - 1), After(pb, cfg, n - 1).shift;
      if r.rewardCount > 0.0 {
        AverageBetween(cfg.momentum.value, shift, r.rewardSum / r.rewardCount, lo, hi);
      }
    }
  }
}
