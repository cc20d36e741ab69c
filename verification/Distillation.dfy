/** The distillation loop: refits, counters and saves
    (nemo_rl/algorithms/distillation.py:703-1255). */
module Distillation {
  import opened Common
  import opened GenerationLog
  import opened Schedule
  import Sampling = DynamicSampling

  datatype Settings = Settings(limits: Limits, length: nat, promptsPerStep: nat, valAtStart: bool, valAtEnd: bool,
                               valPeriod: int)

  datatype Outcome<S> = Outcome(student: S, validTokens: real)

  /** The starting point, the batches of each epoch, and what generation and one
      training step do: the student learns from what it generated itself. */
  datatype Problem<!S, !P> = Problem(start: S, batch: (nat, nat) -> P, rollout: (S, P) -> seq<Row>,
                                     train: (S, seq<Row>) -> Outcome<S>)

  // ----- the uncut run, step by step -----

  datatype History<S> = History(student: S, consumed: nat, tokens: real, trained: seq<seq<Row>>)

  function After<S, P>(pb: Problem<S, P>, cfg: Settings, n: nat): (h: History<S>)
    requires n > 0 ==> cfg.length > 0
  {
    if n == 0 then History(pb.start, 0, 0.0, [])
    else
      var (e, s) := BatchPosition(cfg.length, n - 1);
      Step(pb, cfg, After(pb, cfg, n - 1), pb.batch(e, s))
  }

  /** Every step generates with the student it then trains. */
  function Step<S, P>(pb: Problem<S, P>, cfg: Settings, h: History<S>, prompts: P): (r: History<S>) {
    var rows := pb.rollout(h.student, prompts);
    var out := pb.train(h.student, rows);
    History(out.student, h.consumed + cfg.promptsPerStep, h.tokens + out.validTokens, h.trained + [rows])
  }

  // ----- checkpoints -----

  /** Unlike DPO, the saved step is not wrapped at the end of an epoch. */
  datatype Checkpoint<S> = Checkpoint(epoch: int, step: int, total: int, consumed: nat, tokens: real, student: S)

  ghost predicate CountersAt<S>(length: nat, c: Checkpoint<S>, n: nat) {
    && c.total == n
    && if n == 0 then c.epoch == 0 && c.step == 0 else length > 0 && Position(length, n) == (c.epoch, c.step)
  }

  /** The checkpoint an uncut run would write after n steps. */
  ghost predicate CheckpointAt<S, P>(pb: Problem<S, P>, cfg: Settings, c: Checkpoint<S>, n: nat) {
    && CountersAt(cfg.length, c, n)
    && var h := After(pb, cfg, n); c.student == h.student && c.consumed == h.consumed && c.tokens == h.tokens
  }

  lemma StartStands<S>(length: nat, c: Checkpoint<S>, n: nat)
    requires CountersAt(length, c, n)
    ensures c.epoch >= 0 && 0 <= c.step <= length && Stands(length, n, c.epoch, c.step)
  {
    if n > 0 {
      PositionStands(length, n);
    }
  }

  ghost predicate GoodSaves<S, P>(pb: Problem<S, P>, cfg: Settings, saves: seq<Save<Checkpoint<S>>>, n0: nat, n: nat)
    requires ValidLimits(cfg.limits)
  {
    && Complete(cfg.limits, saves, n0, n)
    && (forall i :: 0 <= i < |saves| ==>
        saves[i].total >= 0 && CheckpointAt(pb, cfg, saves[i].content, saves[i].total))
  }

  predicate ValidationDue(cfg: Settings, epoch: int, step: int, total: int) {
    || (cfg.valPeriod > 0 && (total + 1) % cfg.valPeriod == 0)
    || (cfg.valAtEnd && IsLastStep(cfg.length, cfg.limits, epoch, step, total))
  }

  // ----- generation -----

  /** The variables of the loop: the student, the weights of the generation
      engine, the flag and the totals. */
  datatype Running<S> = Running(student: S, engine: S, stale: bool, consumed: nat, tokens: real)

  /** The weights that generate. */
  function Generator<S>(shared: bool, r: Running<S>): (weights: S) {
    if shared then r.student else r.engine
  }

  /** The flag starts raised; without a separate engine it is never lowered. */
  ghost predicate Steady<S>(e: Engines, r: Running<S>, first: nat)
    reads e
  {
    && e.Valid(first, true) && e.policy == e.facts.version && r.stale == e.facts.stale
    && e.facts.sound && e.facts.economical && e.facts.fed
    && (!r.stale ==> Weights(e.Now()) == e.policy && r.engine == r.student) && (e.shared ==> r.stale)
  }

  /** Refit if there is something to refit and it is stale. */
  method Prepare<S>(e: Engines, r0: Running<S>, ghost first: nat) returns (r: Running<S>)
    requires Steady(e, r0, first)
    modifies e
    ensures Steady(e, r, first) && Weights(e.Now()) == e.policy == old(e.policy)
    ensures Generator(e.shared, r) == r.student && r == r0.(engine := r.engine, stale := r.stale)
    ensures e.facts.rollouts == old(e.facts.rollouts) && e.facts.trainings == old(e.facts.trainings)
  {
    r := r0;
    if !e.shared && r.stale {
      e.DoRefit(None, first, true);
      r := r.(engine := r.student, stale := false);
    }
  }

  method ValidateNow<S>(e: Engines, r0: Running<S>, ghost first: nat) returns (r: Running<S>)
    requires Steady(e, r0, first)
    modifies e
    ensures Steady(e, r, first) && e.policy == old(e.policy) && r == r0.(engine := r.engine, stale := r.stale)
    ensures e.facts.rollouts == old(e.facts.rollouts) && e.facts.trainings == old(e.facts.trainings)
    ensures e.facts.last.Some? && e.facts.last.value.Validation? && e.facts.last.value.weights == e.policy
  {
    r := Prepare(e, r0, first);
    e.DoValidation(first, true);
  }

  /** Roll out with current weights, then train on it. */
  method RolloutAndTrain<S, P>(pb: Problem<S, P>, e: Engines, r0: Running<S>, prompts: P, ghost first: nat)
    returns (r: Running<S>, rows: seq<Row>)
    requires Steady(e, r0, first)
    modifies e
    ensures Steady(e, r, first) && e.policy == old(e.policy) + 1
    ensures rows == pb.rollout(r0.student, prompts) && r.consumed == r0.consumed
    ensures r.student == pb.train(r0.student, rows).student
    ensures r.tokens == r0.tokens + pb.train(r0.student, rows).validTokens
    ensures e.facts.rollouts == old(e.facts.rollouts) + 1 && e.facts.trainings == old(e.facts.trainings) + [rows]
    ensures e.facts.last == Some(Trained(rows))
  {
    r := Prepare(e, r0, first);
    rows := pb.rollout(Generator(e.shared, r), prompts);
    e.DoRollout(rows, first, true);
    var out := pb.train(r.student, rows);
    e.DoTrain(Sampling.Ids(rows), rows, first, true);
    r := r.(student := out.student, stale := true, tokens := r.tokens + out.validTokens);
  }

  datatype Ending = DeadlineEnd | StepsEnd | EpochsEnd

  predicate Reason(cfg: Settings, deadline: int -> bool, end: Ending, n: int) {
    if end == DeadlineEnd then deadline(n) else n >= cfg.limits.maxSteps
  }

  /** The two early exits, in the order they are tested. */
  function EarlyEnd(cfg: Settings, deadline: int -> bool, n: int): (end: Option<Ending>)
    ensures end.Some? ==> Reason(cfg, deadline, end.value, n)
    ensures end.None? <==> !deadline(n) && n < cfg.limits.maxSteps
  {
    if deadline(n) then Some(DeadlineEnd) else if n >= cfg.limits.maxSteps then Some(StepsEnd) else None
  }

  // ----- the loop -----

  ghost predicate SavesNow(cfg: Settings, deadline: int -> bool, epoch: int, step: int, total: int)
    requires ValidLimits(cfg.limits)
  {
    && cfg.limits.checkpointing
    && (|| IsLastStep(cfg.length, cfg.limits, epoch, step, total)
        || PeriodicSave(cfg.limits, total + 1) || deadline(total + 1))
  }

  ghost predicate InStep<S>(r: Running<S>, h: History<S>) {
    r.student == h.student && r.consumed == h.consumed && r.tokens == h.tokens
  }

  ghost predicate SavedFrom<S>(r: Running<S>, c: Checkpoint<S>) {
    c.student == r.student && c.consumed == r.consumed && c.tokens == r.tokens
  }

  /** One pass through the loop body. */
  method Pass<S, P>(pb: Problem<S, P>, cfg: Settings, e: Engines, r0: Running<S>, deadline: int -> bool,
                          epoch: nat, step: nat, total: nat, ghost h: History<S>, ghost first: nat)
    returns (r: Running<S>, saved: Option<Checkpoint<S>>)
    requires ValidLimits(cfg.limits) && Steady(e, r0, first) && InStep(r0, h)
    requires step < cfg.length && Stands(cfg.length, total, epoch, step)
    modifies e
    ensures Steady(e, r, first) && e.policy == old(e.policy) + 1
    ensures InStep(r, Step(pb, cfg, h, pb.batch(epoch, step)))
    ensures e.facts.rollouts == old(e.facts.rollouts) + 1
    ensures e.facts.trainings == old(e.facts.trainings) + [pb.rollout(h.student, pb.batch(epoch, step))]
    ensures e.facts.last.Some?
    ensures ValidationDue(cfg, epoch, step, total) ==>
              e.facts.last.value.Validation? && e.facts.last.value.weights == e.policy
    ensures !ValidationDue(cfg, epoch, step, total) ==> e.facts.last.value.Trained?
    ensures saved.Some? <==> SavesNow(cfg, deadline, epoch, step, total)
    ensures saved.Some? ==> CountersAt(cfg.length, saved.value, total + 1)
    ensures saved.Some? ==> SavedFrom(r, saved.value)
    ensures Stands(cfg.length, total + 1, epoch, step + 1)
  {
    StandsForBatch(cfg.length, total, epoch, step);
    var rows;
    r, rows := RolloutAndTrain(pb, e, r0, pb.batch(epoch, step), first);
    var isLast := IsLastStep(cfg.length, cfg.limits, epoch, step, total);
    if (cfg.valPeriod > 0 && (total + 1) % cfg.valPeriod == 0) || (cfg.valAtEnd && isLast) {
      r := ValidateNow(e, r, first);
    }
    r := r.(consumed := r.consumed + cfg.promptsPerStep);
    saved := None;
    if cfg.limits.checkpointing && (isLast || PeriodicSave(cfg.limits, total + 1) || deadline(total + 1)) {
      saved := Some(Checkpoint(epoch, step + 1, total + 1, r.consumed, r.tokens, r.student));
    }
  }

  /** Student, totals, trained rows and saves are those of the uncut run after n steps. */
  ghost predicate Follows<S, P>(pb: Problem<S, P>, cfg: Settings, r: Running<S>, trained: seq<seq<Row>>,
                                saves: seq<Save<Checkpoint<S>>>, n0: nat, n: nat)
    requires ValidLimits(cfg.limits)
  {
    && n0 <= n && (n > 0 ==> cfg.length > 0)
    && InStep(r, After(pb, cfg, n)) && After(pb, cfg, n0).trained + trained == After(pb, cfg, n).trained
    && GoodSaves(pb, cfg, saves, n0, n) && Within(cfg.length, cfg.limits, n0, n)
  }

  /** Where a run stands after n steps. */
  ghost predicate Reached<S, P>(pb: Problem<S, P>, cfg: Settings, e: Engines, r: Running<S>, first: nat,
                                saves: seq<Save<Checkpoint<S>>>, n0: nat, n: nat)
    requires ValidLimits(cfg.limits)
    reads e
  {
    && Steady(e, r, first) && Follows(pb, cfg, r, e.facts.trainings, saves, n0, n)
    && e.policy == first + (n - n0) && e.facts.rollouts == n - n0
  }

  ghost predicate Opened(n: nat) {
    true
  }

  /** The same; only proofs that open it see what it says. */
  ghost predicate Progress<S, P>(pb: Problem<S, P>, cfg: Settings, e: Engines, r: Running<S>, first: nat,
                                 saves: seq<Save<Checkpoint<S>>>, n0: nat, total: nat)
    requires ValidLimits(cfg.limits)
    reads e
  {
    forall n: nat {:trigger Opened(n)} :: Opened(n) && n == total ==> Reached(pb, cfg, e, r, first, saves, n0, n)
  }

  lemma SavesFollow<S, P>(pb: Problem<S, P>, cfg: Settings, saves: seq<Save<Checkpoint<S>>>,
                          saved: Option<Checkpoint<S>>, n0: nat, n: nat)
    requires ValidLimits(cfg.limits) && GoodSaves(pb, cfg, saves, n0, n) && n0 <= n
    requires cfg.limits.checkpointing && PeriodicSave(cfg.limits, n + 1) ==> saved.Some?
    requires saved.Some? ==> CheckpointAt(pb, cfg, saved.value, n + 1)
    ensures GoodSaves(pb, cfg, WithSave(saves, saved, n + 1), n0, n + 1)
    ensures saved.Some? ==> LastSaved(WithSave(saves, saved, n + 1), n + 1)
  {
    OneMoreSave(cfg.limits, saves, saved, n0, n);
    var all := WithSave(saves, saved, n + 1);
    forall i | 0 <= i < |all|
      ensures all[i].total >= 0 && CheckpointAt(pb, cfg, all[i].content, all[i].total)
    {
      if i < |saves| {
        assert all[i] == saves[i];
      }
    }
  }

  /** The step at this position is the next one of the uncut run. */
  lemma StepIsNext<S, P>(pb: Problem<S, P>, cfg: Settings, epoch: nat, step: nat, n: nat)
    requires step < cfg.length && Stands(cfg.length, n, epoch, step)
    requires n < cfg.limits.maxSteps && epoch < cfg.limits.maxEpochs
    ensures After(pb, cfg, n + 1) == Step(pb, cfg, After(pb, cfg, n), pb.batch(epoch, step))
    ensures CanTrain(cfg.length, cfg.limits, n)
  {
    StandsForBatch(cfg.length, n, epoch, step);
  }

  lemma StepFollows<S, P>(pb: Problem<S, P>, cfg: Settings, r0: Running<S>, r: Running<S>, trained: seq<seq<Row>>,
                          saves: seq<Save<Checkpoint<S>>>, saved: Option<Checkpoint<S>>, n0: nat, n: nat,
                          epoch: nat, step: nat)
    requires ValidLimits(cfg.limits) && Follows(pb, cfg, r0, trained, saves, n0, n)
    requires n < cfg.limits.maxSteps && epoch < cfg.limits.maxEpochs
    requires step < cfg.length && Stands(cfg.length, n, epoch, step)
    requires InStep(r, Step(pb, cfg, After(pb, cfg, n), pb.batch(epoch, step)))
    requires cfg.limits.checkpointing && PeriodicSave(cfg.limits, n + 1) ==> saved.Some?
    requires saved.Some? ==> CountersAt(cfg.length, saved.value, n + 1) && SavedFrom(r, saved.value)
    ensures var rows := pb.rollout(r0.student, pb.batch(epoch, step));
            Follows(pb, cfg, r, trained + [rows], WithSave(saves, saved, n + 1), n0, n + 1)
    ensures saved.Some? ==> LastSaved(WithSave(saves, saved, n + 1), n + 1)
  {
    StepIsNext(pb, cfg, epoch, step, n);
    var rows, before := pb.rollout(r0.student, pb.batch(epoch, step)), After(pb, cfg, n0).trained;
    assert before + (trained + [rows]) == (before + trained) + [rows];
    SavesFollow(pb, cfg, saves, saved, n0, n);
  }

  /** One pass, with its save appended. */
  method TrainNext<S, P>(pb: Problem<S, P>, cfg: Settings, e: Engines, r0: Running<S>,
                         saves0: seq<Save<Checkpoint<S>>>, deadline: int -> bool,
                               epoch: nat, step: nat, total: nat, ghost first: nat, ghost n0: nat)
    returns (r: Running<S>, saves: seq<Save<Checkpoint<S>>>, early: Option<Ending>)
    requires ValidLimits(cfg.limits) && Progress(pb, cfg, e, r0, first, saves0, n0, total)
    requires total < cfg.limits.maxSteps && epoch < cfg.limits.maxEpochs
    requires step < cfg.length && Stands(cfg.length, total, epoch, step)
    modifies e
    ensures Progress(pb, cfg, e, r, first, saves, n0, total + 1) && Stands(cfg.length, total + 1, epoch, step + 1)
    ensures if early.Some? then Reason(cfg, deadline, early.value, total + 1) else total + 1 < cfg.limits.maxSteps
    ensures cfg.limits.checkpointing && early.Some? ==> LastSaved(saves, total + 1)
    ensures cfg.limits.checkpointing && epoch + 1 == cfg.limits.maxEpochs && step + 1 == cfg.length ==>
              LastSaved(saves, total + 1)
  {
    assert Opened(total);
    ghost var trained := e.facts.trainings;
    var saved;
    r, saved := Pass(pb, cfg, e, r0, deadline, epoch, step, total, After(pb, cfg, total), first);
    StepFollows(pb, cfg, r0, r, trained, saves0, saved, n0, total, epoch, step);
    saves := WithSave(saves0, saved, total + 1);
    early := EarlyEnd(cfg, deadline, total + 1);
  }

  /** The rest of one epoch. Leaves it early at a deadline or at the step limit. */
  method TrainEpoch<S, P>(pb: Problem<S, P>, cfg: Settings, e: Engines, r0: Running<S>,
                          saves0: seq<Save<Checkpoint<S>>>, deadline: int -> bool,
                          epoch: nat, step0: nat, total0: nat, ghost first: nat, ghost n0: nat)
    returns (r: Running<S>, saves: seq<Save<Checkpoint<S>>>, total: nat, early: Option<Ending>)
    requires ValidLimits(cfg.limits) && Progress(pb, cfg, e, r0, first, saves0, n0, total0)
    requires total0 < cfg.limits.maxSteps && epoch < cfg.limits.maxEpochs
    requires step0 <= cfg.length && Stands(cfg.length, total0, epoch, step0)
    modifies e
    ensures Progress(pb, cfg, e, r, first, saves, n0, total) && total0 <= total <= cfg.limits.maxSteps
    ensures early.None? ==>
              total == total0 + (cfg.length - step0) < cfg.limits.maxSteps
                  && Stands(cfg.length, total, epoch, cfg.length)
    ensures cfg.limits.checkpointing && total > total0 && (early.Some? || epoch + 1 == cfg.limits.maxEpochs) ==>
              LastSaved(saves, total)
    ensures early.Some? ==> total > total0 && Reason(cfg, deadline, early.value, total)
  {
    r, saves, total := r0, saves0, total0;
    var step := step0;
    while step < cfg.length
      invariant Progress(pb, cfg, e, r, first, saves, n0, total) && Stands(cfg.length, total, epoch, step)
      invariant total < cfg.limits.maxSteps && step0 <= step <= cfg.length && total - total0 == step - step0
      invariant cfg.limits.checkpointing && step == cfg.length > step0 && epoch + 1 == cfg.limits.maxEpochs ==>
                  LastSaved(saves, total)
      decreases cfg.length - step
    {
      r, saves, early := TrainNext(pb, cfg, e, r, saves, deadline, epoch, step, total, first, n0);
      step, total := step + 1, total + 1;
      if early.Some? {
        return;
      }
    }
    early := None;
  }

  /** The loop over epochs, on the running account of the log. */
  method TrainLoop<S, P>(pb: Problem<S, P>, cfg: Settings, e: Engines, r0: Running<S>, epoch0: nat, step0: nat,
                               n0: nat, deadline: int -> bool, ghost first: nat)
    returns (r: Running<S>, saves: seq<Save<Checkpoint<S>>>, total: nat, exit: Ending)
    requires ValidLimits(cfg.limits) && Stands(cfg.length, n0, epoch0, step0)
    requires Progress(pb, cfg, e, r0, first, [], n0, n0)
    modifies e
    ensures Progress(pb, cfg, e, r, first, saves, n0, total) && total >= n0
    ensures cfg.limits.checkpointing && total > n0 ==> LastSaved(saves, total)
    ensures if exit == DeadlineEnd then total > n0 && deadline(total) else !CanTrain(cfg.length, cfg.limits, total)
  {
    r, saves, total := r0, [], n0;
    var epoch, step := epoch0, step0;
    while total < cfg.limits.maxSteps && epoch < cfg.limits.maxEpochs
      invariant Progress(pb, cfg, e, r, first, saves, n0, total) && total >= n0
      invariant step >= 0 && Stands(cfg.length, total, epoch, step)
      invariant total > n0 ==> step == 0 && epoch <= cfg.limits.maxEpochs && total < cfg.limits.maxSteps
      invariant cfg.limits.checkpointing && total > n0 && epoch == cfg.limits.maxEpochs ==> LastSaved(saves, total)
      decreases cfg.limits.maxEpochs - epoch
    {
      var early;
      r, saves, total, early := TrainEpoch(pb, cfg, e, r, saves, deadline, epoch, step, total, first, n0);
      if early.Some? {
        exit := early.value;
        return;
      }
      StandsForBatch(cfg.length, total, epoch, cfg.length);
      epoch, step := epoch + 1, 0;
    }
    LimitReached(cfg.length, cfg.limits, total, epoch, step);
    exit := EpochsEnd;
  }

  /** A run from a checkpoint, with an engine that may hold any weights. */
  method Train<S, P>(pb: Problem<S, P>, cfg: Settings, e: Engines, engine: S, start: Checkpoint<S>,
                           deadline: int -> bool, ghost n0: nat)
    returns (saves: seq<Save<Checkpoint<S>>>, student: S, total: nat, exit: Ending)
    requires ValidLimits(cfg.limits) && CheckpointAt(pb, cfg, start, n0) && e.log == []
    modifies e
    ensures Sound(e.log, old(e.policy)) && Economical(e.log, true) && Fed(e.log, old(e.policy))
    ensures n0 <= total && e.policy == old(e.policy) + (total - n0) && Rollouts(e.log) == total - n0
    ensures (total > 0 ==> cfg.length > 0) && student == After(pb, cfg, total).student
    ensures After(pb, cfg, n0).trained + Trainings(e.log) == After(pb, cfg, total).trained
    ensures Within(cfg.length, cfg.limits, n0, total) && GoodSaves(pb, cfg, saves, n0, total)
    ensures cfg.limits.checkpointing && total > n0 ==> LastSaved(saves, total)
    ensures if exit == DeadlineEnd then total > n0 && deadline(total) else !CanTrain(cfg.length, cfg.limits, total)
  {
    ghost var first := e.policy;
    e.facts := Fresh(first, true);
    var r := Running(start.student, engine, true, start.consumed, start.tokens);
    if cfg.valAtStart && start.total == 0 {
      r := ValidateNow(e, r, first);
    }
    StartStands(cfg.length, start, n0);
    assert Reached(pb, cfg, e, r, first, [], n0, n0);
    r, saves, total, exit := TrainLoop(pb, cfg, e, r, start.epoch, start.step, start.total, deadline, first);
    student := r.student;
    assert Opened(total) && Asked(e.log);
    SummaryMeans(e.log, first, true);
  }

  // ----- slices -----

  /** One process: the weights its generation engine starts with, None if the
      student generates itself, and when its time is up. */
  datatype Slice<!S> = Slice(engine: Option<S>, deadline: int -> bool)

  ghost predicate Unbounded<S>(slice: Slice<S>) {
    forall n :: !slice.deadline(n)
  }

  /** A new process: a new engine, from the last checkpoint. */
  method TrainSlice<S, P>(pb: Problem<S, P>, cfg: Settings, slice: Slice<S>, start: Checkpoint<S>, n0: nat)
    returns (last: Checkpoint<S>, total: nat, finished: bool, ghost trained: seq<seq<Row>>)
    requires ValidLimits(cfg.limits) && cfg.limits.checkpointing && CheckpointAt(pb, cfg, start, n0)
    ensures CheckpointAt(pb, cfg, last, total)
    ensures After(pb, cfg, n0).trained + trained == After(pb, cfg, total).trained
    ensures n0 <= total && Within(cfg.length, cfg.limits, n0, total)
    ensures if finished then !CanTrain(cfg.length, cfg.limits, total) else total > n0 && slice.deadline(total)
  {
    var engine := if slice.engine.Some? then slice.engine.value else start.student;
    var e := new Engines(slice.engine.None?, n0, 0, None, true);
    var saves, _, reached, exit := Train(pb, cfg, e, engine, start, slice.deadline, n0);
    last, total, finished, trained := start, reached, exit != DeadlineEnd, Trainings(e.log);
    if total > n0 {
      last := saves[|saves| - 1].content;
    }
  }

  /** Distillation in slices: each starts from the last checkpoint of the one before.
      However the run is cut and whatever the engines hold, the student is trained
      on the rows of the uncut run and the last checkpoint is the uncut run's. */
  method TrainInSlices<S, P>(pb: Problem<S, P>, cfg: Settings, slices: seq<Slice<S>>)
    returns (last: Checkpoint<S>, total: nat, finished: bool, ghost trained: seq<seq<Row>>)
    requires ValidLimits(cfg.limits) && cfg.limits.checkpointing
    ensures CheckpointAt(pb, cfg, last, total) && trained == After(pb, cfg, total).trained
    ensures Within(cfg.length, cfg.limits, 0, total)
    ensures finished ==> UncutLength(cfg.length, cfg.limits, total)
    ensures (exists i :: 0 <= i < |slices| && Unbounded(slices[i])) ==> finished
    ensures finished || total >= |slices|
  {
    last, total, finished, trained := Checkpoint(0, 0, 0, 0, 0.0, pb.start), 0, false, [];
    for i := 0 to |slices|
      invariant CheckpointAt(pb, cfg, last, total) && trained == After(pb, cfg, total).trained
      invariant Within(cfg.length, cfg.limits, 0, total)
      invariant finished ==> !CanTrain(cfg.length, cfg.limits, total)
      invariant (exists j :: 0 <= j < i && Unbounded(slices[j])) ==> finished
      invariant finished || total >= i
    {
      if !finished {
        ghost var more;
        last, total, finished, more := TrainSlice(pb, cfg, slices[i], last, total);
        trained := trained + more;
      }
    }
  }

  /** Two finished runs, however cut, have made the same steps and left the same
      student and the same totals. */
  lemma SlicesAgree<S, P>(pb: Problem<S, P>, cfg: Settings, a: nat, b: nat, c: Checkpoint<S>, d: Checkpoint<S>)
    requires UncutLength(cfg.length, cfg.limits, a) && CheckpointAt(pb, cfg, c, a)
    requires UncutLength(cfg.length, cfg.limits, b) && CheckpointAt(pb, cfg, d, b)
    ensures a == b && c == d && After(pb, cfg, a) == After(pb, cfg, b)
  {
  }
}
