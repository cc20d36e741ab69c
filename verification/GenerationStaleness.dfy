/** Which weights and KV scales generate in a GRPO run
    (nemo_rl/algorithms/grpo_sync.py). */
module GenerationStaleness {
  import opened Common
  import opened GenerationLog
  import opened Sequences
  import Sampling = DynamicSampling

  datatype Quota = Quota(size: nat, maxBatches: int)

  /** Without a quota there is no dynamic sampling: each rollout is a batch. */
  datatype Config = Config(maxSteps: int, maxEpochs: Option<int>, loaderLength: nat, manyLoaders: bool,
                           valAtStart: bool, valAtEnd: bool, valPeriod: int, valStartAt: int,
                           syncKvScales: bool, quota: Option<Quota>)

  /** What one pass through the loop body meets: the rows rolled out, the
      validation threshold and the deadline. */
  datatype Iteration = Iteration(rows: seq<Row>, thresholdMet: bool, timeout: bool)

  datatype Exit = EpochsDone | SamplingExhausted | ThresholdMet | TimedOut | StepsDone | DataEnded

  /** The flag a run starts with: lowered only on a fresh run whose synchronizer,
      if there is one, is current. */
  function InitiallyStale(completedSteps: int, synchronizer: Option<bool>): (b: bool) {
    completedSteps > 0 || synchronizer.None? || synchronizer.value
  }

  predicate ValidatesAtStart(cfg: Config, step: int) {
    cfg.valAtStart && step == 0
  }

  /** Whether the first generation gets KV scales of its own version. A refit for
      the validation at the start carries none; later ones are calibrated first. */
  predicate StartsCalibrated(cfg: Config, step: int, initially: bool, policy: nat, scales: Option<nat>) {
    if ValidatesAtStart(cfg, step) then !initially && scales == Some(policy) else initially || scales == Some(policy)
  }

  predicate IsLast(cfg: Config, epoch: int, step: int, total: int) {
    || total + 1 >= cfg.maxSteps
    || (!cfg.manyLoaders && cfg.maxEpochs == Some(epoch + 1) && step + 1 == cfg.loaderLength)
  }

  predicate ValidationDue(cfg: Config, step: int, isLast: bool) {
    (cfg.valPeriod > 0 && step >= cfg.valStartAt && step % cfg.valPeriod == 0) || (cfg.valAtEnd && isLast)
  }

  // ----- generation -----

  /** How a run began: the version, the flag, whether the flag was honest, and
      whether the first generation gets scales of its own version. */
  datatype Start = Start(first: nat, initially: bool, honest: bool, calibrated: bool)

  /** An honest flag stays honest and the log stays sound; after a dishonest one
      the very first generation is wrong. */
  ghost predicate Honest(v: View, stale: bool, honest: bool) {
    if honest then v.facts.sound && (!stale ==> Weights(v) == v.policy)
    else !v.facts.sound || (!stale && Weights(v) != v.policy)
  }

  /** The same for KV scales. */
  ghost predicate Scaled(v: View, stale: bool, calibrated: bool) {
    if calibrated then v.facts.calibrated && (!stale ==> v.scales == Some(v.policy))
    else !v.facts.calibrated || (!stale && v.scales != Some(v.policy))
  }

  /** Where the run stands, with the scales cached for the next refit. */
  ghost predicate Stands(sync: bool, v: View, stale: bool, kv: Option<nat>, g: Start) {
    && v.policy == v.facts.version && stale == v.facts.stale && v.facts.economical && v.facts.fed
    && Honest(v, stale, g.honest) && (sync ==> Scaled(v, stale, g.calibrated))
    && (kv.Some? ==> sync && kv.value == v.policy)
  }

  /** What has been logged so far decides both questions. */
  ghost predicate Decided(sync: bool, f: Facts, g: Start) {
    (f.sound <==> g.honest) && (sync ==> (f.calibrated <==> g.calibrated))
  }

  /** Make the generation engine current before it is used. */
  method PrepareGeneration(cfg: Config, e: Engines, stale0: bool, kv0: Option<nat>, calibrate: bool, ghost g: Start)
    returns (stale: bool, kv: Option<nat>)
    requires e.Valid(g.first, g.initially) && Stands(cfg.syncKvScales, e.Now(), stale0, kv0, g)
    requires cfg.syncKvScales && stale0 && !calibrate ==> kv0.Some?
    modifies e
    ensures e.Valid(g.first, g.initially) && Stands(cfg.syncKvScales, e.Now(), stale, kv, g) && !stale
    ensures e.Now() == if stale0 then AfterRefit(old(e.Now()), kv) else old(e.Now())
    ensures Weights(e.Now()) == e.policy || !g.honest
    ensures cfg.syncKvScales && g.calibrated ==> e.scales == Some(e.policy)
  {
    stale, kv := stale0, kv0;
    if stale {
      if calibrate && cfg.syncKvScales && kv.None? {
        var scales := e.Calibrate();
        kv := Some(scales);
      }
      e.DoRefit(if cfg.syncKvScales then kv else None, g.first, g.initially);
      stale := false;
    }
  }

  /** The validation before the loop. Its refit carries no scales. */
  method StartValidation(cfg: Config, e: Engines, stale0: bool, ghost g: Start) returns (stale: bool)
    requires e.Valid(g.first, g.initially) && e.facts == Fresh(e.policy, stale0)
    requires g.honest == (stale0 || Weights(e.Now()) == e.policy)
    requires g.calibrated == (!stale0 && e.scales == Some(e.policy))
    modifies e
    ensures e.Valid(g.first, g.initially) && Stands(cfg.syncKvScales, e.Now(), stale, None, g) && !stale
    ensures Decided(cfg.syncKvScales, e.facts, g) && e.policy == old(e.policy)
    ensures e.facts.last.Some? && e.facts.last.value.Validation? && e.facts.rollouts == 0 && e.facts.trainings == []
  {
    stale := stale0;
    if stale {
      e.DoRefit(None, g.first, g.initially);
      stale := false;
    }
    e.DoValidation(g.first, g.initially);
  }

  /** Refit if need be, then roll out. */
  method Generate(cfg: Config, e: Engines, stale0: bool, kv0: Option<nat>, rows: seq<Row>, ghost g: Start)
    returns (kv: Option<nat>)
    requires e.Valid(g.first, g.initially) && Stands(cfg.syncKvScales, e.Now(), stale0, kv0, g)
    modifies e
    ensures e.Valid(g.first, g.initially) && Stands(cfg.syncKvScales, e.Now(), false, kv, g)
    ensures Decided(cfg.syncKvScales, e.facts, g) && e.policy == old(e.policy)
    ensures e.facts.last.Some? && e.facts.last.value.Rollout?
    ensures e.facts.current == old(e.facts.current) + (set x | x in rows)
    ensures e.facts.rollouts == old(e.facts.rollouts) + 1 && e.facts.trainings == old(e.facts.trainings)
  {
    var stale;
    stale, kv := PrepareGeneration(cfg, e, stale0, kv0, true, g);
    e.DoRollout(rows, g.first, g.initially);
  }

  /** The training part of the body: the flag goes up before the update, and the
      scales are recalibrated right after it. */
  method TrainStep(cfg: Config, e: Engines, kv0: Option<nat>, ids: seq<int>, ghost batch: seq<Row>, ghost g: Start)
    returns (kv: Option<nat>)
    requires e.Valid(g.first, g.initially) && Stands(cfg.syncKvScales, e.Now(), false, kv0, g)
    requires Decided(cfg.syncKvScales, e.facts, g) && ids == Sampling.Ids(batch)
    requires e.facts.last.Some? && e.facts.last.value.Rollout? && forall x :: x in batch ==> x in e.facts.current
    modifies e
    ensures e.Valid(g.first, g.initially) && Stands(cfg.syncKvScales, e.Now(), true, kv, g)
    ensures Decided(cfg.syncKvScales, e.facts, g) && (cfg.syncKvScales ==> kv.Some?)
    ensures e.policy == old(e.policy) + 1 && e.facts == Add(old(e.facts), Trained(batch))
  {
    e.DoTrain(ids, batch, g.first, g.initially);
    kv := None;
    if cfg.syncKvScales {
      var scales := e.Calibrate();
      kv := Some(scales);
    }
  }

  /** The validation of a step, if one is due. */
  method ValidateStep(cfg: Config, e: Engines, stale0: bool, kv0: Option<nat>, due: bool, ghost g: Start)
    returns (stale: bool, kv: Option<nat>)
    requires e.Valid(g.first, g.initially) && Stands(cfg.syncKvScales, e.Now(), stale0, kv0, g)
    requires Decided(cfg.syncKvScales, e.facts, g) && (cfg.syncKvScales ==> kv0.Some?)
    modifies e
    ensures e.Valid(g.first, g.initially) && Stands(cfg.syncKvScales, e.Now(), stale, kv, g)
    ensures Decided(cfg.syncKvScales, e.facts, g) && e.policy == old(e.policy)
    ensures e.facts.rollouts == old(e.facts.rollouts) && e.facts.trainings == old(e.facts.trainings)
    ensures e.facts.current == old(e.facts.current)
    ensures if due then e.facts.last.Some? && e.facts.last.value.Validation? else e.facts == old(e.facts)
  {
    stale, kv := stale0, kv0;
    if due {
      stale, kv := PrepareGeneration(cfg, e, stale, kv, false, g);
      e.DoValidation(g.first, g.initially);
    }
  }

  // ----- sampling -----

  /** What one more rollout makes of an epoch's sampling. */
  function Feed(quota: Option<Quota>, ep: Sampling.Epoch, rows: seq<Row>): (r: Sampling.Epoch) {
    if quota.Some? then Sampling.Extend(ep, rows, quota.value.size, quota.value.maxBatches)
    else ep.(trained := ep.trained + [rows])
  }

  /** The sampling of an epoch over these rollouts. */
  function EpochOf(quota: Option<Quota>, rollouts: seq<seq<Row>>): (r: Sampling.Epoch) {
    if quota.Some? then Sampling.Run(rollouts, quota.value.size, quota.value.maxBatches)
    else Sampling.Epoch(Sampling.Start, rollouts, false)
  }

  function RowsOf(its: seq<Iteration>): (r: seq<seq<Row>>)
    ensures |r| == |its|
    ensures forall i :: 0 <= i < |its| ==> r[i] == its[i].rows
  {
    seq(|its|, i requires 0 <= i < |its| => its[i].rows)
  }

  /** After the first n of them. */
  function SampledBy(quota: Option<Quota>, its: seq<Iteration>, n: nat): (r: Sampling.Epoch)
    requires n <= |its|
  {
    EpochOf(quota, RowsOf(its)[..n])
  }

  lemma EpochStart(quota: Option<Quota>, its: seq<Iteration>)
    ensures SampledBy(quota, its, 0) == Sampling.Epoch(Sampling.Start, [], false)
  {
    assert RowsOf(its)[..0] == [];
  }

  lemma EpochNext(quota: Option<Quota>, its: seq<Iteration>, n: nat)
    requires n < |its| && !SampledBy(quota, its, n).failed
    ensures SampledBy(quota, its, n + 1) == Feed(quota, SampledBy(quota, its, n), its[n].rows)
  {
    var rollouts := RowsOf(its);
    if quota.Some? {
      Sampling.RunNext(rollouts, n, quota.value.size, quota.value.maxBatches);
    } else {
      assert rollouts[..n + 1] == rollouts[..n] + [rollouts[n]];
    }
  }

  ghost predicate Within(a: seq<Row>, b: seq<Row>) {
    forall x :: x in a ==> x in b
  }

  lemma {:induction false} SelectWithin(samples: seq<Row>, trivial: bool)
    ensures Within(Sampling.Select(samples, trivial), samples)
  {
    if samples != [] {
      SelectWithin(samples[1..], trivial);
    }
  }

  /** The sampler holds the epoch's state. Without a quota it stays empty. */
  ghost predicate Holds(quota: Option<Quota>, sampler: Sampling.Sampler, iterations: nat, ep: Sampling.Epoch)
    reads sampler
  {
    && sampler.Valid() && ep.state == sampler.View(iterations)
    && (quota.None? ==> ep.state.pending == [])
  }

  /** Pass the rows through the sampler. A complete batch is cut from the rows that
      were waiting and the new ones. */
  method Sample(quota: Option<Quota>, sampler: Sampling.Sampler, rows: seq<Row>, iterations0: nat,
                ghost ep: Sampling.Epoch)
    returns (outcome: Sampling.Outcome, ids: seq<int>, iterations: nat, ghost batch: seq<Row>)
    requires Holds(quota, sampler, iterations0, ep) && !ep.failed
    modifies sampler
    ensures var after := Feed(quota, ep, rows);
            && Holds(quota, sampler, iterations, after) && (after.failed <==> outcome.Failed?)
            && after.trained == ep.trained + (if outcome.Complete? then [batch] else [])
            && Within(after.state.pending, ep.state.pending + rows)
            && (outcome.Complete? ==> after.state.pending == [])
    ensures outcome.Complete? ==> ids == Sampling.Ids(batch) && Within(batch, ep.state.pending + rows)
  {
    batch, ids, iterations := rows, [], iterations0;
    if quota.None? {
      return Sampling.Complete, seq(|rows|, i requires 0 <= i < |rows| => rows[i].id), iterations0, rows;
    }
    SelectWithin(rows, false);
    var Quota(size, maxBatches) := quota.value;
    ghost var all := ep.state.pending + Sampling.NonTrivial(rows);
    assert Within(all, ep.state.pending + rows);
    iterations := iterations + 1;
    var forLog, carry;
    outcome, forLog := sampler.Apply(rows, size, iterations, maxBatches);
    if outcome.Complete? {
      batch := sampler.kept;
      assert batch == all[..size];
      ids, carry := sampler.Take();
      iterations := 0;
    }
  }

  // ----- the loop -----

  /** Train on a batch, then validate if that is due. */
  method Learn(cfg: Config, e: Engines, kv0: Option<nat>, ids: seq<int>, ghost batch: seq<Row>, due: bool,
               ghost g: Start)
    returns (stale: bool, kv: Option<nat>)
    requires e.Valid(g.first, g.initially) && Stands(cfg.syncKvScales, e.Now(), false, kv0, g)
    requires Decided(cfg.syncKvScales, e.facts, g) && ids == Sampling.Ids(batch)
    requires e.facts.last.Some? && e.facts.last.value.Rollout? && forall x :: x in batch ==> x in e.facts.current
    modifies e
    ensures e.Valid(g.first, g.initially) && Stands(cfg.syncKvScales, e.Now(), stale, kv, g)
    ensures Decided(cfg.syncKvScales, e.facts, g) && e.policy == old(e.policy) + 1
    ensures e.facts.trainings == old(e.facts.trainings) + [batch] && e.facts.rollouts == old(e.facts.rollouts)
    ensures e.facts.last.Some? && (if due then e.facts.last.value.Validation? else e.facts.last.value.Trained?)
  {
    kv := TrainStep(cfg, e, kv0, ids, batch, g);
    stale, kv := ValidateStep(cfg, e, true, kv, due, g);
  }

  /** One pass through the loop body. */
  method Pass(cfg: Config, e: Engines, sampler: Sampling.Sampler, stale0: bool, kv0: Option<nat>, it: Iteration,
              iterations0: nat, epoch: int, step: int, total: int, ghost ep: Sampling.Epoch, ghost g: Start)
    returns (stale: bool, kv: Option<nat>, iterations: nat, trained: bool, exit: Option<Exit>)
    requires e.Valid(g.first, g.initially) && Stands(cfg.syncKvScales, e.Now(), stale0, kv0, g)
    requires Holds(cfg.quota, sampler, iterations0, ep) && !ep.failed
    requires forall x :: x in ep.state.pending ==> x in e.facts.current
    modifies e, sampler
    ensures e.Valid(g.first, g.initially) && Stands(cfg.syncKvScales, e.Now(), stale, kv, g)
    ensures Decided(cfg.syncKvScales, e.facts, g) && e.facts.last.Some?
    ensures var after := Feed(cfg.quota, ep, it.rows);
            && Holds(cfg.quota, sampler, iterations, after)
            && (forall x :: x in after.state.pending ==> x in e.facts.current)
            && ep.trained <= after.trained && (trained <==> |after.trained| > |ep.trained|)
            && e.facts.trainings == old(e.facts.trainings) + after.trained[|ep.trained|..]
            && (after.failed <==> exit == Some(SamplingExhausted))
    ensures e.policy == old(e.policy) + (if trained then 1 else 0) && e.facts.rollouts == old(e.facts.rollouts) + 1
    ensures trained && ValidationDue(cfg, total + 1, IsLast(cfg, epoch, step, total)) ==> e.facts.last.value.Validation?
    ensures trained && total + 1 >= cfg.maxSteps ==> exit.Some?
    ensures !trained ==> (exit.Some? <==> exit == Some(SamplingExhausted))
  {
    kv := Generate(cfg, e, stale0, kv0, it.rows, g);
    var outcome, ids;
    ghost var batch;
    outcome, ids, iterations, batch := Sample(cfg.quota, sampler, it.rows, iterations0, ep);
    stale, trained := false, outcome.Complete?;
    if !trained {
      exit := if outcome.Failed? then Some(SamplingExhausted) else None;
      return;
    }
    var due := ValidationDue(cfg, total + 1, IsLast(cfg, epoch, step, total));
    stale, kv := Learn(cfg, e, kv, ids, batch, due, g);
    exit := if due && it.thresholdMet then Some(ThresholdMet)
            else if it.timeout then Some(TimedOut)
            else if total + 1 >= cfg.maxSteps then Some(StepsDone)
            else None;
  }

  /** The batches trained on in the first d epochs and b passes of the next. */
  function TrainedBy(quota: Option<Quota>, data: seq<seq<Iteration>>, d: nat, b: nat): (r: seq<seq<Row>>)
    requires d <= |data| && b <= (if d < |data| then |data[d]| else 0)
  {
    EpochsBefore(quota, data, d) + if d < |data| then SampledBy(quota, data[d], b).trained else []
  }

  function EpochsBefore(quota: Option<Quota>, data: seq<seq<Iteration>>, d: nat): (r: seq<seq<Row>>)
    requires d <= |data|
  {
    if d == 0 then [] else EpochsBefore(quota, data, d - 1) + EpochOf(quota, RowsOf(data[d - 1])).trained
  }

  /** The loop stands where the epoch's sampling stands, and every row that waits
      for training was rolled out by the current version. */
  ghost predicate Going(cfg: Config, e: Engines, sampler: Sampling.Sampler, stale: bool, kv: Option<nat>,
                        iterations: nat, ep: Sampling.Epoch, g: Start)
    reads e, sampler
  {
    && e.Valid(g.first, g.initially) && Stands(cfg.syncKvScales, e.Now(), stale, kv, g)
    && Holds(cfg.quota, sampler, iterations, ep) && forall x :: x in ep.state.pending ==> x in e.facts.current
  }

  /** What an epoch has added to the account it started with, after b passes. */
  ghost predicate Added(cfg: Config, was: View, now: View, ep: Sampling.Epoch, b: nat, steps: int, g: Start) {
    && now.facts.trainings == was.facts.trainings + ep.trained && now.facts.rollouts == was.facts.rollouts + b
    && now.policy == was.policy + steps
    && if b > 0 then now.facts.last.Some? && Decided(cfg.syncKvScales, now.facts, g) else now.facts == was.facts
  }

  /** The states of an epoch's sampling, one pass after the other. */
  ghost predicate Chain(quota: Option<Quota>, its: seq<Iteration>, sampled: nat -> Sampling.Epoch) {
    && sampled(0) == Sampling.Epoch(Sampling.Start, [], false)
    && forall n: nat {:trigger its[n]} ::
         n < |its| && !sampled(n).failed ==> sampled(n + 1) == Feed(quota, sampled(n), its[n].rows)
  }

  ghost function States(quota: Option<Quota>, its: seq<Iteration>): (sampled: nat -> Sampling.Epoch)
    ensures forall n: nat :: n <= |its| ==> sampled(n) == SampledBy(quota, its, n)
  {
    (n: nat) => if n <= |its| then SampledBy(quota, its, n) else Sampling.Epoch(Sampling.Start, [], false)
  }

  lemma StatesChain(quota: Option<Quota>, its: seq<Iteration>)
    ensures Chain(quota, its, States(quota, its))
  {
    EpochStart(quota, its);
    forall n: nat | n < |its| && !SampledBy(quota, its, n).failed
      ensures SampledBy(quota, its, n + 1) == Feed(quota, SampledBy(quota, its, n), its[n].rows)
    {
      EpochNext(quota, its, n);
    }
  }

  /** Pass b of an epoch. */
  method PassOn(cfg: Config, e: Engines, sampler: Sampling.Sampler, stale0: bool, kv0: Option<nat>,
                its: seq<Iteration>, b: nat, iterations0: nat, epoch: int, step: int, total: int,
                ghost sampled: nat -> Sampling.Epoch, ghost was: View, ghost steps: int, ghost g: Start)
    returns (stale: bool, kv: Option<nat>, iterations: nat, trained: bool, exit: Option<Exit>)
    requires b < |its| && Chain(cfg.quota, its, sampled) && !sampled(b).failed
    requires Going(cfg, e, sampler, stale0, kv0, iterations0, sampled(b), g)
    requires Added(cfg, was, e.Now(), sampled(b), b, steps, g)
    modifies e, sampler
    ensures Going(cfg, e, sampler, stale, kv, iterations, sampled(b + 1), g)
    ensures Added(cfg, was, e.Now(), sampled(b + 1), b + 1, steps + (if trained then 1 else 0), g)
    ensures sampled(b + 1).failed ==> exit.Some?
    ensures trained && total + 1 >= cfg.maxSteps ==> exit.Some?
  {
    ghost var ep0, ep := sampled(b), sampled(b + 1);
    assert ep == Feed(cfg.quota, ep0, its[b].rows);
    stale, kv, iterations, trained, exit :=
      Pass(cfg, e, sampler, stale0, kv0, its[b], iterations0, epoch, step, total, ep0, g);
    assert ep.trained == ep0.trained + ep.trained[|ep0.trained|..];
  }

  /** One epoch. The sampler starts over; b passes are made. */
  method TrainEpoch(cfg: Config, e: Engines, its: seq<Iteration>, stale0: bool, kv0: Option<nat>,
                    epoch: int, step0: int, total0: int, ghost sampled: nat -> Sampling.Epoch, ghost g: Start)
    returns (stale: bool, kv: Option<nat>, total: int, b: nat, exit: Option<Exit>)
    requires e.Valid(g.first, g.initially) && Stands(cfg.syncKvScales, e.Now(), stale0, kv0, g)
    requires total0 < cfg.maxSteps && Chain(cfg.quota, its, sampled)
    modifies e
    ensures e.Valid(g.first, g.initially) && Stands(cfg.syncKvScales, e.Now(), stale, kv, g)
    ensures b <= |its| && Added(cfg, old(e.Now()), e.Now(), sampled(b), b, total - total0, g)
    ensures total0 <= total <= cfg.maxSteps
    ensures exit.None? ==> b == |its| && total < cfg.maxSteps
  {
    var sampler := new Sampling.Sampler();
    var iterations, step := 0, step0;
    stale, kv, total, b, exit := stale0, kv0, total0, 0, None;
    while b < |its|
      invariant fresh(sampler) && b <= |its| && total0 <= total < cfg.maxSteps
      invariant !sampled(b).failed
      invariant Going(cfg, e, sampler, stale, kv, iterations, sampled(b), g)
      invariant Added(cfg, old(e.Now()), e.Now(), sampled(b), b, total - total0, g)
      decreases |its| - b
    {
      var trained;
      stale, kv, iterations, trained, exit :=
        PassOn(cfg, e, sampler, stale, kv, its, b, iterations, epoch, step, total,
               sampled, old(e.Now()), total - total0, g);
      b := b + 1;
      if trained {
        step, total := step + 1, total + 1;
      }
      if exit.Some? {
        return;
      }
    }
  }

  /** A whole epoch, and no pass of the next. */
  lemma EpochDone(quota: Option<Quota>, data: seq<seq<Iteration>>, d: nat)
    requires d <= |data|
    ensures d < |data| ==> TrainedBy(quota, data, d, |data[d]|) == EpochsBefore(quota, data, d + 1)
    ensures TrainedBy(quota, data, d, 0) == EpochsBefore(quota, data, d)
  {
    if d < |data| {
      assert RowsOf(data[d])[..|data[d]|] == RowsOf(data[d]);
      assert RowsOf(data[d])[..0] == [];
    }
  }

  /** The loop over epochs, on the running account of the log. */
  method TrainLoop(cfg: Config, e: Engines, stale0: bool, epoch0: int, step0: int, total0: int,
                   data: seq<seq<Iteration>>, ghost g: Start)
    returns (exit: Exit, total: int, passes: nat, ghost d: nat, ghost b: nat)
    requires e.Valid(g.first, g.initially) && Stands(cfg.syncKvScales, e.Now(), stale0, None, g)
    requires e.facts.last.Some? ==> Decided(cfg.syncKvScales, e.facts, g)
    requires e.facts.trainings == [] && e.facts.rollouts == 0
    modifies e
    ensures e.Valid(g.first, g.initially) && e.facts.economical && e.facts.fed
    ensures e.facts.last.Some? ==> Decided(cfg.syncKvScales, e.facts, g)
    ensures old(e.facts.last.Some?) ==> e.facts.last.Some?
    ensures d <= |data| && b <= (if d < |data| then |data[d]| else 0)
    ensures e.facts.trainings == TrainedBy(cfg.quota, data, d, b) && e.facts.rollouts == passes
    ensures e.policy == old(e.policy) + (total - total0) && (total > total0 ==> total <= cfg.maxSteps)
  {
    var stale, kv: Option<nat> := stale0, None;
    var epoch, step := epoch0, step0;
    total, passes, d, b := total0, 0, 0, 0;
    var n := 0;
    while n < |data| && (cfg.maxEpochs.None? || epoch < cfg.maxEpochs.value) && total < cfg.maxSteps
      invariant 0 <= n <= |data|
      invariant e.Valid(g.first, g.initially) && Stands(cfg.syncKvScales, e.Now(), stale, kv, g)
      invariant e.facts.last.Some? ==> Decided(cfg.syncKvScales, e.facts, g)
      invariant old(e.facts.last.Some?) ==> e.facts.last.Some?
      invariant e.facts.trainings == EpochsBefore(cfg.quota, data, n) && e.facts.rollouts == passes
      invariant e.policy == old(e.policy) + (total - total0) && (total > total0 ==> total <= cfg.maxSteps)
      decreases |data| - n
    {
      var stop, made;
      StatesChain(cfg.quota, data[n]);
      stale, kv, total, made, stop :=
        TrainEpoch(cfg, e, data[n], stale, kv, epoch, step, total, States(cfg.quota, data[n]), g);
      passes := passes + made;
      if stop.Some? {
        return stop.value, total, passes, n, made;
      }
      EpochDone(cfg.quota, data, n);
      n, epoch, step := n + 1, epoch + 1, 0;
    }
    d := n;
    EpochDone(cfg.quota, data, n);
    exit := if n == |data| then DataEnded else EpochsDone;
  }

  /** The training run over the batches `data` yields, epoch by epoch. */
  method Train(cfg: Config, e: Engines, synchronizer: Option<bool>, epoch0: int, step0: int, total0: int,
               data: seq<seq<Iteration>>, startStops: bool)
    returns (exit: Exit, total: int, passes: nat, ghost d: nat, ghost b: nat)
    requires e.log == []
    modifies e
    ensures var initially := InitiallyStale(total0, synchronizer);
            && (Sound(e.log, old(e.policy)) <==> initially || old(Weights(e.Now()) == e.policy) || e.log == [])
            && (cfg.syncKvScales ==>
                  (Calibrated(e.log, old(e.policy)) <==>
                     StartsCalibrated(cfg, step0, initially, old(e.policy), old(e.scales)) || e.log == []))
            && Economical(e.log, initially)
    ensures Fed(e.log, old(e.policy)) && Rollouts(e.log) == passes
    ensures d <= |data| && b <= (if d < |data| then |data[d]| else 0)
    ensures Trainings(e.log) == TrainedBy(cfg.quota, data, d, b)
    ensures e.policy == old(e.policy) + (total - total0) && (total > total0 ==> total <= cfg.maxSteps)
    ensures ValidatesAtStart(cfg, step0) ==> e.log != []
  {
    var stale := InitiallyStale(total0, synchronizer);
    ghost var g := Start(e.policy, stale, stale || Weights(e.Now()) == e.policy,
                         StartsCalibrated(cfg, step0, stale, e.policy, e.scales));
    e.facts := Fresh(e.policy, stale);
    if ValidatesAtStart(cfg, step0) {
      stale := StartValidation(cfg, e, stale, g);
      if startStops {
        assert Asked(e.log);
        SummaryMeans(e.log, g.first, g.initially);
        EpochDone(cfg.quota, data, 0);
        return ThresholdMet, total0, 0, 0, 0;
      }
    }
    exit, total, passes, d, b := TrainLoop(cfg, e, stale, epoch0, step0, total0, data, g);
    assert Asked(e.log);
    SummaryMeans(e.log, g.first, g.initially);
  }

  /** A run that starts with the flag raised generates with current weights
      throughout, and with KV scales of its version throughout unless it validates
      at the start: that refit carries no scales. */
  method StartValidationIsUncalibrated(cfg: Config, e: Engines, synchronizer: Option<bool>, epoch0: int, step0: int,
                                       total0: int, data: seq<seq<Iteration>>, startStops: bool)
    returns (exit: Exit, total: int, passes: nat)
    requires e.log == [] && cfg.syncKvScales && InitiallyStale(total0, synchronizer)
    modifies e
    ensures Sound(e.log, old(e.policy))
    ensures cfg.valAtStart && step0 == 0 ==> e.log != [] && !Calibrated(e.log, old(e.policy))
    ensures !(cfg.valAtStart && step0 == 0) ==> Calibrated(e.log, old(e.policy))
  {
    ghost var d, b;
    exit, total, passes, d, b := Train(cfg, e, synchronizer, epoch0, step0, total0, data, startStops);
  }

  /** Every batch consists of whole prompt groups of one of the epochs. */
  ghost predicate WholeInEpochs(trained: seq<seq<Row>>, groups: seq<seq<seq<seq<Row>>>>, g: nat, prompts: nat) {
    forall i :: 0 <= i < |trained| ==> WholeInSome(trained[i], groups, g, prompts)
  }

  ghost predicate WholeInSome(batch: seq<Row>, groups: seq<seq<seq<seq<Row>>>>, g: nat, prompts: nat) {
    exists k :: 0 <= k < |groups| && Sampling.WholeGroups(batch, Flat(groups[k]), g, prompts)
  }

  lemma EpochIsWhole(its: seq<Iteration>, groups: seq<seq<seq<Row>>>, b: nat, g: nat, prompts: nat, maxBatches: int)
    requires Sampling.Grouped(RowsOf(its), groups, g) && g > 0 && b <= |its|
    ensures Sampling.AllWhole(SampledBy(Some(Quota(prompts * g, maxBatches)), its, b).trained, Flat(groups), g, prompts)
  {
    Sampling.TrainsOnWholeGroups(RowsOf(its)[..b], groups[..b], g, prompts, maxBatches);
    assert groups == groups[..b] + groups[b..];
    FlatAppend(groups[..b], groups[b..]);
    var trained := SampledBy(Some(Quota(prompts * g, maxBatches)), its, b).trained;
    Sampling.AllMoreGroups(trained, Flat(groups[..b]), Flat(groups[b..]), g, prompts);
  }

  /** With room for `prompts` groups of g generations, a run trains on whole
      groups only. */
  lemma {:induction false} RunTrainsOnWholeGroups(data: seq<seq<Iteration>>, groups: seq<seq<seq<seq<Row>>>>,
                                                  d: nat, b: nat, g: nat, prompts: nat, maxBatches: int)
    requires |groups| == |data| && g > 0
    requires forall k :: 0 <= k < |data| ==> Sampling.Grouped(RowsOf(data[k]), groups[k], g)
    requires d <= |data| && b <= (if d < |data| then |data[d]| else 0)
    ensures WholeInEpochs(TrainedBy(Some(Quota(prompts * g, maxBatches)), data, d, b), groups, g, prompts)
    decreases d, b
  {
    var quota := Some(Quota(prompts * g, maxBatches));
    if d > 0 {
      RunTrainsOnWholeGroups(data, groups, d - 1, |data[d - 1]|, g, prompts, maxBatches);
      EpochDone(quota, data, d - 1);
    }
    if d < |data| {
      EpochIsWhole(data[d], groups[d], b, g, prompts, maxBatches);
    }
  }
}
