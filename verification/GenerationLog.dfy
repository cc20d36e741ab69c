/** What happened to the policy and the generation engine during a run, and
    what such a log should look like. */
module GenerationLog {
  import opened Common
  import Sampling = DynamicSampling

  // A policy version is the number of optimizer steps behind it. KV scales are
  // known by the version they were calibrated on; None stands for the default 1.0
  // that a refit without scales writes
  // (nemo_rl/models/policy/workers/megatron_policy_worker.py:3790-3799).

  type Row = Sampling.Sample

  datatype Event =
    | Trained(rows: seq<Row>)
    | Refit(kvScales: Option<nat>)
    | Rollout(weights: nat, scales: Option<nat>, rows: seq<Row>)
    | Validation(weights: nat, scales: Option<nat>)

  predicate Generates(e: Event) {
    e.Rollout? || e.Validation?
  }

  // ----- what a log should look like -----

  /** The policy version after these events. */
  function Version(log: seq<Event>, first: nat): (v: nat) {
    if log == [] then first else Version(log[..|log| - 1], first) + (if log[|log| - 1].Trained? then 1 else 0)
  }

  /** Generation uses the current version, and scales passed belong to it. */
  predicate SoundEvent(e: Event, v: nat) {
    match e
    case Trained(_) => true
    case Refit(kv) => kv.Some? ==> kv.value == v
    case Rollout(w, _, _) => w == v
    case Validation(w, _) => w == v
  }

  ghost predicate Sound(log: seq<Event>, first: nat) {
    forall i :: 0 <= i < |log| ==> SoundEvent(log[i], Version(log[..i], first))
  }

  /** Generation uses KV scales calibrated on the current version. */
  predicate CalibratedEvent(e: Event, v: nat) {
    Generates(e) ==> e.scales == Some(v)
  }

  ghost predicate Calibrated(log: seq<Event>, first: nat) {
    forall i :: 0 <= i < |log| ==> CalibratedEvent(log[i], Version(log[..i], first))
  }

  /** Whether the generation weights lag behind after these events. */
  function Stale(log: seq<Event>, initially: bool): (b: bool) {
    if log == [] then initially
    else
      match log[|log| - 1]
      case Trained(_) => true
      case Refit(_) => false
      case _ => Stale(log[..|log| - 1], initially)
  }

  /** No refit repeats another without a training step in between. */
  ghost predicate Economical(log: seq<Event>, initially: bool) {
    forall i :: 0 <= i < |log| ==> (log[i].Refit? ==> Stale(log[..i], initially))
  }

  /** The row was rolled out while the policy had its present version. */
  ghost predicate RolledOut(log: seq<Event>, x: Row, first: nat) {
    exists j :: 0 <= j < |log| && log[j].Rollout? && x in log[j].rows && Version(log[..j], first) == Version(log, first)
  }

  /** A training step directly follows a rollout, and every row it trains on was
      rolled out by the very version it updates. */
  ghost predicate FedEvent(log: seq<Event>, e: Event, first: nat) {
    e.Trained? ==> log != [] && log[|log| - 1].Rollout? && forall x :: x in e.rows ==> RolledOut(log, x, first)
  }

  ghost predicate Fed(log: seq<Event>, first: nat) {
    forall i :: 0 <= i < |log| ==> FedEvent(log[..i], log[i], first)
  }

  function Rollouts(log: seq<Event>): (n: nat) {
    if log == [] then 0 else Rollouts(log[..|log| - 1]) + (if log[|log| - 1].Rollout? then 1 else 0)
  }

  /** The batches trained on, in order. */
  function Trainings(log: seq<Event>): (batches: seq<seq<Row>>) {
    if log == [] then []
    else Trainings(log[..|log| - 1]) + (if log[|log| - 1].Trained? then [log[|log| - 1].rows] else [])
  }

  /** In a sound run every row of a trained batch was generated with the weights
      that the training step updates. */
  lemma TrainedByOwnVersion(log: seq<Event>, first: nat, i: nat, x: Row) returns (j: nat)
    requires Sound(log, first) && Fed(log, first)
    requires i < |log| && log[i].Trained? && x in log[i].rows
    ensures j < i && log[j].Rollout? && x in log[j].rows && log[j].weights == Version(log[..i], first)
  {
    var before := log[..i];
    assert FedEvent(before, log[i], first);
    assert RolledOut(before, x, first);
    j :| 0 <= j < |before| && before[j].Rollout? && x in before[j].rows
        && Version(before[..j], first) == Version(before, first);
    assert before[..j] == log[..j];
    assert SoundEvent(log[j], Version(log[..j], first));
  }

  // ----- the same, event by event -----

  /** A running account of a log. `current` holds the rows rolled out since the
      last training step. */
  datatype Facts = Facts(version: nat, stale: bool, sound: bool, calibrated: bool, economical: bool, fed: bool,
                         rollouts: nat, trainings: seq<seq<Row>>, current: set<Row>, last: Option<Event>)

  function Fresh(first: nat, initially: bool): (f: Facts) {
    Facts(first, initially, true, true, true, true, 0, [], {}, None)
  }

  function Add(f: Facts, e: Event): (r: Facts) {
    Facts(f.version + (if e.Trained? then 1 else 0),
          e.Trained? || (!e.Refit? && f.stale),
          f.sound && SoundEvent(e, f.version),
          f.calibrated && CalibratedEvent(e, f.version),
          f.economical && (e.Refit? ==> f.stale),
          f.fed && (e.Trained? ==> f.last.Some? && f.last.value.Rollout? && forall x :: x in e.rows ==> x in f.current),
          f.rollouts + (if e.Rollout? then 1 else 0),
          f.trainings + (if e.Trained? then [e.rows] else []),
          if e.Trained? then {} else if e.Rollout? then f.current + (set x | x in e.rows) else f.current,
          Some(e))
  }

  function Summary(log: seq<Event>, first: nat, initially: bool): (f: Facts) {
    if log == [] then Fresh(first, initially) else Add(Summary(log[..|log| - 1], first, initially), log[|log| - 1])
  }

  lemma SummarySnoc(log: seq<Event>, e: Event, first: nat, initially: bool)
    ensures Summary(log + [e], first, initially) == Add(Summary(log, first, initially), e)
  {
    assert (log + [e])[..|log|] == log;
  }

  lemma {:induction false} VersionGrows(log: seq<Event>, j: nat, first: nat)
    requires j <= |log|
    ensures Version(log[..j], first) <= Version(log, first)
  {
    if j == |log| {
      assert log[..j] == log;
    } else {
      VersionGrows(log[..|log| - 1], j, first);
      assert log[..|log| - 1][..j] == log[..j];
    }
  }

  lemma {:induction false} CountsMean(log: seq<Event>, first: nat, initially: bool)
    ensures var f := Summary(log, first, initially);
            && f.version == Version(log, first) && f.stale == Stale(log, initially)
            && f.rollouts == Rollouts(log) && f.trainings == Trainings(log)
            && f.last == (if log == [] then None else Some(log[|log| - 1]))
  {
    if log != [] {
      CountsMean(log[..|log| - 1], first, initially);
    }
  }

  /** Prefixes of a log and of the log before its last event. */
  lemma Prefixes(log: seq<Event>)
    requires log != []
    ensures var init := log[..|log| - 1];
            forall i :: 0 <= i < |init| ==> init[i] == log[i] && init[..i] == log[..i]
  {
  }

  lemma {:induction false} SoundMeans(log: seq<Event>, first: nat, initially: bool)
    ensures Summary(log, first, initially).sound <==> Sound(log, first)
  {
    if log != [] {
      var init := log[..|log| - 1];
      SoundMeans(init, first, initially);
      CountsMean(init, first, initially);
      Prefixes(log);
      if Sound(log, first) {
        forall i | 0 <= i < |init|
          ensures SoundEvent(init[i], Version(init[..i], first))
        {
          assert SoundEvent(log[i], Version(log[..i], first));
        }
      }
    }
  }

  lemma {:induction false} CalibratedMeans(log: seq<Event>, first: nat, initially: bool)
    ensures Summary(log, first, initially).calibrated <==> Calibrated(log, first)
  {
    if log != [] {
      var init := log[..|log| - 1];
      CalibratedMeans(init, first, initially);
      CountsMean(init, first, initially);
      Prefixes(log);
      if Calibrated(log, first) {
        forall i | 0 <= i < |init|
          ensures CalibratedEvent(init[i], Version(init[..i], first))
        {
          assert CalibratedEvent(log[i], Version(log[..i], first));
        }
      }
    }
  }

  lemma {:induction false} EconomicalMeans(log: seq<Event>, first: nat, initially: bool)
    ensures Summary(log, first, initially).economical <==> Economical(log, initially)
  {
    if log != [] {
      var init := log[..|log| - 1];
      EconomicalMeans(init, first, initially);
      CountsMean(init, first, initially);
      Prefixes(log);
      if Economical(log, initially) {
        forall i | 0 <= i < |init| && init[i].Refit?
          ensures Stale(init[..i], initially)
        {
          assert log[i].Refit?;
        }
      }
    }
  }

  lemma {:induction false} CurrentMeans(log: seq<Event>, first: nat, initially: bool, x: Row)
    ensures x in Summary(log, first, initially).current <==> RolledOut(log, x, first)
  {
    if log != [] {
      var init, last := log[..|log| - 1], log[|log| - 1];
      CurrentMeans(init, first, initially, x);
      Prefixes(log);
      if RolledOut(log, x, first) {
        var j :| 0 <= j < |log| && log[j].Rollout? && x in log[j].rows
            && Version(log[..j], first) == Version(log, first);
        if j < |init| {
          VersionGrows(init, j, first);
          assert init[j] == log[j] && init[..j] == log[..j];
        }
      }
      if !last.Trained? && RolledOut(init, x, first) {
        var j :| 0 <= j < |init| && init[j].Rollout? && x in init[j].rows
            && Version(init[..j], first) == Version(init, first);
        assert init[j] == log[j] && init[..j] == log[..j];
      }
    }
  }

  lemma {:induction false} FedMeans(log: seq<Event>, first: nat, initially: bool)
    ensures Summary(log, first, initially).fed <==> Fed(log, first)
  {
    if log != [] {
      var init, last := log[..|log| - 1], log[|log| - 1];
      FedMeans(init, first, initially);
      CountsMean(init, first, initially);
      forall x
        ensures x in Summary(init, first, initially).current <==> RolledOut(init, x, first)
      {
        CurrentMeans(init, first, initially, x);
      }
      Prefixes(log);
      if Fed(log, first) {
        forall i | 0 <= i < |init|
          ensures FedEvent(init[..i], init[i], first)
        {
          assert FedEvent(log[..i], log[i], first);
        }
      }
    }
  }

  /** The account of a whole run, read back from its log. */
  lemma SummaryMeans(log: seq<Event>, first: nat, initially: bool)
    ensures var f := Summary(log, first, initially);
            && (f.sound <==> Sound(log, first)) && (f.calibrated <==> Calibrated(log, first))
            && (f.economical <==> Economical(log, initially)) && (f.fed <==> Fed(log, first))
            && f.rollouts == Rollouts(log) && f.trainings == Trainings(log) && (f.last.Some? <==> log != [])
  {
    SoundMeans(log, first, initially);
    CalibratedMeans(log, first, initially);
    EconomicalMeans(log, first, initially);
    FedMeans(log, first, initially);
    CountsMean(log, first, initially);
  }

  // ----- the engines behind the trainer -----

  /** The policy, the generation engine, and what happened to them. When the
      policy itself generates there is nothing to refit. */
  datatype View = View(shared: bool, policy: nat, generation: nat, scales: Option<nat>, facts: Facts)

  /** The weights generation uses. */
  function Weights(v: View): (w: nat) {
    if v.shared then v.policy else v.generation
  }

  function AfterRefit(v: View, kvScales: Option<nat>): (w: View) {
    v.(generation := v.policy, scales := kvScales, facts := Add(v.facts, Refit(kvScales)))
  }

  function AfterRollout(v: View, rows: seq<Row>): (w: View) {
    v.(facts := Add(v.facts, Rollout(Weights(v), v.scales, rows)))
  }

  function AfterValidation(v: View): (w: View) {
    v.(facts := Add(v.facts, Validation(Weights(v), v.scales)))
  }

  function AfterTraining(v: View, rows: seq<Row>): (w: View) {
    v.(policy := v.policy + 1, facts := Add(v.facts, Trained(rows)))
  }

  predicate Asked(log: seq<Event>) {
    true
  }

  class Engines {
    const shared: bool
    var policy: nat
    var generation: nat
    var scales: Option<nat>
    ghost var log: seq<Event>
    ghost var facts: Facts

    /** The account is the summary of the log of a run that began with this
        version and flag. Only proofs that ask for it see the summary. */
    ghost predicate Valid(first: nat, initially: bool)
      reads this
    {
      forall l {:trigger Asked(l)} :: Asked(l) && l == log ==> facts == Summary(l, first, initially)
    }

    ghost function Now(): (v: View)
      reads this
    {
      View(shared, policy, generation, scales, facts)
    }

    constructor (shared: bool, policy: nat, generation: nat, scales: Option<nat>, ghost initially: bool)
      ensures Now() == View(shared, policy, generation, scales, Fresh(policy, initially))
      ensures log == [] && Valid(policy, initially)
    {
      this.shared, this.policy, this.generation, this.scales := shared, policy, generation, scales;
      log, facts := [], Fresh(policy, initially);
    }

    method DoRefit(kvScales: Option<nat>, ghost first: nat, ghost initially: bool)
      requires Valid(first, initially)
      modifies this
      ensures Valid(first, initially) && Now() == AfterRefit(old(Now()), kvScales)
    {
      Record(Refit(kvScales), first, initially);
      generation, scales := policy, kvScales;
    }

    ghost method Record(e: Event, first: nat, initially: bool)
      requires Valid(first, initially)
      modifies this`log, this`facts
      ensures Valid(first, initially) && facts == Add(old(facts), e) && log == old(log) + [e]
    {
      assert Asked(log);
      SummarySnoc(log, e, first, initially);
      log, facts := log + [e], Add(facts, e);
    }

    method DoRollout(ghost rows: seq<Row>, ghost first: nat, ghost initially: bool)
      requires Valid(first, initially)
      modifies this
      ensures Valid(first, initially) && Now() == AfterRollout(old(Now()), rows)
    {
      Record(Rollout(Weights(Now()), scales, rows), first, initially);
    }

    method DoValidation(ghost first: nat, ghost initially: bool)
      requires Valid(first, initially)
      modifies this
      ensures Valid(first, initially) && Now() == AfterValidation(old(Now()))
    {
      Record(Validation(Weights(Now()), scales), first, initially);
    }

    /** Train on the rows with these ids. */
    method DoTrain(ids: seq<int>, ghost rows: seq<Row>, ghost first: nat, ghost initially: bool)
      requires Valid(first, initially) && ids == Sampling.Ids(rows)
      modifies this
      ensures Valid(first, initially) && Now() == AfterTraining(old(Now()), rows)
    {
      Record(Trained(rows), first, initially);
      policy := policy + 1;
    }

    /** calibrate_qkv_fp8_scales: scales of the current weights. */
    method Calibrate() returns (scales: nat)
      ensures scales == policy
    {
      scales := policy;
    }
  }
}
