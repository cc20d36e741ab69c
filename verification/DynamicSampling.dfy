/** Accumulating non-trivial prompts until a training batch is full
    (nemo_rl/algorithms/grpo_sync.py:165-271, 657-663, 890-930). */
module DynamicSampling {
  import opened Common
  import opened Sequences

  /** A sampled row: its id, the driver-local reward row carried beside it, and
      the tag stamped after reward processing. */
  datatype Sample = Sample(id: int, reward: real, trivial: bool)

  /** A row of the pending carry. */
  datatype Carry = Carry(totalReward: real, filteredReward: Option<real>)

  datatype Outcome = More | Complete | Failed

  // ----- selecting -----

  function Ids(samples: seq<Sample>): (r: seq<int>)
    ensures |r| == |samples|
    ensures forall i :: 0 <= i < |r| ==> r[i] == samples[i].id
  {
    seq(|samples|, i requires 0 <= i < |samples| => samples[i].id)
  }

  function Rewards(samples: seq<Sample>): (r: seq<real>)
    ensures |r| == |samples|
    ensures forall i :: 0 <= i < |r| ==> r[i] == samples[i].reward
  {
    seq(|samples|, i requires 0 <= i < |samples| => samples[i].reward)
  }

  /** The carry rows that belong to samples that passed the filter. */
  function Carries(samples: seq<Sample>): (r: seq<Carry>)
    ensures |r| == |samples|
    ensures forall i :: 0 <= i < |r| ==> r[i] == Carry(samples[i].reward, Some(samples[i].reward))
  {
    seq(|samples|, i requires 0 <= i < |samples| => Carry(samples[i].reward, Some(samples[i].reward)))
  }

  function Select(samples: seq<Sample>, trivial: bool): (r: seq<Sample>) {
    if samples == [] then []
    else (if samples[0].trivial == trivial then [samples[0]] else []) + Select(samples[1..], trivial)
  }

  /** The survivors, and the filtered, in sampling order. */
  function NonTrivial(samples: seq<Sample>): (r: seq<Sample>) {
    Select(samples, false)
  }

  function Trivial(samples: seq<Sample>): (r: seq<Sample>) {
    Select(samples, true)
  }

  lemma {:induction false} SelectAppend(a: seq<Sample>, b: seq<Sample>, trivial: bool)
    ensures Select(a + b, trivial) == Select(a, trivial) + Select(b, trivial)
  {
    if a == [] {
      assert a + b == b;
    } else {
      assert (a + b)[1..] == a[1..] + b;
      SelectAppend(a[1..], b, trivial);
      var head := if a[0].trivial == trivial then [a[0]] else [];
      assert Select(a + b, trivial) == head + (Select(a[1..], trivial) + Select(b, trivial));
    }
  }

  lemma IdsAppend(a: seq<Sample>, b: seq<Sample>)
    ensures Ids(a + b) == Ids(a) + Ids(b) && Carries(a + b) == Carries(a) + Carries(b)
  {
  }

  lemma IdsCut(s: seq<Sample>, n: nat)
    requires n <= |s|
    ensures Ids(s)[..n] == Ids(s[..n]) && Ids(s)[n..] == Ids(s[n..]) && Carries(s)[..n] == Carries(s[..n])
  {
  }

  /** How often an id occurs. */
  function Times(ids: seq<int>, x: int): (n: nat) {
    if ids == [] then 0 else (if ids[0] == x then 1 else 0) + Times(ids[1..], x)
  }

  function TimesIn(samples: seq<Sample>, x: int): (n: nat) {
    if samples == [] then 0 else (if samples[0].id == x then 1 else 0) + TimesIn(samples[1..], x)
  }

  lemma {:induction false} TimesOfIds(samples: seq<Sample>, x: int)
    ensures Times(Ids(samples), x) == TimesIn(samples, x)
  {
    if samples != [] {
      TimesOfIds(samples[1..], x);
      assert Ids(samples)[1..] == Ids(samples[1..]);
    }
  }

  lemma {:induction false} TimesAppend(a: seq<int>, b: seq<int>, x: int)
    ensures Times(a + b, x) == Times(a, x) + Times(b, x)
  {
    if a == [] {
      assert a + b == b;
    } else {
      assert (a + b)[1..] == a[1..] + b;
      TimesAppend(a[1..], b, x);
    }
  }

  lemma {:induction false} TimesInAppend(a: seq<Sample>, b: seq<Sample>, x: int)
    ensures TimesIn(a + b, x) == TimesIn(a, x) + TimesIn(b, x)
  {
    if a == [] {
      assert a + b == b;
    } else {
      assert (a + b)[1..] == a[1..] + b;
      TimesInAppend(a[1..], b, x);
    }
  }

  /** The filter splits a batch in two. */
  lemma {:induction false} SelectParts(samples: seq<Sample>, x: int)
    ensures TimesIn(samples, x) == TimesIn(Trivial(samples), x) + TimesIn(NonTrivial(samples), x)
  {
    if samples != [] {
      SelectParts(samples[1..], x);
      var head := [samples[0]];
      TimesInAppend(head, Select(samples[1..], samples[0].trivial), x);
      assert [] + Select(samples[1..], !samples[0].trivial) == Select(samples[1..], !samples[0].trivial);
    }
  }

  // ----- one iteration -----

  /** What the trainer holds between iterations, and the discards issued so far. */
  datatype State = State(pending: seq<Sample>, unfiltered: seq<real>, iterations: nat, discarded: seq<int>)

  const Start := State([], [], 0, [])

  /** The effect of one iteration, in terms of whole samples. */
  function Step(s: State, batch: seq<Sample>, size: nat, maxBatches: int): (r: (State, Outcome)) {
    var pending := s.pending + NonTrivial(batch);
    var unfiltered := s.unfiltered + Rewards(batch);
    var discarded := s.discarded + Ids(Trivial(batch));
    if |pending| < size then
      (State(pending, unfiltered, s.iterations + 1, discarded), if s.iterations + 1 > maxBatches then Failed else More)
    else
      (State(pending[..size], [], s.iterations + 1, discarded + Ids(pending[size..])), Complete)
  }

  /** The trainer's caches. `pending` and `carry` are kept apart, as metadata and
      driver tensors are; the policy records what it was told to discard. */
  class Sampler {
    var pending: seq<int>
    var carry: seq<Carry>
    var unfiltered: seq<real>
    var discarded: seq<int>
    ghost var kept: seq<Sample>

    ghost predicate Valid()
      reads this
    {
      pending == Ids(kept) && carry == Carries(kept)
    }

    ghost function View(iterations: nat): (s: State)
      reads this
    {
      State(kept, unfiltered, iterations, discarded)
    }

    constructor ()
      ensures Valid() && View(0) == Start
    {
      pending, carry, unfiltered, discarded := [], [], [], [];
      kept := [];
    }

    /** One call. `iterations` counts the calls since the last training batch,
        this one included. */
    method Apply(batch: seq<Sample>, size: nat, iterations: nat, maxBatches: int)
      returns (outcome: Outcome, forLog: seq<real>)
      requires Valid() && iterations >= 1
      modifies this
      ensures Valid()
      ensures (View(iterations), outcome) == Step(old(View(iterations - 1)), batch, size, maxBatches)
      ensures outcome == Complete ==>
                var all := old(unfiltered) + Rewards(batch);
                forLog == if |all| <= size then all else all[..size]
    {
      ghost var start := View(iterations - 1);
      Absorb(batch);
      forLog := [];
      var n := |pending|;
      if n < size {
        outcome := if iterations > maxBatches then Failed else More;
        return;
      }
      if n > size {
        Overflow(size);
      } else {
        assert kept[..size] == kept && Ids(kept[size..]) == [];
      }
      ghost var all := start.pending + NonTrivial(batch);
      assert kept == all[..size];
      assert discarded == start.discarded + Ids(Trivial(batch)) + Ids(all[size..]);
      forLog := if |unfiltered| <= size then unfiltered else unfiltered[..size];
      unfiltered := [];
      outcome := Complete;
    }

    /** Record the rewards, discard what the filter drops, keep the survivors. */
    method Absorb(batch: seq<Sample>)
      requires Valid()
      modifies this
      ensures Valid() && kept == old(kept) + NonTrivial(batch)
      ensures discarded == old(discarded) + Ids(Trivial(batch))
      ensures unfiltered == old(unfiltered) + Rewards(batch)
    {
      IdsAppend(kept, NonTrivial(batch));
      unfiltered := unfiltered + Rewards(batch);
      var keepIds, keepCarry, dropIds := Filter(batch);
      if dropIds != [] {
        discarded := discarded + dropIds;
      }
      if keepIds != [] {
        pending, carry := pending + keepIds, carry + keepCarry;
      }
      kept := kept + NonTrivial(batch);
    }

    /** Adopt the full cache as the step's batch and start over. */
    method Take() returns (ids: seq<int>, rows: seq<Carry>)
      requires Valid()
      modifies this
      ensures ids == Ids(old(kept)) && rows == Carries(old(kept))
      ensures Valid() && kept == [] && unfiltered == old(unfiltered) && discarded == old(discarded)
    {
      ids, rows := pending, carry;
      pending, carry, kept := [], [], [];
    }

    /** Survivors beyond the batch are discarded. */
    method Overflow(size: nat)
      requires Valid() && size < |pending|
      modifies this
      ensures Valid() && kept == old(kept)[..size] && unfiltered == old(unfiltered)
      ensures discarded == old(discarded) + Ids(old(kept)[size..])
    {
      IdsCut(kept, size);
      discarded := discarded + pending[size..];
      pending, carry, kept := pending[..size], carry[..size], kept[..size];
    }

    /** The comprehensions over the tags. */
    static method Filter(batch: seq<Sample>) returns (keepIds: seq<int>, keepCarry: seq<Carry>, dropIds: seq<int>)
      ensures keepIds == Ids(NonTrivial(batch)) && keepCarry == Carries(NonTrivial(batch))
      ensures dropIds == Ids(Trivial(batch))
    {
      keepIds, keepCarry, dropIds := [], [], [];
      for i := 0 to |batch|
        invariant keepIds == Ids(NonTrivial(batch[..i])) && keepCarry == Carries(NonTrivial(batch[..i]))
        invariant dropIds == Ids(Trivial(batch[..i]))
      {
        assert batch[..i + 1] == batch[..i] + [batch[i]];
        SelectAppend(batch[..i], [batch[i]], false);
        SelectAppend(batch[..i], [batch[i]], true);
        if batch[i].trivial {
          dropIds := dropIds + [batch[i].id];
        } else {
          keepIds := keepIds + [batch[i].id];
          keepCarry := keepCarry + [Carry(batch[i].reward, Some(batch[i].reward))];
        }
      }
      assert batch[..|batch|] == batch;
    }
  }

  // ----- any number of iterations in one epoch -----

  /** An epoch: each completed batch is handed to training, and the caches start
      over. It stops at a failure. */
  datatype Epoch = Epoch(state: State, trained: seq<seq<Sample>>, failed: bool)

  function Run(batches: seq<seq<Sample>>, size: nat, maxBatches: int): (r: Epoch) {
    if batches == [] then Epoch(Start, [], false)
    else
      var before := Run(batches[..|batches| - 1], size, maxBatches);
      if before.failed then before else Extend(before, batches[|batches| - 1], size, maxBatches)
  }

  lemma {:induction false} FailureIsFinal(batches: seq<seq<Sample>>, n: nat, size: nat, maxBatches: int)
    requires n <= |batches| && Run(batches[..n], size, maxBatches).failed
    ensures Run(batches, size, maxBatches) == Run(batches[..n], size, maxBatches)
    decreases |batches|
  {
    if n < |batches| {
      var init := batches[..|batches| - 1];
      assert init[..n] == batches[..n];
      FailureIsFinal(init, n, size, maxBatches);
    } else {
      assert batches[..n] == batches;
    }
  }

  /** A batch as training receives it: ids and the carry rows beside them. */
  datatype TrainBatch = TrainBatch(ids: seq<int>, rows: seq<Carry>)

  function AsBatches(trained: seq<seq<Sample>>): (r: seq<TrainBatch>)
    ensures |r| == |trained|
  {
    seq(|trained|, i requires 0 <= i < |trained| => TrainBatch(Ids(trained[i]), Carries(trained[i])))
  }

  lemma AsBatchesSnoc(trained: seq<seq<Sample>>, batch: seq<Sample>)
    ensures AsBatches(trained + [batch]) == AsBatches(trained) + [TrainBatch(Ids(batch), Carries(batch))]
  {
  }

  /** One more iteration of an epoch. */
  lemma RunNext(batches: seq<seq<Sample>>, n: nat, size: nat, maxBatches: int)
    requires n < |batches| && !Run(batches[..n], size, maxBatches).failed
    ensures Run(batches[..n + 1], size, maxBatches)
              == Extend(Run(batches[..n], size, maxBatches), batches[n], size, maxBatches)
  {
    assert batches[..n + 1][..n] == batches[..n];
  }

  /** The epoch's loop over generation batches. */
  method SampleEpoch(batches: seq<seq<Sample>>, size: nat, maxBatches: int)
    returns (trained: seq<TrainBatch>, discarded: seq<int>, failed: bool)
    ensures var r := Run(batches, size, maxBatches);
            trained == AsBatches(r.trained) && discarded == r.state.discarded && failed == r.failed
  {
    var sampler := new Sampler();
    var iterations := 0;
    trained := [];
    ghost var run := Epoch(Start, [], false);
    for n := 0 to |batches|
      invariant fresh(sampler) && sampler.Valid()
      invariant run == Run(batches[..n], size, maxBatches) && !run.failed
      invariant run.state == sampler.View(iterations) && trained == AsBatches(run.trained)
    {
      RunNext(batches, n, size, maxBatches);
      ghost var before := run;
      run := Extend(before, batches[n], size, maxBatches);
      iterations := iterations + 1;
      var outcome, _ := sampler.Apply(batches[n], size, iterations, maxBatches);
      if outcome == Failed {
        FailureIsFinal(batches, n + 1, size, maxBatches);
        return trained, sampler.discarded, true;
      }
      if outcome == Complete {
        AsBatchesSnoc(before.trained, sampler.kept);
        var ids, rows := sampler.Take();
        trained := trained + [TrainBatch(ids, rows)];
        iterations := 0;
      }
    }
    assert batches[..|batches|] == batches;
    discarded, failed := sampler.discarded, false;
  }

  /** How often an id is pending or handed to the policy to discard. */
  function Accounted(s: State, x: int): (n: nat) {
    TimesIn(s.pending, x) + Times(s.discarded, x)
  }

  /** One iteration moves each sampled id into the pending rows or the discards. */
  lemma StepConserves(s: State, batch: seq<Sample>, size: nat, maxBatches: int, x: int)
    ensures Accounted(Step(s, batch, size, maxBatches).0, x) == Accounted(s, x) + TimesIn(batch, x)
  {
    var pending := s.pending + NonTrivial(batch);
    var discarded := s.discarded + Ids(Trivial(batch));
    SelectParts(batch, x);
    TimesInAppend(s.pending, NonTrivial(batch), x);
    TimesOfIds(Trivial(batch), x);
    TimesAppend(s.discarded, Ids(Trivial(batch)), x);
    if |pending| >= size {
      CutConserves(pending, size, x);
      TimesAppend(discarded, Ids(pending[size..]), x);
    }
  }

  lemma CutConserves(pending: seq<Sample>, size: nat, x: int)
    requires size <= |pending|
    ensures TimesIn(pending, x) == TimesIn(pending[..size], x) + Times(Ids(pending[size..]), x)
  {
    assert pending == pending[..size] + pending[size..];
    TimesInAppend(pending[..size], pending[size..], x);
    TimesOfIds(pending[size..], x);
  }

  /** Every id sampled in an epoch, up to a failure, is accounted for as often as
      it was sampled: trained on, pending, or discarded. */
  lemma {:induction false} EpochConserves(batches: seq<seq<Sample>>, size: nat, maxBatches: int, x: int)
    requires !Run(batches, size, maxBatches).failed
    ensures var r := Run(batches, size, maxBatches);
            TimesIn(Flat(batches), x) == TimesIn(Flat(r.trained), x) + Accounted(r.state, x)
  {
    if batches != [] {
      var init, last := batches[..|batches| - 1], batches[|batches| - 1];
      EpochConserves(init, size, maxBatches, x);
      FlatLast(batches);
      TimesInAppend(Flat(init), last, x);
      RunConserves(Run(init, size, maxBatches), last, size, maxBatches, x);
    }
  }

  /** What one more iteration makes of an epoch. */
  function Extend(before: Epoch, last: seq<Sample>, size: nat, maxBatches: int): (r: Epoch) {
    var (s, outcome) := Step(before.state, last, size, maxBatches);
    match outcome
    case More => Epoch(s, before.trained, false)
    case Failed => Epoch(s, before.trained, true)
    case Complete => Epoch(State([], [], 0, s.discarded), before.trained + [s.pending], false)
  }

  lemma RunConserves(before: Epoch, last: seq<Sample>, size: nat, maxBatches: int, x: int)
    ensures var after := Extend(before, last, size, maxBatches);
            TimesIn(Flat(after.trained), x) + Accounted(after.state, x)
              == TimesIn(Flat(before.trained), x) + Accounted(before.state, x) + TimesIn(last, x)
  {
    StepConserves(before.state, last, size, maxBatches, x);
    var (s, outcome) := Step(before.state, last, size, maxBatches);
    if outcome == Complete {
      FlatSnoc(before.trained, s.pending);
      TimesInAppend(Flat(before.trained), s.pending, x);
    }
  }

  /** When no id is sampled twice, each sampled id is in exactly one place, once. */
  lemma EachIdOnce(batches: seq<seq<Sample>>, size: nat, maxBatches: int, x: int)
    requires !Run(batches, size, maxBatches).failed && TimesIn(Flat(batches), x) == 1
    ensures var r := Run(batches, size, maxBatches);
            var trained, pending, discarded :=
                TimesIn(Flat(r.trained), x), TimesIn(r.state.pending, x), Times(r.state.discarded, x);
            || (trained == 1 && pending == 0 && discarded == 0)
            || (trained == 0 && pending == 1 && discarded == 0)
            || (trained == 0 && pending == 0 && discarded == 1)
  {
    EpochConserves(batches, size, maxBatches, x);
  }

  /** The iterations since the last completed batch. */
  function Current(batches: seq<seq<Sample>>, size: nat, maxBatches: int): (r: seq<seq<Sample>>)
  {
    if batches == [] then []
    else
      var init, last := batches[..|batches| - 1], batches[|batches| - 1];
      if Run(init, size, maxBatches).failed then []
      else if Step(Run(init, size, maxBatches).state, last, size, maxBatches).1 == Complete then []
      else Current(init, size, maxBatches) + [last]
  }

  /** The caches hold exactly what was sampled in these iterations. */
  ghost predicate Holds(s: State, since: seq<seq<Sample>>) {
    && s.pending == NonTrivial(Flat(since))
    && s.iterations == |since|
    && s.unfiltered == Rewards(Flat(since))
  }

  lemma StepHolds(s: State, since: seq<seq<Sample>>, last: seq<Sample>, size: nat, maxBatches: int)
    requires Holds(s, since)
    ensures var (t, outcome) := Step(s, last, size, maxBatches);
            outcome != Complete ==> Holds(t, since + [last]) && |t.pending| < size
    ensures s.pending + NonTrivial(last) == NonTrivial(Flat(since + [last]))
  {
    FlatSnoc(since, last);
    SelectAppend(Flat(since), last, false);
    assert Rewards(Flat(since) + last) == Rewards(Flat(since)) + Rewards(last);
  }

  /** Between completions nothing is forgotten, and the batch is not yet full. */
  lemma {:induction false} PendingIsEverythingSince(batches: seq<seq<Sample>>, size: nat, maxBatches: int)
    requires !Run(batches, size, maxBatches).failed
    ensures var s, since := Run(batches, size, maxBatches).state, Current(batches, size, maxBatches);
            Holds(s, since) && (since != [] ==> |s.pending| < size)
  {
    if batches != [] {
      var init, last := batches[..|batches| - 1], batches[|batches| - 1];
      PendingIsEverythingSince(init, size, maxBatches);
      StepHolds(Run(init, size, maxBatches).state, Current(init, size, maxBatches), last, size, maxBatches);
    }
  }

  /** The iteration that fills the batch: training gets exactly the first `size`
      non-trivial samples since the last batch, in sampling order, the survivors
      beyond them are discarded, and one iteration earlier there were too few. */
  lemma CompletedBatch(batches: seq<seq<Sample>>, last: seq<Sample>, size: nat, maxBatches: int)
    requires !Run(batches, size, maxBatches).failed
    ensures var before, after := Run(batches, size, maxBatches), Run(batches + [last], size, maxBatches);
            var since := Current(batches, size, maxBatches);
            var survivors := NonTrivial(Flat(since + [last]));
            && (|survivors| >= size ==>
                  && after == Epoch(State([], [], 0,
                                          before.state.discarded + Ids(Trivial(last)) + Ids(survivors[size..])),
                                    before.trained + [survivors[..size]], false)
                  && (since != [] ==> |NonTrivial(Flat(since))| < size))
            && (|survivors| < size ==>
                  && after.trained == before.trained
                  && after.state.pending == survivors
                  && (after.failed <==> |since| + 1 > maxBatches))
  {
    var since := Current(batches, size, maxBatches);
    PendingIsEverythingSince(batches, size, maxBatches);
    assert (batches + [last])[..|batches|] == batches;
    StepHolds(Run(batches, size, maxBatches).state, since, last, size, maxBatches);
  }

  // ----- whole prompt groups -----

  /** G generations of one prompt share the filter decision. */
  ghost predicate Uniform(group: seq<Sample>, g: nat) {
    |group| == g && forall i, j :: 0 <= i < |group| && 0 <= j < |group| ==> group[i].trivial == group[j].trivial
  }

  ghost predicate AllUniform(groups: seq<seq<Sample>>, g: nat) {
    forall i :: 0 <= i < |groups| ==> Uniform(groups[i], g)
  }

  /** The groups that pass the filter. */
  function KeptGroups(groups: seq<seq<Sample>>): (r: seq<seq<Sample>>) {
    if groups == [] then []
    else
      var init, last := groups[..|groups| - 1], groups[|groups| - 1];
      KeptGroups(init) + (if last != [] && !last[0].trivial then [last] else [])
  }

  lemma {:induction false} KeptAreUniform(groups: seq<seq<Sample>>, g: nat)
    requires AllUniform(groups, g)
    ensures AllUniform(KeptGroups(groups), g)
    ensures forall x :: x in KeptGroups(groups) ==> x in groups
  {
    if groups != [] {
      var init := groups[..|groups| - 1];
      KeptAreUniform(init, g);
      assert groups == init + [groups[|groups| - 1]];
    }
  }

  lemma {:induction false} UniformSelect(group: seq<Sample>, trivial: bool)
    requires forall i :: 0 <= i < |group| ==> group[i].trivial == trivial
    ensures Select(group, trivial) == group && Select(group, !trivial) == []
  {
    if group != [] {
      UniformSelect(group[1..], trivial);
      assert group == [group[0]] + group[1..];
    }
  }

  /** Filtering rows filters whole groups. */
  lemma {:induction false} FilterKeepsGroups(groups: seq<seq<Sample>>, g: nat)
    requires AllUniform(groups, g)
    ensures NonTrivial(Flat(groups)) == Flat(KeptGroups(groups))
  {
    if groups != [] {
      var init, last := groups[..|groups| - 1], groups[|groups| - 1];
      FilterKeepsGroups(init, g);
      FlatLast(groups);
      SelectAppend(Flat(init), last, false);
      if last != [] {
        UniformSelect(last, last[0].trivial);
        if !last[0].trivial {
          FlatSnoc(KeptGroups(init), last);
        } else {
          assert KeptGroups(init) + [] == KeptGroups(init);
        }
      } else {
        assert Flat(init) + last == Flat(init);
        assert KeptGroups(init) + [] == KeptGroups(init);
      }
    }
  }

  lemma {:induction false} FlatLength(groups: seq<seq<Sample>>, g: nat)
    requires AllUniform(groups, g)
    ensures |Flat(groups)| == |groups| * g
  {
    if groups != [] {
      FlatLength(groups[..|groups| - 1], g);
      FlatLast(groups);
      assert Uniform(groups[|groups| - 1], g);
      assert |groups| * g == (|groups| - 1) * g + g;
    }
  }

  /** Cutting at a multiple of the group size cuts between groups. */
  lemma {:induction false} FlatTake(groups: seq<seq<Sample>>, g: nat, n: nat)
    requires AllUniform(groups, g) && n <= |groups|
    ensures n * g <= |Flat(groups)| && Flat(groups)[..n * g] == Flat(groups[..n])
  {
    FlatLength(groups, g);
    FlatLength(groups[..n], g);
    Multiples(n, |groups|, g);
    if n < |groups| {
      var init := groups[..|groups| - 1];
      FlatTake(init, g, n);
      FlatLast(groups);
      assert init[..n] == groups[..n];
    } else {
      assert groups[..n] == groups;
    }
  }

  lemma Multiples(a: nat, b: nat, g: nat)
    requires a <= b
    ensures a * g <= b * g
  {
    assert b * g == a * g + (b - a) * g;
  }

  /** Iterations whose batches consist of groups. */
  ghost predicate Grouped(batches: seq<seq<Sample>>, groups: seq<seq<seq<Sample>>>, g: nat) {
    && |batches| == |groups|
    && forall i :: 0 <= i < |batches| ==> batches[i] == Flat(groups[i]) && AllUniform(groups[i], g)
  }

  lemma {:induction false} FlatUniform(groups: seq<seq<seq<Sample>>>, g: nat)
    requires forall i :: 0 <= i < |groups| ==> AllUniform(groups[i], g)
    ensures AllUniform(Flat(groups), g)
  {
    if groups != [] {
      FlatUniform(groups[1..], g);
    }
  }

  lemma {:induction false} GroupedFlat(batches: seq<seq<Sample>>, groups: seq<seq<seq<Sample>>>, g: nat)
    requires Grouped(batches, groups, g)
    ensures Flat(batches) == Flat(Flat(groups)) && AllUniform(Flat(groups), g)
    decreases |batches|
  {
    FlatUniform(groups, g);
    if batches != [] {
      GroupedFlat(batches[1..], groups[1..], g);
      FlatAppend(groups[0], Flat(groups[1..]));
    }
  }

  /** The first rows that pass the filter are the first groups that do. */
  lemma FirstGroups(batches: seq<seq<Sample>>, groups: seq<seq<seq<Sample>>>, g: nat, prompts: nat)
    requires Grouped(batches, groups, g) && g > 0
    requires |NonTrivial(Flat(batches))| >= prompts * g
    ensures prompts <= |KeptGroups(Flat(groups))|
    ensures NonTrivial(Flat(batches))[..prompts * g] == Flat(KeptGroups(Flat(groups))[..prompts])
  {
    var all := Flat(groups);
    GroupedFlat(batches, groups, g);
    FilterKeepsGroups(all, g);
    KeptAreUniform(all, g);
    FlatLength(KeptGroups(all), g);
    if |KeptGroups(all)| < prompts {
      Multiples(|KeptGroups(all)| + 1, prompts, g);
    } else {
      FlatTake(KeptGroups(all), g, prompts);
    }
  }

  /** The iterations since the last completed batch are the epoch's last ones. */
  lemma {:induction false} CurrentIsSuffix(batches: seq<seq<Sample>>, size: nat, maxBatches: int)
    ensures var since := Current(batches, size, maxBatches);
            |since| <= |batches| && since == batches[|batches| - |since|..]
  {
    if batches != [] {
      CurrentIsSuffix(batches[..|batches| - 1], size, maxBatches);
    }
  }

  /** The batch consists of `prompts` whole groups out of those sampled, none of
      them trivial. */
  ghost predicate WholeGroups(batch: seq<Sample>, groups: seq<seq<Sample>>, g: nat, prompts: nat) {
    exists gs: seq<seq<Sample>> :: FormedOf(batch, gs, groups, g, prompts)
  }

  ghost predicate FormedOf(batch: seq<Sample>, gs: seq<seq<Sample>>, groups: seq<seq<Sample>>, g: nat, prompts: nat) {
    && batch == Flat(gs) && |gs| == prompts && AllUniform(gs, g)
    && (forall i :: 0 <= i < |gs| ==> gs[i] in groups && gs[i] != [] && !gs[i][0].trivial)
  }

  lemma {:induction false} KeptAreNonTrivial(groups: seq<seq<Sample>>)
    ensures forall x: seq<Sample> :: x in KeptGroups(groups) ==> x in groups && x != [] && !x[0].trivial
  {
    if groups != [] {
      var init := groups[..|groups| - 1];
      KeptAreNonTrivial(init);
      assert groups == init + [groups[|groups| - 1]];
    }
  }

  /** A batch cut from the last iterations of an epoch. */
  lemma SuffixGroups(batches: seq<seq<Sample>>, groups: seq<seq<seq<Sample>>>, g: nat, prompts: nat, from: nat)
    requires Grouped(batches, groups, g) && g > 0 && from <= |batches|
    requires |NonTrivial(Flat(batches[from..]))| >= prompts * g
    ensures WholeGroups(NonTrivial(Flat(batches[from..]))[..prompts * g], Flat(groups), g, prompts)
  {
    var late := Flat(groups[from..]);
    FirstGroups(batches[from..], groups[from..], g, prompts);
    GroupedFlat(batches[from..], groups[from..], g);
    KeptAreUniform(late, g);
    KeptAreNonTrivial(late);
    assert groups == groups[..from] + groups[from..];
    FlatAppend(groups[..from], groups[from..]);
    var gs := KeptGroups(late)[..prompts];
    assert forall i :: 0 <= i < |gs| ==> gs[i] in KeptGroups(late);
    assert FormedOf(NonTrivial(Flat(batches[from..]))[..prompts * g], gs, Flat(groups), g, prompts);
  }

  lemma MoreGroups(batch: seq<Sample>, groups: seq<seq<Sample>>, more: seq<seq<Sample>>, g: nat, prompts: nat)
    requires WholeGroups(batch, groups, g, prompts)
    ensures WholeGroups(batch, groups + more, g, prompts)
  {
    var gs: seq<seq<Sample>> :| FormedOf(batch, gs, groups, g, prompts);
    assert FormedOf(batch, gs, groups + more, g, prompts);
  }

  ghost predicate AllWhole(trained: seq<seq<Sample>>, groups: seq<seq<Sample>>, g: nat, prompts: nat) {
    forall i :: 0 <= i < |trained| ==> WholeGroups(trained[i], groups, g, prompts)
  }

  lemma AllMoreGroups(trained: seq<seq<Sample>>, groups: seq<seq<Sample>>, more: seq<seq<Sample>>, g: nat, prompts: nat)
    requires AllWhole(trained, groups, g, prompts)
    ensures AllWhole(trained, groups + more, g, prompts)
  {
    forall i | 0 <= i < |trained|
      ensures WholeGroups(trained[i], groups + more, g, prompts)
    {
      MoreGroups(trained[i], groups, more, g, prompts);
    }
  }

  /** What the last iteration adds, if anything, is cut from the epoch's last ones. */
  lemma LastTrained(batches: seq<seq<Sample>>, size: nat, maxBatches: int) returns (from: nat)
    requires batches != []
    ensures from <= |batches|
    ensures var before := Run(batches[..|batches| - 1], size, maxBatches).trained;
            var after, late := Run(batches, size, maxBatches).trained, NonTrivial(Flat(batches[from..]));
            after == before || (|late| >= size && after == before + [late[..size]])
  {
    var n := |batches| - 1;
    var init, last := batches[..n], batches[n];
    from := 0;
    if !Run(init, size, maxBatches).failed {
      var since := Current(init, size, maxBatches);
      assert batches == init + [last];
      CompletedBatch(init, last, size, maxBatches);
      CurrentIsSuffix(init, size, maxBatches);
      from := n - |since|;
      assert since + [last] == batches[from..];
    }
  }

  /** With room for `prompts` groups of g generations, every batch an epoch hands
      to training consists of whole groups. */
  lemma {:induction false} TrainsOnWholeGroups(batches: seq<seq<Sample>>, groups: seq<seq<seq<Sample>>>, g: nat,
                                               prompts: nat, maxBatches: int)
    requires Grouped(batches, groups, g) && g > 0
    ensures AllWhole(Run(batches, prompts * g, maxBatches).trained, Flat(groups), g, prompts)
    decreases |batches|
  {
    if batches != [] {
      var n, size := |batches| - 1, prompts * g;
      assert Grouped(batches[..n], groups[..n], g);
      TrainsOnWholeGroups(batches[..n], groups[..n], g, prompts, maxBatches);
      FlatLast(groups);
      AllMoreGroups(Run(batches[..n], size, maxBatches).trained, Flat(groups[..n]), groups[n], g, prompts);
      var from := LastTrained(batches, size, maxBatches);
      if |NonTrivial(Flat(batches[from..]))| >= size {
        SuffixGroups(batches, groups, g, prompts, from);
      }
    }
  }
}
