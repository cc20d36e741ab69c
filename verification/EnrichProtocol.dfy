/** Concurrent enrich calls over one event loop, their worker threads and the
    shared store (nemo_rl/algorithms/opd.py). */
module EnrichProtocol {
  import opened Common

  // What a thread does to the store between its start and its end is what
  // TeacherEnrichment.EnrichSync does, in any pieces: it puts padding rows, fetches
  // rows, which fails if one is missing, writes its column back under their ids,
  // and removes the padding. Writing is an upsert, as in
  // nemo_rl/data_plane/adapters/noop.py:177-195: it creates a row that is gone.

  // ----- routing -----

  datatype Routing = Routing(groups: set<string>, groupOfAlias: map<string, string>, agents: set<string>,
                             fallback: string, strict: bool)

  datatype RouteError = NoAttribution | NoTeacher | NoGroup

  /** The alias of an agent, then the physical group behind the alias. The
      empty fallback is no fallback. */
  function Resolve(r: Routing, agent: Option<string>): (res: Result<string, RouteError>)
    ensures res.Ok? ==> res.value in r.groups
  {
    if agent.None? then Err(NoAttribution)
    else if agent.value !in r.agents && (r.strict || r.fallback == "") then Err(NoTeacher)
    else
      var alias := if agent.value in r.agents then agent.value else r.fallback;
      var group := if alias in r.groupOfAlias then r.groupOfAlias[alias] else alias;
      if group in r.groups then Ok(group) else Err(NoGroup)
  }

  /** Which lock a call queues for, case by case: a mapped agent is its own alias,
      any other goes to the fallback unless that is empty or matching is strict;
      aliases of one checkpoint share its group, other aliases are their group. */
  lemma AliasesShareGroups(r: Routing, a: string, b: string)
    requires a in r.agents
    ensures Resolve(r, None) == Err(NoAttribution)
    ensures a in r.groupOfAlias && r.groupOfAlias[a] in r.groups ==> Resolve(r, Some(a)) == Ok(r.groupOfAlias[a])
    ensures a !in r.groupOfAlias && a in r.groups ==> Resolve(r, Some(a)) == Ok(a)
    ensures (if a in r.groupOfAlias then r.groupOfAlias[a] else a) !in r.groups <==> Resolve(r, Some(a)) == Err(NoGroup)
    ensures b in r.agents && a in r.groupOfAlias && b in r.groupOfAlias && r.groupOfAlias[a] == r.groupOfAlias[b] ==>
              Resolve(r, Some(a)) == Resolve(r, Some(b))
    ensures b !in r.agents && (r.strict || r.fallback == "") <==> Resolve(r, Some(b)) == Err(NoTeacher)
    ensures b !in r.agents && r.fallback == a && a != "" && !r.strict ==> Resolve(r, Some(b)) == Resolve(r, Some(a))
  {
  }

  // ----- calls, threads and the store -----

  /** Sample ids are globally unique, so each is written with its owner. */
  datatype Id = Foreign(name: string) | RowOf(call: nat, name: string) | PadOf(call: nat, name: string)

  datatype Job = Job(agent: Option<string>, rows: set<string>, pads: set<string>, size: nat)

  datatype System = System(routing: Routing, jobs: seq<Job>, others: set<string>)

  /** Queued: handed to the executor, not begun. Dropped: cancelled while queued. */
  datatype Thread = Absent | Queued | Working(fetched: bool) | Ended(ok: bool, left: set<string>) | Dropped

  /** Running awaits the shielded thread, Draining awaits it unshielded. */
  datatype Phase = Waiting | Running | Draining | Done(returned: bool)

  datatype Call = Call(phase: Phase, thread: Thread, rolledBack: bool)

  datatype Metrics = Metrics(batches: nat, samples: nat)

  function Plus(a: Metrics, b: Metrics): (m: Metrics) {
    Metrics(a.batches + b.batches, a.samples + b.samples)
  }

  /** A lock remembers its holder; only whether it is held guards anything. */
  datatype State = State(calls: seq<Call>, locks: map<string, nat>, store: set<Id>, pending: Metrics, reported: Metrics)

  function Rows(sys: System, c: nat): (ids: set<Id>)
    requires c < |sys.jobs|
  {
    set name | name in sys.jobs[c].rows :: RowOf(c, name)
  }

  function Pads(c: nat, names: set<string>): (ids: set<Id>) {
    set name | name in names :: PadOf(c, name)
  }

  function Group(sys: System, c: nat): (g: Result<string, RouteError>)
    requires c < |sys.jobs|
    ensures g.Ok? ==> g.value in sys.routing.groups
  {
    Resolve(sys.routing, sys.jobs[c].agent)
  }

  function Initial(sys: System): (s: State) {
    State(seq(|sys.jobs|, _ => Call(Waiting, Absent, false)), map[],
          (set name | name in sys.others :: Foreign(name))
          + (set c, name | 0 <= c < |sys.jobs| && name in sys.jobs[c].rows :: RowOf(c, name)),
          Metrics(0, 0), Metrics(0, 0))
  }

  // ----- steps -----

  datatype Step =
    | Reject(c: nat)
    | Acquire(c: nat)
    | Begin(c: nat)
    | Fetch(c: nat)
    | Write(c: nat, names: set<string>, pads: set<string>)
    | End(c: nat, ok: bool, left: set<string>)
    | Resume(c: nat)
    | Cancel(c: nat)
    | Rollback(c: nat)
    | Drain

  predicate Active(t: Thread) {
    t.Queued? || t.Working?
  }

  predicate Holds(p: Phase) {
    p.Running? || p.Draining?
  }

  predicate Can(sys: System, s: State, a: Step)
    requires |s.calls| == |sys.jobs|
  {
    if a.Drain? then true
    else if a.c >= |s.calls| then false
    else
      var call := s.calls[a.c];
      match a
      case Reject(c) => call.phase.Waiting? && Group(sys, c).Err?
      case Acquire(c) =>
        && call.phase.Waiting? && call.thread.Absent?
        && Group(sys, c).Ok? && Group(sys, c).value !in s.locks
      case Begin(_) => call.thread.Queued?
      case Fetch(c) => call.thread == Working(false) && Rows(sys, c) <= s.store
      case Write(c, names, pads) =>
        && call.thread.Working? && names <= sys.jobs[c].rows && pads <= sys.jobs[c].pads
        && (names != {} ==> call.thread.fetched)
      case End(c, ok, left) =>
        && call.thread.Working? && left <= sys.jobs[c].pads
        && (ok ==> call.thread.fetched && left == {})
      case Resume(_) => Holds(call.phase) && call.thread.Ended?
      case Cancel(_) => !call.phase.Done?
      case Rollback(_) => call.phase == Done(false) && !call.rolledBack
  }

  function Set(s: State, c: nat, call: Call): (t: State)
    requires c < |s.calls|
    ensures |t.calls| == |s.calls|
  {
    s.(calls := s.calls[c := call])
  }

  /** Leave the coroutine, releasing the lock when it is held. */
  function Leave(sys: System, s: State, c: nat, returned: bool, thread: Thread): (t: State)
    requires c < |s.calls| == |sys.jobs|
    ensures |t.calls| == |s.calls|
  {
    var left := Set(s, c, s.calls[c].(phase := Done(returned), thread := thread));
    if Holds(s.calls[c].phase) && Group(sys, c).Ok? then left.(locks := s.locks - {Group(sys, c).value}) else left
  }

  /** The state after a step that can be taken. */
  function After(sys: System, s: State, a: Step): (t: State)
    requires |s.calls| == |sys.jobs| && Can(sys, s, a)
    ensures |t.calls| == |sys.jobs|
  {
    match a
    case Drain => s.(pending := Metrics(0, 0), reported := Plus(s.reported, s.pending))
    case Reject(c) => Leave(sys, s, c, false, s.calls[c].thread)
    case Acquire(c) =>
      Set(s, c, Call(Running, Queued, s.calls[c].rolledBack)).(locks := s.locks[Group(sys, c).value := c])
    case Begin(c) => Set(s, c, s.calls[c].(thread := Working(false)))
    case Fetch(c) => Set(s, c, s.calls[c].(thread := Working(true)))
    case Write(c, names, pads) => s.(store := s.store + (set name | name in names :: RowOf(c, name)) + Pads(c, pads))
    case End(c, ok, left) =>
      Set(s, c, s.calls[c].(thread := Ended(ok, left))).(store := s.store - Pads(c, sys.jobs[c].pads) + Pads(c, left))
    case Resume(c) =>
      var call := s.calls[c];
      var returned := call.phase.Running? && call.thread.ok;
      var left := Leave(sys, s, c, returned, call.thread);
      if returned then left.(pending := Plus(s.pending, Metrics(1, sys.jobs[c].size))) else left
    case Cancel(c) =>
      var call := s.calls[c];
      if call.phase.Running? then Set(s, c, call.(phase := Draining))
      else Leave(sys, s, c, false, if call.thread.Queued? then Dropped else call.thread)
    case Rollback(c) => Set(s, c, s.calls[c].(rolledBack := true)).(store := s.store - Rows(sys, c))
  }

  ghost predicate Move(sys: System, s: State, a: Step, t: State) {
    |s.calls| == |sys.jobs| && Can(sys, s, a) && t == After(sys, s, a)
  }

  /** A finite run: the steps taken and the states between them. */
  datatype Run = Run(steps: seq<Step>, states: seq<State>)

  ghost predicate IsRun(sys: System, run: Run) {
    && |run.states| == |run.steps| + 1 && run.states[0] == Initial(sys)
    && (forall i :: 0 <= i < |run.states| ==> |run.states[i].calls| == |sys.jobs|)
    && (forall i :: 0 <= i < |run.steps| ==> Move(sys, run.states[i], run.steps[i], run.states[i + 1]))
  }

  // ----- what the protocol promises -----

  /** One thread per physical group, and none outlives its call. */
  ghost predicate Safe(sys: System, s: State)
    requires |s.calls| == |sys.jobs|
  {
    && (forall c, d :: 0 <= c < d < |s.calls| && Active(s.calls[c].thread) && Active(s.calls[d].thread) ==>
        Group(sys, c) != Group(sys, d))
    && (forall c :: 0 <= c < |s.calls| && s.calls[c].phase.Done? ==> !Active(s.calls[c].thread))
  }

  /** A cancellation that reaches a call which is already draining a thread that
      has begun: the thread cannot be stopped and is no longer awaited. */
  predicate AbandonsThread(s: State, a: Step) {
    a.Cancel? && a.c < |s.calls| && s.calls[a.c].phase.Draining? && s.calls[a.c].thread.Working?
  }

  /** The store holds exactly the rows nobody rolled back, and padding only of
      working threads or of failed cleanups. */
  ghost predicate TidyFor(sys: System, s: State, id: Id)
    requires |s.calls| == |sys.jobs|
  {
    match id
    case Foreign(name) => id in s.store <==> name in sys.others
    case RowOf(c, name) => id in s.store <==> c < |sys.jobs| && name in sys.jobs[c].rows && !s.calls[c].rolledBack
    case PadOf(c, name) =>
      id in s.store ==>
        && c < |sys.jobs| && name in sys.jobs[c].pads
        && (s.calls[c].thread.Working? || (s.calls[c].thread.Ended? && name in s.calls[c].thread.left))
  }

  ghost predicate Tidy(sys: System, s: State)
    requires |s.calls| == |sys.jobs|
  {
    forall id :: TidyFor(sys, s, id)
  }

  /** Phase, thread and lock of one call agree. */
  ghost predicate Coherent(sys: System, s: State, c: nat)
    requires c < |s.calls| == |sys.jobs|
  {
    var call := s.calls[c];
    && (call.rolledBack ==> call.phase == Done(false))
    && (Holds(call.phase) ==> var g := Group(sys, c); g.Ok? && g.value in s.locks && s.locks[g.value] == c)
    && match call.phase
       case Waiting => call.thread.Absent?
       case Done(_) => !Active(call.thread)
       case _ => Active(call.thread) || call.thread.Ended?
  }

  ghost predicate Held(sys: System, s: State, g: string)
    requires g in s.locks && |s.calls| == |sys.jobs|
  {
    s.locks[g] < |s.calls| && Holds(s.calls[s.locks[g]].phase) && Group(sys, s.locks[g]) == Ok(g)
  }

  ghost predicate Inv(sys: System, s: State)
    requires |s.calls| == |sys.jobs|
  {
    && (forall c :: 0 <= c < |s.calls| ==> Coherent(sys, s, c))
    && (forall g :: g in s.locks ==> Held(sys, s, g))
    && Tidy(sys, s)
  }

  lemma InvIsSafe(sys: System, s: State)
    requires |s.calls| == |sys.jobs| && Inv(sys, s)
    ensures Safe(sys, s)
  {
    forall c, d | 0 <= c < d < |s.calls| && Active(s.calls[c].thread) && Active(s.calls[d].thread)
      ensures Group(sys, c) != Group(sys, d)
    {
      assert Coherent(sys, s, c) && Coherent(sys, s, d);
    }
    forall c | 0 <= c < |s.calls| && s.calls[c].phase.Done?
      ensures !Active(s.calls[c].thread)
    {
      assert Coherent(sys, s, c);
    }
  }

  lemma InitialInv(sys: System)
    ensures Inv(sys, Initial(sys))
  {
    forall id
      ensures TidyFor(sys, Initial(sys), id)
    {
    }
  }

  lemma StepKeepsCoherent(sys: System, s: State, a: Step, c: nat)
    requires |s.calls| == |sys.jobs| && Can(sys, s, a) && Inv(sys, s) && !AbandonsThread(s, a) && c < |s.calls|
    ensures Coherent(sys, After(sys, s, a), c)
  {
    assert Coherent(sys, s, c);
    if !a.Drain? {
      assert Coherent(sys, s, a.c);
    }
  }

  lemma StepKeepsLocks(sys: System, s: State, a: Step, g: string)
    requires |s.calls| == |sys.jobs| && Can(sys, s, a) && Inv(sys, s) && !AbandonsThread(s, a)
    requires g in After(sys, s, a).locks
    ensures Held(sys, After(sys, s, a), g)
  {
    if g in s.locks {
      assert Held(sys, s, g);
    }
    if !a.Drain? {
      assert Coherent(sys, s, a.c);
    }
  }

  lemma StepKeepsTidy(sys: System, s: State, a: Step, id: Id)
    requires |s.calls| == |sys.jobs| && Can(sys, s, a) && Inv(sys, s) && !AbandonsThread(s, a)
    ensures TidyFor(sys, After(sys, s, a), id)
  {
    assert TidyFor(sys, s, id);
    if !a.Drain? {
      assert Coherent(sys, s, a.c);
    }
  }

  lemma StepKeepsInv(sys: System, s: State, a: Step)
    requires |s.calls| == |sys.jobs| && Can(sys, s, a) && Inv(sys, s) && !AbandonsThread(s, a)
    ensures Inv(sys, After(sys, s, a))
  {
    var t := After(sys, s, a);
    forall c | 0 <= c < |t.calls| ensures Coherent(sys, t, c) { StepKeepsCoherent(sys, s, a, c); }
    forall g | g in t.locks ensures Held(sys, t, g) { StepKeepsLocks(sys, s, a, g); }
    forall id ensures TidyFor(sys, t, id) { StepKeepsTidy(sys, s, a, id); }
  }

  // ----- whole runs -----

  ghost predicate NoThreadAbandoned(run: Run, n: nat)
    requires n <= |run.steps| <= |run.states|
  {
    forall i :: 0 <= i < n ==> !AbandonsThread(run.states[i], run.steps[i])
  }

  lemma {:induction false} InvAt(sys: System, run: Run, i: nat)
    requires IsRun(sys, run) && i <= |run.steps| && NoThreadAbandoned(run, i)
    ensures Inv(sys, run.states[i])
  {
    if i == 0 {
      InitialInv(sys);
    } else {
      InvAt(sys, run, i - 1);
      assert Move(sys, run.states[i - 1], run.steps[i - 1], run.states[i]);
      StepKeepsInv(sys, run.states[i - 1], run.steps[i - 1]);
    }
  }

  /** A call that abandons its thread is at once done with the thread alive. */
  lemma AbandonIsUnsafe(sys: System, s: State, a: Step)
    requires |s.calls| == |sys.jobs| && Can(sys, s, a) && AbandonsThread(s, a)
    ensures !Safe(sys, After(sys, s, a))
  {
    assert After(sys, s, a).calls[a.c].phase.Done?;
  }

  /** Every state of a run is safe exactly when no cancellation reaches a call
      that is draining a begun thread. */
  lemma SafetyExact(sys: System, run: Run)
    requires IsRun(sys, run)
    ensures (forall i :: 0 <= i <= |run.steps| ==> Safe(sys, run.states[i])) <==> NoThreadAbandoned(run, |run.steps|)
  {
    if NoThreadAbandoned(run, |run.steps|) {
      forall i | 0 <= i <= |run.steps|
        ensures Safe(sys, run.states[i])
      {
        InvAt(sys, run, i);
        InvIsSafe(sys, run.states[i]);
      }
    } else {
      var i :| 0 <= i < |run.steps| && AbandonsThread(run.states[i], run.steps[i]);
      assert Move(sys, run.states[i], run.steps[i], run.states[i + 1]);
      AbandonIsUnsafe(sys, run.states[i], run.steps[i]);
      assert !Safe(sys, run.states[i + 1]);
    }
  }

  ghost predicate CancelledBefore(run: Run, i: nat, c: nat)
    requires i <= |run.steps|
  {
    exists j :: 0 <= j < i && run.steps[j] == Cancel(c)
  }

  lemma DrainsOnlyByCancel(sys: System, s: State, a: Step, t: State, c: nat)
    requires Move(sys, s, a, t) && c < |sys.jobs| && t.calls[c].phase.Draining?
    ensures s.calls[c].phase.Draining? || a == Cancel(c)
  {
  }

  lemma {:induction false} DrainingWasCancelled(sys: System, run: Run, i: nat, c: nat)
    requires IsRun(sys, run) && i <= |run.steps| && c < |sys.jobs| && run.states[i].calls[c].phase.Draining?
    ensures CancelledBefore(run, i, c)
  {
    if i > 0 {
      DrainsOnlyByCancel(sys, run.states[i - 1], run.steps[i - 1], run.states[i], c);
      if run.steps[i - 1] != Cancel(c) {
        DrainingWasCancelled(sys, run, i - 1, c);
      }
    }
  }

  /** No call is cancelled twice. */
  ghost predicate CancelledOnce(run: Run) {
    forall i, j :: 0 <= i < j < |run.steps| && run.steps[i].Cancel? && run.steps[j].Cancel? ==>
        run.steps[i].c != run.steps[j].c
  }

  lemma CancelledOnceKeepsThreads(sys: System, run: Run)
    requires IsRun(sys, run) && CancelledOnce(run)
    ensures NoThreadAbandoned(run, |run.steps|)
  {
    forall i | 0 <= i < |run.steps|
      ensures !AbandonsThread(run.states[i], run.steps[i])
    {
      if AbandonsThread(run.states[i], run.steps[i]) {
        DrainingWasCancelled(sys, run, i, run.steps[i].c);
      }
    }
  }

  /** With at most one cancellation per call: one thread per physical group,
      no thread outlives its call, a thread's rows stay in the store while it
      is active, and rows rolled back stay away. */
  lemma CancelledOnceIsSafe(sys: System, run: Run, i: nat)
    requires IsRun(sys, run) && CancelledOnce(run) && i <= |run.steps|
    ensures var s := run.states[i];
            && Safe(sys, s) && Tidy(sys, s)
            && (forall c :: 0 <= c < |s.calls| && Active(s.calls[c].thread) ==> Rows(sys, c) <= s.store)
            && (forall c :: 0 <= c < |s.calls| && s.calls[c].rolledBack ==> Rows(sys, c) !! s.store)
  {
    CancelledOnceKeepsThreads(sys, run);
    InvAt(sys, run, i);
    var s := run.states[i];
    InvIsSafe(sys, s);
    forall c | 0 <= c < |s.calls|
      ensures Active(s.calls[c].thread) ==> Rows(sys, c) <= s.store
      ensures s.calls[c].rolledBack ==> Rows(sys, c) !! s.store
    {
      RowsOfCall(sys, s, c);
    }
  }

  lemma RowsOfCall(sys: System, s: State, c: nat)
    requires |s.calls| == |sys.jobs| && Inv(sys, s) && c < |s.calls|
    ensures Active(s.calls[c].thread) ==> Rows(sys, c) <= s.store
    ensures s.calls[c].rolledBack ==> Rows(sys, c) !! s.store
  {
    assert Coherent(sys, s, c);
    forall id | id in Rows(sys, c)
      ensures id in s.store <==> !s.calls[c].rolledBack
    {
      assert TidyFor(sys, s, id);
    }
  }

  // ----- a second cancellation -----

  function TwoCallsOneTeacher(): (sys: System) {
    System(Routing({"primary"}, map["math" := "primary", "code" := "primary"], {"math", "code"}, "", false),
           [Job(Some("math"), {"m"}, {}, 1), Job(Some("code"), {"k"}, {}, 1)], {})
  }

  /** The first call is cancelled twice, gives up its rows and its lock, and
      its thread runs on beside the second call's, restoring a row that was
      rolled back. */
  function Race(): (run: Run) {
    var waiting, queued := Call(Waiting, Absent, false), Call(Running, Queued, false);
    var working, fetched := Call(Running, Working(false), false), Call(Running, Working(true), false);
    var alone := Call(Done(false), Working(true), true);
    var kept, gone, none := {RowOf(0, "m"), RowOf(1, "k")}, {RowOf(1, "k")}, Metrics(0, 0);
    var free, first, second := map[], map["primary" := 0], map["primary" := 1];
    Run([Acquire(0), Begin(0), Fetch(0), Cancel(0), Cancel(0), Rollback(0), Acquire(1), Begin(1), Write(0, {"m"}, {})],
        [State([waiting, waiting], free, kept, none, none),
         State([queued, waiting], first, kept, none, none),
         State([working, waiting], first, kept, none, none),
         State([fetched, waiting], first, kept, none, none),
         State([Call(Draining, Working(true), false), waiting], first, kept, none, none),
         State([Call(Done(false), Working(true), false), waiting], free, kept, none, none),
         State([alone, waiting], free, gone, none, none),
         State([alone, queued], second, gone, none, none),
         State([alone, working], second, gone, none, none),
         State([alone, working], second, kept, none, none)])
  }

  /** A step is confirmed field by field. */
  lemma Confirm(sys: System, s: State, a: Step, t: State)
    requires |s.calls| == |sys.jobs| && Can(sys, s, a)
    requires After(sys, s, a).calls == t.calls && After(sys, s, a).locks == t.locks && After(sys, s, a).store == t.store
    requires After(sys, s, a).pending == t.pending && After(sys, s, a).reported == t.reported
    ensures Move(sys, s, a, t)
  {
  }

  /** Up to the second cancellation. */
  lemma RaceBegins(i: nat)
    requires i < 5
    ensures Move(TwoCallsOneTeacher(), Race().states[i], Race().steps[i], Race().states[i + 1])
  {
    var sys := TwoCallsOneTeacher();
    assert Group(sys, 0) == Ok("primary");
    Confirm(sys, Race().states[i], Race().steps[i], Race().states[i + 1]);
  }

  /** And from the rollback on. */
  lemma RaceEnds(i: nat)
    requires 5 <= i < 9
    ensures Move(TwoCallsOneTeacher(), Race().states[i], Race().steps[i], Race().states[i + 1])
  {
    var sys := TwoCallsOneTeacher();
    assert Group(sys, 1) == Ok("primary");
    Confirm(sys, Race().states[i], Race().steps[i], Race().states[i + 1]);
  }

  /** Two calls, two aliases, one teacher: both threads at work at once, and a
      row that was rolled back is in the store again. */
  lemma SecondCancellationRaces()
    ensures var sys, run := TwoCallsOneTeacher(), Race();
            && IsRun(sys, run) && Group(sys, 0) == Group(sys, 1)
            && var s := run.states[9];
            && s.calls[0].thread.Working? && s.calls[1].thread.Working?
            && s.calls[0].rolledBack && RowOf(0, "m") in s.store
  {
    var sys, run := TwoCallsOneTeacher(), Race();
    assert Initial(sys) == run.states[0] by {
      assert Initial(sys).calls == run.states[0].calls;
    }
    forall i | 0 <= i < 9
      ensures Move(sys, run.states[i], run.steps[i], run.states[i + 1])
    {
      if i < 5 {
        RaceBegins(i);
      } else {
        RaceEnds(i);
      }
    }
  }

  // ----- progress -----

  /** Steps of the program itself that bring a call nearer to its end. */
  predicate Advances(a: Step) {
    !a.Cancel? && !a.Write? && !a.Drain?
  }

  ghost predicate Settled(s: State) {
    forall c :: 0 <= c < |s.calls| ==> s.calls[c].phase.Done? && (s.calls[c].phase.returned || s.calls[c].rolledBack)
  }

  function HolderStep(call: Call, c: nat): (a: Step) {
    match call.thread
    case Queued => Begin(c)
    case Working(fetched) => if fetched then End(c, true, {}) else Fetch(c)
    case _ => Resume(c)
  }

  /** A run without abandoned threads never gets stuck: until everything is
      settled, some advancing step can be taken. */
  lemma HolderAdvances(sys: System, s: State, c: nat)
    requires |s.calls| == |sys.jobs| && Inv(sys, s) && c < |s.calls| && Holds(s.calls[c].phase)
    ensures Advances(HolderStep(s.calls[c], c)) && Can(sys, s, HolderStep(s.calls[c], c))
  {
    assert Coherent(sys, s, c);
    RowsOfCall(sys, s, c);
  }

  lemma NeverStuck(sys: System, s: State) returns (a: Step)
    requires |s.calls| == |sys.jobs| && Inv(sys, s) && !Settled(s)
    ensures Advances(a) && Can(sys, s, a)
  {
    var c :| 0 <= c < |s.calls| && !(s.calls[c].phase.Done? && (s.calls[c].phase.returned || s.calls[c].rolledBack));
    assert Coherent(sys, s, c);
    match s.calls[c].phase
    case Done(_) => a := Rollback(c);
    case Running => a := HolderStep(s.calls[c], c); HolderAdvances(sys, s, c);
    case Draining => a := HolderStep(s.calls[c], c); HolderAdvances(sys, s, c);
    case Waiting =>
      var g := Group(sys, c);
      if g.Err? {
        a := Reject(c);
      } else if g.value !in s.locks {
        a := Acquire(c);
      } else {
        assert Held(sys, s, g.value);
        a := HolderStep(s.calls[s.locks[g.value]], s.locks[g.value]);
        HolderAdvances(sys, s, s.locks[g.value]);
      }
  }

  function Rank(call: Call): (n: nat)
    ensures n <= 8
  {
    (match call.phase case Waiting => 3 case Running => 2 case Draining => 1 case Done(_) => 0)
    + (match call.thread case Absent => 4 case Queued => 3 case Working(f) => (if f then 1 else 2) case _ => 0)
    + (if call.rolledBack then 0 else 1)
  }

  function TotalRank(calls: seq<Call>): (n: nat)
    ensures n <= 8 * |calls|
  {
    if calls == [] then 0 else TotalRank(calls[..|calls| - 1]) + Rank(calls[|calls| - 1])
  }

  lemma {:induction false} RankUpdate(calls: seq<Call>, c: nat, call: Call)
    requires c < |calls|
    ensures TotalRank(calls[c := call]) == TotalRank(calls) - Rank(calls[c]) + Rank(call)
  {
    var init := calls[..|calls| - 1];
    if c == |calls| - 1 {
      assert calls[c := call][..c] == init;
    } else {
      RankUpdate(init, c, call);
      assert calls[c := call][..|calls| - 1] == init[c := call];
    }
  }

  /** The number of the first i steps that are neither writes nor metric drains. */
  function Effort(run: Run, i: nat): (n: nat)
    requires i <= |run.steps|
  {
    if i == 0 then 0 else Effort(run, i - 1) + (if run.steps[i - 1].Write? || run.steps[i - 1].Drain? then 0 else 1)
  }

  lemma OneCallMoves(sys: System, s: State, a: Step)
    requires |s.calls| == |sys.jobs| && Can(sys, s, a)
    ensures var t := After(sys, s, a);
            if a.Write? || a.Drain? then t.calls == s.calls
            else t.calls == s.calls[a.c := t.calls[a.c]] && Rank(t.calls[a.c]) < Rank(s.calls[a.c])
  {
  }

  lemma StepRank(sys: System, s: State, a: Step)
    requires |s.calls| == |sys.jobs| && Can(sys, s, a)
    ensures var t := After(sys, s, a);
            if a.Write? || a.Drain? then t.calls == s.calls else TotalRank(t.calls) < TotalRank(s.calls)
  {
    OneCallMoves(sys, s, a);
    if !a.Write? && !a.Drain? {
      RankUpdate(s.calls, a.c, After(sys, s, a).calls[a.c]);
    }
  }

  /** Eight steps per call are all a run has to offer, cancellations included. */
  lemma {:induction false} RunsAreShort(sys: System, run: Run, i: nat)
    requires IsRun(sys, run) && i <= |run.steps|
    ensures TotalRank(run.states[i].calls) + Effort(run, i) <= 8 * |sys.jobs|
  {
    if i > 0 {
      RunsAreShort(sys, run, i - 1);
      assert Move(sys, run.states[i - 1], run.steps[i - 1], run.states[i]);
      StepRank(sys, run.states[i - 1], run.steps[i - 1]);
    }
  }

  /** Once everything is settled and no cleanup failed, the store holds the
      other rows and those of the calls that returned, nothing else. */
  lemma SettledStore(sys: System, run: Run)
    requires IsRun(sys, run) && CancelledOnce(run)
    requires Settled(run.states[|run.steps|])
    requires forall i :: 0 <= i < |run.steps| && run.steps[i].End? ==> run.steps[i].left == {}
    ensures run.states[|run.steps|].store ==
            (set name | name in sys.others :: Foreign(name))
            + (set c, name | 0 <= c < |sys.jobs| && name in sys.jobs[c].rows
                && run.states[|run.steps|].calls[c].phase.returned :: RowOf(c, name))
  {
    CancelledOnceKeepsThreads(sys, run);
    InvAt(sys, run, |run.steps|);
    var s := run.states[|run.steps|];
    forall id
      ensures id in s.store <==>
              match id
              case Foreign(name) => name in sys.others
              case RowOf(c, name) => c < |sys.jobs| && name in sys.jobs[c].rows && s.calls[c].phase.returned
              case PadOf(_, _) => false
    {
      assert TidyFor(sys, s, id);
      if !id.Foreign? && id.call < |sys.jobs| {
        assert Coherent(sys, s, id.call);
        NothingLeft(sys, run, |run.steps|, id.call);
      }
    }
  }

  lemma EndIsClean(sys: System, s: State, a: Step, t: State, c: nat)
    requires Move(sys, s, a, t) && c < |sys.jobs| && (a.End? ==> a.left == {})
    requires s.calls[c].thread.Ended? ==> s.calls[c].thread.left == {}
    ensures t.calls[c].thread.Ended? ==> t.calls[c].thread.left == {}
  {
  }

  lemma {:induction false} NothingLeft(sys: System, run: Run, i: nat, c: nat)
    requires IsRun(sys, run) && i <= |run.steps| && c < |sys.jobs|
    requires forall i :: 0 <= i < |run.steps| && run.steps[i].End? ==> run.steps[i].left == {}
    ensures var t := run.states[i].calls[c].thread; t.Ended? ==> t.left == {}
  {
    if i > 0 {
      NothingLeft(sys, run, i - 1, c);
      EndIsClean(sys, run.states[i - 1], run.steps[i - 1], run.states[i], c);
    }
  }

  // ----- metrics -----

  /** Batches and samples of the calls that returned. */
  function Returned(sys: System, calls: seq<Call>, n: nat): (m: Metrics)
    requires n <= |calls| == |sys.jobs|
  {
    if n == 0 then Metrics(0, 0)
    else
      var last := if calls[n - 1].phase == Done(true) then Metrics(1, sys.jobs[n - 1].size) else Metrics(0, 0);
      Plus(Returned(sys, calls, n - 1), last)
  }

  lemma {:induction false} ReturnedUpdate(sys: System, calls: seq<Call>, c: nat, call: Call, n: nat)
    requires c < |calls| == |sys.jobs| && n <= |calls| && calls[c].phase != Done(true)
    ensures Returned(sys, calls[c := call], n)
            == Plus(Returned(sys, calls, n),
                    if c < n && call.phase == Done(true) then Metrics(1, sys.jobs[c].size) else Metrics(0, 0))
  {
    if n > 0 {
      ReturnedUpdate(sys, calls, c, call, n - 1);
    }
  }

  lemma {:induction false} NoneReturned(sys: System, calls: seq<Call>, n: nat)
    requires n <= |calls| == |sys.jobs| && forall c :: 0 <= c < n ==> calls[c].phase != Done(true)
    ensures Returned(sys, calls, n) == Metrics(0, 0)
  {
    if n > 0 {
      NoneReturned(sys, calls, n - 1);
    }
  }

  ghost predicate ReturnedEnded(s: State) {
    forall c :: 0 <= c < |s.calls| && s.calls[c].phase == Done(true) ==> s.calls[c].thread.Ended?
  }

  /** A call that has returned does not move again. */
  lemma StepReturnedEnded(sys: System, s: State, a: Step)
    requires |s.calls| == |sys.jobs| && Can(sys, s, a) && ReturnedEnded(s)
    ensures ReturnedEnded(After(sys, s, a))
    ensures a.Write? || a.Drain? || s.calls[a.c].phase != Done(true)
  {
  }

  /** What one step adds to the tally: a call that has just returned, once. */
  lemma StepTally(sys: System, s: State, a: Step)
    requires |s.calls| == |sys.jobs| && Can(sys, s, a) && (a.Drain? || a.Write? || s.calls[a.c].phase != Done(true))
    ensures var t := After(sys, s, a);
            Plus(t.reported, t.pending)
              == Plus(Plus(s.reported, s.pending),
                      if !a.Drain? && !a.Write? && t.calls[a.c].phase == Done(true) then Metrics(1, sys.jobs[a.c].size)
                      else Metrics(0, 0))
  {
  }

  /** Nothing is counted twice or lost: what all drains reported and what is
      pending add up to the calls that returned. */
  lemma {:induction false} MetricsConserved(sys: System, run: Run, i: nat)
    requires IsRun(sys, run) && i <= |run.steps|
    ensures ReturnedEnded(run.states[i])
    ensures Plus(run.states[i].reported, run.states[i].pending) == Returned(sys, run.states[i].calls, |sys.jobs|)
  {
    if i == 0 {
      NoneReturned(sys, run.states[0].calls, |sys.jobs|);
    } else {
      MetricsConserved(sys, run, i - 1);
      var s, a := run.states[i - 1], run.steps[i - 1];
      assert Move(sys, s, a, run.states[i]);
      StepReturnedEnded(sys, s, a);
      StepTally(sys, s, a);
      OneCallMoves(sys, s, a);
      if !a.Drain? && !a.Write? {
        ReturnedUpdate(sys, s.calls, a.c, run.states[i].calls[a.c], |sys.jobs|);
      }
    }
  }

  /** A run that has no advancing step left is settled: every call returned, or
      raised and was rolled back. */
  lemma MaximalRunsSettle(sys: System, run: Run)
    requires IsRun(sys, run) && CancelledOnce(run)
    requires forall a: Step :: Can(sys, run.states[|run.steps|], a) ==> !Advances(a)
    ensures Settled(run.states[|run.steps|])
  {
    CancelledOnceKeepsThreads(sys, run);
    InvAt(sys, run, |run.steps|);
    if !Settled(run.states[|run.steps|]) {
      var a := NeverStuck(sys, run.states[|run.steps|]);
    }
  }
}
