/** Pruning a config against its base (tools/config_cli.py:223-276) and what
    that does to the meaning of the config. */
module ConfigPrune {
  import opened ConfigTree
  import opened ConfigMerge

  datatype Pruned = Removed | Kept(value: Value)

  // ----- the code -----

  function Prune(a: Value, b: Value): (r: Pruned)
    decreases a, 1
  {
    if a.Dict? && b.Dict? then
      if Marked(a) then Kept(a) else Kept(Dict(PruneEntries(a.entries, b.entries)))
    else if Eq(a, b) then Removed
    else Kept(a)
  }

  /** Keys equal to the base's go, and so does whatever prunes to an empty container. */
  function PruneEntries(a: Entries, b: Entries): (r: Entries)
    decreases a, 0
  {
    match a
    case Nil => Nil
    case Cons(k, v, rest) =>
      var tail := PruneEntries(rest, b);
      if k !in Keys(b) then Cons(k, v, tail)
      else
        match Prune(v, Get(b, k))
        case Removed => tail
        case Kept(p) => if IsEmpty(p) then tail else Cons(k, p, tail)
  }

  predicate IsEmpty(v: Value) {
    v == NoEntries || v == NoItems
  }

  /** Whether the entry for a key survives. */
  predicate Survives(v: Value, b: Entries, k: string) {
    k !in Keys(b) || (Prune(v, Get(b, k)).Kept? && !IsEmpty(Prune(v, Get(b, k)).value))
  }

  lemma {:induction false} PruneFacts(a: Entries, b: Entries)
    requires Distinct(a)
    ensures var p := PruneEntries(a, b);
            && Keys(p) <= Keys(a)
            && Distinct(p)
            && (forall k :: k in Keys(a) ==> (k in Keys(p) <==> Survives(Get(a, k), b, k)))
            && (forall k :: k in Keys(p) ==>
                  Get(p, k) == if k in Keys(b) then Prune(Get(a, k), Get(b, k)).value else Get(a, k))
  {
    if a.Cons? {
      PruneFacts(a.rest, b);
    }
  }

  lemma {:induction false} PruneWellFormed(a: Value, b: Value)
    requires WellFormed(a)
    ensures Prune(a, b).Kept? ==> WellFormed(Prune(a, b).value)
    decreases a, 1
  {
    if a.Dict? && b.Dict? && !Marked(a) {
      PruneFacts(a.entries, b.entries);
      PruneEntriesWellFormed(a.entries, b.entries);
    }
  }

  lemma {:induction false} PruneEntriesWellFormed(a: Entries, b: Entries)
    requires WellFormedEntries(a)
    ensures WellFormedEntries(PruneEntries(a, b))
    decreases a, 0
  {
    if a.Cons? {
      PruneEntriesWellFormed(a.rest, b);
      if a.key in Keys(b) {
        PruneWellFormed(a.value, Get(b, a.key));
      }
    }
  }

  // ----- when something is lost -----

  /** The child empties a list, or writes {} over something that is no mapping:
      the pruned value is an empty container, which is dropped like a redundant
      one although the base holds something else. */
  predicate Erases(v: Value, b: Value) {
    (v == NoItems && b != NoItems) || (v == NoEntries && !b.Dict?)
  }

  /** Some value inside, outside override sections and lists, erases its base, or
      is an empty container in the place of a marker that merging pops. */
  predicate Lossy(a: Value, raw: Value, full: Value)
    decreases a, 1
  {
    a.Dict? && raw.Dict? && full.Dict? && !Marked(a) && LossyEntries(a.entries, raw.entries, full.entries)
  }

  predicate LossyEntries(a: Entries, raw: Entries, full: Entries)
    decreases a, 0
  {
    match a
    case Nil => false
    case Cons(k, v, rest) =>
      || (k in Keys(raw) &&
          if k in Keys(full) then Erases(v, Get(raw, k)) || Lossy(v, Get(raw, k), Get(full, k)) else IsEmpty(v))
      || LossyEntries(rest, raw, full)
  }

  predicate LossyAt(a: Entries, raw: Entries, full: Entries, k: string) {
    && k in Keys(a) && k in Keys(raw)
    && if k in Keys(full) then Erases(Get(a, k), Get(raw, k)) || Lossy(Get(a, k), Get(raw, k), Get(full, k))
       else IsEmpty(Get(a, k))
  }

  lemma {:induction false} LossyMeans(a: Entries, raw: Entries, full: Entries)
    requires Distinct(a)
    ensures LossyEntries(a, raw, full) <==> exists k :: LossyAt(a, raw, full, k)
  {
    if a.Cons? {
      LossyMeans(a.rest, raw, full);
      forall k | k in Keys(a.rest)
        ensures LossyAt(a, raw, full, k) <==> LossyAt(a.rest, raw, full, k)
      {
      }
      assert LossyEntries(a, raw, full) <==> LossyAt(a, raw, full, a.key) || LossyEntries(a.rest, raw, full);
      if exists k :: LossyAt(a.rest, raw, full, k) {
        var k :| LossyAt(a.rest, raw, full, k);
        assert LossyAt(a, raw, full, k);
      }
    }
  }

  // ----- the base pruned against, and the base merged onto -----

  /** What the raw base says, the expanded base says too: mappings key by key,
      except that a truthy override marker may have been popped. */
  predicate Covers(raw: Value, full: Value)
    decreases raw, 1
  {
    if raw.Dict? then full.Dict? && CoversEntries(raw.entries, full.entries) else full == raw
  }

  predicate CoversEntries(raw: Entries, full: Entries)
    decreases raw, 0
  {
    match raw
    case Nil => true
    case Cons(k, v, rest) =>
      && (if k in Keys(full) then Covers(v, Get(full, k)) else PoppedMarker(k, v))
      && CoversEntries(rest, full)
  }

  predicate PoppedMarker(k: string, v: Value) {
    k == OVERRIDE && Truthy(v)
  }

  predicate CoversAt(raw: Entries, full: Entries, k: string)
    requires k in Keys(raw)
  {
    if k in Keys(full) then Covers(Get(raw, k), Get(full, k)) else PoppedMarker(k, Get(raw, k))
  }

  lemma {:induction false} CoversMeans(raw: Entries, full: Entries)
    requires Distinct(raw)
    ensures CoversEntries(raw, full) <==> forall k :: k in Keys(raw) ==> CoversAt(raw, full, k)
  {
    if raw.Cons? {
      CoversMeans(raw.rest, full);
      forall k | k in Keys(raw.rest)
        ensures CoversAt(raw, full, k) <==> CoversAt(raw.rest, full, k)
      {
      }
      assert CoversAt(raw, full, raw.key) <==>
               if raw.key in Keys(full) then Covers(raw.value, Get(full, raw.key))
               else PoppedMarker(raw.key, raw.value);
    }
  }

  lemma {:induction false} CoversReflexive(v: Value)
    requires WellFormed(v)
    ensures Covers(v, v)
  {
    if v.Dict? {
      forall k | k in Keys(v.entries)
        ensures CoversAt(v.entries, v.entries, k)
      {
        WellFormedGet(v.entries, k);
        CoversReflexive(Get(v.entries, k));
      }
      CoversMeans(v.entries, v.entries);
    }
  }

  // ----- pruning preserves meaning, exactly when it is not lossy -----

  /** The expanded base under a pruned value. */
  function After(full: Value, p: Pruned): (v: Value) {
    match p
    case Removed => full
    case Kept(v) => if IsEmpty(v) then full else Merge(full, v)
  }

  ghost predicate Situation(a: Value, raw: Value, full: Value) {
    WellFormed(a) && WellFormed(raw) && WellFormed(full) && Covers(raw, full)
  }

  /** The child's entry under a key of the raw base, one level down. */
  lemma Below(a: Value, raw: Value, full: Value, k: string)
    requires Situation(a, raw, full) && a.Dict? && raw.Dict? && k in Keys(a.entries) && k in Keys(raw.entries)
    ensures k in Keys(full.entries) ==> Situation(Get(a.entries, k), Get(raw.entries, k), Get(full.entries, k))
    ensures k !in Keys(full.entries) ==> PoppedMarker(k, Get(raw.entries, k))
  {
    WellFormedGet(a.entries, k);
    WellFormedGet(raw.entries, k);
    CoversMeans(raw.entries, full.entries);
    assert CoversAt(raw.entries, full.entries, k);
    if k in Keys(full.entries) {
      WellFormedGet(full.entries, k);
    }
  }

  /** A falsy marker never equals the truthy one that was popped. */
  lemma FalsyMarkerSurvives(a: Value, raw: Value, k: string)
    requires a.Dict? && raw.Dict? && !Marked(a) && k in Keys(a.entries) && k in Keys(raw.entries)
    requires PoppedMarker(k, Get(raw.entries, k))
    ensures var v, b := Get(a.entries, k), Get(raw.entries, k);
            Prune(v, b) == Kept(v)
  {
    var v, b := Get(a.entries, k), Get(raw.entries, k);
    if Eq(v, b) {
      EqTruthy(v, b);
    }
    if v.Dict? {
      assert v == NoEntries;
    }
  }

  /** Key order depends only on the keys the base does not have, and those are
      never pruned. */
  lemma {:induction false} PruneKeepsOrder(a: Entries, raw: Entries, known: set<string>)
    requires forall k :: k in Keys(a) && k in Keys(raw) && k !in known ==> k in Keys(PruneEntries(a, raw))
    requires Distinct(a)
    ensures KeyOrder(Fresh(PruneEntries(a, raw), known)) == KeyOrder(Fresh(a, known))
  {
    if a.Cons? {
      PruneFacts(a, raw);
      PruneFacts(a.rest, raw);
      PruneKeepsOrder(a.rest, raw, known);
    }
  }

  lemma {:induction false} PrunePreserves(a: Value, raw: Value, full: Value)
    requires Situation(a, raw, full) && !Erases(a, raw) && !Lossy(a, raw, full)
    ensures Same(After(full, Prune(a, raw)), Merge(full, a))
    decreases a, 2
  {
    MergeWellFormed(full, a);
    if a.Dict? && raw.Dict? && !Marked(a) {
      PrunePreservesDict(a, raw, full);
      MergeNothing(full.entries);
    } else if !raw.Dict? && Eq(a, raw) {
      EqSymmetric(a, raw);
    } else {
      SameReflexive(Merge(full, a));
    }
  }

  /** A key whose marker was popped from the base keeps its falsy value. */
  lemma PoppedKept(a: Value, raw: Value, full: Value, k: string)
    requires Situation(a, raw, full) && a.Dict? && raw.Dict? && !Marked(a) && !Lossy(a, raw, full)
    requires k in Keys(a.entries) && k in Keys(raw.entries) && k !in Keys(full.entries)
    ensures var p := PruneEntries(a.entries, raw.entries); k in Keys(p) && Get(p, k) == Get(a.entries, k)
  {
    PruneFacts(a.entries, raw.entries);
    LossyMeans(a.entries, raw.entries, full.entries);
    assert !LossyAt(a.entries, raw.entries, full.entries, k);
    Below(a, raw, full, k);
    FalsyMarkerSurvives(a, raw, k);
  }

  /** Under one key, merging the pruned entries gives what merging all gives. */
  lemma {:induction false} PreservedAt(a: Value, raw: Value, full: Value, k: string)
    requires Situation(a, raw, full) && a.Dict? && raw.Dict? && !Marked(a) && !Lossy(a, raw, full)
    requires k in Keys(full.entries) || k in Keys(a.entries)
    ensures var before := MergeEntries(full.entries, a.entries);
            var after := MergeEntries(full.entries, PruneEntries(a.entries, raw.entries));
            k in Keys(before) && k in Keys(after) && Same(Get(after, k), Get(before, k))
    decreases a, 0
  {
    var c, r, e := a.entries, raw.entries, full.entries;
    var p := PruneEntries(c, r);
    PruneFacts(c, r);
    MergeFacts(e, p);
    MergeFacts(e, c);
    MergeWellFormed(full, a);
    WellFormedGet(MergeEntries(e, c), k);
    SameReflexive(Get(MergeEntries(e, c), k));
    if k in Keys(c) && k in Keys(r) {
      if k in Keys(e) {
        LossyMeans(c, r, e);
        assert !LossyAt(c, r, e, k);
        Below(a, raw, full, k);
        PrunePreserves(Get(c, k), Get(r, k), Get(e, k));
      } else {
        PoppedKept(a, raw, full, k);
      }
    }
  }

  lemma {:induction false} PrunePreservesDict(a: Value, raw: Value, full: Value)
    requires Situation(a, raw, full) && a.Dict? && raw.Dict? && !Marked(a) && !Lossy(a, raw, full)
    ensures Same(Merge(full, Dict(PruneEntries(a.entries, raw.entries))), Merge(full, a))
    decreases a, 1
  {
    var c, r, e := a.entries, raw.entries, full.entries;
    var p := PruneEntries(c, r);
    PruneFacts(c, r);
    MergeFacts(e, p);
    MergeFacts(e, c);
    forall k | k in Keys(c) && k in Keys(r) && k !in Keys(e)
      ensures k in Keys(p)
    {
      PoppedKept(a, raw, full, k);
    }
    PruneKeepsOrder(c, r, Keys(e));
    MergeWellFormed(full, a);
    forall k | k in Keys(e) + Keys(c)
      ensures k in Keys(MergeEntries(e, p)) && Same(Get(MergeEntries(e, p), k), Get(MergeEntries(e, c), k))
    {
      PreservedAt(a, raw, full, k);
    }
    SameDicts(MergeEntries(e, p), MergeEntries(e, c));
  }

  lemma {:induction false} LossyChanges(a: Value, raw: Value, full: Value)
    requires Situation(a, raw, full) && (Erases(a, raw) || Lossy(a, raw, full))
    ensures !Eq(After(full, Prune(a, raw)), Merge(full, a))
    decreases a, 2
  {
    if !Erases(a, raw) {
      LossyChangesDict(a, raw, full);
      MergeNothing(full.entries);
    }
  }

  /** Under a lossy key the results differ. */
  lemma {:induction false} LossyChangesAt(a: Value, raw: Value, full: Value, k: string)
    requires Situation(a, raw, full) && a.Dict? && raw.Dict? && !Marked(a)
              && LossyAt(a.entries, raw.entries, full.entries, k)
    ensures var before := MergeEntries(full.entries, a.entries);
            var after := MergeEntries(full.entries, PruneEntries(a.entries, raw.entries));
            k in Keys(before) && !(k in Keys(after) && Eq(Get(after, k), Get(before, k)))
    decreases a, 0
  {
    var c, r, e := a.entries, raw.entries, full.entries;
    PruneFacts(c, r);
    MergeFacts(e, PruneEntries(c, r));
    MergeFacts(e, c);
    Below(a, raw, full, k);
    if k in Keys(e) {
      LossyChanges(Get(c, k), Get(r, k), Get(e, k));
    } else {
      FalsyMarkerSurvives(a, raw, k);
    }
  }

  lemma {:induction false} LossyChangesDict(a: Value, raw: Value, full: Value)
    requires Situation(a, raw, full) && Lossy(a, raw, full)
    ensures !Eq(Merge(full, Dict(PruneEntries(a.entries, raw.entries))), Merge(full, a))
    decreases a, 1
  {
    var c, r, e := a.entries, raw.entries, full.entries;
    LossyMeans(c, r, e);
    var k :| LossyAt(c, r, e, k);
    LossyChangesAt(a, raw, full, k);
    PruneFacts(c, r);
    MergeFacts(e, PruneEntries(c, r));
    MergeFacts(e, c);
    EqDicts(MergeEntries(e, PruneEntries(c, r)), MergeEntries(e, c));
  }

  // ----- pruning twice -----

  lemma PrunedStaysUnmarked(a: Entries, b: Entries)
    requires Distinct(a) && !Marked(Dict(a))
    ensures !Marked(Dict(PruneEntries(a, b)))
  {
    PruneFacts(a, b);
  }

  lemma {:induction false} PruneIdempotent(a: Value, b: Value)
    requires WellFormed(a) && Prune(a, b).Kept?
    ensures Prune(Prune(a, b).value, b) == Prune(a, b)
    decreases a, 1
  {
    if a.Dict? && b.Dict? && !Marked(a) {
      PruneEntriesIdempotent(a.entries, b.entries);
      PrunedStaysUnmarked(a.entries, b.entries);
    }
  }

  lemma {:induction false} PruneEntriesIdempotent(a: Entries, b: Entries)
    requires WellFormedEntries(a)
    ensures PruneEntries(PruneEntries(a, b), b) == PruneEntries(a, b)
    decreases a, 0
  {
    if a.Cons? {
      PruneEntriesIdempotent(a.rest, b);
      if a.key in Keys(b) && Prune(a.value, Get(b, a.key)).Kept? {
        PruneIdempotent(a.value, Get(b, a.key));
      }
    }
  }

  /** Every entry of e is in b. */
  ghost predicate Agrees(e: Entries, b: Entries) {
    forall k :: k in Keys(e) ==> k in Keys(b) && Get(b, k) == Get(e, k)
  }

  /** What a value leaves when pruned against itself, its override sections, stays
      when pruned against itself again. */
  lemma {:induction false} SelfPruned(v: Value)
    requires WellFormed(v) && Prune(v, v).Kept?
    ensures var p := Prune(v, v).value; Prune(p, p) == Kept(p)
    decreases v, 1
  {
    EqReflexive(v);
    if !Marked(v) {
      PrunedStaysUnmarked(v.entries, v.entries);
      SelfPrunedEntries(v.entries, v.entries, PruneEntries(v.entries, v.entries));
    }
  }

  lemma {:induction false} SelfPrunedEntries(e: Entries, b: Entries, after: Entries)
    requires WellFormedEntries(e) && Distinct(e) && Agrees(e, b) && Agrees(PruneEntries(e, b), after)
    ensures PruneEntries(PruneEntries(e, b), after) == PruneEntries(e, b)
    decreases e, 0
  {
    if e.Cons? {
      assert forall k :: k in Keys(e.rest) ==> Get(e, k) == Get(e.rest, k);
      assert Get(e, e.key) == e.value;
      PruneFacts(e, b);
      PruneFacts(e.rest, b);
      var p, q := PruneEntries(e, b), PruneEntries(e.rest, b);
      assert forall k :: k in Keys(q) ==> k in Keys(p) && Get(p, k) == Get(q, k);
      SelfPrunedEntries(e.rest, b, after);
      if Prune(e.value, e.value).Kept? {
        SelfPruned(e.value);
        assert p != q ==> Get(p, e.key) == Prune(e.value, e.value).value;
      }
    }
  }

  /** Outside override sections and lists, every entry is unknown to the base or
      differs from it: mappings inside, other values as a whole. */
  predicate Irredundant(p: Value, b: Value)
    decreases p, 1
  {
    if p.Dict? && b.Dict? then Marked(p) || IrredundantEntries(p.entries, b.entries) else !Eq(p, b)
  }

  predicate IrredundantEntries(p: Entries, b: Entries)
    decreases p, 0
  {
    match p
    case Nil => true
    case Cons(k, v, rest) =>
      && (k in Keys(b) ==> !IsEmpty(v) && Irredundant(v, Get(b, k)))
      && IrredundantEntries(rest, b)
  }

  lemma {:induction false} PruneIrredundant(a: Value, b: Value)
    requires Prune(a, b).Kept?
    ensures Irredundant(Prune(a, b).value, b)
    decreases a, 1
  {
    if a.Dict? && b.Dict? && !Marked(a) {
      PruneEntriesIrredundant(a.entries, b.entries);
    }
  }

  lemma {:induction false} PruneEntriesIrredundant(a: Entries, b: Entries)
    ensures IrredundantEntries(PruneEntries(a, b), b)
    decreases a, 0
  {
    if a.Cons? {
      PruneEntriesIrredundant(a.rest, b);
      if a.key in Keys(b) && Prune(a.value, Get(b, a.key)).Kept? {
        PruneIrredundant(a.value, Get(b, a.key));
      }
    }
  }

  // ----- the same with override markers honoured by the merge -----

  /** The pruned config, as a mapping again. */
  function PruneRoot(c: Entries, b: Entries): (p: Entries) {
    Prune(Dict(c), Dict(b)).value.entries
  }

  lemma PruneKeepsMarks(v: Value, b: Value)
    requires WellFormed(v)
    ensures Marked(v) ==> Prune(v, b) == Kept(v)
    ensures !Marked(v) && Prune(v, b).Kept? ==> !Marked(Prune(v, b).value)
  {
    if Marked(v) && !b.Dict? {
      assert !Eq(v, b);
    }
    if v.Dict? && b.Dict? && !Marked(v) {
      PrunedStaysUnmarked(v.entries, b.entries);
    }
  }

  /** Pruning leaves the override sections alone, so the same sections are replaced. */
  lemma {:induction false} SameSectionsReplaced(base: Entries, c: Entries, r: Entries)
    requires WellFormedEntries(c)
    ensures Unreplaced(base, PruneEntries(c, r)) == Unreplaced(base, c)
    decreases c
  {
    if c.Cons? {
      SameSectionsReplaced(if Marked(c.value) then Remove(base, c.key) else base, c.rest, r);
      if c.key in Keys(r) {
        PruneKeepsMarks(c.value, Get(r, c.key));
      }
    }
  }

  /** What pruning makes of one entry. */
  function PrunedEntry(k: string, v: Value, b: Entries, tail: Entries): (r: Entries) {
    if k !in Keys(b) then Cons(k, v, tail)
    else
      match Prune(v, Get(b, k))
      case Removed => tail
      case Kept(p) => if IsEmpty(p) then tail else Cons(k, p, tail)
  }

  /** An entry is stripped before or after pruning, if an override section finds
      no counterpart in the base and any other entry the same one. */
  lemma StripEntry(k: string, v: Value, r: Entries, r1: Entries, tail: Entries)
    requires WellFormed(v)
    requires Counterpart(k, v, r, r1)
    ensures Strip(PrunedEntry(k, v, r, tail)) == PrunedEntry(k, StripMarker(v), r1, Strip(tail))
  {
    if k in Keys(r) {
      PruneKeepsMarks(v, Get(r, k));
    }
  }

  /** The base holds under k what it held before, or nothing for an override section. */
  ghost predicate Counterpart(k: string, v: Value, r: Entries, r1: Entries) {
    if Marked(v) then k !in Keys(r1)
    else (k in Keys(r) <==> k in Keys(r1)) && (k in Keys(r) ==> Get(r, k) == Get(r1, k))
  }

  /** Stripping markers commutes with pruning, if the override sections are
      taken out of the base. */
  lemma {:induction false} StripCommutes(c: Entries, r: Entries, r1: Entries)
    requires WellFormedEntries(c) && Distinct(c)
    requires forall k :: k in Keys(c) ==> Counterpart(k, Get(c, k), r, r1)
    ensures Strip(PruneEntries(c, r)) == PruneEntries(Strip(c), r1)
    decreases c
  {
    if c.Cons? {
      assert Counterpart(c.key, Get(c, c.key), r, r1);
      forall k | k in Keys(c.rest)
        ensures Counterpart(k, Get(c.rest, k), r, r1)
      {
        assert Get(c, k) == Get(c.rest, k);
      }
      StripCommutes(c.rest, r, r1);
      StripEntry(c.key, c.value, r, r1, PruneEntries(c.rest, r));
      PruneStep(c, r);
      PruneStep(Strip(c), r1);
    }
  }

  lemma PruneStep(c: Entries, b: Entries)
    requires c.Cons?
    ensures PruneEntries(c, b) == PrunedEntry(c.key, c.value, b, PruneEntries(c.rest, b))
  {
  }

  lemma CoversUnreplaced(c: Entries, raw: Entries, full: Entries)
    requires Distinct(c) && Distinct(raw) && Covers(Dict(raw), Dict(full))
    ensures Covers(Dict(Unreplaced(raw, c)), Dict(Unreplaced(full, c)))
  {
    var raw1, full1 := Unreplaced(raw, c), Unreplaced(full, c);
    CoversMeans(raw, full);
    UnreplacedKeys(raw, c);
    UnreplacedKeys(full, c);
    forall k | k in Keys(raw1)
      ensures CoversAt(raw1, full1, k)
    {
      assert CoversAt(raw, full, k);
    }
    CoversMeans(raw1, full1);
  }

  lemma LossyAtStripped(c: Entries, raw: Entries, full: Entries, k: string)
    requires Distinct(c)
    ensures LossyAt(Strip(c), Unreplaced(raw, c), Unreplaced(full, c), k) <==> LossyAt(c, raw, full, k)
  {
    UnreplacedKeys(raw, c);
    UnreplacedKeys(full, c);
    if k in Keys(c) && Marked(Get(c, k)) {
      assert !IsEmpty(Get(c, k));
    }
  }

  lemma LossyStripped(c: Entries, raw: Entries, full: Entries)
    requires Distinct(c)
    ensures LossyEntries(Strip(c), Unreplaced(raw, c), Unreplaced(full, c)) <==> LossyEntries(c, raw, full)
  {
    LossyMeans(c, raw, full);
    LossyMeans(Strip(c), Unreplaced(raw, c), Unreplaced(full, c));
    forall k
      ensures LossyAt(Strip(c), Unreplaced(raw, c), Unreplaced(full, c), k) <==> LossyAt(c, raw, full, k)
    {
      LossyAtStripped(c, raw, full, k);
    }
  }

  lemma StripKeepsUnmarked(c: Entries)
    requires !Marked(Dict(c))
    ensures !Marked(Dict(Strip(c)))
  {
    if OVERRIDE in Keys(c) {
      assert !Marked(Get(c, OVERRIDE));
    }
  }

  /** The inputs of MinimizePreserves. */
  ghost predicate Minimizable(c: Entries, raw: Entries, full: Entries) {
    WellFormed(Dict(c)) && WellFormed(Dict(raw)) && WellFormed(Dict(full)) && Covers(Dict(raw), Dict(full))
  }

  /** Markers out of the way: merging with markers is merging the stripped config
      onto the base without the sections it replaces, before and after pruning. */
  lemma WithoutMarkers(c: Entries, raw: Entries, full: Entries)
    requires Minimizable(c, raw, full) && !Marked(Dict(c))
    ensures var c1, raw1, full1 := Strip(c), Unreplaced(raw, c), Unreplaced(full, c);
            && Situation(Dict(c1), Dict(raw1), Dict(full1)) && !Marked(Dict(c1))
            && Dict(MergeOverride(full, c)) == Merge(Dict(full1), Dict(c1))
            && Dict(MergeOverride(full, PruneEntries(c, raw))) == Merge(Dict(full1), Dict(PruneEntries(c1, raw1)))
  {
    SameSectionsReplaced(full, c, raw);
    UnreplacedKeys(raw, c);
    StripCommutes(c, raw, Unreplaced(raw, c));
    CoversUnreplaced(c, raw, full);
    StripKeepsUnmarked(c);
    StripWellFormed(c);
    UnreplacedWellFormed(raw, c);
    UnreplacedWellFormed(full, c);
  }

  /** Minimizing a config keeps what it means on top of its expanded base, under
      Python's ==, exactly when the config is not lossy; then even the key order
      outside lists is kept. */
  lemma MinimizePreserves(c: Entries, raw: Entries, full: Entries)
    requires Minimizable(c, raw, full)
    ensures var before, after := Dict(MergeOverride(full, c)), Dict(MergeOverride(full, PruneRoot(c, raw)));
            && (Eq(after, before) <==> !Lossy(Dict(c), Dict(raw), Dict(full)))
            && (!Lossy(Dict(c), Dict(raw), Dict(full)) ==> Same(after, before))
  {
    MergeOverrideWellFormed(full, c);
    if Marked(Dict(c)) {
      SameReflexive(Dict(MergeOverride(full, c)));
      EqReflexive(Dict(MergeOverride(full, c)));
    } else {
      MinimizeUnmarked(c, raw, full);
    }
  }

  lemma MinimizeUnmarked(c: Entries, raw: Entries, full: Entries)
    requires Minimizable(c, raw, full) && !Marked(Dict(c))
    ensures var before, after := Dict(MergeOverride(full, c)), Dict(MergeOverride(full, PruneEntries(c, raw)));
            && (Eq(after, before) <==> !Lossy(Dict(c), Dict(raw), Dict(full)))
            && (!Lossy(Dict(c), Dict(raw), Dict(full)) ==> Same(after, before))
  {
    var c1, raw1, full1 := Strip(c), Unreplaced(raw, c), Unreplaced(full, c);
    WithoutMarkers(c, raw, full);
    LossyStripped(c, raw, full);
    if Lossy(Dict(c), Dict(raw), Dict(full)) {
      LossyChangesDict(Dict(c1), Dict(raw1), Dict(full1));
    } else {
      PrunePreservesDict(Dict(c1), Dict(raw1), Dict(full1));
      MergeWellFormed(Dict(full1), Dict(c1));
      PruneWellFormed(Dict(c1), Dict(raw1));
      MergeWellFormed(Dict(full1), Dict(PruneEntries(c1, raw1)));
      SameImpliesEq(Merge(Dict(full1), Dict(PruneEntries(c1, raw1))), Merge(Dict(full1), Dict(c1)));
    }
  }

  /** Emptying a list is lost. */
  lemma LossyListExample()
    ensures var base, child := Cons("a", List(Item(Leaf(Int(1)), Empty)), Nil), Cons("a", NoItems, Nil);
            && PruneRoot(child, base) == Nil && MergeOverride(base, PruneRoot(child, base)) == base
            && MergeOverride(base, child) == child
  {
    var base, child := Cons("a", List(Item(Leaf(Int(1)), Empty)), Nil), Cons("a", NoItems, Nil);
    assert PruneEntries(child, base) == Nil;
    MergeNothing(base);
    assert MergeEntries(base, child) == child;
  }

  /** So is {} over a scalar. */
  lemma LossyScalarExample()
    ensures var base, child := Cons("b", Leaf(Int(1)), Nil), Cons("b", NoEntries, Nil);
            && PruneRoot(child, base) == Nil && MergeOverride(base, PruneRoot(child, base)) == base
            && MergeOverride(base, child) == child
  {
    var base, child := Cons("b", Leaf(Int(1)), Nil), Cons("b", NoEntries, Nil);
    assert PruneEntries(child, base) == Nil;
    MergeNothing(base);
    assert MergeEntries(base, child) == child;
  }

  /** The third way: {} as a falsy marker, over a truthy marker that is a mapping
      and that merging pops from the base. */
  lemma LossyMarkerExample()
    ensures var raw := Cons("a", Dict(Cons(OVERRIDE, Dict(Cons("x", Leaf(Int(1)), Nil)), Nil)), Nil);
            var child := Cons("a", Dict(Cons(OVERRIDE, NoEntries, Nil)), Nil);
            && Strip(raw) == Cons("a", NoEntries, Nil)
            && PruneRoot(child, raw) == Nil && MergeOverride(Strip(raw), PruneRoot(child, raw)) == Strip(raw)
            && MergeOverride(Strip(raw), child) == child
  {
    var raw := Cons("a", Dict(Cons(OVERRIDE, Dict(Cons("x", Leaf(Int(1)), Nil)), Nil)), Nil);
    var child := Cons("a", Dict(Cons(OVERRIDE, NoEntries, Nil)), Nil);
    assert Strip(raw) == Cons("a", NoEntries, Nil);
    MergeNothing(Strip(raw));
    MergeOntoEmpty(child.value.entries);
    assert !Marked(child.value);
    assert Unreplaced(Strip(raw), child) == Strip(raw);
    assert MergeEntries(Strip(raw), child) == child;
  }
}
