/** When minimizing keeps a config to the letter (tools/config_cli.py:234-276). */
module ConfigExact {
  import opened ConfigTree
  import opened ConfigMerge
  import opened ConfigPrune

  // ConfigPrune speaks of Python's ==, which takes 1, 1.0 and true for one number
  // and ignores the order of keys. Here trees are equal when they print alike.

  /** The child writes what == takes for the base's value, but what is printed
      otherwise: a number of another type, or a list with such a number or with a
      mapping in another key order. It is dropped as redundant. */
  predicate Recast(v: Value, b: Value) {
    !(v.Dict? && b.Dict?) && Eq(v, b) && v != b
  }

  /** Some value inside, outside override sections, recasts its base. */
  predicate Inexact(a: Value, raw: Value, full: Value)
    decreases a, 1
  {
    a.Dict? && raw.Dict? && full.Dict? && !Marked(a) && InexactEntries(a.entries, raw.entries, full.entries)
  }

  predicate InexactEntries(a: Entries, raw: Entries, full: Entries)
    decreases a, 0
  {
    match a
    case Nil => false
    case Cons(k, v, rest) =>
      || (k in Keys(raw) && k in Keys(full) && (Recast(v, Get(raw, k)) || Inexact(v, Get(raw, k), Get(full, k))))
      || InexactEntries(rest, raw, full)
  }

  predicate InexactAt(a: Entries, raw: Entries, full: Entries, k: string) {
    && k in Keys(a) && k in Keys(raw) && k in Keys(full)
    && (Recast(Get(a, k), Get(raw, k)) || Inexact(Get(a, k), Get(raw, k), Get(full, k)))
  }

  lemma {:induction false} InexactMeans(a: Entries, raw: Entries, full: Entries)
    requires Distinct(a)
    ensures InexactEntries(a, raw, full) <==> exists k :: InexactAt(a, raw, full, k)
  {
    if a.Cons? {
      InexactMeans(a.rest, raw, full);
      forall k | k in Keys(a.rest)
        ensures InexactAt(a, raw, full, k) <==> InexactAt(a.rest, raw, full, k)
      {
      }
      assert InexactEntries(a, raw, full) <==> InexactAt(a, raw, full, a.key) || InexactEntries(a.rest, raw, full);
      if exists k :: InexactAt(a.rest, raw, full, k) {
        var k :| InexactAt(a.rest, raw, full, k);
        assert InexactAt(a, raw, full, k);
      }
    }
  }

  // ----- nothing lost, nothing recast: the very same tree -----

  lemma {:induction false} PruneExact(a: Value, raw: Value, full: Value)
    requires Situation(a, raw, full) && !Erases(a, raw) && !Lossy(a, raw, full)
    requires !Recast(a, raw) && !Inexact(a, raw, full)
    ensures After(full, Prune(a, raw)) == Merge(full, a)
    decreases a, 2
  {
    if a.Dict? && raw.Dict? && !Marked(a) {
      PruneExactDict(a, raw, full);
      MergeNothing(full.entries);
    }
  }

  lemma {:induction false} ExactAt(a: Value, raw: Value, full: Value, k: string)
    requires Situation(a, raw, full) && a.Dict? && raw.Dict? && !Marked(a)
    requires !Lossy(a, raw, full) && !Inexact(a, raw, full)
    requires k in Keys(full.entries) || k in Keys(a.entries)
    ensures var before := MergeEntries(full.entries, a.entries);
            var after := MergeEntries(full.entries, PruneEntries(a.entries, raw.entries));
            k in Keys(before) && k in Keys(after) && Get(after, k) == Get(before, k)
    decreases a, 0
  {
    var c, r, e := a.entries, raw.entries, full.entries;
    PruneFacts(c, r);
    MergeFacts(e, PruneEntries(c, r));
    MergeFacts(e, c);
    if k in Keys(c) && k in Keys(r) {
      if k in Keys(e) {
        LossyMeans(c, r, e);
        InexactMeans(c, r, e);
        assert !LossyAt(c, r, e, k) && !InexactAt(c, r, e, k);
        Below(a, raw, full, k);
        PruneExact(Get(c, k), Get(r, k), Get(e, k));
      } else {
        PoppedKept(a, raw, full, k);
      }
    }
  }

  lemma {:induction false} PruneExactDict(a: Value, raw: Value, full: Value)
    requires Situation(a, raw, full) && a.Dict? && raw.Dict? && !Marked(a)
    requires !Lossy(a, raw, full) && !Inexact(a, raw, full)
    ensures Merge(full, Dict(PruneEntries(a.entries, raw.entries))) == Merge(full, a)
    decreases a, 1
  {
    var c, e := a.entries, full.entries;
    var p := PruneEntries(c, raw.entries);
    PrunePreservesDict(a, raw, full);
    PruneWellFormed(a, raw);
    MergeWellFormed(full, a);
    MergeWellFormed(full, Dict(p));
    forall k | k in Keys(MergeEntries(e, p)) && k in Keys(MergeEntries(e, c))
      ensures Get(MergeEntries(e, p), k) == Get(MergeEntries(e, c), k)
    {
      MergeFacts(e, c);
      ExactAt(a, raw, full, k);
    }
    Extensional(MergeEntries(e, p), MergeEntries(e, c));
  }

  // ----- something recast: another tree -----

  lemma {:induction false} InexactChangesAt(a: Value, raw: Value, full: Value, k: string)
    requires Situation(a, raw, full) && a.Dict? && raw.Dict? && !Marked(a)
    requires InexactAt(a.entries, raw.entries, full.entries, k)
    ensures var before := MergeEntries(full.entries, a.entries);
            var after := MergeEntries(full.entries, PruneEntries(a.entries, raw.entries));
            k in Keys(before) && k in Keys(after) && Get(after, k) != Get(before, k)
    decreases a, 0
  {
    var c, r, e := a.entries, raw.entries, full.entries;
    PruneFacts(c, r);
    MergeFacts(e, PruneEntries(c, r));
    MergeFacts(e, c);
    Below(a, raw, full, k);
    var v := Get(c, k);
    if !Recast(v, Get(r, k)) {
      InexactChanges(v, Get(r, k), Get(e, k));
      MergeNothing(Get(e, k).entries);
    }
  }

  lemma {:induction false} InexactChanges(a: Value, raw: Value, full: Value)
    requires Situation(a, raw, full) && Inexact(a, raw, full)
    ensures Merge(full, Dict(PruneEntries(a.entries, raw.entries))) != Merge(full, a)
    decreases a, 1
  {
    InexactMeans(a.entries, raw.entries, full.entries);
    var k :| InexactAt(a.entries, raw.entries, full.entries, k);
    InexactChangesAt(a, raw, full, k);
  }

  // ----- with override markers -----

  lemma InexactAtStripped(c: Entries, raw: Entries, full: Entries, k: string)
    requires Distinct(c)
    ensures InexactAt(Strip(c), Unreplaced(raw, c), Unreplaced(full, c), k) <==> InexactAt(c, raw, full, k)
  {
    UnreplacedKeys(raw, c);
    UnreplacedKeys(full, c);
  }

  lemma InexactStripped(c: Entries, raw: Entries, full: Entries)
    requires Distinct(c)
    ensures InexactEntries(Strip(c), Unreplaced(raw, c), Unreplaced(full, c)) <==> InexactEntries(c, raw, full)
  {
    InexactMeans(c, raw, full);
    InexactMeans(Strip(c), Unreplaced(raw, c), Unreplaced(full, c));
    forall k
      ensures InexactAt(Strip(c), Unreplaced(raw, c), Unreplaced(full, c), k) <==> InexactAt(c, raw, full, k)
    {
      InexactAtStripped(c, raw, full, k);
    }
  }

  /** Minimizing keeps the expansion to the letter, key order and number types
      included, exactly when the config is neither lossy nor inexact. */
  lemma MinimizeExact(c: Entries, raw: Entries, full: Entries)
    requires Minimizable(c, raw, full)
    ensures MergeOverride(full, PruneRoot(c, raw)) == MergeOverride(full, c) <==>
              !Lossy(Dict(c), Dict(raw), Dict(full)) && !Inexact(Dict(c), Dict(raw), Dict(full))
  {
    if !Marked(Dict(c)) {
      var c1, raw1, full1 := Strip(c), Unreplaced(raw, c), Unreplaced(full, c);
      WithoutMarkers(c, raw, full);
      LossyStripped(c, raw, full);
      InexactStripped(c, raw, full);
      if Lossy(Dict(c), Dict(raw), Dict(full)) {
        LossyChangesDict(Dict(c1), Dict(raw1), Dict(full1));
        MergeWellFormed(Dict(full1), Dict(c1));
        EqReflexive(Merge(Dict(full1), Dict(c1)));
      } else if Inexact(Dict(c), Dict(raw), Dict(full)) {
        InexactChanges(Dict(c1), Dict(raw1), Dict(full1));
      } else {
        PruneExactDict(Dict(c1), Dict(raw1), Dict(full1));
      }
    }
  }

  /** 1.0 over 1 is dropped, and the expansion says 1 again; it is not lossy. */
  lemma RecastExample()
    ensures var base, child := Cons("x", Leaf(Int(1)), Nil), Cons("x", Leaf(Float(1.0)), Nil);
            && PruneRoot(child, base) == Nil && MergeOverride(base, PruneRoot(child, base)) == base
            && MergeOverride(base, child) == child != base
            && !Lossy(Dict(child), Dict(base), Dict(base)) && Inexact(Dict(child), Dict(base), Dict(base))
  {
    var base, child := Cons("x", Leaf(Int(1)), Nil), Cons("x", Leaf(Float(1.0)), Nil);
    assert Eq(child.value, base.value);
    assert PruneEntries(child, base) == Nil;
    MergeNothing(base);
    assert MergeEntries(base, child) == child;
    assert Recast(child.value, base.value);
  }
}
