/** Merging configs and the `_override_` marker (tools/config_cli.py:86-100).
    Assumption on OmegaConf.merge: mappings merge recursively, a key of the base
    keeps its place, new keys follow in the order of the overriding config, and
    every other pair of values is replaced. */
module ConfigMerge {
  import opened Common
  import opened ConfigTree

  const OVERRIDE := "_override_"

  // ----- merge -----

  function Merge(base: Value, over: Value): (m: Value)
    decreases base, 1
  {
    if base.Dict? && over.Dict? then Dict(MergeEntries(base.entries, over.entries)) else over
  }

  function MergeEntries(base: Entries, over: Entries): (m: Entries)
    decreases base, 1
  {
    Append(Updated(base, over), Fresh(over, Keys(base)))
  }

  /** The base's entries, each merged with the overriding value if there is one. */
  function Updated(base: Entries, over: Entries): (m: Entries)
    decreases base, 0
  {
    match base
    case Nil => Nil
    case Cons(k, v, rest) => Cons(k, if k in Keys(over) then Merge(v, Get(over, k)) else v, Updated(rest, over))
  }

  /** The entries whose keys are not known yet. */
  function Fresh(over: Entries, known: set<string>): (m: Entries) {
    match over
    case Nil => Nil
    case Cons(k, v, rest) => if k in known then Fresh(rest, known) else Cons(k, v, Fresh(rest, known))
  }

  function Append(a: Entries, b: Entries): (m: Entries) {
    match a
    case Nil => b
    case Cons(k, v, rest) => Cons(k, v, Append(rest, b))
  }

  lemma {:induction false} AppendFacts(a: Entries, b: Entries)
    ensures Keys(Append(a, b)) == Keys(a) + Keys(b)
    ensures KeyOrder(Append(a, b)) == KeyOrder(a) + KeyOrder(b)
    ensures forall k :: k in Keys(a) ==> Get(Append(a, b), k) == Get(a, k)
    ensures forall k :: k in Keys(b) && k !in Keys(a) ==> Get(Append(a, b), k) == Get(b, k)
    ensures Distinct(a) && Distinct(b) && Keys(a) !! Keys(b) ==> Distinct(Append(a, b))
    ensures WellFormedEntries(Append(a, b)) == (WellFormedEntries(a) && WellFormedEntries(b))
  {
    if a.Cons? {
      AppendFacts(a.rest, b);
    }
  }

  lemma {:induction false} FreshFacts(over: Entries, known: set<string>)
    ensures Keys(Fresh(over, known)) == Keys(over) - known
    ensures forall k :: k in Keys(over) && k !in known ==> Get(Fresh(over, known), k) == Get(over, k)
    ensures Distinct(over) ==> Distinct(Fresh(over, known))
    ensures WellFormedEntries(over) ==> WellFormedEntries(Fresh(over, known))
  {
    if over.Cons? {
      FreshFacts(over.rest, known);
    }
  }

  lemma {:induction false} UpdatedFacts(base: Entries, over: Entries)
    ensures Keys(Updated(base, over)) == Keys(base)
    ensures KeyOrder(Updated(base, over)) == KeyOrder(base)
    ensures Distinct(base) ==> Distinct(Updated(base, over))
    ensures forall k :: k in Keys(base) ==>
              Get(Updated(base, over), k) == if k in Keys(over) then Merge(Get(base, k), Get(over, k)) else Get(base, k)
  {
    if base.Cons? {
      UpdatedFacts(base.rest, over);
    }
  }

  /** What a merged mapping holds under each key, and in which order. */
  lemma MergeFacts(base: Entries, over: Entries)
    ensures var m := MergeEntries(base, over);
            && Keys(m) == Keys(base) + Keys(over)
            && KeyOrder(m) == KeyOrder(base) + KeyOrder(Fresh(over, Keys(base)))
            && (Distinct(base) && Distinct(over) ==> Distinct(m))
            && (forall k :: k in Keys(base) && k in Keys(over) ==> Get(m, k) == Merge(Get(base, k), Get(over, k)))
            && (forall k :: k in Keys(base) && k !in Keys(over) ==> Get(m, k) == Get(base, k))
            && (forall k :: k !in Keys(base) && k in Keys(over) ==> Get(m, k) == Get(over, k))
  {
    UpdatedFacts(base, over);
    FreshFacts(over, Keys(base));
    AppendFacts(Updated(base, over), Fresh(over, Keys(base)));
  }

  lemma {:induction false} MergeWellFormed(base: Value, over: Value)
    requires WellFormed(base) && WellFormed(over)
    ensures WellFormed(Merge(base, over))
    decreases base, 1
  {
    if base.Dict? && over.Dict? {
      UpdatedWellFormed(base.entries, over.entries);
      FreshFacts(over.entries, Keys(base.entries));
      AppendFacts(Updated(base.entries, over.entries), Fresh(over.entries, Keys(base.entries)));
      MergeFacts(base.entries, over.entries);
    }
  }

  lemma {:induction false} UpdatedWellFormed(base: Entries, over: Entries)
    requires WellFormedEntries(base) && WellFormedEntries(over)
    ensures WellFormedEntries(Updated(base, over))
    decreases base, 0
  {
    if base.Cons? {
      if base.key in Keys(over) {
        WellFormedGet(over, base.key);
        MergeWellFormed(base.value, Get(over, base.key));
      }
      UpdatedWellFormed(base.rest, over);
    }
  }

  lemma {:induction false} FreshAll(over: Entries)
    ensures Fresh(over, {}) == over
  {
    if over.Cons? {
      FreshAll(over.rest);
    }
  }

  /** Merging onto nothing. */
  lemma MergeOntoEmpty(over: Entries)
    ensures MergeEntries(Nil, over) == over
  {
    FreshAll(over);
  }

  /** Merging nothing. */
  lemma {:induction false} MergeNothing(base: Entries)
    ensures MergeEntries(base, Nil) == base
  {
    if base.Cons? {
      MergeNothing(base.rest);
    }
  }

  // ----- the override marker -----

  /** A section that replaces the inherited section instead of merging into it. */
  predicate Marked(v: Value) {
    v.Dict? && Truthy(GetOr(v.entries, OVERRIDE, Leaf(Bool(false))))
  }

  function StripMarker(v: Value): (r: Value) {
    if Marked(v) then Dict(Remove(v.entries, OVERRIDE)) else v
  }

  function Strip(over: Entries): (r: Entries)
    ensures Keys(r) == Keys(over)
    ensures KeyOrder(r) == KeyOrder(over)
    ensures Distinct(over) ==> Distinct(r)
    ensures forall k :: k in Keys(over) ==> Get(r, k) == StripMarker(Get(over, k))
  {
    match over
    case Nil => Nil
    case Cons(k, v, rest) => Cons(k, StripMarker(v), Strip(rest))
  }

  /** The base without the sections that `over` replaces. */
  function Unreplaced(base: Entries, over: Entries): (r: Entries)
    ensures Keys(r) <= Keys(base)
    ensures Distinct(base) ==> Distinct(r)
    ensures forall k :: k in Keys(r) ==> Get(r, k) == Get(base, k)
    decreases over
  {
    match over
    case Nil => base
    case Cons(k, v, rest) => Unreplaced(if Marked(v) then Remove(base, k) else base, rest)
  }

  function MergeOverride(base: Entries, over: Entries): (m: Entries) {
    MergeEntries(Unreplaced(base, over), Strip(over))
  }

  lemma {:induction false} UnreplacedKeys(base: Entries, over: Entries)
    requires Distinct(over)
    ensures forall k :: k in Keys(Unreplaced(base, over)) <==>
              k in Keys(base) && !(k in Keys(over) && Marked(Get(over, k)))
    decreases over
  {
    if over.Cons? {
      var b := if Marked(over.value) then Remove(base, over.key) else base;
      UnreplacedKeys(b, over.rest);
      assert forall k :: k in Keys(over.rest) ==> Get(over, k) == Get(over.rest, k);
    }
  }

  lemma {:induction false} RemoveWellFormed(e: Entries, key: string)
    requires WellFormedEntries(e)
    ensures WellFormedEntries(Remove(e, key))
  {
    if e.Cons? {
      RemoveWellFormed(e.rest, key);
    }
  }

  lemma {:induction false} StripWellFormed(over: Entries)
    requires WellFormedEntries(over)
    ensures WellFormedEntries(Strip(over))
  {
    if over.Cons? {
      StripWellFormed(over.rest);
      if Marked(over.value) {
        RemoveWellFormed(over.value.entries, OVERRIDE);
      }
    }
  }

  lemma {:induction false} UnreplacedWellFormed(base: Entries, over: Entries)
    requires WellFormedEntries(base)
    ensures WellFormedEntries(Unreplaced(base, over))
    decreases over
  {
    if over.Cons? {
      RemoveWellFormed(base, over.key);
      UnreplacedWellFormed(if Marked(over.value) then Remove(base, over.key) else base, over.rest);
    }
  }

  lemma MergeOverrideWellFormed(base: Entries, over: Entries)
    requires WellFormed(Dict(base)) && WellFormed(Dict(over))
    ensures WellFormed(Dict(MergeOverride(base, over)))
  {
    StripWellFormed(over);
    UnreplacedWellFormed(base, over);
    MergeWellFormed(Dict(Unreplaced(base, over)), Dict(Strip(over)));
  }

  /** Merging with markers, key by key: a marked section replaces, an unmarked
      one merges, everything else of the base stays. */
  lemma MergeOverrideAt(base: Entries, over: Entries, k: string)
    requires Distinct(over)
    ensures var m := MergeOverride(base, over);
            && (k in Keys(m) <==> k in Keys(base) || k in Keys(over))
            && (k in Keys(over) && Marked(Get(over, k)) ==> Get(m, k) == Dict(Remove(Get(over, k).entries, OVERRIDE)))
            && (k in Keys(over) && !Marked(Get(over, k)) && k in Keys(base) ==>
                Get(m, k) == Merge(Get(base, k), Get(over, k)))
            && (k in Keys(over) && !Marked(Get(over, k)) && k !in Keys(base) ==> Get(m, k) == Get(over, k))
            && (k !in Keys(over) && k in Keys(base) ==> Get(m, k) == Get(base, k))
  {
    UnreplacedKeys(base, over);
    MergeFacts(Unreplaced(base, over), Strip(over));
  }

  /** A freshly loaded parent keeps everything but its markers. */
  lemma MergeOverrideOntoEmpty(over: Entries)
    ensures MergeOverride(Nil, over) == Strip(over)
  {
    assert Keys(Unreplaced(Nil, over)) <= {};
    assert Unreplaced(Nil, over) == Nil;
    MergeOntoEmpty(Strip(over));
  }

  // ----- the code: both arguments are popped in place -----

  class Config {
    var entries: Entries

    constructor (entries: Entries)
      ensures this.entries == entries
    {
      this.entries := entries;
    }

    method Pop(key: string) returns (v: Option<Value>)
      modifies this
      ensures entries == Remove(old(entries), key)
      ensures v == if key in Keys(old(entries)) then Some(Get(old(entries), key)) else None
    {
      v := if key in Keys(entries) then Some(Get(entries, key)) else None;
      entries := Remove(entries, key);
    }

    method Set(key: string, value: Value)
      requires key in Keys(entries)
      modifies this
      ensures entries == Put(old(entries), key, value)
    {
      entries := Put(entries, key, value);
    }
  }

  /** Replace the value of an existing key in place. */
  function Put(e: Entries, key: string, value: Value): (r: Entries)
    requires key in Keys(e)
    ensures Keys(r) == Keys(e)
  {
    if e.key == key then Cons(key, value, e.rest) else Cons(e.key, e.value, Put(e.rest, key, value))
  }

  /** The overriding config while its keys are being walked: `done` stripped. */
  lemma {:induction false} PutAfter(done: Entries, k: string, v: Value, rest: Entries, value: Value)
    requires k !in Keys(done)
    ensures k in Keys(Append(done, Cons(k, v, rest)))
    ensures Put(Append(done, Cons(k, v, rest)), k, value) == Append(done, Cons(k, value, rest))
  {
    AppendFacts(done, Cons(k, v, rest));
    if done.Cons? {
      PutAfter(done.rest, k, v, rest, value);
    }
  }

  lemma {:induction false} AppendAssociative(a: Entries, b: Entries, c: Entries)
    ensures Append(Append(a, b), c) == Append(a, Append(b, c))
  {
    if a.Cons? {
      AppendAssociative(a.rest, b, c);
    }
  }

  lemma {:induction false} StripAppend(a: Entries, b: Entries)
    ensures Strip(Append(a, b)) == Append(Strip(a), Strip(b))
  {
    if a.Cons? {
      StripAppend(a.rest, b);
    }
  }

  lemma {:induction false} AppendNil(a: Entries)
    ensures Append(a, Nil) == a
  {
    if a.Cons? {
      AppendNil(a.rest);
    }
  }

  method MergeWithOverride(base: Config, over: Config) returns (merged: Config)
    requires base != over && Distinct(over.entries)
    modifies base, over
    ensures fresh(merged)
    ensures merged.entries == MergeOverride(old(base.entries), old(over.entries))
    ensures base.entries == Unreplaced(old(base.entries), old(over.entries))
    ensures over.entries == Strip(old(over.entries))
  {
    var todo := over.entries;
    ghost var done := Nil;
    while todo.Cons?
      invariant Append(done, todo) == old(over.entries)
      invariant over.entries == Append(Strip(done), todo)
      invariant Unreplaced(base.entries, todo) == Unreplaced(old(base.entries), old(over.entries))
      decreases todo
    {
      var k, v := todo.key, todo.value;
      ghost var next := Append(done, Cons(k, v, Nil));
      AppendAssociative(done, Cons(k, v, Nil), todo.rest);
      AppendFacts(done, todo);
      KeyNotBefore(done, todo);
      PutAfter(Strip(done), k, v, todo.rest, StripMarker(v));
      StripAppend(done, Cons(k, v, Nil));
      AppendAssociative(Strip(done), Cons(k, StripMarker(v), Nil), todo.rest);
      if Marked(v) {
        over.Set(k, Dict(Remove(v.entries, OVERRIDE)));
        var _ := base.Pop(k);
      }
      done, todo := next, todo.rest;
    }
    AppendNil(done);
    AppendNil(Strip(done));
    merged := new Config(MergeEntries(base.entries, over.entries));
  }

  lemma {:induction false} KeyNotBefore(done: Entries, todo: Entries)
    requires todo.Cons? && Distinct(Append(done, todo))
    ensures todo.key !in Keys(done)
  {
    AppendFacts(done, todo);
    if done.Cons? {
      AppendFacts(done.rest, todo);
      KeyNotBefore(done.rest, todo);
    }
  }
}
