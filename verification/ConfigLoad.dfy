/** Loading configs through their `defaults` (tools/config_cli.py:103-149). */
module ConfigLoad {
  import opened Common
  import opened ConfigTree
  import opened ConfigMerge

  // File paths and their resolution are parameters; files hold mappings.

  const DEFAULTS := "defaults"

  /** Files by path, the path a name in a file resolves to, and the name by which
      a file refers to another. */
  datatype World = World(files: map<string, Entries>, resolve: (string, string) -> string,
                         relative: (string, string) -> string)

  datatype LoadError = Missing(path: string) | UnusableDefaults(path: string)

  type Loaded = Result<Entries, LoadError>

  /** The value of `defaults` as the loader reads it. */
  datatype Parents = NoDefaults | Parents(names: seq<string>) | Unusable

  function ParentsOf(e: Entries): (p: Parents) {
    if DEFAULTS !in Keys(e) then NoDefaults
    else
      match Get(e, DEFAULTS)
      case Leaf(Str(s)) => Parents([s])
      case List(items) => if AllStrings(items) then Parents(Strings(items)) else Unusable
      case Dict(d) => Parents(KeyOrder(d))
      case Leaf(_) => Unusable
  }

  predicate AllStrings(items: Items) {
    items.Item? ==> items.head.Leaf? && items.head.atom.Str? && AllStrings(items.tail)
  }

  function Strings(items: Items): (s: seq<string>)
    requires AllStrings(items)
  {
    match items
    case Empty => []
    case Item(v, tail) => [v.atom.s] + Strings(tail)
  }

  function ParentPaths(w: World, p: string): (paths: seq<string>)
    requires p in w.files
  {
    match ParentsOf(w.files[p])
    case Parents(names) => seq(|names|, i requires 0 <= i < |names| => w.resolve(p, names[i]))
    case _ => []
  }

  /** What a file says itself. */
  function Body(w: World, p: string): (e: Entries)
    requires p in w.files
  {
    Remove(w.files[p], DEFAULTS)
  }

  // ----- acyclic inheritance -----

  ghost predicate AllBelow(w: World, rank: map<string, nat>, paths: seq<string>, bound: nat) {
    forall i :: 0 <= i < |paths| && paths[i] in w.files ==> paths[i] in rank && rank[paths[i]] < bound
  }

  /** The graph of `defaults` has no cycle: files can be ranked so that parents
      come before their children. */
  ghost predicate Ranked(w: World, rank: map<string, nat>) {
    && (forall p :: p in w.files ==> p in rank)
    && (forall p :: p in w.files ==> AllBelow(w, rank, ParentPaths(w, p), rank[p]))
  }

  ghost predicate AllWellFormed(w: World) {
    forall p :: p in w.files ==> WellFormed(Dict(w.files[p]))
  }

  // ----- what loading computes -----

  ghost function Expand(w: World, rank: map<string, nat>, p: string): (r: Loaded)
    requires Ranked(w, rank)
    decreases if p in w.files then rank[p] else 0, 1, 0
  {
    if p !in w.files then Err(Missing(p))
    else
      match ParentsOf(w.files[p])
      case NoDefaults => Ok(w.files[p])
      case Unusable => Err(UnusableDefaults(p))
      case Parents(_) =>
        match ExpandParents(w, rank, rank[p], ParentPaths(w, p), Nil)
        case Ok(base) => Ok(MergeOverride(base, Body(w, p)))
        case Err(e) => Err(e)
  }

  /** Parents merged in order onto what the earlier ones gave. */
  ghost function ExpandParents(w: World, rank: map<string, nat>, bound: nat, paths: seq<string>,
                               base: Entries): (r: Loaded)
    requires Ranked(w, rank) && AllBelow(w, rank, paths, bound)
    decreases bound, 0, |paths|
  {
    if paths == [] then Ok(base)
    else if paths[0] !in w.files then Err(Missing(paths[0]))
    else
      match Expand(w, rank, paths[0])
      case Ok(parent) => ExpandParents(w, rank, bound, paths[1..], MergeOverride(base, parent))
      case Err(e) => Err(e)
  }

  lemma {:induction false} ExpandWellFormed(w: World, rank: map<string, nat>, p: string)
    requires Ranked(w, rank) && AllWellFormed(w)
    ensures Expand(w, rank, p).Ok? ==> WellFormed(Dict(Expand(w, rank, p).value))
    decreases if p in w.files then rank[p] else 0, 1, 0
  {
    if p in w.files && ParentsOf(w.files[p]).Parents? {
      ExpandParentsWellFormed(w, rank, rank[p], ParentPaths(w, p), Nil);
      var r := ExpandParents(w, rank, rank[p], ParentPaths(w, p), Nil);
      if r.Ok? {
        RemoveWellFormed(w.files[p], DEFAULTS);
        MergeOverrideWellFormed(r.value, Body(w, p));
      }
    }
  }

  lemma {:induction false} ExpandParentsWellFormed(w: World, rank: map<string, nat>, bound: nat, paths: seq<string>,
                                                   base: Entries)
    requires Ranked(w, rank) && AllWellFormed(w) && AllBelow(w, rank, paths, bound) && WellFormed(Dict(base))
    ensures var r := ExpandParents(w, rank, bound, paths, base); r.Ok? ==> WellFormed(Dict(r.value))
    decreases bound, 0, |paths|
  {
    if paths != [] && paths[0] in w.files {
      ExpandWellFormed(w, rank, paths[0]);
      var parent := Expand(w, rank, paths[0]);
      if parent.Ok? {
        MergeOverrideWellFormed(base, parent.value);
        ExpandParentsWellFormed(w, rank, bound, paths[1..], MergeOverride(base, parent.value));
      }
    }
  }

  // ----- the code -----

  method LoadConfig(w: World, ghost rank: map<string, nat>, p: string) returns (r: Result<Config, LoadError>)
    requires Ranked(w, rank) && AllWellFormed(w)
    ensures r.Ok? ==> fresh(r.value) && Expand(w, rank, p) == Ok(r.value.entries)
    ensures r.Err? ==> Expand(w, rank, p) == Err(r.error)
    decreases if p in w.files then rank[p] else 0
  {
    if p !in w.files {
      return Err(Missing(p));
    }
    var config := new Config(w.files[p]);
    var parents := ParentsOf(config.entries);
    if parents.NoDefaults? {
      return Ok(config);
    } else if parents.Unusable? {
      return Err(UnusableDefaults(p));
    }
    var paths := ParentPaths(w, p);
    var _ := config.Pop(DEFAULTS);
    var base := new Config(Nil);
    var i := 0;
    while i < |paths|
      invariant 0 <= i <= |paths|
      invariant fresh(base) && base != config && config.entries == Body(w, p)
      invariant ExpandParents(w, rank, rank[p], paths[i..], base.entries) == ExpandParents(w, rank, rank[p], paths, Nil)
    {
      assert paths[i..][0] == paths[i] && paths[i..][1..] == paths[i + 1..];
      if paths[i] !in w.files {
        return Err(Missing(paths[i]));
      }
      var parent := LoadConfig(w, rank, paths[i]);
      if parent.Err? {
        return Err(parent.error);
      }
      ExpandWellFormed(w, rank, paths[i]);
      base := MergeWithOverride(base, parent.value);
      i := i + 1;
    }
    assert paths[i..] == [];
    var merged := MergeWithOverride(base, config);
    return Ok(merged);
  }

  // ----- which file sets a leaf -----

  /** The subtree at a path of keys. */
  function At(v: Value, path: seq<string>): (r: Option<Value>)
    decreases |path|
  {
    if path == [] then Some(v)
    else if v.Dict? && path[0] in Keys(v.entries) then At(Get(v.entries, path[0]), path[1..])
    else None
  }

  predicate IsLeaf(v: Option<Value>) {
    v.Some? && !v.value.Dict?
  }

  /** No path holds a mapping in one tree and something else in the other. */
  ghost predicate Compatible(a: Value, b: Value) {
    forall path :: At(a, path).Some? && At(b, path).Some? ==> At(a, path).value.Dict? == At(b, path).value.Dict?
  }

  lemma CompatibleBelow(a: Value, b: Value, k: string)
    requires Compatible(a, b) && a.Dict? && b.Dict? && k in Keys(a.entries) && k in Keys(b.entries)
    ensures Compatible(Get(a.entries, k), Get(b.entries, k))
  {
    forall path | At(Get(a.entries, k), path).Some? && At(Get(b.entries, k), path).Some?
      ensures At(Get(a.entries, k), path).value.Dict? == At(Get(b.entries, k), path).value.Dict?
    {
      assert ([k] + path)[1..] == path;
      assert At(a, [k] + path) == At(Get(a.entries, k), path) && At(b, [k] + path) == At(Get(b.entries, k), path);
    }
  }

  /** A merge takes each path from the overriding side if that side has it. */
  lemma {:induction false} MergeAt(a: Value, b: Value, path: seq<string>)
    requires Compatible(a, b)
    ensures At(b, path).None? ==> At(Merge(a, b), path) == At(a, path)
    ensures IsLeaf(At(b, path)) ==> At(Merge(a, b), path) == At(b, path)
    ensures At(b, path).Some? && At(b, path).value.Dict? ==>
              At(Merge(a, b), path).Some? && At(Merge(a, b), path).value.Dict?
    decreases |path|
  {
    assert At(a, []) == Some(a) && At(b, []) == Some(b);
    if a.Dict? && b.Dict? {
      MergeFacts(a.entries, b.entries);
      if path != [] && path[0] in Keys(a.entries) && path[0] in Keys(b.entries) {
        CompatibleBelow(a, b, path[0]);
        MergeAt(Get(a.entries, path[0]), Get(b.entries, path[0]), path[1..]);
      }
    }
  }

  ghost predicate Present(w: World, order: seq<string>) {
    forall i :: 0 <= i < |order| ==> order[i] in w.files
  }

  /** Files in the order in which they are merged: parents depth first, then the file. */
  ghost function Linearized(w: World, rank: map<string, nat>, p: string): (order: seq<string>)
    requires Ranked(w, rank)
    ensures Present(w, order)
    decreases if p in w.files then rank[p] else 0, 1, 0
  {
    if p !in w.files then [] else LinearizedAll(w, rank, rank[p], ParentPaths(w, p)) + [p]
  }

  ghost function LinearizedAll(w: World, rank: map<string, nat>, bound: nat, paths: seq<string>): (order: seq<string>)
    requires Ranked(w, rank) && AllBelow(w, rank, paths, bound)
    ensures Present(w, order)
    decreases bound, 0, |paths|
  {
    if paths == [] then []
    else (if paths[0] in w.files then Linearized(w, rank, paths[0]) else []) + LinearizedAll(w, rank, bound, paths[1..])
  }

  /** The leaf set by the last file of the order that has one at the path. */
  ghost function LastLeaf(w: World, order: seq<string>, path: seq<string>): (r: Option<Value>)
    requires Present(w, order)
  {
    if order == [] then None
    else
      var last := order[|order| - 1];
      if IsLeaf(At(Dict(Body(w, last)), path)) then At(Dict(Body(w, last)), path)
      else LastLeaf(w, order[..|order| - 1], path)
  }

  lemma {:induction false} LastLeafAppend(w: World, a: seq<string>, b: seq<string>, path: seq<string>)
    requires Present(w, a) && Present(w, b)
    ensures LastLeaf(w, a + b, path)
            == if LastLeaf(w, b, path).Some? then LastLeaf(w, b, path) else LastLeaf(w, a, path)
    decreases |b|
  {
    if b == [] {
      assert a + b == a;
    } else {
      assert (a + b)[..|a + b| - 1] == a + b[..|b| - 1];
      LastLeafAppend(w, a, b[..|b| - 1], path);
    }
  }

  /** No override markers in these files, and no shape clash between any two of them. */
  ghost predicate Plain(w: World, order: seq<string>)
    requires Present(w, order)
  {
    && (forall p, k :: p in order && k in Keys(w.files[p]) ==> !Marked(Get(w.files[p], k)))
    && (forall p, q :: p in order && q in order ==> Compatible(Dict(Body(w, p)), Dict(Body(w, q))))
  }

  lemma PlainPart(w: World, order: seq<string>, part: seq<string>)
    requires Present(w, order) && Plain(w, order) && forall p :: p in part ==> p in order
    ensures Present(w, part) && Plain(w, part)
  {
    assert forall i :: 0 <= i < |part| ==> part[i] in part;
  }

  function LeafAt(e: Entries, path: seq<string>): (r: Option<Value>) {
    if IsLeaf(At(Dict(e), path)) then At(Dict(e), path) else None
  }

  /** One of the files has the path, with a mapping or a leaf as in the tree. */
  ghost predicate SourcedAt(w: World, e: Entries, order: seq<string>, path: seq<string>)
    requires Present(w, order)
  {
    At(Dict(e), path).Some? && path != [] ==>
      exists q :: q in order && At(Dict(Body(w, q)), path).Some?
                  && At(Dict(Body(w, q)), path).value.Dict? == At(Dict(e), path).value.Dict?
  }

  /** A tree all of whose paths come from the files of an order, and whose leaves
      are the last ones of it. */
  ghost predicate Follows(w: World, e: Entries, order: seq<string>)
    requires Present(w, order)
  {
    && WellFormed(Dict(e))
    && (forall k :: k in Keys(e) ==> !Marked(Get(e, k)))
    && (forall path :: SourcedAt(w, e, order, path))
    && (forall path :: LeafAt(e, path) == LastLeaf(w, order, path))
  }

  lemma SourcedCompatible(w: World, a: Entries, b: Entries, o1: seq<string>, o2: seq<string>)
    requires Present(w, o1) && Present(w, o2) && Plain(w, o1 + o2)
    requires forall path :: SourcedAt(w, a, o1, path) && SourcedAt(w, b, o2, path)
    ensures Compatible(Dict(a), Dict(b))
  {
    forall path | At(Dict(a), path).Some? && At(Dict(b), path).Some?
      ensures At(Dict(a), path).value.Dict? == At(Dict(b), path).value.Dict?
    {
      assert SourcedAt(w, a, o1, path) && SourcedAt(w, b, o2, path);
      if path != [] {
        var p :| p in o1 && At(Dict(Body(w, p)), path).Some?
                 && At(Dict(Body(w, p)), path).value.Dict? == At(Dict(a), path).value.Dict?;
        var q :| q in o2 && At(Dict(Body(w, q)), path).Some?
                 && At(Dict(Body(w, q)), path).value.Dict? == At(Dict(b), path).value.Dict?;
        assert p in o1 + o2 && q in o1 + o2;
        assert Compatible(Dict(Body(w, p)), Dict(Body(w, q)));
      }
    }
  }

  lemma MergeUnmarked(x: Value, y: Value)
    requires !Marked(x) && !Marked(y)
    ensures !Marked(Merge(x, y))
  {
    if x.Dict? && y.Dict? {
      MergeFacts(x.entries, y.entries);
      MergeOntoEmpty(Nil);
    }
  }

  lemma {:induction false} StripUnmarked(e: Entries)
    requires Distinct(e) && forall k :: k in Keys(e) ==> !Marked(Get(e, k))
    ensures Strip(e) == e
    ensures forall base :: Unreplaced(base, e) == base
  {
    if e.Cons? {
      assert forall k :: k in Keys(e.rest) ==> Get(e, k) == Get(e.rest, k);
      assert !Marked(Get(e, e.key));
      StripUnmarked(e.rest);
    }
  }

  lemma MergeFollowsAt(w: World, a: Entries, b: Entries, o1: seq<string>, o2: seq<string>, path: seq<string>)
    requires Present(w, o1) && Present(w, o2) && Compatible(Dict(a), Dict(b))
    requires SourcedAt(w, a, o1, path) && SourcedAt(w, b, o2, path)
    requires LeafAt(a, path) == LastLeaf(w, o1, path) && LeafAt(b, path) == LastLeaf(w, o2, path)
    ensures SourcedAt(w, MergeEntries(a, b), o1 + o2, path)
    ensures LeafAt(MergeEntries(a, b), path) == LastLeaf(w, o1 + o2, path)
  {
    MergeAt(Dict(a), Dict(b), path);
    LastLeafAppend(w, o1, o2, path);
  }

  /** Merging trees that follow two orders follows the one order after the other. */
  lemma MergeFollows(w: World, a: Entries, b: Entries, o1: seq<string>, o2: seq<string>)
    requires Present(w, o1) && Present(w, o2) && Plain(w, o1 + o2) && Follows(w, a, o1) && Follows(w, b, o2)
    ensures Follows(w, MergeOverride(a, b), o1 + o2)
  {
    StripUnmarked(b);
    MergeWellFormed(Dict(a), Dict(b));
    MergeFacts(a, b);
    SourcedCompatible(w, a, b, o1, o2);
    forall k | k in Keys(MergeEntries(a, b))
      ensures !Marked(Get(MergeEntries(a, b), k))
    {
      if k in Keys(a) && k in Keys(b) {
        MergeUnmarked(Get(a, k), Get(b, k));
      }
    }
    forall path
      ensures SourcedAt(w, MergeEntries(a, b), o1 + o2, path)
      ensures LeafAt(MergeEntries(a, b), path) == LastLeaf(w, o1 + o2, path)
    {
      MergeFollowsAt(w, a, b, o1, o2, path);
    }
  }

  lemma BodyFollows(w: World, p: string)
    requires AllWellFormed(w) && p in w.files && Plain(w, [p])
    ensures Follows(w, Body(w, p), [p])
  {
    RemoveWellFormed(w.files[p], DEFAULTS);
    assert [p][..0] == [];
    forall path
      ensures LeafAt(Body(w, p), path) == LastLeaf(w, [p], path)
    {
      assert LastLeaf(w, [], path) == None;
    }
  }

  lemma NothingFollows(w: World)
    ensures Follows(w, Nil, [])
  {
    forall path
      ensures SourcedAt(w, Nil, [], path) && LeafAt(Nil, path) == None
    {
    }
  }

  lemma {:induction false} RemoveAbsent(e: Entries, key: string)
    requires key !in Keys(e)
    ensures Remove(e, key) == e
  {
    if e.Cons? {
      RemoveAbsent(e.rest, key);
    }
  }

  /** Every leaf of an expanded config is the one set by the last file, in
      depth-first inheritance order, that sets a leaf at its path. */
  lemma {:induction false} LastFileWins(w: World, rank: map<string, nat>, p: string)
    requires Ranked(w, rank) && AllWellFormed(w) && Plain(w, Linearized(w, rank, p)) && Expand(w, rank, p).Ok?
    ensures Follows(w, Expand(w, rank, p).value, Linearized(w, rank, p))
    decreases if p in w.files then rank[p] else 0, 1, 0
  {
    PlainPart(w, Linearized(w, rank, p), [p]);
    BodyFollows(w, p);
    if ParentsOf(w.files[p]).NoDefaults? {
      RemoveAbsent(w.files[p], DEFAULTS);
      assert Linearized(w, rank, p) == [p];
    } else {
      var before := LinearizedAll(w, rank, rank[p], ParentPaths(w, p));
      assert [] + before == before;
      PlainPart(w, Linearized(w, rank, p), before);
      NothingFollows(w);
      LastParentWins(w, rank, rank[p], ParentPaths(w, p), Nil, []);
      var base := ExpandParents(w, rank, rank[p], ParentPaths(w, p), Nil).value;
      MergeFollows(w, base, Body(w, p), before, [p]);
    }
  }

  lemma {:induction false} LastParentWins(w: World, rank: map<string, nat>, bound: nat, paths: seq<string>,
                                          base: Entries, before: seq<string>)
    requires Ranked(w, rank) && AllWellFormed(w) && AllBelow(w, rank, paths, bound)
    requires Present(w, before) && Plain(w, before + LinearizedAll(w, rank, bound, paths))
    requires Follows(w, base, before) && ExpandParents(w, rank, bound, paths, base).Ok?
    ensures Follows(w, ExpandParents(w, rank, bound, paths, base).value, before + LinearizedAll(w, rank, bound, paths))
    decreases bound, 0, |paths|
  {
    if paths == [] {
      assert before + [] == before;
    } else {
      var parent, order := Expand(w, rank, paths[0]).value, Linearized(w, rank, paths[0]);
      var next, tail := MergeOverride(base, parent), LinearizedAll(w, rank, bound, paths[1..]);
      assert LinearizedAll(w, rank, bound, paths) == order + tail;
      assert (before + order) + tail == before + (order + tail);
      PlainPart(w, before + (order + tail), order);
      LastFileWins(w, rank, paths[0]);
      PlainPart(w, before + (order + tail), before + order);
      MergeFollows(w, base, parent, before, order);
      assert ExpandParents(w, rank, bound, paths, base) == ExpandParents(w, rank, bound, paths[1..], next);
      LastParentWins(w, rank, bound, paths[1..], next, before + order);
    }
  }
}
