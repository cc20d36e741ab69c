/** The minimize and minimize-check commands (tools/config_cli.py:348-597). */
module ConfigMinimize {
  import opened Common
  import opened ConfigTree
  import opened ConfigMerge
  import opened ConfigPrune
  import opened ConfigExact
  import opened ConfigLoad

  /** The base is named by the child's `defaults`, or given with --base. */
  datatype Mode = Inferred | Explicit(base: string)

  datatype Failure = NoStringDefaults(path: string) | Load(error: LoadError)

  function InferBase(w: World, child: string): (r: Option<string>)
    requires child in w.files
  {
    match GetOr(w.files[child], DEFAULTS, Leaf(Null))
    case Leaf(Str(name)) => Some(w.resolve(child, name))
    case _ => None
  }

  /** The config the child is pruned against: expanded if inferred, raw if given. */
  ghost function BaseFor(w: World, rank: map<string, nat>, child: string, mode: Mode): (r: Result<Entries, Failure>)
    requires child in w.files && (mode.Inferred? ==> Ranked(w, rank))
  {
    match mode
    case Explicit(base) => if base in w.files then Ok(w.files[base]) else Err(Load(Missing(base)))
    case Inferred =>
      if InferBase(w, child).None? then Err(NoStringDefaults(child))
      else
        match Expand(w, rank, InferBase(w, child).value)
        case Ok(e) => Ok(e)
        case Err(e) => Err(Load(e))
  }

  function DefaultsFor(w: World, child: string, mode: Mode): (v: Value)
    requires child in w.files
  {
    match mode
    case Explicit(base) => Leaf(Str(w.relative(child, base)))
    case Inferred => GetOr(w.files[child], DEFAULTS, Leaf(Null))
  }

  /** The config that minimize writes: `defaults` first, then what is left. */
  ghost function Minimized(w: World, rank: map<string, nat>, child: string, mode: Mode): (r: Result<Entries, Failure>)
    requires mode.Inferred? ==> Ranked(w, rank)
  {
    if child !in w.files then Err(Load(Missing(child)))
    else
      match BaseFor(w, rank, child, mode)
      case Ok(base) => Ok(Cons(DEFAULTS, DefaultsFor(w, child, mode), PruneRoot(Body(w, child), base)))
      case Err(e) => Err(e)
  }

  /** The exit code of minimize-check: 0 if minimizing would not change the file. */
  ghost function MinimizeCheck(w: World, rank: map<string, nat>, child: string, mode: Mode): (r: Result<nat, LoadError>)
    requires mode.Inferred? ==> Ranked(w, rank)
  {
    match Minimized(w, rank, child, mode)
    case Err(NoStringDefaults(_)) => Ok(2)
    case Err(Load(e)) => Err(e)
    case Ok(out) => Ok(if out == w.files[child] then 0 else 1)
  }

  // ----- the code, with its cache of bases -----

  class BaseCache {
    var bases: map<string, Entries>

    constructor ()
      ensures bases == map[]
    {
      bases := map[];
    }

    ghost predicate Valid(w: World, rank: map<string, nat>, mode: Mode)
      requires Ranked(w, rank)
      reads this
    {
      forall p :: p in bases ==>
        if mode.Inferred? then Expand(w, rank, p) == Ok(bases[p]) else p in w.files && bases[p] == w.files[p]
    }
  }

  method MinimizeOne(w: World, ghost rank: map<string, nat>, child: string, mode: Mode, cache: BaseCache)
    returns (r: Result<Entries, Failure>)
    requires Ranked(w, rank) && AllWellFormed(w) && cache.Valid(w, rank, mode)
    modifies cache
    ensures cache.Valid(w, rank, mode)
    ensures r == Minimized(w, rank, child, mode)
  {
    if child !in w.files {
      return Err(Load(Missing(child)));
    }
    var base: string;
    if mode.Explicit? {
      base := mode.base;
      if base !in cache.bases {
        if base !in w.files {
          return Err(Load(Missing(base)));
        }
        cache.bases := cache.bases[base := w.files[base]];
      }
    } else {
      var inferred := InferBase(w, child);
      if inferred.None? {
        return Err(NoStringDefaults(child));
      }
      base := inferred.value;
      if base !in cache.bases {
        var loaded := LoadConfig(w, rank, base);
        if loaded.Err? {
          return Err(Load(loaded.error));
        }
        cache.bases := cache.bases[base := loaded.value.entries];
      }
    }
    r := Ok(Cons(DEFAULTS, DefaultsFor(w, child, mode), PruneRoot(Body(w, child), cache.bases[base])));
  }

  /** Several files, printed; a failure stops the command. */
  method Minimize(w: World, ghost rank: map<string, nat>, children: seq<string>, mode: Mode)
    returns (texts: seq<Entries>, failure: Option<Failure>)
    requires Ranked(w, rank) && AllWellFormed(w)
    ensures |texts| <= |children|
    ensures forall i :: 0 <= i < |texts| ==> Minimized(w, rank, children[i], mode) == Ok(texts[i])
    ensures failure.None? ==> |texts| == |children|
    ensures failure.Some? ==> |texts| < |children| && Minimized(w, rank, children[|texts|], mode) == Err(failure.value)
  {
    var cache := new BaseCache();
    texts := [];
    while |texts| < |children|
      invariant |texts| <= |children| && fresh(cache) && cache.Valid(w, rank, mode)
      invariant forall i :: 0 <= i < |texts| ==> Minimized(w, rank, children[i], mode) == Ok(texts[i])
      decreases |children| - |texts|
    {
      var r := MinimizeOne(w, rank, children[|texts|], mode, cache);
      if r.Err? {
        return texts, Some(r.error);
      }
      texts := texts + [r.value];
    }
    failure := None;
  }

  // ----- the file system after minimizing in place -----

  function Rewritten(w: World, child: string, e: Entries): (w1: World) {
    w.(files := w.files[child := e])
  }

  lemma {:induction false} ExpandUnchanged(w: World, rank: map<string, nat>, child: string, e: Entries, p: string)
    requires child in w.files && Ranked(w, rank) && Ranked(Rewritten(w, child, e), rank)
    requires p in w.files ==> rank[p] < rank[child]
    ensures Expand(Rewritten(w, child, e), rank, p) == Expand(w, rank, p)
    decreases if p in w.files then rank[p] else 0, 1, 0
  {
    if p in w.files {
      ExpandParentsUnchanged(w, rank, child, e, rank[p], ParentPaths(w, p), Nil);
    }
  }

  lemma {:induction false} ExpandParentsUnchanged(w: World, rank: map<string, nat>, child: string, e: Entries,
                                                  bound: nat, paths: seq<string>, base: Entries)
    requires child in w.files && Ranked(w, rank) && Ranked(Rewritten(w, child, e), rank)
    requires AllBelow(w, rank, paths, bound) && bound <= rank[child]
    ensures AllBelow(Rewritten(w, child, e), rank, paths, bound)
    ensures ExpandParents(Rewritten(w, child, e), rank, bound, paths, base)
              == ExpandParents(w, rank, bound, paths, base)
    decreases bound, 0, |paths|
  {
    if paths != [] && paths[0] in w.files {
      ExpandUnchanged(w, rank, child, e, paths[0]);
      var parent := Expand(w, rank, paths[0]);
      if parent.Ok? {
        ExpandParentsUnchanged(w, rank, child, e, bound, paths[1..], MergeOverride(base, parent.value));
      }
    }
  }

  /** A child with one parent means: its body merged onto that parent, whose own
      markers have been spent. */
  lemma ExpandSingle(w: World, rank: map<string, nat>, child: string, base: string)
    requires Ranked(w, rank) && child in w.files && base in w.files
    requires ParentsOf(w.files[child]).Parents? && ParentPaths(w, child) == [base]
    ensures Expand(w, rank, base).Ok? ==>
              Expand(w, rank, child) == Ok(MergeOverride(Strip(Expand(w, rank, base).value), Body(w, child)))
  {
    var paths := ParentPaths(w, child);
    if Expand(w, rank, base).Ok? {
      var parent := Expand(w, rank, base).value;
      MergeOverrideOntoEmpty(parent);
      assert paths[0] == base && paths[1..] == [];
      assert ExpandParents(w, rank, rank[child], [], Strip(parent)) == Ok(Strip(parent));
      assert ExpandParents(w, rank, rank[child], paths, Nil) == Ok(Strip(parent));
    }
  }

  // ----- raw and expanded bases agree -----

  /** Sections still marked after expansion are the file's own. */
  ghost predicate MarksAreOwn(raw: Entries, e: Entries) {
    forall k :: k in Keys(raw) && k in Keys(e) && Marked(Get(e, k)) ==> Get(e, k) == Get(raw, k)
  }

  ghost predicate NothingMarked(e: Entries) {
    forall k :: k in Keys(e) ==> !Marked(Get(e, k))
  }

  /** Merging uses markers up. */
  lemma MergeOverrideUnmarks(base: Entries, over: Entries)
    requires WellFormed(Dict(over)) && NothingMarked(base)
    ensures NothingMarked(MergeOverride(base, over))
  {
    var m := MergeOverride(base, over);
    forall k | k in Keys(m)
      ensures !Marked(Get(m, k))
    {
      MergeOverrideAt(base, over, k);
      if k in Keys(over) {
        WellFormedGet(over, k);
        if !Marked(Get(over, k)) && k in Keys(base) {
          MergeUnmarked(Get(base, k), Get(over, k));
        }
      }
    }
  }

  lemma {:induction false} ParentsUnmarked(w: World, rank: map<string, nat>, bound: nat, paths: seq<string>,
                                           base: Entries)
    requires Ranked(w, rank) && AllWellFormed(w) && AllBelow(w, rank, paths, bound) && NothingMarked(base)
    ensures var r := ExpandParents(w, rank, bound, paths, base); r.Ok? ==> NothingMarked(r.value)
    decreases |paths|
  {
    if paths != [] && paths[0] in w.files {
      var parent := Expand(w, rank, paths[0]);
      if parent.Ok? {
        ExpandWellFormed(w, rank, paths[0]);
        MergeOverrideUnmarks(base, parent.value);
        ParentsUnmarked(w, rank, bound, paths[1..], MergeOverride(base, parent.value));
      }
    }
  }

  lemma ExpandedMarks(w: World, rank: map<string, nat>, base: string)
    requires Ranked(w, rank) && AllWellFormed(w) && base in w.files && Expand(w, rank, base).Ok?
    ensures MarksAreOwn(Body(w, base), Expand(w, rank, base).value)
  {
    if ParentsOf(w.files[base]).NoDefaults? {
      RemoveAbsent(w.files[base], DEFAULTS);
    } else {
      ParentsUnmarked(w, rank, rank[base], ParentPaths(w, base), Nil);
      RemoveWellFormed(w.files[base], DEFAULTS);
      MergeOverrideUnmarks(ExpandParents(w, rank, rank[base], ParentPaths(w, base), Nil).value, Body(w, base));
    }
  }

  lemma StripMarkerCovers(raw: Value, v: Value)
    requires WellFormed(raw) && Covers(raw, v) && (Marked(v) ==> v == raw)
    ensures Covers(raw, StripMarker(v))
  {
    if Marked(v) && raw.Dict? {
      var r, stripped := raw.entries, Remove(v.entries, OVERRIDE);
      CoversMeans(r, v.entries);
      forall k | k in Keys(r)
        ensures CoversAt(r, stripped, k)
      {
        assert CoversAt(r, v.entries, k);
      }
      CoversMeans(r, stripped);
    }
  }

  lemma StripCovers(raw: Entries, e: Entries)
    requires WellFormed(Dict(raw)) && Covers(Dict(raw), Dict(e)) && MarksAreOwn(raw, e)
    ensures Covers(Dict(raw), Dict(Strip(e)))
  {
    CoversMeans(raw, e);
    forall k | k in Keys(raw)
      ensures CoversAt(raw, Strip(e), k)
    {
      assert CoversAt(raw, e, k);
      if k in Keys(e) {
        WellFormedGet(raw, k);
        StripMarkerCovers(Get(raw, k), Get(e, k));
      }
    }
    CoversMeans(raw, Strip(e));
  }

  lemma {:induction false} MergeCovers(base: Value, v: Value)
    requires WellFormed(v)
    ensures Covers(v, Merge(base, v))
    decreases v
  {
    if v.Dict? && base.Dict? {
      var c, m := v.entries, MergeEntries(base.entries, v.entries);
      MergeFacts(base.entries, c);
      forall k | k in Keys(c)
        ensures CoversAt(c, m, k)
      {
        WellFormedGet(c, k);
        if k in Keys(base.entries) {
          MergeCovers(Get(base.entries, k), Get(c, k));
        } else {
          CoversReflexive(Get(c, k));
        }
      }
      CoversMeans(c, m);
    } else {
      CoversReflexive(v);
    }
  }

  /** A file is covered by what it expands to. */
  lemma MergeOverrideCovers(base: Entries, c: Entries)
    requires WellFormed(Dict(c))
    ensures Covers(Dict(c), Dict(MergeOverride(base, c)))
  {
    var m := MergeOverride(base, c);
    forall k | k in Keys(c)
      ensures CoversAt(c, m, k)
    {
      MergeOverrideAt(base, c, k);
      WellFormedGet(c, k);
      CoversReflexive(Get(c, k));
      if Marked(Get(c, k)) {
        StripMarkerCovers(Get(c, k), Get(c, k));
      } else if k in Keys(base) {
        MergeCovers(Get(base, k), Get(c, k));
      }
    }
    CoversMeans(c, m);
  }

  lemma BodyCovered(w: World, rank: map<string, nat>, base: string)
    requires Ranked(w, rank) && AllWellFormed(w) && base in w.files
    requires Expand(w, rank, base).Ok?
    ensures WellFormed(Dict(Body(w, base)))
    ensures Covers(Dict(Body(w, base)), Dict(Expand(w, rank, base).value))
  {
    RemoveWellFormed(w.files[base], DEFAULTS);
    if ParentsOf(w.files[base]).NoDefaults? {
      RemoveAbsent(w.files[base], DEFAULTS);
      CoversReflexive(Dict(Body(w, base)));
    } else {
      MergeOverrideCovers(ExpandParents(w, rank, rank[base], ParentPaths(w, base), Nil).value, Body(w, base));
    }
  }

  /** The base's own `defaults` plays no part in pruning. */
  lemma {:induction false} PruneIgnores(c: Entries, raw: Entries, full: Entries, key: string)
    requires key !in Keys(c)
    ensures PruneEntries(c, Remove(raw, key)) == PruneEntries(c, raw)
    ensures LossyEntries(c, Remove(raw, key), full) == LossyEntries(c, raw, full)
    ensures InexactEntries(c, Remove(raw, key), full) == InexactEntries(c, raw, full)
  {
    if c.Cons? {
      PruneIgnores(c.rest, raw, full, key);
    }
  }

  // ----- minimize preserves what a config means -----

  /** Under Python's == the trees are equal exactly when the child c is not lossy,
      and then keys outside lists are in the same order; they are one and the same
      tree exactly when c is not inexact either. */
  ghost predicate MeaningKept(before: Entries, after: Entries, c: Entries, raw: Entries, full: Entries) {
    var lossy, inexact := Lossy(Dict(c), Dict(raw), Dict(full)), Inexact(Dict(c), Dict(raw), Dict(full));
    && (Eq(Dict(after), Dict(before)) <==> !lossy)
    && (!lossy ==> Same(Dict(after), Dict(before)))
    && (after == before <==> !lossy && !inexact)
  }

  /** Minimizing in place keeps the expansion of the file exactly when the file
      writes nothing that Lossy names, and keeps it to the letter exactly when it
      writes nothing that Inexact names either. */
  lemma MinimizePreservesExpansion(w: World, rank: map<string, nat>, child: string)
    requires Ranked(w, rank) && AllWellFormed(w) && Minimized(w, rank, child, Inferred).Ok?
    ensures var w1 := Rewritten(w, child, Minimized(w, rank, child, Inferred).value);
            var base := Expand(w, rank, InferBase(w, child).value).value;
            && Ranked(w1, rank) && Expand(w, rank, child).Ok? && Expand(w1, rank, child).Ok?
            && MeaningKept(Expand(w, rank, child).value, Expand(w1, rank, child).value,
                           Body(w, child), base, Strip(base))
  {
    var out := Minimized(w, rank, child, Inferred).value;
    var w1 := Rewritten(w, child, out);
    var b := InferBase(w, child).value;
    var base := Expand(w, rank, b).value;
    RewrittenKeepsParents(w, rank, child, out.rest);
    ExpandSingle(w, rank, child, b);
    assert AllBelow(w, rank, ParentPaths(w, child), rank[child]);
    assert ParentPaths(w, child)[0] == b;
    ExpandUnchanged(w, rank, child, out, b);
    ExpandSingle(w1, rank, child, b);
    ExpandWellFormed(w, rank, b);
    CoversReflexive(Dict(base));
    StripCovers(base, base);
    StripWellFormed(base);
    RemoveWellFormed(w.files[child], DEFAULTS);
    BodyOfMinimized(w, child, base, Inferred);
    MinimizePreserves(Body(w, child), base, Strip(base));
    MinimizeExact(Body(w, child), base, Strip(base));
  }

  lemma RewrittenKeepsParents(w: World, rank: map<string, nat>, child: string, rest: Entries)
    requires Ranked(w, rank) && child in w.files && InferBase(w, child).Some?
    ensures var w1 := Rewritten(w, child, Cons(DEFAULTS, DefaultsFor(w, child, Inferred), rest));
            && Ranked(w1, rank)
            && ParentsOf(w.files[child]).Parents? && ParentsOf(w1.files[child]).Parents?
            && ParentPaths(w, child) == ParentPaths(w1, child) == [InferBase(w, child).value]
  {
    var w1 := Rewritten(w, child, Cons(DEFAULTS, DefaultsFor(w, child, Inferred), rest));
    assert ParentPaths(w1, child) == ParentPaths(w, child) == [InferBase(w, child).value];
    forall p | p in w1.files
      ensures AllBelow(w1, rank, ParentPaths(w1, p), rank[p])
    {
      assert ParentPaths(w1, p) == ParentPaths(w, p);
      assert AllBelow(w, rank, ParentPaths(w, p), rank[p]);
    }
  }

  /** What the loader sees of a minimized file, apart from its `defaults`. */
  lemma BodyOfMinimized(w: World, child: string, base: Entries, mode: Mode)
    requires child in w.files && AllWellFormed(w)
    ensures DEFAULTS !in Keys(Body(w, child)) && DEFAULTS !in Keys(PruneRoot(Body(w, child), base))
    ensures var out := Cons(DEFAULTS, DefaultsFor(w, child, mode), PruneRoot(Body(w, child), base));
            Remove(out, DEFAULTS) == PruneRoot(Body(w, child), base)
  {
    PruneFacts(Body(w, child), base);
    RemoveAbsent(PruneRoot(Body(w, child), base), DEFAULTS);
  }

  /** Pruning against the raw base, merging onto the expanded one. */
  lemma RebaseMeaning(w: World, rank: map<string, nat>, child: string, base: string)
    requires Ranked(w, rank) && AllWellFormed(w) && child in w.files && base in w.files
    requires Expand(w, rank, base).Ok?
    ensures var c, raw, full := Body(w, child), w.files[base], Strip(Expand(w, rank, base).value);
            MeaningKept(MergeOverride(full, c), MergeOverride(full, PruneRoot(c, raw)), c, raw, full)
  {
    RemoveWellFormed(w.files[child], DEFAULTS);
    PruneRootIgnores(Body(w, child), w.files[base], Strip(Expand(w, rank, base).value), DEFAULTS);
    RawBaseCovered(w, rank, base);
    MinimizePreserves(Body(w, child), Body(w, base), Strip(Expand(w, rank, base).value));
    MinimizeExact(Body(w, child), Body(w, base), Strip(Expand(w, rank, base).value));
  }

  lemma RawBaseCovered(w: World, rank: map<string, nat>, base: string)
    requires Ranked(w, rank) && AllWellFormed(w) && base in w.files
    requires Expand(w, rank, base).Ok?
    ensures var raw, full := Body(w, base), Strip(Expand(w, rank, base).value);
            WellFormed(Dict(raw)) && WellFormed(Dict(full)) && Covers(Dict(raw), Dict(full))
  {
    BodyCovered(w, rank, base);
    ExpandedMarks(w, rank, base);
    ExpandWellFormed(w, rank, base);
    StripCovers(Body(w, base), Expand(w, rank, base).value);
    StripWellFormed(Expand(w, rank, base).value);
  }

  lemma PruneRootIgnores(c: Entries, raw: Entries, full: Entries, key: string)
    requires key !in Keys(c)
    ensures PruneRoot(c, Remove(raw, key)) == PruneRoot(c, raw)
    ensures Lossy(Dict(c), Dict(Remove(raw, key)), Dict(full)) == Lossy(Dict(c), Dict(raw), Dict(full))
    ensures Inexact(Dict(c), Dict(Remove(raw, key)), Dict(full)) == Inexact(Dict(c), Dict(raw), Dict(full))
  {
    PruneIgnores(c, raw, full, key);
  }

  /** With --base the child is pruned against the raw base and then expanded on
      top of the expanded one; rebasing alone and rebasing with minimizing mean
      the same exactly when nothing is erased, and to the letter exactly when
      nothing is recast either. */
  lemma RebasePreservesExpansion(w: World, rank: map<string, nat>, child: string, base: string)
    requires Ranked(w, rank) && AllWellFormed(w) && child in w.files && base in w.files
    requires w.resolve(child, w.relative(child, base)) == base && rank[base] < rank[child]
    requires Expand(w, rank, base).Ok?
    ensures var rebased := Rewritten(w, child, Cons(DEFAULTS, DefaultsFor(w, child, Explicit(base)), Body(w, child)));
            var w1 := Rewritten(w, child, Minimized(w, rank, child, Explicit(base)).value);
            && Ranked(rebased, rank) && Ranked(w1, rank) && Expand(rebased, rank, child).Ok?
                && Expand(w1, rank, child).Ok?
            && MeaningKept(Expand(rebased, rank, child).value, Expand(w1, rank, child).value,
                           Body(w, child), w.files[base], Strip(Expand(w, rank, base).value))
  {
    var c := Body(w, child);
    ExpandRebased(w, rank, child, base, c);
    ExpandRebased(w, rank, child, base, PruneRoot(c, w.files[base]));
    BodyOfMinimized(w, child, w.files[base], Explicit(base));
    RemoveAbsent(c, DEFAULTS);
    RemoveAbsent(PruneRoot(c, w.files[base]), DEFAULTS);
    RebaseMeaning(w, rank, child, base);
  }

  lemma ExpandRebased(w: World, rank: map<string, nat>, child: string, base: string, rest: Entries)
    requires Ranked(w, rank) && child in w.files && base in w.files
    requires w.resolve(child, w.relative(child, base)) == base && rank[base] < rank[child]
    requires Expand(w, rank, base).Ok?
    ensures var w1 := Rewritten(w, child, Cons(DEFAULTS, DefaultsFor(w, child, Explicit(base)), rest));
            && Ranked(w1, rank)
            && Expand(w1, rank, child) == Ok(MergeOverride(Strip(Expand(w, rank, base).value), Remove(rest, DEFAULTS)))
  {
    var e := Cons(DEFAULTS, DefaultsFor(w, child, Explicit(base)), rest);
    var w1 := Rewritten(w, child, e);
    assert ParentPaths(w1, child) == [base];
    forall p | p in w1.files
      ensures AllBelow(w1, rank, ParentPaths(w1, p), rank[p])
    {
      if p != child {
        assert ParentPaths(w1, p) == ParentPaths(w, p);
        assert AllBelow(w, rank, ParentPaths(w, p), rank[p]);
      }
    }
    ExpandUnchanged(w, rank, child, e, base);
    ExpandSingle(w1, rank, child, base);
  }

  // ----- minimize-check accepts what minimize wrote -----

  lemma CheckAfterMinimize(w: World, rank: map<string, nat>, child: string)
    requires Ranked(w, rank) && AllWellFormed(w) && Minimized(w, rank, child, Inferred).Ok?
    ensures var w1 := Rewritten(w, child, Minimized(w, rank, child, Inferred).value);
            Ranked(w1, rank) && MinimizeCheck(w1, rank, child, Inferred) == Ok(0)
  {
    var out := Minimized(w, rank, child, Inferred).value;
    var b := InferBase(w, child).value;
    var base := Expand(w, rank, b).value;
    RewrittenKeepsParents(w, rank, child, out.rest);
    assert AllBelow(w, rank, ParentPaths(w, child), rank[child]);
    assert ParentPaths(w, child)[0] == b;
    ExpandUnchanged(w, rank, child, out, b);
    BodyOfMinimized(w, child, base, Inferred);
    RemoveWellFormed(w.files[child], DEFAULTS);
    PruneIdempotent(Dict(Body(w, child)), Dict(base));
  }

  /** With --base no parent is loaded, so nothing is asked of the graph; the base
      may even be the file itself. */
  lemma CheckAfterRebase(w: World, rank: map<string, nat>, child: string, base: string)
    requires AllWellFormed(w) && child in w.files && base in w.files
    ensures var w1 := Rewritten(w, child, Minimized(w, rank, child, Explicit(base)).value);
            MinimizeCheck(w1, rank, child, Explicit(base)) == Ok(0)
  {
    BodyOfMinimized(w, child, w.files[base], Explicit(base));
    RemoveWellFormed(w.files[child], DEFAULTS);
    if base == child {
      PruneBySelf(w, child);
    } else {
      PruneIdempotent(Dict(Body(w, child)), Dict(w.files[base]));
    }
  }

  /** A file pruned against itself, and then against the result. */
  lemma PruneBySelf(w: World, child: string)
    requires AllWellFormed(w) && child in w.files
    ensures var p := PruneRoot(Body(w, child), w.files[child]);
            PruneRoot(p, Cons(DEFAULTS, DefaultsFor(w, child, Explicit(child)), p)) == p
  {
    var c, d := Body(w, child), DefaultsFor(w, child, Explicit(child));
    var p := PruneRoot(c, w.files[child]);
    BodyOfMinimized(w, child, w.files[child], Explicit(child));
    RemoveWellFormed(w.files[child], DEFAULTS);
    PruneRootIgnores(c, w.files[child], Nil, DEFAULTS);
    PruneRootIgnores(p, Cons(DEFAULTS, d, p), Nil, DEFAULTS);
    RemoveAbsent(p, DEFAULTS);
    SelfPruned(Dict(c));
  }
}
