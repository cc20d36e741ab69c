/** Flattening trees to rendered paths and comparing them
    (tools/config_cli.py:442-482). */
module ConfigCompare {
  import opened Common
  import opened Numerals
  import opened ConfigTree

  // ----- the code -----

  /** How indices are written. */
  type Numeral = nat -> string

  /** Indices are told apart, and their numerals contain no '.' and no '['. */
  ghost predicate Readable(num: Numeral) {
    && (forall i :: '.' !in num(i) && '[' !in num(i))
    && (forall i, j :: num(i) == num(j) ==> i == j)
  }

  lemma DecimalPlain(i: nat)
    ensures '.' !in Decimal(i) && '[' !in Decimal(i)
  {
  }

  lemma DecimalReadable()
    ensures Readable(Decimal)
  {
    forall i
      ensures '.' !in Decimal(i) && '[' !in Decimal(i)
    {
      DecimalPlain(i);
    }
    forall i, j | Decimal(i) == Decimal(j)
      ensures i == j
    {
      DecimalInjective(i, j);
    }
  }

  datatype Step = Key(name: string) | Index(i: nat)

  function StepText(num: Numeral, step: Step): (s: string) {
    match step
    case Key(k) => "." + k
    case Index(i) => "[" + num(i) + "]"
  }

  /** A rendered path, one step longer; a key at the root has no dot. */
  function Extended(num: Numeral, prefix: string, step: Step): (s: string) {
    if step.Key? && prefix == "" then step.name else prefix + StepText(num, step)
  }

  function Flatten(num: Numeral, v: Value, prefix: string): (m: map<string, Atom>)
    decreases v
  {
    match v
    case Leaf(a) => map[prefix := a]
    case List(items) => FlattenItems(num, items, prefix, 0)
    case Dict(e) => FlattenEntries(num, e, prefix)
  }

  function FlattenItems(num: Numeral, items: Items, prefix: string, i: nat): (m: map<string, Atom>)
    decreases items
  {
    match items
    case Empty => map[]
    case Item(v, tail) => Flatten(num, v, Extended(num, prefix, Index(i))) + FlattenItems(num, tail, prefix, i + 1)
  }

  function FlattenEntries(num: Numeral, e: Entries, prefix: string): (m: map<string, Atom>)
    decreases e
  {
    match e
    case Nil => map[]
    case Cons(k, v, rest) => Flatten(num, v, Extended(num, prefix, Key(k))) + FlattenEntries(num, rest, prefix)
  }

  datatype Report = Report(added: set<string>, removed: set<string>, changed: set<string>) {
    predicate Identical() {
      added == {} && removed == {} && changed == {}
    }
  }

  /** Differences between two flattened trees. */
  ghost function Differences(lf: map<string, Atom>, rf: map<string, Atom>): (r: Report) {
    Report(rf.Keys - lf.Keys, lf.Keys - rf.Keys, set k | k in lf.Keys * rf.Keys && !lf[k].Eq(rf[k]))
  }

  method Compare(left: Value, right: Value) returns (r: Report)
    ensures r == Differences(Flatten(Decimal, left, ""), Flatten(Decimal, right, ""))
    ensures Comparable(Decimal, left) && Comparable(Decimal, right) ==> (r.Identical() <==> Eq(left, right))
  {
    var lf, rf := Flatten(Decimal, left, ""), Flatten(Decimal, right, "");
    var common := lf.Keys * rf.Keys;
    var changed: set<string> := {};
    var todo := common;
    while todo != {}
      invariant todo <= common
      invariant changed == set k | k in common && k !in todo && !lf[k].Eq(rf[k])
      decreases todo
    {
      var k :| k in todo;
      if !lf[k].Eq(rf[k]) {
        changed := changed + {k};
      }
      todo := todo - {k};
    }
    r := Report(rf.Keys - lf.Keys, lf.Keys - rf.Keys, changed);
    ghost var comparable := Comparable(Decimal, left) && Comparable(Decimal, right);
    if comparable {
      DecimalReadable();
      IdenticalMeansEqual(Decimal, left, right);
    }
  }

  // ----- leaves by path -----

  function Length(items: Items): (n: nat) {
    match items
    case Empty => 0
    case Item(_, tail) => 1 + Length(tail)
  }

  function Nth(items: Items, i: nat): (v: Value)
    requires i < Length(items)
    ensures v < items
  {
    if i == 0 then items.head else Nth(items.tail, i - 1)
  }

  function LeafAt(v: Value, path: seq<Step>): (r: Option<Atom>)
    decreases |path|
  {
    if path == [] then (if v.Leaf? then Some(v.atom) else None)
    else
      match path[0]
      case Key(k) => if v.Dict? && k in Keys(v.entries) then LeafAt(Get(v.entries, k), path[1..]) else None
      case Index(i) => if v.List? && i < Length(v.items) then LeafAt(Nth(v.items, i), path[1..]) else None
  }

  /** The text of an index step at the end of a key. */
  ghost predicate EndsLikeIndex(num: Numeral, k: string) {
    exists i :: IndexEnds(k, num(i))
  }

  predicate IndexEnds(k: string, numeral: string) {
    |numeral| + 2 <= |k| && k[|k| - |numeral| - 2..] == "[" + numeral + "]"
  }

  /** Keys that rendering keeps apart: non-empty, without a dot, and not ending
      like an index. */
  ghost predicate GoodKey(num: Numeral, k: string) {
    k != "" && '.' !in k && !EndsLikeIndex(num, k)
  }

  ghost predicate GoodKeys(num: Numeral, v: Value) {
    match v
    case Leaf(_) => true
    case List(items) => GoodItems(num, items)
    case Dict(e) => GoodEntries(num, e)
  }

  ghost predicate GoodItems(num: Numeral, items: Items) {
    items.Item? ==> GoodKeys(num, items.head) && GoodItems(num, items.tail)
  }

  ghost predicate GoodEntries(num: Numeral, e: Entries) {
    e.Cons? ==> GoodKey(num, e.key) && GoodKeys(num, e.value) && GoodEntries(num, e.rest)
  }

  ghost predicate GoodStep(num: Numeral, step: Step) {
    step.Key? ==> GoodKey(num, step.name)
  }

  ghost predicate GoodPath(num: Numeral, path: seq<Step>) {
    forall i :: 0 <= i < |path| ==> GoodStep(num, path[i])
  }

  lemma GoodCons(num: Numeral, step: Step, path: seq<Step>)
    requires GoodStep(num, step) && GoodPath(num, path)
    ensures GoodPath(num, [step] + path)
  {
  }

  lemma {:induction false} GoodGet(num: Numeral, e: Entries, k: string)
    requires GoodEntries(num, e) && k in Keys(e)
    ensures GoodKey(num, k) && GoodKeys(num, Get(e, k))
  {
    if e.key != k {
      GoodGet(num, e.rest, k);
    }
  }

  lemma {:induction false} GoodNth(num: Numeral, items: Items, i: nat)
    requires GoodItems(num, items) && i < Length(items)
    ensures GoodKeys(num, Nth(items, i))
  {
    if i > 0 {
      GoodNth(num, items.tail, i - 1);
    }
  }

  lemma {:induction false} LeafPathsAreGood(num: Numeral, v: Value, path: seq<Step>)
    requires GoodKeys(num, v) && LeafAt(v, path).Some?
    ensures GoodPath(num, path)
    decreases |path|
  {
    if path != [] {
      match path[0] {
        case Key(k) =>
          GoodGet(num, v.entries, k);
          LeafPathsAreGood(num, Get(v.entries, k), path[1..]);
        case Index(i) =>
          GoodNth(num, v.items, i);
          LeafPathsAreGood(num, Nth(v.items, i), path[1..]);
      }
      assert path == [path[0]] + path[1..];
    }
  }

  // ----- rendered paths are distinct -----

  function Rendered(num: Numeral, prefix: string, path: seq<Step>): (s: string)
    decreases |path|
  {
    if path == [] then prefix else Extended(num, Rendered(num, prefix, path[..|path| - 1]), path[|path| - 1])
  }

  /** The first step of a path is rendered first. */
  lemma {:induction false} RenderedStep(num: Numeral, prefix: string, step: Step, path: seq<Step>)
    ensures Rendered(num, prefix, [step] + path) == Rendered(num, Extended(num, prefix, step), path)
    decreases |path|
  {
    var all := [step] + path;
    if path == [] {
      assert all[..0] == [];
    } else {
      assert all[..|all| - 1] == [step] + path[..|path| - 1];
      RenderedStep(num, prefix, step, path[..|path| - 1]);
    }
  }

  /** Every good step adds some text. */
  lemma {:induction false} RenderedGrows(num: Numeral, prefix: string, path: seq<Step>)
    requires GoodPath(num, path)
    ensures |Rendered(num, prefix, path)| >= |prefix| + |path|
    decreases |path|
  {
    if path != [] {
      assert GoodStep(num, path[|path| - 1]);
      RenderedGrows(num, prefix, path[..|path| - 1]);
    }
  }

  /** What follows the last c determines what precedes it. */
  lemma LastWord(a: string, r: string, b: string, s: string, c: char)
    requires a + [c] + r == b + [c] + s && c !in r && c !in s
    ensures a == b && r == s
  {
    var t := a + [c] + r;
    NothingAfter(a, r, c);
    NothingAfter(b, s, c);
    assert t[|a|] == c && t[|b|] == c;
    assert |a| == |b|;
    assert a == t[..|a|] && b == t[..|b|];
    assert t[|a| + 1..] == r && t[|b| + 1..] == s;
  }

  lemma NothingAfter(a: string, r: string, c: char)
    requires c !in r
    ensures var t := a + [c] + r; forall i :: |a| < i < |t| ==> t[i] != c
  {
    var t := a + [c] + r;
    forall i | |a| < i < |t|
      ensures t[i] != c
    {
      assert t[i] == r[i - |a| - 1];
    }
  }

  /** A key behind a prefix is set off by a dot. */
  lemma KeyText(num: Numeral, u: string, k: string)
    ensures Extended(num, u, Key(k)) == if u == "" then k else u + ['.'] + k
    ensures u != "" ==> '.' in Extended(num, u, Key(k))
  {
    if u != "" {
      assert u + ("." + k) == u + ['.'] + k;
      assert (u + ['.'] + k)[|u|] == '.';
    }
  }

  lemma IndexText(num: Numeral, u: string, i: nat)
    ensures Extended(num, u, Index(i)) == u + ['['] + (num(i) + "]")
    ensures IndexEnds(Extended(num, u, Index(i)), num(i))
  {
    var w := "[" + num(i) + "]";
    assert u + w == u + ['['] + (num(i) + "]");
    assert (u + w)[|u|..] == w;
  }

  /** Two keys at the end of equal texts are one. */
  lemma SameLastKey(num: Numeral, u: string, k: string, v: string, j: string)
    requires GoodKey(num, k) && GoodKey(num, j) && Extended(num, u, Key(k)) == Extended(num, v, Key(j))
    ensures k == j && u == v
  {
    KeyText(num, u, k);
    KeyText(num, v, j);
    if u != "" && v != "" {
      LastWord(u, k, v, j, '.');
    }
  }

  lemma SameLastIndex(num: Numeral, u: string, i: nat, v: string, j: nat)
    requires Readable(num) && Extended(num, u, Index(i)) == Extended(num, v, Index(j))
    ensures i == j && u == v
  {
    var m, n := num(i), num(j);
    IndexText(num, u, i);
    IndexText(num, v, j);
    LastWord(u, m + "]", v, n + "]", '[');
    assert m == (m + "]")[..|m|] && n == (n + "]")[..|n|];
  }

  lemma KeySuffix(u: string, k: string, n: nat)
    ensures n <= |k| ==> (u + ['.'] + k)[|u| + 1 + |k| - n..] == k[|k| - n..]
    ensures |k| < n <= |u| + 1 + |k| ==> '.' in (u + ['.'] + k)[|u| + 1 + |k| - n..]
  {
    var t := u + ['.'] + k;
    if |k| < n <= |t| {
      assert t[|t| - n..][n - |k| - 1] == t[|u|] == '.';
    }
  }

  /** A text that ends in a good key does not end in an index. */
  lemma KeyIsNoIndex(num: Numeral, u: string, k: string, i: nat)
    requires Readable(num) && GoodKey(num, k)
    ensures !IndexEnds(Extended(num, u, Key(k)), num(i))
  {
    var w := "[" + num(i) + "]";
    KeyText(num, u, k);
    KeySuffix(u, k, |w|);
    assert !IndexEnds(k, num(i));
    assert '.' !in w;
  }

  /** The last step of a rendered path can be read off its text. */
  lemma SameLastStep(num: Numeral, u: string, s: Step, v: string, t: Step)
    requires Readable(num) && GoodStep(num, s) && GoodStep(num, t) && Extended(num, u, s) == Extended(num, v, t)
    ensures s == t && u == v
  {
    match (s, t) {
      case (Key(k), Key(j)) =>
        SameLastKey(num, u, k, v, j);
      case (Index(i), Index(j)) =>
        SameLastIndex(num, u, i, v, j);
      case (Key(k), Index(j)) =>
        KeyIsNoIndex(num, u, k, j);
        IndexText(num, v, j);
      case (Index(i), Key(j)) =>
        KeyIsNoIndex(num, v, j, i);
        IndexText(num, u, i);
    }
  }

  /** Different paths are rendered differently. */
  lemma {:induction false} RenderedInjective(num: Numeral, prefix: string, p: seq<Step>, q: seq<Step>)
    requires Readable(num)
    requires GoodPath(num, p) && GoodPath(num, q) && Rendered(num, prefix, p) == Rendered(num, prefix, q)
    ensures p == q
    decreases |p|
  {
    RenderedGrows(num, prefix, p);
    RenderedGrows(num, prefix, q);
    if p != [] && q != [] {
      var p0, q0, s, t := p[..|p| - 1], q[..|q| - 1], p[|p| - 1], q[|q| - 1];
      assert GoodStep(num, s) && GoodStep(num, t);
      SameLastStep(num, Rendered(num, prefix, p0), s, Rendered(num, prefix, q0), t);
      RenderedInjective(num, prefix, p0, q0);
      assert p == p0 + [s] && q == q0 + [t];
    }
  }

  // ----- flattening lists exactly the leaves -----

  lemma LeafBelow(v: Value, step: Step, path: seq<Step>)
    ensures v.Dict? && step.Key? && step.name in Keys(v.entries) ==>
              LeafAt(v, [step] + path) == LeafAt(Get(v.entries, step.name), path)
    ensures v.List? && step.Index? && step.i < Length(v.items) ==>
              LeafAt(v, [step] + path) == LeafAt(Nth(v.items, step.i), path)
  {
    assert ([step] + path)[1..] == path;
  }

  /** s renders the path of a leaf. */
  ghost predicate RendersLeaf(num: Numeral, v: Value, prefix: string, path: seq<Step>, s: string) {
    LeafAt(v, path).Some? && Rendered(num, prefix, path) == s
  }

  lemma LeafOfItem(num: Numeral, items: Items, prefix: string, i: nat, path: seq<Step>, s: string)
    requires i < Length(items) && RendersLeaf(num, Nth(items, i), Extended(num, prefix, Index(i)), path, s)
    ensures RendersLeaf(num, List(items), prefix, [Index(i)] + path, s)
  {
    LeafBelow(List(items), Index(i), path);
    RenderedStep(num, prefix, Index(i), path);
  }

  lemma LeafOfEntry(num: Numeral, e: Entries, prefix: string, k: string, path: seq<Step>, s: string)
    requires k in Keys(e) && RendersLeaf(num, Get(e, k), Extended(num, prefix, Key(k)), path, s)
    ensures RendersLeaf(num, Dict(e), prefix, [Key(k)] + path, s)
  {
    LeafBelow(Dict(e), Key(k), path);
    RenderedStep(num, prefix, Key(k), path);
  }

  /** Every flattened key is the rendering of a leaf's path. */
  lemma {:induction false} FlattenOnlyLeaves(num: Numeral, v: Value, prefix: string, s: string)
    returns (path: seq<Step>)
    requires s in Flatten(num, v, prefix) && WellFormed(v)
    ensures RendersLeaf(num, v, prefix, path, s)
    decreases v
  {
    match v {
      case Leaf(_) => path := [];
      case List(items) =>
        var i := SomeItem(num, items, prefix, 0, s);
        WellFormedNth(items, i);
        path := FlattenOnlyLeaves(num, Nth(items, i), Extended(num, prefix, Index(i)), s);
        LeafOfItem(num, items, prefix, i, path, s);
        path := [Index(i)] + path;
      case Dict(e) =>
        var k := SomeEntry(num, e, prefix, s);
        WellFormedGet(e, k);
        path := FlattenOnlyLeaves(num, Get(e, k), Extended(num, prefix, Key(k)), s);
        LeafOfEntry(num, e, prefix, k, path, s);
        path := [Key(k)] + path;
    }
  }

  lemma {:induction false} SomeItem(num: Numeral, items: Items, prefix: string, from: nat, s: string) returns (j: nat)
    requires s in FlattenItems(num, items, prefix, from)
    ensures j < Length(items) && s in Flatten(num, Nth(items, j), Extended(num, prefix, Index(from + j)))
    decreases items
  {
    if s in FlattenItems(num, items.tail, prefix, from + 1) {
      var later := SomeItem(num, items.tail, prefix, from + 1, s);
      j := later + 1;
      assert Index(from + 1 + later) == Index(from + j);
    } else {
      j := 0;
    }
  }

  lemma {:induction false} SomeEntry(num: Numeral, e: Entries, prefix: string, s: string) returns (k: string)
    requires s in FlattenEntries(num, e, prefix) && Distinct(e)
    ensures k in Keys(e) && s in Flatten(num, Get(e, k), Extended(num, prefix, Key(k)))
    decreases e
  {
    if s in FlattenEntries(num, e.rest, prefix) {
      k := SomeEntry(num, e.rest, prefix, s);
    } else {
      k := e.key;
    }
  }

  ghost predicate Holds(m: map<string, Atom>, s: string, a: Atom) {
    s in m && m[s] == a
  }

  /** No text is listed below two different steps. */
  lemma OneStepOnly(num: Numeral, prefix: string, s: Step, v: Value, t: Step, w: Value, text: string)
    requires Readable(num) && GoodStep(num, s) && GoodStep(num, t)
    requires WellFormed(v) && GoodKeys(num, v) && text in Flatten(num, v, Extended(num, prefix, s))
    requires WellFormed(w) && GoodKeys(num, w) && text in Flatten(num, w, Extended(num, prefix, t))
    ensures s == t
  {
    var p := FlattenOnlyLeaves(num, v, Extended(num, prefix, s), text);
    var q := FlattenOnlyLeaves(num, w, Extended(num, prefix, t), text);
    LeafPathsAreGood(num, v, p);
    LeafPathsAreGood(num, w, q);
    GoodCons(num, s, p);
    GoodCons(num, t, q);
    RenderedStep(num, prefix, s, p);
    RenderedStep(num, prefix, t, q);
    SameFirstStep(num, prefix, s, p, t, q);
  }

  /** Every leaf is listed under its rendered path: no update overwrites one. */
  lemma {:induction false} FlattenHasLeaf(num: Numeral, v: Value, prefix: string, path: seq<Step>)
    requires Readable(num)
    requires LeafAt(v, path).Some? && WellFormed(v) && GoodKeys(num, v)
    ensures Holds(Flatten(num, v, prefix), Rendered(num, prefix, path), LeafAt(v, path).value)
    decreases v
  {
    if path != [] {
      var step, rest := path[0], path[1..];
      assert path == [step] + rest;
      RenderedStep(num, prefix, step, rest);
      LeafBelow(v, step, rest);
      var a := LeafAt(v, path).value;
      match step {
        case Key(k) =>
          WellFormedGet(v.entries, k);
          GoodGet(num, v.entries, k);
          FlattenHasLeaf(num, Get(v.entries, k), Extended(num, prefix, step), rest);
          EntriesHold(num, v.entries, prefix, k, Rendered(num, prefix, path), a);
        case Index(i) =>
          WellFormedNth(v.items, i);
          GoodNth(num, v.items, i);
          FlattenHasLeaf(num, Nth(v.items, i), Extended(num, prefix, step), rest);
          ItemsHold(num, v.items, prefix, 0, i, Rendered(num, prefix, path), a);
      }
    }
  }

  /** What the first entry lists, no later entry overwrites. */
  lemma NotBelowLaterKeys(num: Numeral, e: Entries, prefix: string, text: string)
    requires Readable(num) && e.Cons? && Distinct(e) && WellFormedEntries(e) && GoodEntries(num, e)
    requires text in Flatten(num, e.value, Extended(num, prefix, Key(e.key)))
    ensures text !in FlattenEntries(num, e.rest, prefix)
  {
    if text in FlattenEntries(num, e.rest, prefix) {
      var k := SomeEntry(num, e.rest, prefix, text);
      WellFormedGet(e.rest, k);
      GoodGet(num, e.rest, k);
      OneStepOnly(num, prefix, Key(e.key), e.value, Key(k), Get(e.rest, k), text);
    }
  }

  lemma {:induction false} EntriesHold(num: Numeral, e: Entries, prefix: string, k: string, text: string, a: Atom)
    requires Readable(num) && Distinct(e) && WellFormedEntries(e) && GoodEntries(num, e)
    requires k in Keys(e) && Holds(Flatten(num, Get(e, k), Extended(num, prefix, Key(k))), text, a)
    ensures Holds(FlattenEntries(num, e, prefix), text, a)
    decreases e
  {
    if k == e.key {
      NotBelowLaterKeys(num, e, prefix, text);
    } else {
      EntriesHold(num, e.rest, prefix, k, text, a);
    }
  }

  /** What is listed below the items from a position on is below one good item. */
  lemma BelowSomeIndex(num: Numeral, items: Items, prefix: string, from: nat, text: string) returns (i: nat, v: Value)
    requires WellFormedItems(items) && GoodItems(num, items) && text in FlattenItems(num, items, prefix, from)
    ensures i >= from && WellFormed(v) && GoodKeys(num, v) && text in Flatten(num, v, Extended(num, prefix, Index(i)))
  {
    var j := SomeItem(num, items, prefix, from, text);
    WellFormedNth(items, j);
    GoodNth(num, items, j);
    i, v := from + j, Nth(items, j);
  }

  /** What one item lists, no later item overwrites. */
  lemma NotBelowLaterIndices(num: Numeral, v: Value, later: Items, prefix: string, from: nat, text: string)
    requires Readable(num) && WellFormed(v) && GoodKeys(num, v) && WellFormedItems(later) && GoodItems(num, later)
    requires text in Flatten(num, v, Extended(num, prefix, Index(from)))
    ensures text !in FlattenItems(num, later, prefix, from + 1)
  {
    if text in FlattenItems(num, later, prefix, from + 1) {
      var i, w := BelowSomeIndex(num, later, prefix, from + 1, text);
      OneStepOnly(num, prefix, Index(from), v, Index(i), w, text);
    }
  }

  lemma {:induction false} ItemsHold(num: Numeral, items: Items, prefix: string, from: nat, j: nat, text: string,
                                     a: Atom)
    requires Readable(num) && WellFormedItems(items) && GoodItems(num, items)
    requires j < Length(items) && Holds(Flatten(num, Nth(items, j), Extended(num, prefix, Index(from + j))), text, a)
    ensures Holds(FlattenItems(num, items, prefix, from), text, a)
    decreases items
  {
    if j == 0 {
      NotBelowLaterIndices(num, items.head, items.tail, prefix, from, text);
    } else {
      assert Index(from + 1 + (j - 1)) == Index(from + j);
      ItemsHold(num, items.tail, prefix, from + 1, j - 1, text, a);
    }
  }

  lemma SameFirstStep(num: Numeral, prefix: string, s: Step, p: seq<Step>, t: Step, q: seq<Step>)
    requires Readable(num)
    requires GoodPath(num, [s] + p) && GoodPath(num, [t] + q)
    requires Rendered(num, prefix, [s] + p) == Rendered(num, prefix, [t] + q)
    ensures s == t
  {
    RenderedInjective(num, prefix, [s] + p, [t] + q);
    assert ([s] + p)[0] == s && ([t] + q)[0] == t;
  }

  // ----- what "identical" means -----

  /** Leaf for leaf the same, under Python's ==. */
  ghost predicate AgreeAt(l: Value, r: Value, path: seq<Step>) {
    match (LeafAt(l, path), LeafAt(r, path))
    case (None, None) => true
    case (Some(a), Some(b)) => a.Eq(b)
    case _ => false
  }

  /** Flattened keys and leaf paths match one to one. */
  lemma FlattenAt(num: Numeral, v: Value, path: seq<Step>)
    requires Readable(num)
    requires WellFormed(v) && GoodKeys(num, v) && GoodPath(num, path)
    ensures Rendered(num, "", path) in Flatten(num, v, "") <==> LeafAt(v, path).Some?
    ensures LeafAt(v, path).Some? ==> Flatten(num, v, "")[Rendered(num, "", path)] == LeafAt(v, path).value
  {
    if LeafAt(v, path).Some? {
      FlattenHasLeaf(num, v, "", path);
    }
    if Rendered(num, "", path) in Flatten(num, v, "") {
      var p := FlattenOnlyLeaves(num, v, "", Rendered(num, "", path));
      LeafPathsAreGood(num, v, p);
      RenderedInjective(num, "", p, path);
    }
  }

  /** For trees with good keys the report is empty exactly when the leaves agree. */
  lemma IdenticalMeansSameLeaves(num: Numeral, l: Value, r: Value)
    requires Readable(num)
    requires WellFormed(l) && WellFormed(r) && GoodKeys(num, l) && GoodKeys(num, r)
    ensures Differences(Flatten(num, l, ""), Flatten(num, r, "")).Identical() <==> forall path :: AgreeAt(l, r, path)
  {
    var lf, rf := Flatten(num, l, ""), Flatten(num, r, "");
    if Differences(lf, rf).Identical() {
      forall path
        ensures AgreeAt(l, r, path)
      {
        IdenticalAgrees(num, l, r, path);
      }
    }
    if forall path :: AgreeAt(l, r, path) {
      forall s | s in lf.Keys + rf.Keys
        ensures s in lf && s in rf && lf[s].Eq(rf[s])
      {
        AgreesIdentical(num, l, r, s);
      }
    }
  }

  lemma IdenticalAgrees(num: Numeral, l: Value, r: Value, path: seq<Step>)
    requires Readable(num)
    requires WellFormed(l) && WellFormed(r) && GoodKeys(num, l) && GoodKeys(num, r)
    requires Differences(Flatten(num, l, ""), Flatten(num, r, "")).Identical()
    ensures AgreeAt(l, r, path)
  {
    if LeafAt(l, path).Some? || LeafAt(r, path).Some? {
      if LeafAt(l, path).Some? {
        LeafPathsAreGood(num, l, path);
      } else {
        LeafPathsAreGood(num, r, path);
      }
      FlattenAt(num, l, path);
      FlattenAt(num, r, path);
      var lf, rf, s := Flatten(num, l, ""), Flatten(num, r, ""), Rendered(num, "", path);
      assert s in lf <==> s in rf by {
        assert s !in lf.Keys - rf.Keys && s !in rf.Keys - lf.Keys;
      }
      assert s !in Differences(lf, rf).changed;
    }
  }

  lemma AgreesIdentical(num: Numeral, l: Value, r: Value, s: string)
    requires Readable(num)
    requires WellFormed(l) && WellFormed(r) && GoodKeys(num, l) && GoodKeys(num, r)
    requires forall path :: AgreeAt(l, r, path)
    requires s in Flatten(num, l, "") || s in Flatten(num, r, "")
    ensures s in Flatten(num, l, "") && s in Flatten(num, r, "") && Flatten(num, l, "")[s].Eq(Flatten(num, r, "")[s])
  {
    var path;
    if s in Flatten(num, l, "") {
      path := FlattenOnlyLeaves(num, l, "", s);
    } else {
      path := FlattenOnlyLeaves(num, r, "", s);
    }
    assert AgreeAt(l, r, path);
    FlattenHasLeaf(num, l, "", path);
    FlattenHasLeaf(num, r, "", path);
  }

  // ----- without empty containers, leaves determine the tree -----

  predicate NoEmpties(v: Value) {
    match v
    case Leaf(_) => true
    case List(items) => items.Item? && NoEmptyItems(items)
    case Dict(e) => e.Cons? && NoEmptyEntries(e)
  }

  predicate NoEmptyItems(items: Items) {
    items.Item? ==> NoEmpties(items.head) && NoEmptyItems(items.tail)
  }

  predicate NoEmptyEntries(e: Entries) {
    e.Cons? ==> NoEmpties(e.value) && NoEmptyEntries(e.rest)
  }

  /** What compare can tell apart. */
  ghost predicate Comparable(num: Numeral, v: Value) {
    WellFormed(v) && GoodKeys(num, v) && NoEmpties(v)
  }

  lemma {:induction false} BelowKey(e: Entries, k: string)
    requires k in Keys(e) && WellFormedEntries(e) && NoEmptyEntries(e)
    ensures WellFormed(Get(e, k)) && NoEmpties(Get(e, k))
  {
    if e.key != k {
      BelowKey(e.rest, k);
    }
  }

  lemma {:induction false} BelowIndex(items: Items, i: nat)
    requires i < Length(items) && WellFormedItems(items) && NoEmptyItems(items)
    ensures WellFormed(Nth(items, i)) && NoEmpties(Nth(items, i))
  {
    if i > 0 {
      BelowIndex(items.tail, i - 1);
    }
  }

  lemma {:induction false} SomeLeaf(v: Value) returns (path: seq<Step>)
    requires NoEmpties(v)
    ensures LeafAt(v, path).Some?
    decreases v
  {
    match v {
      case Leaf(_) => path := [];
      case List(items) =>
        var rest := SomeLeaf(items.head);
        path := [Index(0)] + rest;
        LeafBelow(v, Index(0), rest);
      case Dict(e) =>
        var rest := SomeLeaf(e.value);
        path := [Key(e.key)] + rest;
        LeafBelow(v, Key(e.key), rest);
    }
  }

  lemma {:induction false} EqItemsFrom(a: Items, b: Items)
    requires Length(a) == Length(b) && forall i :: 0 <= i < Length(a) ==> Eq(Nth(a, i), Nth(b, i))
    ensures EqItems(a, b)
    decreases a
  {
    if a.Item? {
      assert Eq(Nth(a, 0), Nth(b, 0));
      forall i | 0 <= i < Length(a.tail)
        ensures Eq(Nth(a.tail, i), Nth(b.tail, i))
      {
        assert Eq(Nth(a, i + 1), Nth(b, i + 1));
      }
      EqItemsFrom(a.tail, b.tail);
    }
  }

  lemma {:induction false} EqItemsAt(a: Items, b: Items, i: nat)
    requires EqItems(a, b)
    ensures Length(a) == Length(b) && (i < Length(a) ==> Eq(Nth(a, i), Nth(b, i)))
    decreases a
  {
    if a.Item? {
      EqItemsAt(a.tail, b.tail, if i > 0 then i - 1 else 0);
    }
  }

  ghost predicate Agree(l: Value, r: Value) {
    forall path :: AgreeAt(l, r, path)
  }

  lemma AgreeBelowKey(l: Value, r: Value, k: string)
    requires Agree(l, r) && l.Dict? && r.Dict? && k in Keys(l.entries) && k in Keys(r.entries)
    ensures Agree(Get(l.entries, k), Get(r.entries, k))
  {
    forall path
      ensures AgreeAt(Get(l.entries, k), Get(r.entries, k), path)
    {
      LeafBelow(l, Key(k), path);
      LeafBelow(r, Key(k), path);
      assert AgreeAt(l, r, [Key(k)] + path);
    }
  }

  lemma AgreeBelowIndex(l: Value, r: Value, i: nat)
    requires Agree(l, r) && l.List? && r.List? && i < Length(l.items) && i < Length(r.items)
    ensures Agree(Nth(l.items, i), Nth(r.items, i))
  {
    forall path
      ensures AgreeAt(Nth(l.items, i), Nth(r.items, i), path)
    {
      LeafBelow(l, Index(i), path);
      LeafBelow(r, Index(i), path);
      assert AgreeAt(l, r, [Index(i)] + path);
    }
  }

  /** Where one tree has a key or index, so does a tree with the same leaves. */
  lemma AgreeKeepsStep(l: Value, r: Value, step: Step)
    requires Agree(l, r) || Agree(r, l)
    requires WellFormed(l) && NoEmpties(l)
    requires if step.Key? then l.Dict? && step.name in Keys(l.entries) else l.List? && step.i < Length(l.items)
    ensures if step.Key? then r.Dict? && step.name in Keys(r.entries) else r.List? && step.i < Length(r.items)
  {
    var rest;
    if step.Key? {
      BelowKey(l.entries, step.name);
      rest := SomeLeaf(Get(l.entries, step.name));
    } else {
      BelowIndex(l.items, step.i);
      rest := SomeLeaf(Nth(l.items, step.i));
    }
    LeafBelow(l, step, rest);
    assert Agree(l, r) ==> AgreeAt(l, r, [step] + rest);
    assert Agree(r, l) ==> AgreeAt(r, l, [step] + rest);
    assert LeafAt(r, [step] + rest).Some?;
  }

  lemma {:induction false} AgreeImpliesEq(l: Value, r: Value)
    requires WellFormed(l) && WellFormed(r) && NoEmpties(l) && NoEmpties(r) && Agree(l, r)
    ensures Eq(l, r)
    decreases l
  {
    match l {
      case Leaf(_) => assert AgreeAt(l, r, []);
      case List(items) => AgreeLists(l, r);
      case Dict(e) =>
        AgreeKeepsStep(l, r, Key(e.key));
        forall k
          ensures k in Keys(e) <==> k in Keys(r.entries)
        {
          if k in Keys(e) {
            AgreeKeepsStep(l, r, Key(k));
          }
          if k in Keys(r.entries) {
            AgreeKeepsStep(r, l, Key(k));
          }
        }
        forall k | k in Keys(e)
          ensures Eq(Get(e, k), Get(r.entries, k))
        {
          BelowKey(e, k);
          BelowKey(r.entries, k);
          AgreeBelowKey(l, r, k);
          AgreeImpliesEq(Get(e, k), Get(r.entries, k));
        }
        EqDicts(e, r.entries);
    }
  }

  lemma {:induction false} AgreeLists(l: Value, r: Value)
    requires WellFormed(l) && WellFormed(r) && NoEmpties(l) && NoEmpties(r) && Agree(l, r) && l.List?
    ensures Eq(l, r)
    decreases l, 0
  {
    AgreeKeepsStep(l, r, Index(0));
    AgreeKeepsStep(l, r, Index(Length(l.items) - 1));
    AgreeKeepsStep(r, l, Index(Length(r.items) - 1));
    forall i | 0 <= i < Length(l.items)
      ensures Eq(Nth(l.items, i), Nth(r.items, i))
    {
      BelowIndex(l.items, i);
      BelowIndex(r.items, i);
      AgreeBelowIndex(l, r, i);
      AgreeImpliesEq(Nth(l.items, i), Nth(r.items, i));
    }
    EqItemsFrom(l.items, r.items);
  }

  lemma {:induction false} EqImpliesAgree(l: Value, r: Value, path: seq<Step>)
    requires WellFormed(l) && WellFormed(r) && Eq(l, r)
    ensures AgreeAt(l, r, path)
    decreases |path|
  {
    if path != [] {
      match path[0] {
        case Key(k) =>
          if l.Dict? {
            EqDicts(l.entries, r.entries);
            if k in Keys(l.entries) {
              WellFormedGet(l.entries, k);
              WellFormedGet(r.entries, k);
              EqImpliesAgree(Get(l.entries, k), Get(r.entries, k), path[1..]);
            }
          }
        case Index(i) =>
          if l.List? {
            EqItemsAt(l.items, r.items, i);
            if i < Length(l.items) {
              WellFormedNth(l.items, i);
              WellFormedNth(r.items, i);
              EqImpliesAgree(Nth(l.items, i), Nth(r.items, i), path[1..]);
            }
          }
      }
    }
  }

  lemma {:induction false} WellFormedNth(items: Items, i: nat)
    requires WellFormedItems(items) && i < Length(items)
    ensures WellFormed(Nth(items, i))
  {
    if i > 0 {
      WellFormedNth(items.tail, i - 1);
    }
  }

  /** Compare says "identical" exactly for equal trees. */
  lemma IdenticalMeansEqual(num: Numeral, l: Value, r: Value)
    requires Readable(num)
    requires Comparable(num, l) && Comparable(num, r)
    ensures Differences(Flatten(num, l, ""), Flatten(num, r, "")).Identical() <==> Eq(l, r)
  {
    IdenticalMeansSameLeaves(num, l, r);
    if Eq(l, r) {
      forall path
        ensures AgreeAt(l, r, path)
      {
        EqImpliesAgree(l, r, path);
      }
    } else if Agree(l, r) {
      AgreeImpliesEq(l, r);
    }
  }

  /** Outside those trees the report can be wrong: empty containers vanish, and
      a key with a dot renders like two keys. */
  lemma CompareIsBlind()
    ensures var l, r := Dict(Cons("a", NoEntries, Nil)), Dict(Nil);
            Differences(Flatten(Decimal, l, ""), Flatten(Decimal, r, "")).Identical() && !Eq(l, r)
    ensures var l, r := Dict(Cons("a.b", Leaf(Null), Nil)), Dict(Cons("a", Dict(Cons("b", Leaf(Null), Nil)), Nil));
            Differences(Flatten(Decimal, l, ""), Flatten(Decimal, r, "")).Identical() && !Eq(l, r)
  {
    var l, r := Dict(Cons("a.b", Leaf(Null), Nil)), Dict(Cons("a", Dict(Cons("b", Leaf(Null), Nil)), Nil));
    assert Extended(Decimal, "a", Key("b")) == "a" + ("." + "b") == "a.b";
    assert Flatten(Decimal, l, "") == map["a.b" := Null];
    assert Flatten(Decimal, r, "") == map["a.b" := Null];
    assert Keys(l.entries) == {"a.b"} && Keys(r.entries) == {"a"};
    assert "a.b" != "a" by {
      assert |"a.b"| == 3;
    }
    assert "a.b" in Keys(l.entries) && "a.b" !in Keys(r.entries);
    assert "a" in Keys(Cons("a", NoEntries, Nil));
  }

  // ----- keys that render like paths -----

  ghost predicate KeyPath(path: seq<Step>) {
    forall i :: 0 <= i < |path| ==> path[i].Key?
  }

  /** Nested mappings with one key each, and a leaf. */
  ghost function Nest(path: seq<Step>, a: Atom): (v: Value)
    requires KeyPath(path)
    ensures NoEmpties(v) && WellFormed(v) && (v.Dict? <==> path != [])
  {
    if path == [] then Leaf(a)
    else
      var below := Cons(path[0].name, Nest(path[1..], a), Nil);
      assert Distinct(below) && WellFormedEntries(below) && NoEmptyEntries(below) by {
        assert Distinct(Nil) && Keys(Nil) == {} && NoEmptyEntries(Nil);
      }
      Dict(below)
  }

  lemma NestStep(num: Numeral, prefix: string, k: string, v: Value)
    ensures Flatten(num, Dict(Cons(k, v, Nil)), prefix) == Flatten(num, v, Extended(num, prefix, Key(k)))
  {
    var m := Flatten(num, v, Extended(num, prefix, Key(k)));
    assert FlattenEntries(num, Cons(k, v, Nil), prefix) == m + map[] == m;
  }

  lemma {:induction false} NestFlattens(num: Numeral, prefix: string, path: seq<Step>, a: Atom)
    requires KeyPath(path)
    ensures Flatten(num, Nest(path, a), prefix) == map[Rendered(num, prefix, path) := a]
    decreases |path|
  {
    if path != [] {
      var step, rest := path[0], path[1..];
      NestFlattens(num, Extended(num, prefix, step), rest, a);
      NestStep(num, prefix, step.name, Nest(rest, a));
      RenderedStep(num, prefix, step, rest);
      assert path == [step] + rest;
    }
  }

  lemma {:induction false} NestsDiffer(p: seq<Step>, q: seq<Step>, a: Atom)
    requires KeyPath(p) && KeyPath(q) && p != q
    ensures !Eq(Nest(p, a), Nest(q, a))
    decreases |p|
  {
    if p != [] && q != [] {
      assert p == [p[0]] + p[1..] && q == [q[0]] + q[1..];
      var e, f := Nest(p, a).entries, Nest(q, a).entries;
      assert Keys(e) == {p[0].name} && Keys(f) == {q[0].name};
      if p[0] == q[0] {
        NestsDiffer(p[1..], q[1..], a);
      }
      EqDicts(e, f);
    }
  }

  /** Two trees without empty containers that compare cannot tell apart. */
  ghost predicate Twins(num: Numeral, l: Value, r: Value) {
    && WellFormed(l) && WellFormed(r) && NoEmpties(l) && NoEmpties(r) && !Eq(l, r)
    && Differences(Flatten(num, l, ""), Flatten(num, r, "")).Identical()
  }

  /** Whenever two paths render alike, compare calls two different trees without
      empty containers identical. */
  lemma AmbiguityIsBlindness(num: Numeral, p: seq<Step>, q: seq<Step>, a: Atom)
    requires KeyPath(p) && KeyPath(q) && p != q && Rendered(num, "", p) == Rendered(num, "", q)
    ensures Twins(num, Nest(p, a), Nest(q, a))
  {
    NestFlattens(num, "", p, a);
    NestFlattens(num, "", q, a);
    NestsDiffer(p, q, a);
  }

  /** The keys of a path are joined by dots. */
  lemma TwoKeys(num: Numeral, x: string, y: string)
    ensures Rendered(num, "", [Key(x), Key(y)]) == if x == "" then y else x + "." + y
    ensures Rendered(num, "", [Key(x)]) == x
  {
    var p, q := [Key(x), Key(y)], [Key(x)];
    assert p[..1] == q && q[..0] == [];
    assert Rendered(num, "", q) == Extended(num, "", Key(x)) == x;
    assert Rendered(num, "", p) == Extended(num, x, Key(y));
    assert x + ("." + y) == x + "." + y;
  }

  /** Every key with a dot collides: with the keys around its first dot, or below
      the empty key if it starts with the dot. */
  lemma DottedKeyIsBlind(num: Numeral, k: string, i: nat, a: Atom)
    requires i < |k| && k[i] == '.'
    ensures var other := if i > 0 then [Key(k[..i]), Key(k[i + 1..])] else [Key(""), Key(k)];
            Twins(num, Nest([Key(k)], a), Nest(other, a))
  {
    var other := if i > 0 then [Key(k[..i]), Key(k[i + 1..])] else [Key(""), Key(k)];
    assert k == k[..i] + "." + k[i + 1..];
    TwoKeys(num, k[..i], k[i + 1..]);
    TwoKeys(num, "", k);
    TwoKeys(num, k, "");
    AmbiguityIsBlindness(num, [Key(k)], other, a);
  }

  /** The empty key collides with everything. */
  lemma EmptyKeyIsBlind(num: Numeral, k: string, a: Atom)
    ensures Twins(num, Nest([Key(""), Key(k)], a), Nest([Key(k)], a))
  {
    TwoKeys(num, "", k);
    TwoKeys(num, k, "");
    AmbiguityIsBlindness(num, [Key(""), Key(k)], [Key(k)], a);
  }

  /** The text of position i of x. */
  function Indexed(num: Numeral, x: string, i: nat): (k: string) {
    x + ("[" + num(i) + "]")
  }

  /** A mapping with the texts of positions i .. n of x as its keys. */
  ghost function Positions(num: Numeral, x: string, i: nat, n: nat, a: Atom): (e: Entries)
    requires i <= n
    decreases n - i
  {
    if i == n then Nil else Cons(Indexed(num, x, i), Leaf(a), Positions(num, x, i + 1, n, a))
  }

  ghost function Copies(n: nat, a: Atom): (items: Items) {
    if n == 0 then Empty else Item(Leaf(a), Copies(n - 1, a))
  }

  lemma {:induction false} PositionsFlatten(num: Numeral, x: string, i: nat, n: nat, a: Atom)
    requires i <= n
    ensures FlattenEntries(num, Positions(num, x, i, n, a), "") == FlattenItems(num, Copies(n - i, a), x, i)
    decreases n - i
  {
    if i < n {
      PositionsFlatten(num, x, i + 1, n, a);
      assert Extended(num, x, Index(i)) == Indexed(num, x, i) == Extended(num, "", Key(Indexed(num, x, i)));
    }
  }

  lemma IndexedDiffer(num: Numeral, x: string, i: nat, j: nat)
    requires Readable(num) && Indexed(num, x, i) == Indexed(num, x, j)
    ensures i == j
  {
    SameLastIndex(num, x, i, x, j);
  }

  lemma {:induction false} PositionsFacts(num: Numeral, x: string, i: nat, n: nat, a: Atom)
    requires Readable(num) && i <= n
    ensures var e := Positions(num, x, i, n, a); Distinct(e) && WellFormedEntries(e) && NoEmptyEntries(e)
    ensures forall j: nat :: Indexed(num, x, j) in Keys(Positions(num, x, i, n, a)) <==> i <= j < n
    decreases n - i
  {
    if i < n {
      PositionsFacts(num, x, i + 1, n, a);
      forall j: nat
        ensures Indexed(num, x, j) in Keys(Positions(num, x, i, n, a)) <==> i <= j < n
      {
        if Indexed(num, x, i) == Indexed(num, x, j) {
          IndexedDiffer(num, x, i, j);
        }
      }
    }
  }

  lemma {:induction false} CopiesFacts(n: nat, a: Atom)
    ensures WellFormedItems(Copies(n, a)) && NoEmptyItems(Copies(n, a))
  {
    if n > 0 {
      CopiesFacts(n - 1, a);
    }
  }

  /** What compare cannot tell from a mapping with such keys: the list itself. */
  ghost function AsList(x: string, items: Items): (v: Value) {
    if x == "" then List(items) else Dict(Cons(x, List(items), Nil))
  }

  lemma AsListFacts(num: Numeral, x: string, items: Items)
    requires items.Item? && WellFormedItems(items) && NoEmptyItems(items)
    ensures var v := AsList(x, items);
            && WellFormed(v) && NoEmpties(v) && (v.Dict? ==> Keys(v.entries) == {x})
            && Flatten(num, v, "") == FlattenItems(num, items, x, 0)
  {
    if x != "" {
      var e := Cons(x, List(items), Nil);
      assert Distinct(Nil) && Keys(Nil) == {} && NoEmptyEntries(Nil);
      var m := FlattenItems(num, items, x, 0);
      assert FlattenEntries(num, e, "") == m + map[] == m;
    }
  }

  /** Every key that ends like an index collides with a list. */
  lemma IndexedKeyIsBlind(num: Numeral, x: string, i: nat, a: Atom)
    requires Readable(num)
    ensures Indexed(num, x, i) in Keys(Positions(num, x, 0, i + 1, a))
    ensures Twins(num, Dict(Positions(num, x, 0, i + 1, a)), AsList(x, Copies(i + 1, a)))
  {
    var e, items := Positions(num, x, 0, i + 1, a), Copies(i + 1, a);
    PositionsFacts(num, x, 0, i + 1, a);
    CopiesFacts(i + 1, a);
    PositionsFlatten(num, x, 0, i + 1, a);
    AsListFacts(num, x, items);
    assert |Indexed(num, x, i)| > |x|;
    OtherKeys(e, x, items, Indexed(num, x, i));
  }

  lemma OtherKeys(e: Entries, x: string, items: Items, k: string)
    requires k in Keys(e) && k != x
    ensures !Eq(Dict(e), AsList(x, items))
  {
    if x != "" {
      assert Keys(Cons(x, List(items), Nil)) == {x};
    }
  }

  lemma SplitIndex(num: Numeral, k: string, i: nat)
    requires IndexEnds(k, num(i))
    ensures k == Indexed(num, k[..|k| - |num(i)| - 2], i)
  {
  }

  lemma NestKey(path: seq<Step>, a: Atom)
    requires KeyPath(path) && path != []
    ensures path[0].name in Keys(Nest(path, a).entries)
  {
  }

  /** The condition on keys is exact: a key that breaks it has a twin. */
  lemma BadKeyIsBlind(num: Numeral, k: string, a: Atom) returns (l: Value, r: Value)
    requires Readable(num) && !GoodKey(num, k)
    ensures l.Dict? && k in Keys(l.entries) && Twins(num, l, r)
  {
    if k == "" {
      l, r := Nest([Key(""), Key(k)], a), Nest([Key(k)], a);
      EmptyKeyIsBlind(num, k, a);
      NestKey([Key(""), Key(k)], a);
    } else if '.' in k {
      var i :| 0 <= i < |k| && k[i] == '.';
      l, r := Nest([Key(k)], a), Nest(if i > 0 then [Key(k[..i]), Key(k[i + 1..])] else [Key(""), Key(k)], a);
      DottedKeyIsBlind(num, k, i, a);
      NestKey([Key(k)], a);
    } else {
      var i: nat :| IndexEnds(k, num(i));
      var x := k[..|k| - |num(i)| - 2];
      SplitIndex(num, k, i);
      l, r := Dict(Positions(num, x, 0, i + 1, a)), AsList(x, Copies(i + 1, a));
      IndexedKeyIsBlind(num, x, i, a);
    }
  }
}
