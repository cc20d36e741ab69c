/** YAML configuration trees (tools/config_cli.py), as the plain containers the
    tool works on: mappings keep their key order and have distinct keys. */
module ConfigTree {
  datatype Atom = Null | Bool(b: bool) | Int(i: int) | Float(f: real) | Str(s: string) {
    predicate IsNumber() {
      Bool? || Int? || Float?
    }

    function Number(): (r: real)
      requires IsNumber()
    {
      match this
      case Bool(b) => if b then 1.0 else 0.0
      case Int(i) => i as real
      case Float(f) => f
    }

    /** Python's ==: numbers compare by value across types. */
    predicate Eq(other: Atom) {
      if IsNumber() && other.IsNumber() then Number() == other.Number() else this == other
    }
  }

  datatype Value = Leaf(atom: Atom) | List(items: Items) | Dict(entries: Entries)

  datatype Items = Empty | Item(head: Value, tail: Items)

  datatype Entries = Nil | Cons(key: string, value: Value, rest: Entries)

  const NoEntries := Dict(Nil)
  const NoItems := List(Empty)

  // ----- mappings -----

  function Keys(e: Entries): (r: set<string>) {
    match e
    case Nil => {}
    case Cons(k, _, rest) => {k} + Keys(rest)
  }

  function KeyOrder(e: Entries): (r: seq<string>) {
    match e
    case Nil => []
    case Cons(k, _, rest) => [k] + KeyOrder(rest)
  }

  predicate Distinct(e: Entries) {
    e.Cons? ==> e.key !in Keys(e.rest) && Distinct(e.rest)
  }

  function Get(e: Entries, key: string): (v: Value)
    requires key in Keys(e)
    ensures v < e
  {
    if e.key == key then e.value else Get(e.rest, key)
  }

  /** dict.get(key, default). */
  function GetOr(e: Entries, key: string, default: Value): (v: Value) {
    if key in Keys(e) then Get(e, key) else default
  }

  function Remove(e: Entries, key: string): (r: Entries)
    ensures Keys(r) == Keys(e) - {key}
    ensures Distinct(e) ==> Distinct(r)
    ensures forall k :: k in Keys(r) ==> Get(r, k) == Get(e, k)
  {
    match e
    case Nil => Nil
    case Cons(k, v, rest) => if k == key then Remove(rest, key) else Cons(k, v, Remove(rest, key))
  }

  /** Every mapping in the tree has distinct keys. */
  predicate WellFormed(v: Value) {
    match v
    case Leaf(_) => true
    case List(items) => WellFormedItems(items)
    case Dict(e) => Distinct(e) && WellFormedEntries(e)
  }

  predicate WellFormedItems(items: Items) {
    items.Item? ==> WellFormed(items.head) && WellFormedItems(items.tail)
  }

  predicate WellFormedEntries(e: Entries) {
    e.Cons? ==> WellFormed(e.value) && WellFormedEntries(e.rest)
  }

  lemma {:induction false} WellFormedGet(e: Entries, key: string)
    requires WellFormedEntries(e) && key in Keys(e)
    ensures WellFormed(Get(e, key))
  {
    if e.key != key {
      WellFormedGet(e.rest, key);
    }
  }

  // ----- Python's == on containers -----

  /** Sequences compare item by item, mappings key by key whatever the order. */
  predicate Eq(a: Value, b: Value)
    decreases a, 1
  {
    match (a, b)
    case (Leaf(x), Leaf(y)) => x.Eq(y)
    case (List(x), List(y)) => EqItems(x, y)
    case (Dict(x), Dict(y)) => Keys(x) == Keys(y) && EqAt(x, y)
    case _ => false
  }

  predicate EqItems(a: Items, b: Items)
    decreases a, 0
  {
    match (a, b)
    case (Empty, Empty) => true
    case (Item(x, xs), Item(y, ys)) => Eq(x, y) && EqItems(xs, ys)
    case _ => false
  }

  /** Every entry of a is matched in b. */
  predicate EqAt(a: Entries, b: Entries)
    requires Keys(a) <= Keys(b)
    decreases a, 0
  {
    a.Cons? ==> Eq(a.value, Get(b, a.key)) && EqAt(a.rest, b)
  }

  lemma {:induction false} EqAtMeans(a: Entries, b: Entries)
    requires Keys(a) <= Keys(b) && Distinct(a)
    ensures EqAt(a, b) <==> forall k :: k in Keys(a) ==> Eq(Get(a, k), Get(b, k))
  {
    if a.Cons? {
      EqAtMeans(a.rest, b);
      assert forall k :: k in Keys(a.rest) ==> Get(a, k) == Get(a.rest, k);
      assert Get(a, a.key) == a.value;
    }
  }

  /** Pointwise reading of == on mappings. */
  lemma EqDicts(a: Entries, b: Entries)
    requires Distinct(a)
    ensures Eq(Dict(a), Dict(b)) <==> Keys(a) == Keys(b) && forall k :: k in Keys(a) ==> Eq(Get(a, k), Get(b, k))
  {
    if Keys(a) == Keys(b) {
      EqAtMeans(a, b);
    }
  }

  lemma {:induction false} EqReflexive(v: Value)
    requires WellFormed(v)
    ensures Eq(v, v)
    decreases v, 1
  {
    match v
    case Leaf(_) =>
    case List(items) => EqItemsReflexive(items);
    case Dict(e) =>
      forall k | k in Keys(e)
        ensures Eq(Get(e, k), Get(e, k))
      {
        WellFormedGet(e, k);
        EqReflexive(Get(e, k));
      }
      EqDicts(e, e);
  }

  lemma {:induction false} EqItemsReflexive(items: Items)
    requires WellFormedItems(items)
    ensures EqItems(items, items)
    decreases items, 0
  {
    if items.Item? {
      EqReflexive(items.head);
      EqItemsReflexive(items.tail);
    }
  }

  lemma {:induction false} EqSymmetric(a: Value, b: Value)
    requires WellFormed(a) && WellFormed(b) && Eq(a, b)
    ensures Eq(b, a)
    decreases a, 1
  {
    match (a, b) {
      case (Leaf(_), Leaf(_)) =>
      case (List(x), List(y)) => EqItemsSymmetric(x, y);
      case (Dict(x), Dict(y)) =>
        EqDicts(x, y);
        forall k | k in Keys(x)
          ensures Eq(Get(y, k), Get(x, k))
        {
          WellFormedGet(x, k);
          WellFormedGet(y, k);
          EqSymmetric(Get(x, k), Get(y, k));
        }
        EqDicts(y, x);
    }
  }

  lemma {:induction false} EqItemsSymmetric(a: Items, b: Items)
    requires WellFormedItems(a) && WellFormedItems(b) && EqItems(a, b)
    ensures EqItems(b, a)
    decreases a, 0
  {
    if a.Item? {
      EqSymmetric(a.head, b.head);
      EqItemsSymmetric(a.tail, b.tail);
    }
  }

  // ----- == that also pins the key order of mappings -----

  /** Equal, and with the same keys in the same order in every mapping that is
      not inside a list. */
  predicate Same(a: Value, b: Value)
    decreases a, 1
  {
    match (a, b)
    case (Dict(x), Dict(y)) => KeyOrder(x) == KeyOrder(y) && Keys(x) == Keys(y) && SameAt(x, y)
    case _ => Eq(a, b)
  }

  predicate SameAt(a: Entries, b: Entries)
    requires Keys(a) <= Keys(b)
    decreases a, 0
  {
    a.Cons? ==> Same(a.value, Get(b, a.key)) && SameAt(a.rest, b)
  }

  lemma {:induction false} SameAtMeans(a: Entries, b: Entries)
    requires Keys(a) <= Keys(b) && Distinct(a)
    ensures SameAt(a, b) <==> forall k :: k in Keys(a) ==> Same(Get(a, k), Get(b, k))
  {
    if a.Cons? {
      SameAtMeans(a.rest, b);
      assert forall k :: k in Keys(a.rest) ==> Get(a, k) == Get(a.rest, k);
      assert Get(a, a.key) == a.value;
    }
  }

  lemma SameDicts(a: Entries, b: Entries)
    requires Distinct(a) && KeyOrder(a) == KeyOrder(b)
    ensures Keys(a) == Keys(b)
    ensures Same(Dict(a), Dict(b)) <==> forall k :: k in Keys(a) ==> Same(Get(a, k), Get(b, k))
  {
    KeysOfOrder(a);
    KeysOfOrder(b);
    SameAtMeans(a, b);
  }

  lemma {:induction false} KeysOfOrder(e: Entries)
    ensures forall k :: k in Keys(e) <==> k in KeyOrder(e)
  {
    if e.Cons? {
      KeysOfOrder(e.rest);
    }
  }

  /** The order-pinning comparison is finer than Python's. */
  lemma {:induction false} SameImpliesEq(a: Value, b: Value)
    requires WellFormed(a) && WellFormed(b) && Same(a, b)
    ensures Eq(a, b)
  {
    if a.Dict? && b.Dict? {
      SameDicts(a.entries, b.entries);
      forall k | k in Keys(a.entries)
        ensures Eq(Get(a.entries, k), Get(b.entries, k))
      {
        WellFormedGet(a.entries, k);
        WellFormedGet(b.entries, k);
        SameImpliesEq(Get(a.entries, k), Get(b.entries, k));
      }
      EqDicts(a.entries, b.entries);
    }
  }

  lemma {:induction false} SameReflexive(v: Value)
    requires WellFormed(v)
    ensures Same(v, v)
  {
    if v.Dict? {
      forall k | k in Keys(v.entries)
        ensures Same(Get(v.entries, k), Get(v.entries, k))
      {
        WellFormedGet(v.entries, k);
        SameReflexive(Get(v.entries, k));
      }
      SameDicts(v.entries, v.entries);
    } else {
      EqReflexive(v);
    }
  }

  /** Mappings with the same keys in the same order and the same values are one. */
  lemma {:induction false} Extensional(a: Entries, b: Entries)
    requires Distinct(a) && Distinct(b) && KeyOrder(a) == KeyOrder(b)
    requires forall k :: k in Keys(a) && k in Keys(b) ==> Get(a, k) == Get(b, k)
    ensures a == b
  {
    if a.Cons? && b.Cons? {
      assert [a.key] + KeyOrder(a.rest) == [b.key] + KeyOrder(b.rest);
      assert a.key == KeyOrder(a)[0] == KeyOrder(b)[0] == b.key;
      assert KeyOrder(a.rest) == KeyOrder(a)[1..] == KeyOrder(b)[1..] == KeyOrder(b.rest);
      assert Get(a, a.key) == a.value && Get(b, b.key) == b.value;
      assert forall k :: k in Keys(a.rest) ==> Get(a, k) == Get(a.rest, k);
      assert forall k :: k in Keys(b.rest) ==> Get(b, k) == Get(b.rest, k);
      Extensional(a.rest, b.rest);
    }
  }

  // ----- truth values -----

  /** Python truthiness. */
  predicate Truthy(v: Value) {
    match v
    case Leaf(Null) => false
    case Leaf(Str(s)) => s != ""
    case Leaf(a) => a.Number() != 0.0
    case List(items) => items.Item?
    case Dict(e) => e.Cons?
  }

  lemma EqTruthy(a: Value, b: Value)
    requires Eq(a, b)
    ensures Truthy(a) == Truthy(b)
  {
    match (a, b) {
      case (Dict(x), Dict(y)) =>
        assert x.Cons? ==> x.key in Keys(y);
        assert y.Cons? ==> y.key in Keys(x);
      case _ =>
    }
  }
}
