/** Joining a sequence of sequences. */
module Sequences {
  function Flat<T>(parts: seq<seq<T>>): (r: seq<T>) {
    if parts == [] then [] else parts[0] + Flat(parts[1..])
  }

  lemma {:induction false} FlatAppend<T>(a: seq<seq<T>>, b: seq<seq<T>>)
    ensures Flat(a + b) == Flat(a) + Flat(b)
  {
    if a == [] {
      assert a + b == b;
    } else {
      assert (a + b)[1..] == a[1..] + b;
      FlatAppend(a[1..], b);
    }
  }

  lemma FlatSnoc<T>(a: seq<seq<T>>, x: seq<T>)
    ensures Flat(a + [x]) == Flat(a) + x
  {
    FlatAppend(a, [x]);
    assert Flat([x]) == x + Flat([x][1..]) == x;
  }

  /** The part before the last one, and the last one. */
  lemma FlatLast<T>(parts: seq<seq<T>>)
    requires parts != []
    ensures Flat(parts) == Flat(parts[..|parts| - 1]) + parts[|parts| - 1]
  {
    assert parts == parts[..|parts| - 1] + [parts[|parts| - 1]];
    FlatSnoc(parts[..|parts| - 1], parts[|parts| - 1]);
  }
}
