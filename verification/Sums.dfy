/** Sums and running sums of real sequences. */
module Sums {
  function Total(s: seq<real>): (r: real) {
    if s == [] then 0.0 else s[0] + Total(s[1..])
  }

  function CumSum(s: seq<real>): (r: seq<real>)
    ensures |r| == |s|
  {
    seq(|s|, i requires 0 <= i < |s| => Total(s[..i + 1]))
  }

  lemma {:induction false} TotalAppend(a: seq<real>, b: seq<real>)
    ensures Total(a + b) == Total(a) + Total(b)
  {
    if a == [] {
      assert a + b == b;
    } else {
      assert (a + b)[1..] == a[1..] + b;
      TotalAppend(a[1..], b);
    }
  }
}
