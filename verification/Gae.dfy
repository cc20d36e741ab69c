/** Generalized advantage estimation with carry-forward masking
    (nemo_rl/algorithms/advantage_estimator.py). */
module Gae {
  import opened Common
  import opened Sums

  // One row of the batch at a time: tensors act on rows independently. Arithmetic
  // is exact and the mask is 0/1.

  /** Token-level rewards, value predictions and response mask of one sample. */
  datatype Row = Row(rewards: seq<real>, values: seq<real>, mask: seq<bool>) {
    predicate Valid() {
      |rewards| == |values| == |mask|
    }
  }

  function AsReal(m: bool): (r: real) {
    if m then 1.0 else 0.0
  }

  // ----- the definition: GAE on the sequence without its masked tokens -----

  function Compress<T>(s: seq<T>, mask: seq<bool>): (r: seq<T>)
    requires |s| == |mask|
  {
    if s == [] then [] else (if mask[0] then [s[0]] else []) + Compress(s[1..], mask[1..])
  }

  /** How many valid tokens precede position t. */
  function Rank(mask: seq<bool>, t: nat): (k: nat)
    requires t <= |mask|
  {
    if t == 0 then 0 else AsCount(mask[t - 1]) + Rank(mask, t - 1)
  }

  function AsCount(m: bool): (n: nat) {
    if m then 1 else 0
  }

  function Power(x: real, l: nat): (r: real) {
    if l == 0 then 1.0 else x * Power(x, l - 1)
  }

  /** Temporal-difference error of token k, with zero bootstrap after the end. */
  function TdError(r: seq<real>, v: seq<real>, gamma: real, k: nat): (d: real)
    requires k < |r| == |v|
  {
    r[k] + gamma * (if k + 1 < |v| then v[k + 1] else 0.0) - v[k]
  }

  /** The terms of index l and above of the sum of (gamma * lambda)^l * delta_l. */
  function SumFrom(r: seq<real>, v: seq<real>, gamma: real, lam: real, l: nat): (s: real)
    requires |r| == |v|
    decreases |r| - l
  {
    if l >= |r| then 0.0
    else Power(gamma * lam, l) * TdError(r, v, gamma, l) + SumFrom(r, v, gamma, lam, l + 1)
  }

  /** The advantage of the first token of an unmasked sequence. */
  function ClosedForm(r: seq<real>, v: seq<real>, gamma: real, lam: real): (s: real)
    requires |r| == |v|
  {
    SumFrom(r, v, gamma, lam, 0)
  }

  /** The advantage at position t: the closed form from the t-th position's rank
      on, over the valid tokens only. A masked position has the rank of the next
      valid token. */
  ghost function AdvantageAt(row: Row, gamma: real, lam: real, t: nat): (a: real)
    requires row.Valid() && t <= |row.mask|
  {
    RankInRange(row.rewards, row.mask, t);
    RankInRange(row.values, row.mask, t);
    var k := Rank(row.mask, t);
    ClosedForm(Compress(row.rewards, row.mask)[k..], Compress(row.values, row.mask)[k..], gamma, lam)
  }

  // ----- facts about compression -----

  lemma {:induction false} CompressAppend<T>(a: seq<T>, b: seq<T>, ma: seq<bool>, mb: seq<bool>)
    requires |a| == |ma| && |b| == |mb|
    ensures Compress(a + b, ma + mb) == Compress(a, ma) + Compress(b, mb)
  {
    if a == [] {
      assert a + b == b && ma + mb == mb;
    } else {
      assert (a + b)[1..] == a[1..] + b && (ma + mb)[1..] == ma[1..] + mb;
      CompressAppend(a[1..], b, ma[1..], mb);
      var head := if ma[0] then [a[0]] else [];
      assert Compress(a + b, ma + mb) == head + Compress(a[1..] + b, ma[1..] + mb);
      assert Compress(a, ma) == head + Compress(a[1..], ma[1..]);
    }
  }

  lemma {:induction false} RankIsLength<T>(s: seq<T>, mask: seq<bool>, t: nat)
    requires |s| == |mask| && t <= |s|
    ensures Rank(mask, t) == |Compress(s[..t], mask[..t])|
  {
    if t > 0 {
      RankIsLength(s, mask, t - 1);
      assert s[..t] == s[..t - 1] + [s[t - 1]] && mask[..t] == mask[..t - 1] + [mask[t - 1]];
      CompressAppend(s[..t - 1], [s[t - 1]], mask[..t - 1], [mask[t - 1]]);
    }
  }

  lemma CompressSplit<T>(s: seq<T>, mask: seq<bool>, t: nat)
    requires |s| == |mask| && t <= |s|
    ensures Rank(mask, t) <= |Compress(s, mask)|
    ensures Compress(s, mask)[Rank(mask, t)..] == Compress(s[t..], mask[t..])
  {
    assert s == s[..t] + s[t..] && mask == mask[..t] + mask[t..];
    CompressAppend(s[..t], s[t..], mask[..t], mask[t..]);
    RankIsLength(s, mask, t);
  }

  lemma RankInRange<T>(s: seq<T>, mask: seq<bool>, t: nat)
    requires |s| == |mask| && t <= |s|
    ensures Rank(mask, t) <= |Compress(s, mask)| == Rank(mask, |mask|)
  {
    CompressSplit(s, mask, t);
    RankIsLength(s, mask, |mask|);
    assert s[..|mask|] == s && mask[..|mask|] == mask;
  }

  lemma CompressStep<T>(s: seq<T>, mask: seq<bool>, t: nat)
    requires |s| == |mask| && t < |s|
    ensures Compress(s[t..], mask[t..]) == (if mask[t] then [s[t]] else []) + Compress(s[t + 1..], mask[t + 1..])
  {
    assert s[t..][1..] == s[t + 1..] && mask[t..][1..] == mask[t + 1..];
  }

  /** AdvantageAt in terms of the tokens from t on. */
  lemma AdvantageOfSuffix(row: Row, gamma: real, lam: real, t: nat)
    requires row.Valid() && t <= |row.mask|
    ensures |Compress(row.rewards[t..], row.mask[t..])| == |Compress(row.values[t..], row.mask[t..])|
    ensures AdvantageAt(row, gamma, lam, t)
         == ClosedForm(Compress(row.rewards[t..], row.mask[t..]), Compress(row.values[t..], row.mask[t..]), gamma, lam)
  {
    RankInRange(row.rewards, row.mask, t);
    RankInRange(row.values, row.mask, t);
    CompressSplit(row.rewards, row.mask, t);
    CompressSplit(row.values, row.mask, t);
  }

  // ----- the backward recursion -----

  lemma {:induction false} Shift(r: seq<real>, v: seq<real>, gamma: real, lam: real, l: nat)
    requires |r| == |v| > 0
    ensures SumFrom(r, v, gamma, lam, l + 1) == gamma * lam * SumFrom(r[1..], v[1..], gamma, lam, l)
    decreases |r| - l
  {
    if l + 1 < |r| {
      Shift(r, v, gamma, lam, l + 1);
      var x, d, rest := gamma * lam, TdError(r, v, gamma, l + 1), SumFrom(r[1..], v[1..], gamma, lam, l + 1);
      assert TdError(r[1..], v[1..], gamma, l) == d;
      assert x * Power(x, l) * d + x * rest == x * (Power(x, l) * d + rest);
    }
  }

  /** A_t = delta_t + gamma * lambda * A_{t+1}. */
  lemma Unroll(r: seq<real>, v: seq<real>, gamma: real, lam: real)
    requires |r| == |v| > 0
    ensures ClosedForm(r, v, gamma, lam)
         == TdError(r, v, gamma, 0) + gamma * lam * ClosedForm(r[1..], v[1..], gamma, lam)
  {
    Shift(r, v, gamma, lam, 0);
    var x, d := gamma * lam, TdError(r, v, gamma, 0);
    assert SumFrom(r, v, gamma, lam, 0) == Power(x, 0) * d + SumFrom(r, v, gamma, lam, 1);
    assert Power(x, 0) * d == 1.0 * d;
  }

  /** Value of the first valid token at or after t, 0 if there is none. */
  function NextValue(row: Row, t: nat): (v: real)
    requires row.Valid() && t <= |row.mask|
    decreases |row.mask| - t
  {
    if t == |row.mask| then 0.0 else if row.mask[t] then row.values[t] else NextValue(row, t + 1)
  }

  lemma {:induction false} NextValueIsHead(row: Row, t: nat)
    requires row.Valid() && t <= |row.mask|
    ensures var vs := Compress(row.values[t..], row.mask[t..]);
            NextValue(row, t) == if vs == [] then 0.0 else vs[0]
    decreases |row.mask| - t
  {
    if t < |row.mask| {
      NextValueIsHead(row, t + 1);
      CompressStep(row.values, row.mask, t);
    }
  }

  lemma AdvantageStep(row: Row, gamma: real, lam: real, t: nat)
    requires row.Valid() && t < |row.mask|
    ensures row.mask[t] ==>
              AdvantageAt(row, gamma, lam, t) == row.rewards[t] + gamma * NextValue(row, t + 1) - row.values[t]
                                                    + gamma * lam * AdvantageAt(row, gamma, lam, t + 1)
    ensures !row.mask[t] ==> AdvantageAt(row, gamma, lam, t) == AdvantageAt(row, gamma, lam, t + 1)
  {
    AdvantageOfSuffix(row, gamma, lam, t);
    AdvantageOfSuffix(row, gamma, lam, t + 1);
    CompressStep(row.rewards, row.mask, t);
    CompressStep(row.values, row.mask, t);
    if row.mask[t] {
      var r, v := Compress(row.rewards[t..], row.mask[t..]), Compress(row.values[t..], row.mask[t..]);
      NextValueIsHead(row, t + 1);
      Unroll(r, v, gamma, lam);
      assert r[1..] == Compress(row.rewards[t + 1..], row.mask[t + 1..]);
      assert v[1..] == Compress(row.values[t + 1..], row.mask[t + 1..]);
    }
  }

  lemma AdvantageAtEnd(row: Row, gamma: real, lam: real)
    requires row.Valid()
    ensures AdvantageAt(row, gamma, lam, |row.mask|) == 0.0
  {
    AdvantageOfSuffix(row, gamma, lam, |row.mask|);
  }

  /** A masked position carries the advantage of the next valid token, or 0. */
  lemma {:induction false} MaskedCarriesNext(row: Row, gamma: real, lam: real, t: nat, u: nat)
    requires row.Valid() && t <= u <= |row.mask|
    requires forall i :: t <= i < u ==> !row.mask[i]
    ensures AdvantageAt(row, gamma, lam, t) == AdvantageAt(row, gamma, lam, u)
    ensures u == |row.mask| ==> AdvantageAt(row, gamma, lam, t) == 0.0
    decreases u - t
  {
    AdvantageAtEnd(row, gamma, lam);
    if t < u {
      AdvantageStep(row, gamma, lam, t);
      MaskedCarriesNext(row, gamma, lam, t + 1, u);
    }
  }

  // ----- the general path: one backward loop -----

  method ComputeGaeLoop(row: Row, gamma: real, lam: real) returns (advantages: seq<real>, returned: seq<real>)
    requires row.Valid()
    ensures |advantages| == |returned| == |row.mask|
    ensures forall t :: 0 <= t < |row.mask| ==> advantages[t] == AdvantageAt(row, gamma, lam, t)
    ensures forall t :: 0 <= t < |row.mask| ==> returned[t] == advantages[t] + row.values[t]
  {
    var n := |row.mask|;
    var nextValue, lastGae := 0.0, 0.0;
    var backwards: seq<real> := [];
    AdvantageAtEnd(row, gamma, lam);
    var t := n;
    while t > 0
      invariant 0 <= t <= n
      invariant nextValue == NextValue(row, t) && lastGae == AdvantageAt(row, gamma, lam, t)
      invariant |backwards| == n - t
      invariant forall u :: t <= u < n ==> backwards[n - 1 - u] == AdvantageAt(row, gamma, lam, u)
    {
      t := t - 1;
      AdvantageStep(row, gamma, lam, t);
      var delta := row.rewards[t] + gamma * nextValue - row.values[t];
      var newGae := delta + gamma * lam * lastGae;
      var m := AsReal(row.mask[t]);
      nextValue := row.values[t] * m + (1.0 - m) * nextValue;
      lastGae := newGae * m + (1.0 - m) * lastGae;
      backwards := backwards + [lastGae];
    }
    advantages := Flip(backwards);
    returned := seq(n, t requires 0 <= t < n => advantages[t] + row.values[t]);
  }

  // ----- the fast path for gamma = lambda = 1 -----

  function Flip<T>(s: seq<T>): (r: seq<T>)
    ensures |r| == |s|
    ensures forall i :: 0 <= i < |s| ==> r[i] == s[|s| - 1 - i]
  {
    seq(|s|, i requires 0 <= i < |s| => s[|s| - 1 - i])
  }

  function MinOf(s: seq<nat>): (m: nat)
    requires s != []
  {
    if |s| == 1 then s[0]
    else var rest := MinOf(s[1..]); if s[0] < rest then s[0] else rest
  }

  lemma {:induction false} MinOfIs(s: seq<nat>, i: nat)
    requires i < |s| && forall j :: 0 <= j < |s| ==> s[i] <= s[j]
    ensures MinOf(s) == s[i]
  {
    if |s| > 1 {
      if i > 0 {
        MinOfIs(s[1..], i - 1);
      } else {
        MinOfAtLeast(s[1..], s[0]);
      }
    }
  }

  lemma {:induction false} MinOfAtLeast(s: seq<nat>, low: nat)
    requires s != [] && forall j :: 0 <= j < |s| ==> low <= s[j]
    ensures low <= MinOf(s)
  {
    if |s| > 1 {
      MinOfAtLeast(s[1..], low);
    }
  }

  function CumMin(s: seq<nat>): (r: seq<nat>)
    ensures |r| == |s|
  {
    seq(|s|, i requires 0 <= i < |s| => MinOf(s[..i + 1]))
  }

  function MaskedRewards(row: Row): (r: seq<real>)
    requires row.Valid()
    ensures |r| == |row.mask|
    ensures forall t :: 0 <= t < |r| ==> r[t] == row.rewards[t] * AsReal(row.mask[t])
  {
    seq(|row.mask|, t requires 0 <= t < |row.mask| => row.rewards[t] * AsReal(row.mask[t]))
  }

  function RewardToGo(row: Row): (r: seq<real>)
    requires row.Valid()
    ensures |r| == |row.mask|
  {
    Flip(CumSum(Flip(MaskedRewards(row))))
  }

  /** Each valid position, and the length of the row at masked ones. */
  function ValidIndices(mask: seq<bool>): (r: seq<nat>)
    ensures |r| == |mask|
    ensures forall t :: 0 <= t < |r| ==> r[t] == if mask[t] then t else |mask|
  {
    seq(|mask|, t requires 0 <= t < |mask| => if mask[t] then t else |mask|)
  }

  /** At t, the first valid position from t on, or the length of the row. */
  function NextValid(row: Row): (r: seq<nat>)
    requires row.Valid()
    ensures |r| == |row.mask|
  {
    Flip(CumMin(Flip(ValidIndices(row.mask))))
  }

  lemma FlippedPrefix<T>(s: seq<T>, t: nat)
    requires t < |s|
    ensures Flip(s)[..|s| - t] == Flip(s[t..])
  {
  }

  lemma {:induction false} TotalOfFlip(s: seq<real>)
    ensures Total(Flip(s)) == Total(s)
  {
    if s != [] {
      assert Flip(s) == Flip(s[1..]) + [s[0]];
      TotalAppend(Flip(s[1..]), [s[0]]);
      TotalOfFlip(s[1..]);
    }
  }

  /** flip, cumsum, flip: the reward still to come, masked tokens excluded. */
  lemma RewardToGoIsSuffixTotal(row: Row, t: nat)
    requires row.Valid() && t < |row.mask|
    ensures RewardToGo(row)[t] == Total(Compress(row.rewards[t..], row.mask[t..]))
  {
    var n := |row.mask|;
    var masked := MaskedRewards(row);
    FlippedPrefix(masked, t);
    TotalOfFlip(masked[t..]);
    var scan := CumSum(Flip(masked));
    assert scan[n - 1 - t] == Total(Flip(masked)[..n - t]);
    assert Flip(scan)[t] == scan[n - 1 - t];
    MaskedTotal(row, masked, t);
  }

  lemma {:induction false} MaskedTotal(row: Row, masked: seq<real>, t: nat)
    requires row.Valid() && t <= |row.mask| == |masked|
    requires forall i :: 0 <= i < |masked| ==> masked[i] == row.rewards[i] * AsReal(row.mask[i])
    ensures Total(masked[t..]) == Total(Compress(row.rewards[t..], row.mask[t..]))
    decreases |masked| - t
  {
    if t < |masked| {
      MaskedTotal(row, masked, t + 1);
      CompressStep(row.rewards, row.mask, t);
      assert masked[t..][1..] == masked[t + 1..];
      var rest := Compress(row.rewards[t + 1..], row.mask[t + 1..]);
      assert ([row.rewards[t]] + rest)[1..] == rest;
      assert [] + rest == rest;
    }
  }

  lemma NextValidIsScan(row: Row, t: nat)
    requires row.Valid() && t < |row.mask|
    ensures NextValid(row)[t] == MinOf(Flip(ValidIndices(row.mask))[..|row.mask| - t])
  {
    var scan := CumMin(Flip(ValidIndices(row.mask)));
    assert Flip(scan)[t] == scan[|row.mask| - 1 - t];
  }

  /** flip, cummin, flip: the first valid position from t on. */
  lemma NextValidIs(row: Row, t: nat, u: nat)
    requires row.Valid() && t < |row.mask| && t <= u <= |row.mask|
    requires (forall i :: t <= i < u ==> !row.mask[i]) && (u < |row.mask| ==> row.mask[u])
    ensures NextValid(row)[t] == u
  {
    var n, flipped := |row.mask|, Flip(ValidIndices(row.mask));
    var window := flipped[..n - t];
    forall i | 0 <= i < |window|
      ensures window[i] >= u
    {
      assert window[i] == ValidIndices(row.mask)[n - 1 - i];
    }
    var at := if u < n then n - 1 - u else n - 1 - t;
    assert window[at] == ValidIndices(row.mask)[n - 1 - at] == u;
    MinOfIs(window, at);
    NextValidIsScan(row, t);
  }

  /** The first valid position from t on, or the length. */
  function FirstValid(mask: seq<bool>, t: nat): (u: nat)
    requires t <= |mask|
    ensures t <= u <= |mask|
    ensures forall i :: t <= i < u ==> !mask[i]
    ensures u < |mask| ==> mask[u]
    decreases |mask| - t
  {
    if t == |mask| || mask[t] then t else FirstValid(mask, t + 1)
  }

  function FastAdvantages(row: Row): (r: seq<real>)
    requires row.Valid()
    ensures |r| == |row.mask|
  {
    var padded := row.values + [0.0];
    seq(|row.mask|, t requires 0 <= t < |row.mask| =>
      RewardToGo(row)[t] - (NextValidIs(row, t, FirstValid(row.mask, t)); padded[NextValid(row)[t]]))
  }

  /** The temporal differences telescope. */
  lemma {:induction false} Telescopes(r: seq<real>, v: seq<real>)
    requires |r| == |v|
    ensures ClosedForm(r, v, 1.0, 1.0) == Total(r) - (if v == [] then 0.0 else v[0])
  {
    if r != [] {
      Unroll(r, v, 1.0, 1.0);
      Telescopes(r[1..], v[1..]);
    }
  }

  lemma {:induction false} NextValueSkips(row: Row, t: nat, u: nat)
    requires row.Valid() && t <= u <= |row.mask|
    requires (forall i :: t <= i < u ==> !row.mask[i]) && (u < |row.mask| ==> row.mask[u])
    ensures NextValue(row, t) == (row.values + [0.0])[u]
    decreases u - t
  {
    if t < u {
      NextValueSkips(row, t + 1, u);
    }
  }

  /** Scan and gather agree with the backward loop for every mask. */
  lemma FastPathAgrees(row: Row, t: nat)
    requires row.Valid() && t < |row.mask|
    ensures FastAdvantages(row)[t] == AdvantageAt(row, 1.0, 1.0, t)
  {
    var r, v := Compress(row.rewards[t..], row.mask[t..]), Compress(row.values[t..], row.mask[t..]);
    AdvantageOfSuffix(row, 1.0, 1.0, t);
    Telescopes(r, v);
    RewardToGoIsSuffixTotal(row, t);
    NextValidIs(row, t, FirstValid(row.mask, t));
    NextValueSkips(row, t, FirstValid(row.mask, t));
    NextValueIsHead(row, t);
  }

  // ----- choosing the path -----

  /** Lambda as a scalar, or as the entry of a per-sample tensor. */
  datatype Lambda = Scalar(x: real) | PerSample(x: real)

  method ComputeGae(row: Row, gamma: real, lam: Lambda) returns (advantages: seq<real>, returned: seq<real>)
    requires row.Valid()
    ensures |advantages| == |returned| == |row.mask|
    ensures forall t :: 0 <= t < |row.mask| ==> advantages[t] == AdvantageAt(row, gamma, lam.x, t)
    ensures forall t :: 0 <= t < |row.mask| ==> returned[t] == advantages[t] + row.values[t]
  {
    if gamma == 1.0 && lam == Scalar(1.0) {
      advantages := FastAdvantages(row);
      forall t | 0 <= t < |row.mask|
        ensures advantages[t] == AdvantageAt(row, gamma, lam.x, t)
      {
        FastPathAgrees(row, t);
      }
      returned := seq(|row.mask|, t requires 0 <= t < |row.mask| => advantages[t] + row.values[t]);
    } else {
      advantages, returned := ComputeGaeLoop(row, gamma, lam.x);
    }
  }

  // ----- length-adaptive lambda -----

  function Max(a: real, b: real): (m: real) {
    if a >= b then a else b
  }

  function Abs(a: real): (r: real) {
    if a >= 0.0 then a else -a
  }

  /** alpha * length, at least 1. */
  function Horizon(alpha: real, responseLength: nat): (h: real)
    ensures h >= 1.0
  {
    Max(alpha * responseLength as real, 1.0)
  }

  /** 1 - 1 / (alpha * length), clamped. */
  function AdaptiveLambda(alpha: real, responseLength: nat): (lam: real) {
    var lam := 1.0 - 1.0 / Horizon(alpha, responseLength);
    if lam < 0.0 then 0.0 else if lam > 1.0 then 1.0 else lam
  }

  lemma ScaledBound(a: real, x: real, bound: real)
    requires a >= 0.0 && -bound <= x <= bound
    ensures -(a * bound) <= a * x <= a * bound
  {
    assert a * (bound - x) >= 0.0;
    assert a * (bound + x) >= 0.0;
  }

  lemma Shrinks(a: real, b: real)
    requires 0.0 <= a <= 1.0 && b >= 0.0
    ensures 0.0 <= a * b <= b
  {
    assert (1.0 - a) * b >= 0.0;
  }

  lemma HorizonIdentity(lam: real, delta: real, horizon: real)
    requires (1.0 - lam) * horizon == 1.0
    ensures delta + lam * (delta * horizon) == delta * horizon
  {
    var slack := (1.0 - lam) * horizon;
    assert delta * slack == delta * horizon - lam * (delta * horizon);
  }

  /** One step of the recursion keeps the bound. */
  lemma HorizonStep(d: real, rest: real, gamma: real, lam: real, delta: real, horizon: real)
    requires 0.0 <= gamma <= 1.0 && 0.0 <= lam
    requires (1.0 - lam) * horizon == 1.0
    requires -delta <= d <= delta && -(delta * horizon) <= rest <= delta * horizon
    ensures -(delta * horizon) <= d + gamma * (lam * rest) <= delta * horizon
  {
    var bound, lr, lb := delta * horizon, lam * rest, lam * (delta * horizon);
    ScaledBound(lam, rest, bound);
    HorizonIdentity(lam, delta, horizon);
    DiscountedStep(d, lr, gamma, delta, lb);
  }

  lemma DiscountedStep(d: real, x: real, gamma: real, delta: real, bound: real)
    requires 0.0 <= gamma <= 1.0 && -delta <= d <= delta && -bound <= x <= bound
    ensures -(delta + bound) <= d + gamma * x <= delta + bound
  {
    ScaledBound(gamma, x, bound);
    Shrinks(gamma, bound);
    Between(d, gamma * x, gamma * bound, delta, bound);
  }

  lemma Between(d: real, p: real, q: real, delta: real, bound: real)
    requires -delta <= d <= delta && -q <= p <= q && q <= bound
    ensures -(delta + bound) <= d + p <= delta + bound
  {
  }

  lemma NonNegativeProduct(a: real, b: real)
    requires a >= 0.0 && b >= 0.0
    ensures a * b >= 0.0
  {
  }

  lemma Associates(a: real, b: real, c: real)
    ensures a * (b * c) == a * b * c
  {
  }

  /** The recursion, with the bound as a number. */
  lemma RecursionBounded(r: seq<real>, v: seq<real>, gamma: real, lam: real, bound: real)
    requires |r| == |v| > 0
    requires var rest := ClosedForm(r[1..], v[1..], gamma, lam);
             -bound <= TdError(r, v, gamma, 0) + gamma * (lam * rest) <= bound
    ensures Abs(ClosedForm(r, v, gamma, lam)) <= bound
  {
    Unroll(r, v, gamma, lam);
    Associates(gamma, lam, ClosedForm(r[1..], v[1..], gamma, lam));
  }

  lemma TdErrorsOfTail(r: seq<real>, v: seq<real>, gamma: real, delta: real)
    requires |r| == |v| > 0 && forall k :: 0 <= k < |r| ==> Abs(TdError(r, v, gamma, k)) <= delta
    ensures forall k :: 0 <= k < |r| - 1 ==> Abs(TdError(r[1..], v[1..], gamma, k)) <= delta
  {
    forall k | 0 <= k < |r| - 1
      ensures Abs(TdError(r[1..], v[1..], gamma, k)) <= delta
    {
      assert TdError(r[1..], v[1..], gamma, k) == TdError(r, v, gamma, k + 1);
    }
  }

  lemma {:induction false} ClosedFormBounded(r: seq<real>, v: seq<real>, gamma: real, lam: real, delta: real,
                                             horizon: real)
    requires |r| == |v| && 0.0 <= gamma <= 1.0 && 0.0 <= lam <= 1.0 && delta >= 0.0 && horizon >= 1.0
    requires (1.0 - lam) * horizon == 1.0
    requires forall k :: 0 <= k < |r| ==> Abs(TdError(r, v, gamma, k)) <= delta
    ensures Abs(ClosedForm(r, v, gamma, lam)) <= delta * horizon
  {
    if r == [] {
      NonNegativeProduct(delta, horizon);
    } else {
      TdErrorsOfTail(r, v, gamma, delta);
      ClosedFormBounded(r[1..], v[1..], gamma, lam, delta, horizon);
      HorizonStep(TdError(r, v, gamma, 0), ClosedForm(r[1..], v[1..], gamma, lam), gamma, lam, delta, horizon);
      RecursionBounded(r, v, gamma, lam, delta * horizon);
    }
  }

  /** No TD error over the valid tokens exceeds delta. */
  ghost predicate TdErrorsWithin(row: Row, gamma: real, delta: real)
    requires row.Valid()
  {
    var r, v := Compress(row.rewards, row.mask), Compress(row.values, row.mask);
    |r| == |v| && forall k :: 0 <= k < |r| ==> Abs(TdError(r, v, gamma, k)) <= delta
  }

  ghost predicate AdvantagesWithin(row: Row, gamma: real, lam: real, bound: real)
    requires row.Valid()
  {
    forall t :: 0 <= t <= |row.mask| ==> Abs(AdvantageAt(row, gamma, lam, t)) <= bound
  }

  lemma AdvantageBounded(row: Row, gamma: real, lam: real, delta: real, horizon: real, t: nat)
    requires row.Valid() && t <= |row.mask| && TdErrorsWithin(row, gamma, delta)
    requires 0.0 <= gamma <= 1.0 && 0.0 <= lam <= 1.0 && delta >= 0.0 && horizon >= 1.0
    requires (1.0 - lam) * horizon == 1.0
    ensures Abs(AdvantageAt(row, gamma, lam, t)) <= delta * horizon
  {
    var r, v := Compress(row.rewards, row.mask), Compress(row.values, row.mask);
    var k0 := Rank(row.mask, t);
    RankInRange(row.rewards, row.mask, t);
    forall k | 0 <= k < |r[k0..]|
      ensures Abs(TdError(r[k0..], v[k0..], gamma, k)) <= delta
    {
      assert TdError(r[k0..], v[k0..], gamma, k) == TdError(r, v, gamma, k0 + k);
    }
    ClosedFormBounded(r[k0..], v[k0..], gamma, lam, delta, horizon);
  }

  lemma AllAdvantagesBounded(row: Row, gamma: real, lam: real, delta: real, horizon: real)
    requires row.Valid() && TdErrorsWithin(row, gamma, delta)
    requires 0.0 <= gamma <= 1.0 && 0.0 <= lam <= 1.0 && delta >= 0.0 && horizon >= 1.0
    requires (1.0 - lam) * horizon == 1.0
    ensures AdvantagesWithin(row, gamma, lam, delta * horizon)
  {
    forall t | 0 <= t <= |row.mask|
      ensures Abs(AdvantageAt(row, gamma, lam, t)) <= delta * horizon
    {
      AdvantageBounded(row, gamma, lam, delta, horizon, t);
    }
  }

  /** With length-adaptive lambda no advantage exceeds the largest TD error times
      the effective horizon max(alpha * response length, 1). */
  lemma AdaptiveAdvantageBounded(row: Row, gamma: real, alpha: real, delta: real)
    requires row.Valid() && TdErrorsWithin(row, gamma, delta)
    requires 0.0 <= gamma <= 1.0 && delta >= 0.0
    ensures var length := Rank(row.mask, |row.mask|);
            AdvantagesWithin(row, gamma, AdaptiveLambda(alpha, length), delta * Horizon(alpha, length))
  {
    var length := Rank(row.mask, |row.mask|);
    AdaptiveHorizon(alpha, length);
    AllAdvantagesBounded(row, gamma, AdaptiveLambda(alpha, length), delta, Horizon(alpha, length));
  }

  lemma InverseAtMostOne(h: real)
    requires h >= 1.0
    ensures 0.0 < 1.0 / h <= 1.0 && 1.0 / h * h == 1.0
  {
  }

  /** The horizon 1 / (1 - lambda) is max(alpha * length, 1). */
  lemma AdaptiveHorizon(alpha: real, length: nat)
    ensures 0.0 <= AdaptiveLambda(alpha, length) < 1.0
    ensures (1.0 - AdaptiveLambda(alpha, length)) * Horizon(alpha, length) == 1.0
  {
    InverseAtMostOne(Horizon(alpha, length));
  }

  // ----- from a scalar reward to advantages and returns -----

  datatype Settings = Settings(gamma: real, lam: real, lambdaValue: Option<real>, lambdaPolicy: Option<real>,
                               alpha: real)

  predicate IsLastValid(mask: seq<bool>, t: nat)
    requires t < |mask|
  {
    mask[t] && forall u :: t < u < |mask| ==> !mask[u]
  }

  /** The scalar reward on the last response token, minus the KL penalty on
      every response token, nothing elsewhere. */
  function TokenRewards(reward: real, mask: seq<bool>, penalty: seq<real>): (r: seq<real>)
    requires |penalty| == |mask|
    ensures |r| == |mask|
  {
    seq(|mask|, t requires 0 <= t < |mask| =>
      if !mask[t] then 0.0 else (if IsLastValid(mask, t) then reward else 0.0) - penalty[t])
  }

  /** argmax over a 0/1 vector: the first one, or 0. */
  function ArgMax(flags: seq<bool>): (i: nat)
    requires flags != []
    ensures i < |flags|
  {
    var first := FirstValid(flags, 0);
    if first < |flags| then first else 0
  }

  method BuildTokenRewards(reward: real, mask: seq<bool>, penalty: seq<real>) returns (tokens: array<real>)
    requires |penalty| == |mask| > 0
    ensures fresh(tokens) && tokens[..] == TokenRewards(reward, mask, penalty)
  {
    var n := |mask|;
    tokens := new real[n](i requires 0 <= i < n => 0.0 - penalty[i]);
    var last := n - 1 - ArgMax(Flip(mask));
    if exists t :: 0 <= t < n && mask[t] {
      ghost var w :| 0 <= w < n && mask[w];
      assert Flip(mask)[n - 1 - w];
      assert IsLastValid(mask, last) by {
        forall u | last < u < n
          ensures !mask[u]
        {
          assert !Flip(mask)[n - 1 - u];
        }
      }
      tokens[last] := tokens[last] + reward;
    }
    var t := 0;
    while t < n
      invariant 0 <= t <= n
      invariant forall u :: 0 <= u < t ==> tokens[u] == TokenRewards(reward, mask, penalty)[u]
      invariant forall u :: t <= u < n ==> tokens[u] == (if IsLastValid(mask, u) then reward else 0.0) - penalty[u]
    {
      tokens[t] := tokens[t] * AsReal(mask[t]);
      t := t + 1;
    }
  }

  /** Priority: length-adaptive, then the policy override, then the shared value. */
  function ResolveLambdaPolicy(cfg: Settings, mask: seq<bool>): (lam: Lambda) {
    if cfg.alpha > 0.0 then PerSample(AdaptiveLambda(cfg.alpha, Rank(mask, |mask|)))
    else Scalar(if cfg.lambdaPolicy.Some? then cfg.lambdaPolicy.value else cfg.lam)
  }

  function ResolveLambdaValue(cfg: Settings): (lam: real) {
    if cfg.lambdaValue.Some? then cfg.lambdaValue.value else cfg.lam
  }

  /** Advantages with the policy lambda, zero at masked positions; returns with
      the value lambda. Whitening is not modelled. */
  method ComputeAdvantage(cfg: Settings, reward: real, mask: seq<bool>, values: seq<real>, penalty: seq<real>)
    returns (advantages: seq<real>, returned: seq<real>)
    requires |penalty| == |mask| == |values| > 0
    ensures |advantages| == |returned| == |mask|
    ensures var row := Row(TokenRewards(reward, mask, penalty), values, mask);
            forall t :: 0 <= t < |mask| ==>
              && advantages[t] == (if mask[t] then AdvantageAt(row, cfg.gamma, ResolveLambdaPolicy(cfg, mask).x, t)
                  else 0.0)
              && returned[t] == AdvantageAt(row, cfg.gamma, ResolveLambdaValue(cfg), t) + values[t]
  {
    var tokens := BuildTokenRewards(reward, mask, penalty);
    var row := Row(tokens[..], values, mask);
    var lambdaValue, lambdaPolicy := ResolveLambdaValue(cfg), ResolveLambdaPolicy(cfg, mask);
    var raw: seq<real>;
    if lambdaPolicy.PerSample? || lambdaValue != lambdaPolicy.x {
      var _, forValue := ComputeGae(row, cfg.gamma, Scalar(lambdaValue));
      returned := forValue;
      var forPolicy, _ := ComputeGae(row, cfg.gamma, lambdaPolicy);
      raw := forPolicy;
    } else {
      raw, returned := ComputeGae(row, cfg.gamma, Scalar(lambdaValue));
    }
    advantages := seq(|mask|, t requires 0 <= t < |mask| => if mask[t] then raw[t] else 0.0);
  }

  lemma {:induction false} RewardStillToCome(reward: real, mask: seq<bool>, penalty: seq<real>, t: nat)
    requires |penalty| == |mask| && t <= |mask|
    requires forall i :: 0 <= i < |mask| ==> penalty[i] == 0.0
    ensures Total(Compress(TokenRewards(reward, mask, penalty)[t..], mask[t..]))
         == if FirstValid(mask, t) < |mask| then reward else 0.0
    decreases |mask| - t
  {
    if t < |mask| {
      var tokens := TokenRewards(reward, mask, penalty);
      RewardStillToCome(reward, mask, penalty, t + 1);
      CompressStep(tokens, mask, t);
      var rest := Compress(tokens[t + 1..], mask[t + 1..]);
      assert ([tokens[t]] + rest)[1..] == rest;
      assert [] + rest == rest;
      assert mask[t] ==> (IsLastValid(mask, t) <==> FirstValid(mask, t + 1) == |mask|);
    }
  }

  /** Without KL and with gamma = lambda = 1 every response token's advantage is
      the sample's reward minus its value, so its return is the reward. */
  lemma UndiscountedAdvantage(reward: real, mask: seq<bool>, values: seq<real>, penalty: seq<real>, t: nat)
    requires |penalty| == |mask| == |values| && t < |mask| && mask[t]
    requires forall i :: 0 <= i < |mask| ==> penalty[i] == 0.0
    ensures AdvantageAt(Row(TokenRewards(reward, mask, penalty), values, mask), 1.0, 1.0, t) == reward - values[t]
  {
    var row := Row(TokenRewards(reward, mask, penalty), values, mask);
    AdvantageOfSuffix(row, 1.0, 1.0, t);
    Telescopes(Compress(row.rewards[t..], mask[t..]), Compress(values[t..], mask[t..]));
    RewardStillToCome(reward, mask, penalty, t);
    NextValueIsHead(row, t);
  }
}
