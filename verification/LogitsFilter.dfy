/** Top-k and top-p filtering of logits (nemo_rl/algorithms/logits_sampling_utils.py). */
module LogitsFilter {
  import opened Common
  import opened Sums

  // The softmax weight is a parameter: positive and increasing on finite logits,
  // zero on minus infinity. Sorting and topk are parameters too, so every result
  // holds whatever order they give to equal logits.

  datatype Logit = NegInf | Fin(x: real) {
    predicate AtLeast(other: Logit) {
      other.NegInf? || (Fin? && x >= other.x)
    }
  }

  type Weight = real -> real

  ghost predicate ValidWeight(w: Weight) {
    && (forall x :: w(x) > 0.0)
    && (forall x, y :: x <= y ==> w(x) <= w(y))
  }

  function WeightOf(w: Weight, l: Logit): (r: real) {
    match l
    case NegInf => 0.0
    case Fin(x) => w(x)
  }

  predicate NeedTopK(k: Option<int>) {
    k.Some? && k.value > 0
  }

  predicate NeedTopP(p: Option<real>) {
    p.Some? && p.value != 1.0
  }

  // ----- what top-k means -----

  /** How many logits are strictly larger. */
  function Larger(row: seq<Logit>, l: Logit): (n: nat) {
    |set j | 0 <= j < |row| && !l.AtLeast(row[j])|
  }

  /** Fewer than k logits are strictly larger; ties at the k-th place are kept. */
  predicate InTopK(row: seq<Logit>, k: nat, l: Logit) {
    Larger(row, l) < k
  }

  /** `top` holds k positions of the row, with values no smaller than anywhere
      else; `last` is the position of the smallest of them. */
  ghost predicate TopPositions(row: seq<Logit>, k: nat, top: set<nat>, last: nat) {
    && |top| == k && last in top
    && (forall j :: j in top ==> j < |row|)
    && (forall j :: j in top ==> row[j].AtLeast(row[last]))
    && (forall j :: 0 <= j < |row| && j !in top ==> row[last].AtLeast(row[j]))
  }

  /** Comparing with the k-th largest value keeps exactly the top-k set. */
  lemma ThresholdKeepsTopK(row: seq<Logit>, k: nat, top: set<nat>, last: nat, j: nat)
    requires TopPositions(row, k, top, last) && j < |row|
    ensures row[j].AtLeast(row[last]) <==> InTopK(row, k, row[j])
  {
    var larger := set i | 0 <= i < |row| && !row[j].AtLeast(row[i]);
    if row[j].AtLeast(row[last]) {
      assert larger <= top - {last};
      Subset(larger, top - {last});
    } else {
      assert top <= larger;
      Subset(top, larger);
    }
  }

  lemma {:induction false} Subset(a: set<nat>, b: set<nat>)
    requires a <= b
    ensures |a| <= |b|
  {
    assert b == a + (b - a);
  }

  // ----- sorting -----

  /** `idx` lists every position of the row once, in ascending order of logit. */
  ghost predicate Sorts(row: seq<Logit>, idx: seq<nat>) {
    && |idx| == |row|
    && (forall i :: 0 <= i < |idx| ==> idx[i] < |row|)
    && (forall i, j :: 0 <= i < j < |idx| ==> idx[i] != idx[j])
    && (forall j :: 0 <= j < |row| ==> j in idx)
    && (forall i, j :: 0 <= i < j < |idx| ==> row[idx[j]].AtLeast(row[idx[i]]))
  }

  function Gather(row: seq<Logit>, idx: seq<nat>): (s: seq<Logit>)
    requires forall i :: 0 <= i < |idx| ==> idx[i] < |row|
    ensures |s| == |idx| && forall i :: 0 <= i < |idx| ==> s[i] == row[idx[i]]
  {
    seq(|idx|, i requires 0 <= i < |idx| => row[idx[i]])
  }

  function Elements(s: seq<nat>): (r: set<nat>) {
    set x | x in s
  }

  lemma {:induction false} DistinctCount(s: seq<nat>)
    requires forall i, j :: 0 <= i < j < |s| ==> s[i] != s[j]
    ensures |Elements(s)| == |s|
  {
    if s != [] {
      DistinctCount(s[1..]);
      assert s == [s[0]] + s[1..];
      assert Elements(s) == {s[0]} + Elements(s[1..]);
      assert s[0] !in s[1..];
    }
  }

  /** The last k sorted positions are the top k. */
  lemma SortedTop(row: seq<Logit>, idx: seq<nat>, k: nat)
    requires Sorts(row, idx) && 0 < k <= |row|
    ensures TopPositions(row, k, Elements(idx[|row| - k..]), idx[|row| - k])
  {
    var tail := idx[|row| - k..];
    DistinctCount(tail);
    assert tail[0] == idx[|row| - k];
    assert forall i :: |row| - k <= i < |row| ==> idx[i] == tail[i - (|row| - k)];
    forall j | 0 <= j < |row| && j !in tail
      ensures row[idx[|row| - k]].AtLeast(row[j])
    {
      assert j in idx;
      var i :| 0 <= i < |idx| && idx[i] == j;
      assert i < |row| - k;
    }
  }

  // ----- one sorted row -----

  /** The sorted logits after the top-k stage. */
  function AfterTopK(sorted: seq<Logit>, k: Option<int>): (s: seq<Logit>)
    requires NeedTopK(k) ==> k.value <= |sorted|
    ensures |s| == |sorted|
    ensures forall i :: 0 <= i < |s| ==> s[i] == if TopKMask(sorted, k)[i] then sorted[i] else NegInf
  {
    seq(|sorted|, i requires 0 <= i < |sorted| => if TopKMask(sorted, k)[i] then sorted[i] else NegInf)
  }

  function TopKMask(sorted: seq<Logit>, k: Option<int>): (m: seq<bool>)
    requires NeedTopK(k) ==> k.value <= |sorted|
    ensures |m| == |sorted|
    ensures forall i :: 0 <= i < |m| ==> m[i] == (NeedTopK(k) ==> sorted[i].AtLeast(sorted[|sorted| - k.value]))
  {
    seq(|sorted|, i requires 0 <= i < |sorted| => !NeedTopK(k) || sorted[i].AtLeast(sorted[|sorted| - k.value]))
  }

  function Weights(w: Weight, s: seq<Logit>): (q: seq<real>)
    ensures |q| == |s| && forall i :: 0 <= i < |s| ==> q[i] == WeightOf(w, s[i])
  {
    seq(|s|, i requires 0 <= i < |s| => WeightOf(w, s[i]))
  }

  function Softmax(w: Weight, s: seq<Logit>): (q: seq<real>)
    requires Total(Weights(w, s)) != 0.0
    ensures |q| == |s| && forall i :: 0 <= i < |s| ==> q[i] == WeightOf(w, s[i]) / Total(Weights(w, s))
  {
    seq(|s|, i requires 0 <= i < |s| => WeightOf(w, s[i]) / Total(Weights(w, s)))
  }

  /** Running probability above 1 - p; the largest token always. */
  function TopPMask(probs: seq<real>, p: real): (m: seq<bool>)
    ensures |m| == |probs|
    ensures forall i :: 0 <= i < |m| ==> m[i] == (CumSum(probs)[i] > 1.0 - p || i == |probs| - 1)
  {
    seq(|probs|, i requires 0 <= i < |probs| => CumSum(probs)[i] > 1.0 - p || i == |probs| - 1)
  }

  ghost predicate HasMass(w: Weight, s: seq<Logit>) {
    Total(Weights(w, s)) > 0.0
  }

  lemma {:induction false} TotalNonNegative(q: seq<real>)
    requires forall i :: 0 <= i < |q| ==> q[i] >= 0.0
    ensures Total(q) >= 0.0
    ensures forall i :: 0 <= i < |q| ==> Total(q) >= q[i]
  {
    if q != [] {
      TotalNonNegative(q[1..]);
      forall i | 0 <= i < |q|
        ensures Total(q) >= q[i]
      {
        if i > 0 {
          assert q[1..][i - 1] == q[i];
        }
      }
    }
  }

  /** A row with a finite logit keeps one through the top-k stage. */
  lemma SomeMassSurvives(w: Weight, sorted: seq<Logit>, k: Option<int>)
    requires ValidWeight(w) && sorted != []
    requires NeedTopK(k) ==> k.value <= |sorted|
    requires forall i, j :: 0 <= i < j < |sorted| ==> sorted[j].AtLeast(sorted[i])
    requires exists i :: 0 <= i < |sorted| && sorted[i].Fin?
    ensures HasMass(w, AfterTopK(sorted, k))
  {
    var i :| 0 <= i < |sorted| && sorted[i].Fin?;
    var n := |sorted|;
    assert i < n - 1 ==> sorted[n - 1].AtLeast(sorted[i]);
    if NeedTopK(k) {
      assert n - k.value < n - 1 ==> sorted[n - 1].AtLeast(sorted[n - k.value]);
    }
    var s := AfterTopK(sorted, k);
    assert s[n - 1] == sorted[n - 1];
    var q := Weights(w, s);
    assert forall j :: 0 <= j < n ==> q[j] >= 0.0;
    TotalNonNegative(q);
    assert q[n - 1] > 0.0;
  }

  // ----- what top-p means -----

  /** From `start` on the mass is at least p, and one token fewer has less. */
  ghost predicate IsNucleus(probs: seq<real>, p: real, start: nat) {
    && start < |probs|
    && Total(probs[start..]) >= p
    && Total(probs[start + 1..]) < p
  }

  lemma {:induction false} TotalScaled(q: seq<real>, s: seq<real>, z: real)
    requires |q| == |s| && z != 0.0 && forall i :: 0 <= i < |q| ==> q[i] == s[i] / z
    ensures Total(q) == Total(s) / z
  {
    if q != [] {
      TotalScaled(q[1..], s[1..], z);
      assert s[0] / z + Total(s[1..]) / z == (s[0] + Total(s[1..])) / z;
    }
  }

  lemma SplitTotal(q: seq<real>, i: nat)
    requires i <= |q|
    ensures Total(q) == Total(q[..i]) + Total(q[i..])
  {
    TotalAppend(q[..i], q[i..]);
    assert q == q[..i] + q[i..];
  }

  lemma RunningTotalsGrow(q: seq<real>, i: nat, j: nat)
    requires i <= j <= |q| && forall t :: 0 <= t < |q| ==> q[t] >= 0.0
    ensures Total(q[..i]) <= Total(q[..j])
  {
    SplitTotal(q[..j], i);
    assert q[..j][..i] == q[..i];
    TotalNonNegative(q[..j][i..]);
  }

  /** First position whose running total exceeds 1 - p. */
  ghost function NucleusStart(probs: seq<real>, p: real, from: nat): (start: nat)
    requires from < |probs|
    ensures from <= start < |probs|
    ensures TopPMask(probs, p)[start]
    ensures forall i :: from <= i < start ==> !TopPMask(probs, p)[i]
    decreases |probs| - from
  {
    if TopPMask(probs, p)[from] then from else NucleusStart(probs, p, from + 1)
  }

  /** The top-p mask is the suffix of the ascending order whose mass reaches p
      but no longer does without its smallest token. */
  lemma TopPMaskIsNucleus(probs: seq<real>, p: real)
    requires probs != [] && 0.0 < p < 1.0 && Total(probs) == 1.0
    requires forall i :: 0 <= i < |probs| ==> probs[i] >= 0.0
    ensures var start := NucleusStart(probs, p, 0);
            && IsNucleus(probs, p, start)
            && (forall i :: 0 <= i < |probs| ==> (TopPMask(probs, p)[i] <==> i >= start))
            && probs[start] > 0.0
  {
    var start := NucleusStart(probs, p, 0);
    var n := |probs|;
    assert probs[..n] == probs;
    assert CumSum(probs)[n - 1] == 1.0;
    assert CumSum(probs)[start] == Total(probs[..start + 1]) > 1.0 - p;
    SplitTotal(probs, start + 1);
    SplitTotal(probs, start);
    if start > 0 {
      assert CumSum(probs)[start - 1] == Total(probs[..start]) <= 1.0 - p;
    }
    forall i | start <= i < n
      ensures TopPMask(probs, p)[i]
    {
      RunningTotalsGrow(probs, start + 1, i + 1);
    }
    assert probs[start..] == [probs[start]] + probs[start + 1..];
  }

  // No smaller set of tokens has the mass.

  function Count(sel: seq<bool>): (n: nat)
    ensures n <= |sel|
  {
    if sel == [] then 0 else (if sel[|sel| - 1] then 1 else 0) + Count(sel[..|sel| - 1])
  }

  /** Mass of the selected positions. */
  function Selected(q: seq<real>, sel: seq<bool>): (r: real)
    requires |q| == |sel|
  {
    if q == [] then 0.0
    else (if sel[|q| - 1] then q[|q| - 1] else 0.0) + Selected(q[..|q| - 1], sel[..|q| - 1])
  }

  ghost predicate Ascending(q: seq<real>) {
    forall i, j :: 0 <= i < j < |q| ==> q[i] <= q[j]
  }

  lemma {:induction false} SuffixShift(q: seq<real>, a: nat, b: nat)
    requires a <= b < |q| && Ascending(q)
    ensures Total(q[a..b]) <= Total(q[a + 1..b + 1])
    decreases b - a
  {
    if a < b {
      SuffixShift(q, a + 1, b);
      assert q[a..b][1..] == q[a + 1..b] && q[a + 1..b + 1][1..] == q[a + 2..b + 1];
      assert q[a..b][0] <= q[a + 1..b + 1][0];
    }
  }

  /** A selection weighs at most what the same number of largest tokens weigh. */
  lemma {:induction false} SelectionAtMostSuffix(q: seq<real>, sel: seq<bool>)
    requires |q| == |sel| && Ascending(q)
    ensures Selected(q, sel) <= Total(q[|q| - Count(sel)..])
  {
    if q != [] {
      var last := |q| - 1;
      SelectionAtMostSuffix(q[..last], sel[..last]);
      var cut := last - Count(sel[..last]);
      assert q[..last][cut..] == q[cut..last];
      if sel[last] {
        LargestTaken(q, cut);
      } else {
        SuffixShift(q, cut, last);
        assert q[cut + 1..last + 1] == q[cut + 1..];
      }
    }
  }

  lemma LargestTaken(q: seq<real>, cut: nat)
    requires cut < |q|
    ensures Total(q[cut..]) == Total(q[cut..|q| - 1]) + q[|q| - 1]
  {
    assert q[cut..] == q[cut..|q| - 1] + [q[|q| - 1]];
    TotalAppend(q[cut..|q| - 1], [q[|q| - 1]]);
  }

  /** Every set with fewer tokens than the nucleus has mass below p. */
  lemma NucleusIsSmallest(probs: seq<real>, p: real, start: nat, sel: seq<bool>)
    requires IsNucleus(probs, p, start) && Ascending(probs) && |sel| == |probs|
    requires forall i :: 0 <= i < |probs| ==> probs[i] >= 0.0
    requires Count(sel) < |probs| - start
    ensures Selected(probs, sel) < p
  {
    SelectionAtMostSuffix(probs, sel);
    var cut := |probs| - Count(sel);
    SplitTotal(probs[start + 1..], cut - (start + 1));
    assert probs[start + 1..][cut - (start + 1)..] == probs[cut..];
    TotalNonNegative(probs[start + 1..][..cut - (start + 1)]);
  }

  // ----- one row, in original order -----

  /** Where position j of the row went. */
  function PositionOf(idx: seq<nat>, j: nat): (i: nat)
    requires j in idx
    ensures i < |idx| && idx[i] == j
  {
    if idx[0] == j then 0 else 1 + PositionOf(idx[1..], j)
  }

  function Scattered<T>(idx: seq<nat>, src: seq<T>): (out: seq<T>)
    requires |idx| == |src| && forall j :: 0 <= j < |idx| ==> j in idx
    ensures |out| == |src|
    ensures forall j :: 0 <= j < |out| ==> out[j] == src[PositionOf(idx, j)]
  {
    seq(|src|, j requires 0 <= j < |src| => src[PositionOf(idx, j)])
  }

  /** A row that can be filtered: sorted by idx, k in range, a finite logit. */
  ghost predicate Filterable(w: Weight, row: seq<Logit>, idx: seq<nat>, k: Option<int>) {
    && ValidWeight(w)
    && Sorts(row, idx)
    && (NeedTopK(k) ==> k.value <= |row|)
    && exists j :: 0 <= j < |row| && row[j].Fin?
  }

  lemma FilterableHasMass(w: Weight, row: seq<Logit>, idx: seq<nat>, k: Option<int>)
    requires Filterable(w, row, idx, k)
    ensures HasMass(w, AfterTopK(Gather(row, idx), k))
  {
    var sorted := Gather(row, idx);
    var j :| 0 <= j < |row| && row[j].Fin?;
    assert sorted[PositionOf(idx, j)].Fin?;
    SomeMassSurvives(w, sorted, k);
  }

  /** Probabilities along the sorted order, renormalised over the top-k survivors. */
  ghost function SortedProbs(w: Weight, row: seq<Logit>, idx: seq<nat>, k: Option<int>): (probs: seq<real>)
    requires Filterable(w, row, idx, k)
    ensures |probs| == |row|
  {
    FilterableHasMass(w, row, idx, k);
    Softmax(w, AfterTopK(Gather(row, idx), k))
  }

  /** The mask along the sorted order. */
  ghost function SortedMask(w: Weight, row: seq<Logit>, idx: seq<nat>, k: Option<int>, p: real): (m: seq<bool>)
    requires Filterable(w, row, idx, k)
    ensures |m| == |row|
    ensures forall i :: 0 <= i < |m| ==>
              m[i] == (TopKMask(Gather(row, idx), k)[i] && TopPMask(SortedProbs(w, row, idx, k), p)[i])
  {
    seq(|row|, i requires 0 <= i < |row| => TopKMask(Gather(row, idx), k)[i]
        && TopPMask(SortedProbs(w, row, idx, k), p)[i])
  }

  ghost function RowMask(w: Weight, row: seq<Logit>, idx: seq<nat>, k: Option<int>, p: real): (m: seq<bool>)
    requires Filterable(w, row, idx, k)
    ensures |m| == |row|
  {
    Scattered(idx, SortedMask(w, row, idx, k, p))
  }

  /** Kept logits unchanged, the others minus infinity. */
  function Masked(row: seq<Logit>, mask: seq<bool>): (r: seq<Logit>)
    requires |mask| == |row|
    ensures |r| == |row| && forall j :: 0 <= j < |r| ==> r[j] == if mask[j] then row[j] else NegInf
  {
    seq(|row|, j requires 0 <= j < |row| => if mask[j] then row[j] else NegInf)
  }

  ghost predicate AscendingLogits(s: seq<Logit>) {
    forall i, j :: 0 <= i < j < |s| ==> s[j].AtLeast(s[i])
  }

  lemma SoftmaxIsDistribution(w: Weight, s: seq<Logit>)
    requires ValidWeight(w) && HasMass(w, s) && AscendingLogits(s)
    ensures var probs := Softmax(w, s);
            && Total(probs) == 1.0
            && (forall i :: 0 <= i < |probs| ==> probs[i] >= 0.0)
            && Ascending(probs)
            && (forall i :: 0 <= i < |probs| && probs[i] > 0.0 ==> s[i].Fin?)
  {
    var q, z := Weights(w, s), Total(Weights(w, s));
    var probs := Softmax(w, s);
    TotalScaled(probs, q, z);
    Quotient(0.0, z, z);
    forall i | 0 <= i < |probs|
      ensures probs[i] >= 0.0 && (probs[i] > 0.0 ==> s[i].Fin?)
    {
      Quotient(0.0, q[i], z);
    }
    forall i, j | 0 <= i < j < |probs|
      ensures probs[i] <= probs[j]
    {
      assert s[j].AtLeast(s[i]);
      Quotient(q[i], q[j], z);
    }
  }

  lemma SortedProbsAreProbabilities(w: Weight, row: seq<Logit>, idx: seq<nat>, k: Option<int>)
    requires Filterable(w, row, idx, k)
    ensures var probs := SortedProbs(w, row, idx, k);
            && Total(probs) == 1.0
            && (forall i :: 0 <= i < |probs| ==> probs[i] >= 0.0)
            && Ascending(probs)
            && (forall i :: 0 <= i < |probs| && probs[i] > 0.0 ==> TopKMask(Gather(row, idx), k)[i])
  {
    FilterableHasMass(w, row, idx, k);
    SoftmaxIsDistribution(w, AfterTopK(Gather(row, idx), k));
  }

  lemma Quotient(a: real, b: real, z: real)
    requires a <= b && z > 0.0
    ensures a / z <= b / z && 0.0 / z == 0.0 && z / z == 1.0
  {
    assert (b - a) / z >= 0.0;
    assert (b - a) / z == b / z - a / z;
  }

  /** Top-p after top-k: along the sorted order the kept tokens are the nucleus
      of the renormalised probabilities, a suffix of the order. */
  lemma MaskIsNucleus(w: Weight, row: seq<Logit>, idx: seq<nat>, k: Option<int>, p: real)
    requires Filterable(w, row, idx, k) && 0.0 < p < 1.0
    ensures var start := NucleusStart(SortedProbs(w, row, idx, k), p, 0);
            && IsNucleus(SortedProbs(w, row, idx, k), p, start)
            && (forall i :: 0 <= i < |row| ==> (SortedMask(w, row, idx, k, p)[i] <==> i >= start))
  {
    var probs := SortedProbs(w, row, idx, k);
    SortedProbsAreProbabilities(w, row, idx, k);
    TopPMaskIsNucleus(probs, p);
    NucleusSurvivesTopK(w, row, idx, k, NucleusStart(probs, p, 0));
  }

  lemma NucleusSurvivesTopK(w: Weight, row: seq<Logit>, idx: seq<nat>, k: Option<int>, start: nat)
    requires Filterable(w, row, idx, k) && start < |row| && SortedProbs(w, row, idx, k)[start] > 0.0
    ensures forall i :: start <= i < |row| ==> TopKMask(Gather(row, idx), k)[i]
  {
    var probs := SortedProbs(w, row, idx, k);
    SortedProbsAreProbabilities(w, row, idx, k);
    forall i | start <= i < |row|
      ensures TopKMask(Gather(row, idx), k)[i]
    {
      assert start < i ==> probs[start] <= probs[i];
    }
  }

  /** No smaller set of tokens reaches mass p. */
  lemma MaskIsSmallest(w: Weight, row: seq<Logit>, idx: seq<nat>, k: Option<int>, p: real, sel: seq<bool>)
    requires Filterable(w, row, idx, k) && 0.0 < p < 1.0
    requires |sel| == |row| && Count(sel) < |row| - NucleusStart(SortedProbs(w, row, idx, k), p, 0)
    ensures Selected(SortedProbs(w, row, idx, k), sel) < p
  {
    var probs := SortedProbs(w, row, idx, k);
    SortedProbsAreProbabilities(w, row, idx, k);
    TopPMaskIsNucleus(probs, p);
    NucleusIsSmallest(probs, p, NucleusStart(probs, p, 0), sel);
  }

  /** The top-k stage of the sort path keeps the set the threshold path keeps. */
  lemma SortStageKeepsTopK(row: seq<Logit>, idx: seq<nat>, k: int, i: nat)
    requires Sorts(row, idx) && 0 < k <= |row| && i < |row|
    ensures TopKMask(Gather(row, idx), Some(k))[i] <==> InTopK(row, k, row[idx[i]])
  {
    SortedTop(row, idx, k);
    ThresholdKeepsTopK(row, k, Elements(idx[|row| - k..]), idx[|row| - k], idx[i]);
  }

  lemma RowMaskAt(w: Weight, row: seq<Logit>, idx: seq<nat>, k: Option<int>, p: real, j: nat)
    requires Filterable(w, row, idx, k) && 0.0 < p < 1.0 && j < |row|
    ensures RowMask(w, row, idx, k, p)[j] <==> PositionOf(idx, j) >= NucleusStart(SortedProbs(w, row, idx, k), p, 0)
    ensures RowMask(w, row, idx, k, p)[j] && NeedTopK(k) ==> InTopK(row, k.value, row[j])
  {
    MaskIsNucleus(w, row, idx, k, p);
    if NeedTopK(k) {
      SortStageKeepsTopK(row, idx, k.value, PositionOf(idx, j));
    }
  }

  /** Something is kept. */
  lemma RowMaskNonEmpty(w: Weight, row: seq<Logit>, idx: seq<nat>, k: Option<int>, p: real)
    requires Filterable(w, row, idx, k) && 0.0 < p < 1.0
    ensures exists j :: 0 <= j < |row| && RowMask(w, row, idx, k, p)[j]
  {
    var start := NucleusStart(SortedProbs(w, row, idx, k), p, 0);
    RowMaskAt(w, row, idx, k, p, idx[start]);
    assert PositionOf(idx, idx[start]) == start;
  }

  /** What is kept is no smaller than what is dropped. */
  lemma RowMaskKeepsLargest(w: Weight, row: seq<Logit>, idx: seq<nat>, k: Option<int>, p: real, a: nat, b: nat)
    requires Filterable(w, row, idx, k) && 0.0 < p < 1.0 && a < |row| && b < |row|
    requires RowMask(w, row, idx, k, p)[a] && !RowMask(w, row, idx, k, p)[b]
    ensures row[a].AtLeast(row[b])
  {
    RowMaskAt(w, row, idx, k, p, a);
    RowMaskAt(w, row, idx, k, p, b);
    assert row[idx[PositionOf(idx, a)]].AtLeast(row[idx[PositionOf(idx, b)]]);
  }

  // ----- the code -----

  datatype Error = TopKOutOfRange | ZeroChunkSize

  /** The positions torch.topk picked, largest first. */
  ghost predicate PicksTopK(row: seq<Logit>, k: nat, picked: seq<nat>) {
    && |picked| == k > 0
    && (forall i :: 0 <= i < k ==> picked[i] < |row|)
    && (forall i, j :: 0 <= i < j < k ==> picked[i] != picked[j] && row[picked[i]].AtLeast(row[picked[j]]))
    && (forall j :: 0 <= j < |row| && j !in picked ==> row[picked[k - 1]].AtLeast(row[j]))
  }

  /** The path without a sort: compare with the smallest of the picked values. */
  method TopKOnly(row: seq<Logit>, k: nat, picked: seq<nat>) returns (filtered: seq<Logit>, mask: seq<bool>)
    requires PicksTopK(row, k, picked)
    ensures |mask| == |row| && filtered == Masked(row, mask)
    ensures forall j :: 0 <= j < |row| ==> (mask[j] <==> InTopK(row, k, row[j]))
  {
    var threshold := row[picked[k - 1]];
    mask := seq(|row|, j requires 0 <= j < |row| => row[j].AtLeast(threshold));
    filtered := Masked(row, mask);
    DistinctCount(picked);
    assert TopPositions(row, k, Elements(picked), picked[k - 1]);
    forall j | 0 <= j < |row|
      ensures mask[j] <==> InTopK(row, k, row[j])
    {
      ThresholdKeepsTopK(row, k, Elements(picked), picked[k - 1], j);
    }
  }

  /** masked_fill_ with minus infinity. */
  method MaskedFill(s: array<Logit>, keep: seq<bool>)
    requires |keep| == s.Length
    modifies s
    ensures s[..] == Masked(old(s[..]), keep)
  {
    for i := 0 to s.Length
      invariant forall j :: 0 <= j < i ==> s[j] == if keep[j] then old(s[j]) else NegInf
      invariant forall j :: i <= j < s.Length ==> s[j] == old(s[j])
    {
      if !keep[i] {
        s[i] := NegInf;
      }
    }
  }

  /** scatter along an index that lists every position once. */
  method Scatter<T(0)>(idx: seq<nat>, src: seq<T>) returns (out: array<T>)
    requires |idx| == |src|
    requires forall i :: 0 <= i < |idx| ==> idx[i] < |src|
    requires forall i, j :: 0 <= i < j < |idx| ==> idx[i] != idx[j]
    requires forall j :: 0 <= j < |idx| ==> j in idx
    ensures fresh(out) && out[..] == Scattered(idx, src)
  {
    out := new T[|src|](i requires 0 <= i < |src| => src[i]);
    for i := 0 to |idx|
      invariant forall t :: 0 <= t < i ==> out[idx[t]] == src[t]
    {
      out[idx[i]] := src[i];
    }
    forall j | 0 <= j < |src|
      ensures out[j] == src[PositionOf(idx, j)]
    {
      assert out[idx[PositionOf(idx, j)]] == src[PositionOf(idx, j)];
    }
  }

  lemma FillsCompose(w: Weight, row: seq<Logit>, idx: seq<nat>, k: Option<int>, p: real)
    requires Filterable(w, row, idx, k)
    ensures var sorted := Gather(row, idx);
            && AfterTopK(sorted, k) == Masked(sorted, TopKMask(sorted, k))
            && (!NeedTopK(k) ==> AfterTopK(sorted, k) == sorted)
            && Masked(AfterTopK(sorted, k), TopPMask(SortedProbs(w, row, idx, k), p))
               == Masked(sorted, SortedMask(w, row, idx, k, p))
  {
  }

  /** Filling and scattering commute. */
  lemma ScatterMasked(row: seq<Logit>, idx: seq<nat>, keep: seq<bool>)
    requires Sorts(row, idx) && |keep| == |row|
    ensures Scattered(idx, Masked(Gather(row, idx), keep)) == Masked(row, Scattered(idx, keep))
  {
  }

  /** One row of a chunk: sort, fill, cumulate, fill, scatter. */
  method FilterRow(w: Weight, row: seq<Logit>, idx: seq<nat>, k: Option<int>, p: real)
    returns (filtered: seq<Logit>, mask: seq<bool>)
    requires Filterable(w, row, idx, k)
    ensures mask == RowMask(w, row, idx, k, p)
    ensures filtered == Masked(row, mask)
  {
    FillsCompose(w, row, idx, k, p);
    FilterableHasMass(w, row, idx, k);
    ScatterMasked(row, idx, SortedMask(w, row, idx, k, p));
    var sorted := new Logit[|row|](i requires 0 <= i < |row| => row[idx[i]]);
    assert sorted[..] == Gather(row, idx);
    var topK := TopKMask(sorted[..], k);
    if NeedTopK(k) {
      MaskedFill(sorted, topK);
    }
    var topP := TopPMask(Softmax(w, sorted[..]), p);
    MaskedFill(sorted, topP);
    var keep := And(topK, topP);
    assert keep == SortedMask(w, row, idx, k, p);
    var outLogits := Scatter(idx, sorted[..]);
    var outMask := Scatter(idx, keep);
    filtered, mask := outLogits[..], outMask[..];
  }

  function And(a: seq<bool>, b: seq<bool>): (r: seq<bool>)
    requires |a| == |b|
    ensures |r| == |a| && forall i :: 0 <= i < |r| ==> r[i] == (a[i] && b[i])
  {
    seq(|a|, i requires 0 <= i < |a| => a[i] && b[i])
  }

  datatype Filtered = Filtered(logits: seq<seq<Logit>>, mask: Option<seq<seq<bool>>>)

  /** Rows [start, end) into the outputs. */
  method FilterChunk(w: Weight, logits: seq<seq<Logit>>, k: Option<int>, p: Option<real>, sort: seq<Logit> -> seq<nat>,
                     start: nat, end: nat, outLogits: array<seq<Logit>>, outMask: array<seq<bool>>)
    requires start <= end <= |logits| == outLogits.Length == outMask.Length && NeedTopP(p)
    requires forall t :: start <= t < end ==> Filterable(w, logits[t], sort(logits[t]), k)
    modifies outLogits, outMask
    ensures forall t :: start <= t < end ==> RowDone(w, logits[t], sort(logits[t]), k, p, outLogits[t], outMask[t])
    ensures forall t :: 0 <= t < start ==> outLogits[t] == old(outLogits[t]) && outMask[t] == old(outMask[t])
  {
    var t := start;
    while t < end
      invariant start <= t <= end
      invariant forall u :: start <= u < t ==> RowDone(w, logits[u], sort(logits[u]), k, p, outLogits[u], outMask[u])
      invariant forall u :: 0 <= u < start ==> outLogits[u] == old(outLogits[u]) && outMask[u] == old(outMask[u])
    {
      var filtered, mask := FilterRow(w, logits[t], sort(logits[t]), k, p.value);
      outLogits[t], outMask[t] := filtered, mask;
      t := t + 1;
    }
  }

  /** Filter a batch of rows. With top-p the rows go through in chunks, into
      preallocated outputs; the result never mentions the chunk size. */
  method ApplyTopKTopP(w: Weight, logits: seq<seq<Logit>>, k: Option<int>, p: Option<real>, chunk: Option<nat>,
                       sort: seq<Logit> -> seq<nat>, topk: (seq<Logit>, nat) -> seq<nat>, vocab: nat)
    returns (r: Result<Filtered, Error>)
    requires vocab > 0 && forall t :: 0 <= t < |logits| ==> |logits[t]| == vocab
    requires ValidWeight(w)
    requires forall t :: 0 <= t < |logits| ==>
              Sorts(logits[t], sort(logits[t])) && exists j :: 0 <= j < vocab && logits[t][j].Fin?
    requires forall t, n: nat :: 0 <= t < |logits| && 0 < n <= vocab ==> PicksTopK(logits[t], n, topk(logits[t], n))
    ensures !NeedTopK(k) && !NeedTopP(p) ==> r == Ok(Filtered(logits, None))
    ensures r.Err? <==>
              || (NeedTopK(k) && k.value > vocab && (NeedTopP(p) ==> logits != []))
              || (NeedTopP(p) && (if chunk.Some? then chunk.value == 0 else logits == []))
    ensures r.Ok? && (NeedTopK(k) || NeedTopP(p)) ==>
              && r.value.mask.Some? && |r.value.mask.value| == |logits| == |r.value.logits|
              && forall t :: 0 <= t < |logits| ==>
                   RowDone(w, logits[t], sort(logits[t]), k, p, r.value.logits[t], r.value.mask.value[t])
  {
    if !NeedTopP(p) {
      if !NeedTopK(k) {
        return Ok(Filtered(logits, None));
      }
      if k.value > vocab {
        return Err(TopKOutOfRange);
      }
      var kept, masks := TopKOnlyRows(w, logits, k, p, sort, topk);
      return Ok(Filtered(kept, Some(masks)));
    }
    var n := |logits|;
    var chunkSize := if chunk.Some? then chunk.value else n;
    if chunkSize == 0 {
      return Err(ZeroChunkSize);
    }
    if NeedTopK(k) && k.value > vocab && n > 0 {
      return Err(TopKOutOfRange);
    }
    var outLogits := new seq<Logit>[n];
    var outMask := new seq<bool>[n];
    var start := 0;
    while start < n
      invariant 0 <= start <= n
      invariant forall t :: 0 <= t < start ==> RowDone(w, logits[t], sort(logits[t]), k, p, outLogits[t], outMask[t])
    {
      var end := if start + chunkSize < n then start + chunkSize else n;
      FilterChunk(w, logits, k, p, sort, start, end, outLogits, outMask);
      start := end;
    }
    return Ok(Filtered(outLogits[..], Some(outMask[..])));
  }

  /** The result for one row, whichever path was taken. */
  ghost predicate RowDone(w: Weight, row: seq<Logit>, idx: seq<nat>, k: Option<int>, p: Option<real>,
                          filtered: seq<Logit>, mask: seq<bool>)
  {
    && |mask| == |row|
    && filtered == Masked(row, mask)
    && (if NeedTopP(p)
        then Filterable(w, row, idx, k) && mask == RowMask(w, row, idx, k, p.value)
        else NeedTopK(k) && forall j :: 0 <= j < |row| ==> (mask[j] <==> InTopK(row, k.value, row[j])))
  }

  method TopKOnlyRows(w: Weight, logits: seq<seq<Logit>>, k: Option<int>, p: Option<real>,
                      ghost sort: seq<Logit> -> seq<nat>, topk: (seq<Logit>, nat) -> seq<nat>)
    returns (kept: seq<seq<Logit>>, masks: seq<seq<bool>>)
    requires NeedTopK(k) && !NeedTopP(p)
    requires forall t :: 0 <= t < |logits| ==> PicksTopK(logits[t], k.value, topk(logits[t], k.value))
    ensures |kept| == |masks| == |logits|
    ensures forall t :: 0 <= t < |logits| ==> RowDone(w, logits[t], sort(logits[t]), k, p, kept[t], masks[t])
  {
    kept, masks := [], [];
    for t := 0 to |logits|
      invariant |kept| == |masks| == t
      invariant forall u :: 0 <= u < t ==> RowDone(w, logits[u], sort(logits[u]), k, p, kept[u], masks[u])
    {
      var f, m := TopKOnly(logits[t], k.value, topk(logits[t], k.value));
      assert RowDone(w, logits[t], sort(logits[t]), k, p, f, m);
      kept, masks := kept + [f], masks + [m];
    }
  }
}
