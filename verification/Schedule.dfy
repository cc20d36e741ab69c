/** Counters, limits and save points of the epoch and step loops
    (nemo_rl/algorithms/dpo.py, nemo_rl/algorithms/distillation.py). The number of
    steps made determines where a loop stands; checkpoints are told apart by it. */
module Schedule {
  import opened Common

  datatype Limits = Limits(maxEpochs: int, maxSteps: int, checkpointing: bool, savePeriod: nat,
                           ftSavePeriod: Option<nat>)

  predicate ValidLimits(l: Limits) {
    l.savePeriod > 0 && (l.ftSavePeriod.Some? ==> l.ftSavePeriod.value > 0)
  }

  // ----- positions -----

  /** Epoch and number of its batches consumed after n steps. */
  function Position(length: nat, n: nat): (p: (nat, nat))
    requires length > 0
    ensures p.1 <= length && (n > 0 ==> p.1 > 0)
  {
    if n == 0 then (0, 0)
    else
      var (e, s) := Position(length, n - 1);
      if s < length then (e, s + 1) else (e + 1, 1)
  }

  /** Epoch and index of the batch that step n (from 0) trains on. */
  function BatchPosition(length: nat, n: nat): (p: (nat, nat))
    requires length > 0
    ensures p.1 < length
  {
    var (e, s) := Position(length, n);
    if s < length then (e, s) else (e + 1, 0)
  }

  /** The number of steps in the first epochs. */
  function Before(length: nat, epoch: int): (n: nat) {
    if epoch <= 0 then 0 else Before(length, epoch - 1) + length
  }

  /** Epoch and loader position stand for n steps made; the end of an epoch is the
      start of the next. */
  ghost predicate Stands(length: nat, n: nat, epoch: int, position: nat) {
    epoch >= 0 && position <= length && n == Before(length, epoch) + position && (n > 0 ==> length > 0)
  }

  lemma {:induction false} PositionStands(length: nat, n: nat)
    requires length > 0
    ensures Stands(length, n, Position(length, n).0, Position(length, n).1)
  {
    if n > 0 {
      PositionStands(length, n - 1);
    }
  }

  lemma {:induction false} BeforeGrows(length: nat, e: nat, f: nat)
    requires e <= f
    ensures Before(length, e) <= Before(length, f)
    ensures e < f ==> Before(length, e) + length <= Before(length, f)
  {
    if e < f {
      BeforeGrows(length, e, f - 1);
    }
  }

  /** Two ways to stand for the same number of steps are the two ends of a gap
      between epochs. */
  lemma SameStand(length: nat, n: nat, e: nat, s: nat, f: nat, t: nat)
    requires length > 0 && Stands(length, n, e, s) && Stands(length, n, f, t) && e <= f
    ensures (e, s) == (f, t) || (f == e + 1 && s == length && t == 0)
  {
    if e < f {
      BeforeGrows(length, e + 1, f);
    }
  }

  lemma StandsForBatch(length: nat, n: nat, epoch: int, position: nat)
    requires Stands(length, n, epoch, position)
    ensures position < length ==>
              BatchPosition(length, n) == (epoch, position) && Position(length, n + 1) == (epoch, position + 1)
    ensures position == length > 0 ==> BatchPosition(length, n) == (epoch + 1, 0)
    ensures if position == length then Stands(length, n, epoch + 1, 0) else Stands(length, n + 1, epoch, position + 1)
  {
    if length > 0 {
      PositionStands(length, n);
      var (e, s) := Position(length, n);
      if e <= epoch {
        SameStand(length, n, e, s, epoch, position);
      } else {
        SameStand(length, n, epoch, position, e, s);
      }
    }
  }

  /** Step n (from 0) is within both limits. */
  predicate CanTrain(length: nat, l: Limits, n: nat) {
    length > 0 && n < l.maxSteps && BatchPosition(length, n).0 < l.maxEpochs
  }

  /** Every step from n0 up to n is within both limits. */
  ghost predicate Within(length: nat, l: Limits, n0: nat, n: nat) {
    forall k :: n0 <= k < n ==> CanTrain(length, l, k)
  }

  /** The number of steps of a run that nothing cuts short. */
  ghost predicate UncutLength(length: nat, l: Limits, n: nat) {
    Within(length, l, 0, n) && !CanTrain(length, l, n)
  }

  /** A loop that has run into a limit has no step left to train. */
  lemma LimitReached(length: nat, l: Limits, n: nat, epoch: int, position: nat)
    requires Stands(length, n, epoch, position) && position <= length && (n >= l.maxSteps || epoch >= l.maxEpochs)
    ensures !CanTrain(length, l, n)
  {
    StandsForBatch(length, n, epoch, position);
  }

  predicate IsLastStep(length: nat, l: Limits, epoch: int, step: int, total: int) {
    total + 1 >= l.maxSteps || (epoch + 1 == l.maxEpochs && step + 1 == length)
  }

  // ----- saves -----

  predicate PeriodicSave(l: Limits, n: int)
    requires ValidLimits(l)
  {
    n % l.savePeriod == 0 || (l.ftSavePeriod.Some? && n % l.ftSavePeriod.value == 0)
  }

  /** A checkpoint and the number of steps it was written after. */
  datatype Save<+C> = Save(total: int, content: C)

  ghost predicate HasSave<C>(saves: seq<Save<C>>, n: int) {
    exists i :: 0 <= i < |saves| && saves[i].total == n
  }

  /** Saves written between n0 and n, none of the periodic ones missing. */
  ghost predicate Complete<C>(l: Limits, saves: seq<Save<C>>, n0: nat, n: nat)
    requires ValidLimits(l)
  {
    && (forall i :: 0 <= i < |saves| ==> n0 < saves[i].total <= n)
    && (l.checkpointing ==> forall k :: n0 < k <= n && PeriodicSave(l, k) ==> HasSave(saves, k))
  }

  ghost predicate LastSaved<C>(saves: seq<Save<C>>, n: int) {
    saves != [] && saves[|saves| - 1].total == n
  }

  /** The saves after step number n, which wrote a checkpoint or none. */
  function WithSave<C>(saves: seq<Save<C>>, saved: Option<C>, n: int): (r: seq<Save<C>>) {
    if saved.Some? then saves + [Save(n, saved.value)] else saves
  }

  lemma OneMoreSave<C>(l: Limits, saves: seq<Save<C>>, saved: Option<C>, n0: nat, n: nat)
    requires ValidLimits(l) && Complete(l, saves, n0, n) && n0 <= n
    requires l.checkpointing && PeriodicSave(l, n + 1) ==> saved.Some?
    ensures Complete(l, WithSave(saves, saved, n + 1), n0, n + 1)
    ensures saved.Some? ==> LastSaved(WithSave(saves, saved, n + 1), n + 1)
  {
    var all := WithSave(saves, saved, n + 1);
    forall k | n0 < k <= n + 1 && PeriodicSave(l, k) && l.checkpointing
      ensures HasSave(all, k)
    {
      if k <= n {
        assert HasSave(saves, k);
        var i :| 0 <= i < |saves| && saves[i].total == k;
        assert all[i].total == k;
      } else {
        assert all[|all| - 1].total == k;
      }
    }
  }
}
