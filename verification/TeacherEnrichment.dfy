/** The blocking half of teacher enrichment: pad the batch, infer, remove the
    padding (nemo_rl/algorithms/opd.py:477-575). */
module TeacherEnrichment {
  import opened Common
  import Numerals

  /** A row of the data plane; only a tensor can be cloned. */
  datatype Cell = Tensor(data: int) | Opaque(data: int)
  type Row = map<string, Cell>

  datatype Key = Key(partition: string, id: string)
  type Rows = map<Key, Row>

  datatype Meta<T> = Meta(partition: string, ids: seq<string>, lengths: Option<seq<int>>, tags: Option<seq<T>>)

  /** Tags, when present, are one per row. */
  predicate Aligned<T>(m: Meta<T>) {
    m.tags.Some? ==> |m.tags.value| == |m.ids|
  }

  /** Lengths and tags survive only when both sides have them. */
  function Concat<T>(a: Meta<T>, b: Meta<T>): (m: Meta<T>)
    requires a.partition == b.partition
  {
    Meta(a.partition, a.ids + b.ids,
         if a.lengths.Some? && b.lengths.Some? then Some(a.lengths.value + b.lengths.value) else None,
         if a.tags.Some? && b.tags.Some? then Some(a.tags.value + b.tags.value) else None)
  }

  function Keys<T>(m: Meta<T>): (ks: set<Key>) {
    set id | id in m.ids :: Key(m.partition, id)
  }

  // ----- padding -----

  /** The uuid prefix is the caller's source of randomness. */
  function PadId(last: string, prefix: string, index: nat): (id: string) {
    last + "__teacher_pad_" + prefix + "_" + Numerals.Decimal(index)
  }

  function PadIds(last: string, prefix: string, count: nat): (ids: seq<string>)
    ensures |ids| == count
    ensures forall i :: 0 <= i < count ==> ids[i] == PadId(last, prefix, i)
  {
    seq(count, (i: nat) => PadId(last, prefix, i))
  }

  lemma PadIdInjective(last: string, prefix: string, i: nat, j: nat)
    requires PadId(last, prefix, i) == PadId(last, prefix, j)
    ensures i == j
  {
    var head := last + "__teacher_pad_" + prefix + "_";
    var a, b := Numerals.Decimal(i), Numerals.Decimal(j);
    assert (head + a)[|head|..] == a && (head + b)[|head|..] == b;
    Numerals.DecimalInjective(i, j);
  }

  lemma PadIdsDiffer(last: string, prefix: string, count: nat)
    ensures var ids := PadIds(last, prefix, count); forall i, j :: 0 <= i < j < count ==> ids[i] != ids[j]
  {
    forall i, j | 0 <= i < j < count
      ensures PadIds(last, prefix, count)[i] != PadIds(last, prefix, count)[j]
    {
      if PadId(last, prefix, i) == PadId(last, prefix, j) {
        PadIdInjective(last, prefix, i, j);
      }
    }
  }

  /** Quotient and remainder are unique. */
  lemma Remainder(n: nat, d: nat, q: int, r: nat)
    requires r < d && n == q * d + r
    ensures n % d == r
  {
    var q', r' := n / d, n % d;
    var diff := q - q';
    assert diff * d == r' - r by {
      assert n == q' * d + r';
      assert diff * d == q * d - q' * d;
    }
    Scaled(diff, d);
  }

  lemma Scaled(a: int, d: nat)
    ensures a >= 1 ==> a * d >= d
    ensures a <= -1 ==> a * d + d <= 0
  {
    if a >= 1 {
      assert a * d == (a - 1) * d + d;
    } else if a <= -1 {
      assert a * d == (a + 1) * d - d;
    }
  }

  function PadCount(size: nat, dp: nat): (n: nat)
    requires dp > 0
    ensures n < dp
  {
    var r := size % dp;
    if r == 0 then 0 else dp - r
  }

  /** PadCount makes the batch divisible, and nothing smaller does. */
  lemma PadCountIsLeast(size: nat, dp: nat, n: nat)
    requires dp > 0
    ensures (size + PadCount(size, dp)) % dp == 0
    ensures (size + n) % dp == 0 ==> PadCount(size, dp) <= n
  {
    var q, r := size / dp, size % dp;
    assert size == q * dp + r;
    assert (q + 1) * dp == q * dp + dp;
    if r > 0 {
      Remainder(size + (dp - r), dp, q + 1, 0);
    }
    if r + n < dp {
      Remainder(size + n, dp, q, r + n);
    }
  }

  function Padding<T>(m: Meta<T>, prefix: string, count: nat): (p: Meta<T>)
    requires Aligned(m) && m.ids != [] && m.lengths.Some? && m.lengths.value != []
    ensures Aligned(p) && p.partition == m.partition
  {
    var last := m.lengths.value[|m.lengths.value| - 1];
    Meta(m.partition, PadIds(m.ids[|m.ids| - 1], prefix, count), Some(seq(count, _ => last)),
         if m.tags.Some? then Some(seq(count, _ => m.tags.value[|m.ids| - 1])) else None)
  }

  /** A fresh uuid: none of the identifiers built from it is in use. */
  ghost predicate Fresh<T>(rows: Rows, m: Meta<T>, prefix: string) {
    m.ids != [] ==> NoneInUse(rows, m, m.ids[|m.ids| - 1], prefix)
  }

  ghost predicate NoneInUse<T>(rows: Rows, m: Meta<T>, last: string, prefix: string) {
    forall i: nat :: Unused(rows, m, PadId(last, prefix, i))
  }

  predicate Unused<T>(rows: Rows, m: Meta<T>, id: string) {
    Key(m.partition, id) !in rows && id !in m.ids
  }

  /** What the teacher is asked to score: the batch itself, then fewer than dp
      distinct new rows, the total divisible by dp. */
  ghost predicate Dispatched<T>(m: Meta<T>, dp: nat, d: Meta<T>)
    requires dp > 0
  {
    && d.partition == m.partition && Aligned(d)
    && |m.ids| <= |d.ids| < |m.ids| + dp && |d.ids| % dp == 0
    && d.ids[..|m.ids|] == m.ids
    && (forall i :: |m.ids| <= i < |d.ids| ==> d.ids[i] !in m.ids)
    && (forall i, j :: |m.ids| <= i < j < |d.ids| ==> d.ids[i] != d.ids[j])
    && (m.lengths.Some? ==>
          && d.lengths.Some? && |d.lengths.value| == |m.lengths.value| + (|d.ids| - |m.ids|)
          && RepeatsLast(m.lengths.value, d.lengths.value))
    && (m.tags.Some? <==> d.tags.Some?) && (m.tags.Some? ==> RepeatsLast(m.tags.value, d.tags.value))
  }

  /** full is s, then copies of its last element. */
  ghost predicate RepeatsLast<T>(s: seq<T>, full: seq<T>) {
    && s <= full
    && (|s| < |full| ==> s != [] && forall i :: |s| <= i < |full| ==> full[i] == s[|s| - 1])
  }

  /** New distinct rows appended to a batch. */
  lemma Appended<T>(rows: Rows, m: Meta<T>, dp: nat, pad: Meta<T>)
    requires dp > 0 && Aligned(m) && Aligned(pad) && pad.partition == m.partition
    requires |pad.ids| == PadCount(|m.ids|, dp) && pad.lengths.Some? && |pad.lengths.value| == |pad.ids|
    requires m.lengths.Some? && RepeatsLast(m.lengths.value, m.lengths.value + pad.lengths.value)
    requires m.tags.Some? <==> pad.tags.Some?
    requires m.tags.Some? ==> RepeatsLast(m.tags.value, m.tags.value + pad.tags.value)
    requires forall i :: 0 <= i < |pad.ids| ==> Unused(rows, m, pad.ids[i])
    requires forall i, j :: 0 <= i < j < |pad.ids| ==> pad.ids[i] != pad.ids[j]
    ensures Dispatched(m, dp, Concat(m, pad))
    ensures Keys(Concat(m, pad)) == Keys(m) + Keys(pad) && Keys(pad) !! Keys(m) && Keys(pad) !! rows.Keys
  {
    PadCountIsLeast(|m.ids|, dp, 0);
    KeysOfConcat(m, pad);
  }

  lemma PaddedBatch<T>(rows: Rows, m: Meta<T>, dp: nat, prefix: string)
    requires dp > 0 && Aligned(m) && m.ids != [] && m.lengths.Some? && m.lengths.value != []
    requires Fresh(rows, m, prefix)
    ensures var pad := Padding(m, prefix, PadCount(|m.ids|, dp));
            && Dispatched(m, dp, Concat(m, pad))
            && Keys(Concat(m, pad)) == Keys(m) + Keys(pad) && Keys(pad) !! Keys(m) && Keys(pad) !! rows.Keys
  {
    var last, count := m.ids[|m.ids| - 1], PadCount(|m.ids|, dp);
    var pad := Padding(m, prefix, count);
    PadIdsDiffer(last, prefix, count);
    forall i | 0 <= i < |pad.ids|
      ensures Unused(rows, m, pad.ids[i])
    {
      assert pad.ids[i] == PadId(last, prefix, i);
    }
    Appended(rows, m, dp, pad);
  }

  lemma KeysOfConcat<T>(a: Meta<T>, b: Meta<T>)
    requires a.partition == b.partition
    ensures Keys(Concat(a, b)) == Keys(a) + Keys(b)
  {
  }

  // ----- the data plane and the teacher -----

  /** What the outside world does to one call. A failing operation may still
      have touched some of its rows. */
  datatype Faults = Faults(readFails: bool, writeFails: Option<set<Key>>, inferenceFails: Option<set<Key>>,
                           cleanupFails: Option<set<Key>>)

  datatype Error = NoLengths | BadSize | ReadFailed | NotTensor | WriteFailed | InferenceFailed
  datatype Outcome = Completed | Failed(error: Error) | CleanupFailed | BothFailed(error: Error)

  predicate Clean(o: Outcome) {
    o.Completed? || o.Failed?
  }

  function Pick(row: Row, fields: seq<string>): (r: Row)
    requires forall f :: f in fields ==> f in row
  {
    map f | f in fields :: row[f]
  }

  /** The keys an operation reaches: all of them unless it fails part-way. */
  function Reached(ks: set<Key>, fault: Option<set<Key>>): (r: set<Key>)
    ensures r <= ks
  {
    if fault.None? then ks else ks * fault.value
  }

  /** Every row of ks gets the teacher's column, computed from its own fields. */
  ghost function Enriched(rows: Rows, ks: set<Key>, column: string, score: Row -> Cell): (r: Rows)
    ensures r.Keys == rows.Keys
  {
    map k | k in rows :: if k in ks then rows[k][column := score(rows[k])] else rows[k]
  }

  class DataPlane {
    var rows: Rows

    method GetSample(key: Key, fields: seq<string>, fails: bool) returns (r: Result<Row, Error>)
      ensures r == if fails || key !in rows || exists f :: f in fields && f !in rows[key] then Err(ReadFailed)
                   else Ok(Pick(rows[key], fields))
    {
      if fails || key !in rows || exists f :: f in fields && f !in rows[key] {
        r := Err(ReadFailed);
      } else {
        r := Ok(Pick(rows[key], fields));
      }
    }

    method PutSamples(ks: set<Key>, row: Row, fault: Option<set<Key>>) returns (ok: bool)
      modifies this
      ensures ok == fault.None?
      ensures rows.Keys == old(rows.Keys) + Reached(ks, fault)
      ensures forall k :: k in rows ==> rows[k] == if k in Reached(ks, fault) then row else old(rows)[k]
    {
      rows := rows + (map k | k in Reached(ks, fault) :: row);
      ok := fault.None?;
    }

    method ClearSamples(ks: set<Key>, fault: Option<set<Key>>) returns (ok: bool)
      modifies this
      ensures ok == fault.None?
      ensures rows == old(rows) - Reached(ks, fault)
    {
      rows := rows - Reached(ks, fault);
      ok := fault.None?;
    }

    /** A fetch needs every row it names. */
    method Fetch(ks: set<Key>) returns (r: Option<Rows>)
      ensures r.Some? <==> ks <= rows.Keys
      ensures r.Some? ==> r.value == Only(rows, ks)
    {
      if ks <= rows.Keys {
        r := Some(map k | k in ks :: rows[k]);
      } else {
        r := None;
      }
    }

    /** Writing the column back is an upsert: it needs no row to be there. */
    method WriteBack(fetched: Rows, ks: set<Key>, column: string, score: Row -> Cell)
      requires ks <= fetched.Keys
      modifies this
      ensures rows == Upserted(old(rows), fetched, ks, column, score)
    {
      rows := rows + (map k | k in ks :: (if k in rows then rows[k] else map[])[column := score(fetched[k])]);
    }

    /** The workers fetch the rows they reach and write their column back under
        the same sample ids. A row that is not there fails the call. */
    method Infer(ks: set<Key>, column: string, score: Row -> Cell, fault: Option<set<Key>>) returns (ok: bool)
      modifies this
      ensures ok == (fault.None? && ks <= old(rows.Keys))
      ensures rows == if ok then Enriched(old(rows), ks, column, score)
                      else if fault.None? then old(rows)
                      else Enriched(old(rows), Reached(ks, fault), column, score)
    {
      if fault.None? && !(ks <= rows.Keys) {
        return false;
      }
      var reached := Reached(ks, fault) * rows.Keys;
      var fetched := Fetch(reached);
      WriteBackEnriches(rows, Reached(ks, fault), column, score);
      WriteBack(fetched.value, reached, column, score);
      ok := fault.None?;
    }
  }

  function Only(rows: Rows, ks: set<Key>): (r: Rows)
    requires ks <= rows.Keys
  {
    map k | k in ks :: rows[k]
  }

  /** The rows after the column of ks was written, computed from rows fetched before. */
  ghost function Upserted(rows: Rows, fetched: Rows, ks: set<Key>, column: string, score: Row -> Cell): (r: Rows)
    requires ks <= fetched.Keys
    ensures r.Keys == rows.Keys + ks
  {
    rows + (map k | k in ks :: (if k in rows then rows[k] else map[])[column := score(fetched[k])])
  }

  /** With nothing in between, fetching and writing back adds the column. */
  lemma WriteBackEnriches(rows: Rows, ks: set<Key>, column: string, score: Row -> Cell)
    ensures var present := ks * rows.Keys;
            Upserted(rows, Only(rows, present), present, column, score) == Enriched(rows, ks, column, score)
  {
    var present := ks * rows.Keys;
    var up := Upserted(rows, Only(rows, present), present, column, score);
    assert up.Keys == rows.Keys;
  }

  /** With a rollback in between, it brings the rows back, with that column only. */
  lemma WriteBackRestores(rows: Rows, ks: set<Key>, column: string, score: Row -> Cell, k: Key)
    requires ks <= rows.Keys && k in ks
    ensures var late := Upserted(rows - ks, Only(rows, ks), ks, column, score);
            late.Keys == rows.Keys && late[k] == map[column := score(rows[k])]
  {
    assert (rows - ks).Keys + ks == rows.Keys;
  }

  /** Rows keep everything but, on the batch's own rows, the teacher's column. */
  ghost predicate OnlyColumn(before: Rows, after: Rows, ks: set<Key>, column: string) {
    forall k :: k in before && k in after ==>
      if k in ks then after[k] - {column} == before[k] - {column} else after[k] == before[k]
  }

  /** Which keys cleanup has to remove. */
  function Temporary<T>(m: Meta<T>, ids: seq<string>): (ks: set<Key>) {
    set id | id in ids :: Key(m.partition, id)
  }

  /** What holds between the guarded block and the cleanup: every foreign key is
      temporary, and no old row lost anything. */
  ghost predicate Repairable<T>(before: Rows, after: Rows, m: Meta<T>, temporary: set<Key>, column: string) {
    && temporary !! before.Keys && before.Keys <= after.Keys <= before.Keys + temporary
    && OnlyColumn(before, after, Keys(m), column)
  }

  predicate Cloneable(row: Row, fields: seq<string>) {
    forall f :: f in fields ==> f in row && row[f].Tensor?
  }

  /** Everything a faultless call needs of its input. */
  ghost predicate Ready<T>(rows: Rows, m: Meta<T>, dp: int, fields: seq<string>) {
    && m.lengths.Some? && m.lengths.value != [] && dp > 0 && Keys(m) <= rows.Keys
    && (forall k :: k in Keys(m) ==> Cloneable(rows[k], fields))
  }

  predicate NoFaults(f: Faults) {
    !f.readFails && f.writeFails.None? && f.inferenceFails.None? && f.cleanupFails.None?
  }

  /** Inference over a batch and its padding, seen on the old rows. */
  lemma PaddingIsInert(before: Rows, padded: Rows, ks: set<Key>, pads: set<Key>, reached: set<Key>, column: string,
                       score: Row -> Cell)
    requires Extends(before, padded, pads) && reached <= ks + pads
    ensures OnlyColumn(before, Enriched(padded, reached, column, score), ks, column)
    ensures ks <= reached ==> Enriched(padded, reached, column, score) - pads == Enriched(before, ks, column, score)
  {
    var after := Enriched(padded, reached, column, score);
    forall k | k in before
      ensures k !in ks ==> after[k] == before[k]
      ensures after[k] - {column} == before[k] - {column}
    {
    }
    if ks <= reached {
      assert (after - pads).Keys == before.Keys;
    }
  }

  /** The rows are the old ones and some temporary ones. */
  ghost predicate Extends(before: Rows, after: Rows, temporary: set<Key>) {
    && temporary !! before.Keys && before.Keys <= after.Keys <= before.Keys + temporary
    && (forall k :: k in before ==> after[k] == before[k])
  }

  /** What padding promises of the rows it leaves and the batch it returns. */
  ghost predicate Padded<T>(before: Rows, after: Rows, m: Meta<T>, dp: nat, fields: seq<string>,
                            temporary: seq<string>, d: Meta<T>)
    requires dp > 0
  {
    && Dispatched(m, dp, d) && d.ids == m.ids + temporary
    && Keys(d) == Keys(m) + Temporary(m, temporary) && Temporary(m, temporary) <= after.Keys
    && (temporary != [] ==>
          && m.ids != [] && Key(m.partition, m.ids[|m.ids| - 1]) in before
          && var last := before[Key(m.partition, m.ids[|m.ids| - 1])];
             Cloneable(last, fields) && forall k :: k in Temporary(m, temporary) ==> after[k] == Pick(last, fields))
  }

  /** Clone the last row under the temporary ids. */
  method PutClones<T>(plane: DataPlane, m: Meta<T>, dp: nat, fields: seq<string>, pad: Meta<T>, faults: Faults)
    returns (error: Option<Error>, temporary: seq<string>)
    requires m.ids != [] && dp > 0 && pad.partition == m.partition && Dispatched(m, dp, Concat(m, pad))
    requires Keys(Concat(m, pad)) == Keys(m) + Keys(pad) && Keys(pad) !! plane.rows.Keys
    modifies plane
    ensures Extends(old(plane.rows), plane.rows, Temporary(m, temporary))
    ensures error.None? ==> Padded(old(plane.rows), plane.rows, m, dp, fields, temporary, Concat(m, pad))
    ensures error in {None, Some(ReadFailed), Some(NotTensor), Some(WriteFailed)}
    ensures NoFaults(faults) && Ready(old(plane.rows), m, dp, fields) ==> error.None?
  {
    var key := Key(m.partition, m.ids[|m.ids| - 1]);
    assert key in Keys(m);
    var source := plane.GetSample(key, fields, faults.readFails);
    if source.Err? {
      return Some(source.error), [];
    }
    temporary := pad.ids;
    if exists f :: f in fields && !source.value[f].Tensor? {
      return Some(NotTensor), temporary;
    }
    var ok := plane.PutSamples(Keys(pad), source.value, faults.writeFails);
    error := if ok then None else Some(WriteFailed);
  }

  /** A batch that needs no padding is dispatched as it is. */
  lemma NothingToPad<T>(rows: Rows, m: Meta<T>, dp: nat, fields: seq<string>)
    requires Aligned(m) && dp > 0 && PadCount(|m.ids|, dp) == 0
    ensures Padded(rows, rows, m, dp, fields, [], m) && Extends(rows, rows, Temporary(m, []))
  {
  }

  /** The padding of a batch, ready to be appended. */
  method MakePadding<T>(m: Meta<T>, dp: nat, prefix: string, count: nat, ghost rows: Rows) returns (pad: Meta<T>)
    requires Aligned(m) && m.ids != [] && m.lengths.Some? && m.lengths.value != [] && dp > 0 && Fresh(rows, m, prefix)
    requires count == PadCount(|m.ids|, dp)
    ensures pad.partition == m.partition && |pad.ids| == count && Dispatched(m, dp, Concat(m, pad))
    ensures Keys(Concat(m, pad)) == Keys(m) + Keys(pad) && Keys(pad) !! rows.Keys
  {
    PaddedBatch(rows, m, dp, prefix);
    pad := Padding(m, prefix, count);
  }

  /** Clone the last row as often as divisibility needs. */
  method Pad<T>(plane: DataPlane, m: Meta<T>, dp: nat, fields: seq<string>, prefix: string, faults: Faults)
    returns (error: Option<Error>, temporary: seq<string>, padded: Meta<T>)
    requires Aligned(m) && m.lengths.Some? && m.lengths.value != [] && dp > 0 && Fresh(plane.rows, m, prefix)
    modifies plane
    ensures Extends(old(plane.rows), plane.rows, Temporary(m, temporary))
    ensures error.None? ==> Padded(old(plane.rows), plane.rows, m, dp, fields, temporary, padded)
    ensures error in {None, Some(ReadFailed), Some(NotTensor), Some(WriteFailed)}
    ensures NoFaults(faults) && Ready(old(plane.rows), m, dp, fields) ==> error.None?
  {
    error, temporary, padded := None, [], m;
    var count := PadCount(|m.ids|, dp);
    if count > 0 {
      var pad := MakePadding(m, dp, prefix, count, plane.rows);
      error, temporary := PutClones(plane, m, dp, fields, pad, faults);
      if error.None? {
        padded := Concat(m, pad);
      }
    } else {
      NothingToPad(plane.rows, m, dp, fields);
    }
  }

  /** The guarded block: pad, then infer. */
  method PadAndInfer<T>(plane: DataPlane, m: Meta<T>, dp: nat, fields: seq<string>, column: string, score: Row -> Cell,
                        prefix: string, faults: Faults)
    returns (error: Option<Error>, temporary: seq<string>, dispatched: Option<Meta<T>>)
    requires Aligned(m) && m.lengths.Some? && m.lengths.value != [] && dp > 0 && Fresh(plane.rows, m, prefix)
    modifies plane
    ensures Repairable(old(plane.rows), plane.rows, m, Temporary(m, temporary), column)
    ensures dispatched.Some? <==> error in {None, Some(InferenceFailed)}
    ensures dispatched.Some? ==> Dispatched(m, dp, dispatched.value) && dispatched.value.ids == m.ids + temporary
    ensures error.None? ==>
              && Keys(m) <= old(plane.rows.Keys)
              && plane.rows - Temporary(m, temporary) == Enriched(old(plane.rows), Keys(m), column, score)
    ensures error !in {Some(NoLengths), Some(BadSize)}
    ensures NoFaults(faults) && Ready(old(plane.rows), m, dp, fields) ==> error.None?
  {
    ghost var before := plane.rows;
    var padded;
    error, temporary, padded := Pad(plane, m, dp, fields, prefix, faults);
    if error.Some? {
      return error, temporary, None;
    }
    ghost var extended, pads := plane.rows, Temporary(m, temporary);
    var ok := plane.Infer(Keys(padded), column, score, faults.inferenceFails);
    PaddingIsInert(before, extended, Keys(m), pads, Reached(Keys(padded), faults.inferenceFails), column, score);
    if ok {
      BatchWasThere(before, extended, m, pads);
    }
    return if ok then None else Some(InferenceFailed), temporary, Some(padded);
  }

  lemma BatchWasThere<T>(before: Rows, extended: Rows, m: Meta<T>, pads: set<Key>)
    requires Extends(before, extended, pads) && Keys(m) <= extended.Keys && pads !! Keys(m)
    ensures Keys(m) <= before.Keys
  {
  }

  /** Removing temporary rows touches no row that was there before. */
  lemma Repaired<T>(before: Rows, dirty: Rows, m: Meta<T>, temporary: set<Key>, column: string, removed: set<Key>)
    requires Repairable(before, dirty, m, temporary, column) && removed <= temporary
    ensures var after := dirty - removed;
            && before.Keys <= after.Keys <= before.Keys + temporary
            && OnlyColumn(before, after, Keys(m), column)
            && (removed == temporary ==> after.Keys == before.Keys)
            && (forall k :: k in before ==> after[k] == dirty[k])
  {
  }

  /** The temporary rows are what was dispatched beyond the batch. */
  lemma TemporaryIsPadding<T>(m: Meta<T>, dp: nat, d: Meta<T>, temporary: seq<string>)
    requires dp > 0 && Dispatched(m, dp, d) && d.ids == m.ids + temporary
    ensures Temporary(m, temporary) <= Keys(d) - Keys(m)
  {
    forall k | k in Temporary(m, temporary)
      ensures k in Keys(d) - Keys(m)
    {
      var i :| 0 <= i < |temporary| && temporary[i] == k.id;
      assert d.ids[|m.ids| + i] == k.id;
    }
  }

  method EnrichSync<T>(plane: DataPlane, m: Meta<T>, dp: int, fields: seq<string>, column: string, score: Row -> Cell,
                       prefix: string, faults: Faults)
    returns (o: Outcome, dispatched: Option<Meta<T>>)
    requires Aligned(m) && Fresh(plane.rows, m, prefix)
    modifies plane
    // the identifiers are as they were, unless cleanup itself failed
    ensures Clean(o) ==> plane.rows.Keys == old(plane.rows.Keys)
    ensures !Clean(o) ==> faults.cleanupFails.Some? && old(plane.rows.Keys) <= plane.rows.Keys
    ensures OnlyColumn(old(plane.rows), plane.rows, Keys(m), column)
    // a completed call enriched every row of the batch, and nothing else
    ensures o.Completed? ==>
              Keys(m) <= old(plane.rows.Keys) && plane.rows == Enriched(old(plane.rows), Keys(m), column, score)
    ensures o.CleanupFailed? ==> forall k :: k in old(plane.rows) ==>
              plane.rows[k] == Enriched(old(plane.rows), Keys(m), column, score)[k]
    // what the teacher was given
    ensures dispatched.Some? ==> dp > 0 && Dispatched(m, dp, dispatched.value)
    ensures dispatched.Some? ==> forall k :: k in plane.rows && k !in old(plane.rows) ==>
              k in Keys(dispatched.value) - Keys(m)
    ensures o.Completed? || o.CleanupFailed? ==> dispatched.Some?
    // errors
    ensures o == Failed(NoLengths) <==> m.lengths.None? || m.lengths.value == []
    ensures o == Failed(BadSize) <==> m.lengths.Some? && m.lengths.value != [] && dp <= 0
    ensures NoFaults(faults) && Ready(old(plane.rows), m, dp, fields) ==> o.Completed?
  {
    if m.lengths.None? || m.lengths.value == [] {
      return Failed(NoLengths), None;
    }
    if dp <= 0 {
      return Failed(BadSize), None;
    }
    ghost var before := plane.rows;
    var error, temporary;
    error, temporary, dispatched := PadAndInfer(plane, m, dp, fields, column, score, prefix, faults);
    o := if error.None? then Completed else Failed(error.value);
    if temporary != [] {
      ghost var dirty := plane.rows;
      var ok := plane.ClearSamples(Temporary(m, temporary), faults.cleanupFails);
      Repaired(before, dirty, m, Temporary(m, temporary), column,
          Reached(Temporary(m, temporary), faults.cleanupFails));
      if dispatched.Some? {
        TemporaryIsPadding(m, dp, dispatched.value, temporary);
      }
      if !ok {
        o := if error.None? then CleanupFailed else BothFailed(error.value);
      }
    }
  }
}
