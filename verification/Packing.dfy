/** Greedy packing of SFT conversations into fixed-length rows
    (examples/converters/pack_megatron_sft_jsonl.py). */
module Packing {
  import opened Common
  import opened Sequences

  datatype Role = System | User | Assistant | Other(name: string)
  datatype Message = Message(role: Role, content: string)
  type Conversation = seq<Message>

  datatype Error =
    | NonPositiveSize
    | NotMultipleOfGranularity
    | MustStartWithSystem
    | MustEndWithAssistant
    | ZeroTokens

  /** What a generator leaves behind: the rows it yielded and the exception
      that stopped it, if any. */
  datatype Packed = Packed(rows: seq<seq<Message>>, error: Option<Error>)

  // ----- sizes -----

  function Granularity(contextParallel: nat): (g: nat) {
    2 * contextParallel
  }

  /** Tokens a conversation occupies in a row. */
  function SegmentTokens(tokens: nat, contextParallel: nat): (r: nat)
    requires contextParallel >= 1
    ensures tokens <= r
    ensures contextParallel == 1 ==> r == tokens
    ensures contextParallel > 1 ==>
              r % Granularity(contextParallel) == 0 && r < tokens + Granularity(contextParallel)
  {
    var g := Granularity(contextParallel);
    if contextParallel > 1 then RoundUpBounds(tokens, g); (tokens + g - 1) / g * g else tokens
  }

  lemma RoundUpBounds(tokens: nat, g: nat)
    requires g >= 1
    ensures tokens <= (tokens + g - 1) / g * g < tokens + g
    ensures (tokens + g - 1) / g * g % g == 0
  {
    var q := (tokens + g - 1) / g;
    assert tokens + g - 1 == q * g + (tokens + g - 1) % g;
    MultipleRemainder(q, g);
  }

  lemma MultipleRemainder(q: nat, g: nat)
    requires g >= 1
    ensures q * g % g == 0
  {
    var d := q * g / g;
    assert (q - d) * g == q * g % g;
    SmallMultiple(q - d, g);
  }

  lemma SmallMultiple(k: int, g: nat)
    requires 0 <= k * g < g
    ensures k == 0
  {
    assert k * g == g + (k - 1) * g;
  }

  function Load(sizes: seq<nat>): (r: nat) {
    if sizes == [] then 0 else sizes[0] + Load(sizes[1..])
  }

  lemma {:induction false} LoadAppend(a: seq<nat>, b: seq<nat>)
    ensures Load(a + b) == Load(a) + Load(b)
  {
    if a == [] {
      assert a + b == b;
    } else {
      assert (a + b)[1..] == a[1..] + b;
      LoadAppend(a[1..], b);
    }
  }

  lemma LoadOfRange(s: seq<nat>, lo: nat, a: nat, b: nat, hi: nat)
    requires lo <= a <= b <= hi <= |s|
    ensures Load(s[a..b]) <= Load(s[lo..hi])
  {
    assert s[lo..hi] == s[lo..a] + (s[a..b] + s[b..hi]);
    LoadAppend(s[lo..a], s[a..b] + s[b..hi]);
    LoadAppend(s[a..b], s[b..hi]);
  }

  // ----- packings -----

  /** A row may exceed the capacity only when it is a single segment. */
  predicate Fits(group: seq<nat>, capacity: nat) {
    Load(group) <= capacity || |group| <= 1
  }

  /** An order-preserving packing of `sizes`. */
  ghost predicate IsPacking(groups: seq<seq<nat>>, sizes: seq<nat>, capacity: nat) {
    && Flat(groups) == sizes
    && forall i :: 0 <= i < |groups| ==> Fits(groups[i], capacity)
  }

  /** No row could have taken the first segment of the row after it. */
  ghost predicate NeverClosesEarly(groups: seq<seq<nat>>, capacity: nat) {
    && (forall i :: 0 <= i < |groups| ==> groups[i] != [])
    && (forall i :: 0 <= i < |groups| - 1 ==> Load(groups[i]) + groups[i + 1][0] > capacity)
  }

  /** Number of segments in the first k rows. */
  function Covered(groups: seq<seq<nat>>, k: nat): (r: nat)
    requires k <= |groups|
  {
    |Flat(groups[..k])|
  }

  lemma CoveredStep(groups: seq<seq<nat>>, k: nat)
    requires k < |groups|
    ensures Covered(groups, k + 1) == Covered(groups, k) + |groups[k]| <= |Flat(groups)|
    ensures Flat(groups)[Covered(groups, k)..Covered(groups, k + 1)] == groups[k]
  {
    assert groups[..k + 1] == groups[..k] + [groups[k]];
    FlatSnoc(groups[..k], groups[k]);
    assert groups == groups[..k + 1] + groups[k + 1..];
    FlatAppend(groups[..k + 1], groups[k + 1..]);
  }

  lemma CoveredAll(groups: seq<seq<nat>>)
    ensures Covered(groups, |groups|) == |Flat(groups)|
  {
    assert groups[..|groups|] == groups;
  }

  /** A row that starts no later than a greedy row and ends after it holds that
      row and the segment behind it, which is too much. */
  lemma CannotOvertake(greedy: seq<seq<nat>>, sizes: seq<nat>, capacity: nat, k: nat, lo: nat, hi: nat)
    requires IsPacking(greedy, sizes, capacity) && NeverClosesEarly(greedy, capacity)
    requires k + 1 < |greedy|
    requires lo <= Covered(greedy, k) <= Covered(greedy, k + 1) < hi <= |sizes|
    ensures !Fits(sizes[lo..hi], capacity)
  {
    CoveredStep(greedy, k);
    CoveredStep(greedy, k + 1);
    var a, b := Covered(greedy, k), Covered(greedy, k + 1);
    assert sizes[b] == greedy[k + 1][0];
    assert sizes[a..b + 1] == greedy[k] + [sizes[b]];
    LoadAppend(greedy[k], [sizes[b]]);
    LoadOfRange(sizes, lo, a, b + 1, hi);
  }

  /** Greedy stays ahead: after k rows it has placed at least as many segments
      as any other packing. */
  lemma {:induction false} StaysAhead(greedy: seq<seq<nat>>, other: seq<seq<nat>>, sizes: seq<nat>, capacity: nat,
                                      k: nat)
    requires IsPacking(greedy, sizes, capacity) && NeverClosesEarly(greedy, capacity)
    requires IsPacking(other, sizes, capacity)
    requires k <= |greedy| && k <= |other|
    ensures Covered(greedy, k) >= Covered(other, k)
  {
    if k > 0 {
      StaysAhead(greedy, other, sizes, capacity, k - 1);
      CoveredStep(other, k - 1);
      if k == |greedy| {
        CoveredAll(greedy);
      } else if Covered(greedy, k) < Covered(other, k) {
        assert Fits(other[k - 1], capacity);
        CoveredStep(greedy, k - 1);
        CannotOvertake(greedy, sizes, capacity, k - 1, Covered(other, k - 1), Covered(other, k));
      }
    }
  }

  /** The greedy rows are the fewest possible. */
  lemma GreedyIsOptimal(greedy: seq<seq<nat>>, other: seq<seq<nat>>, sizes: seq<nat>, capacity: nat)
    requires IsPacking(greedy, sizes, capacity) && NeverClosesEarly(greedy, capacity)
    requires IsPacking(other, sizes, capacity)
    ensures |greedy| <= |other|
  {
    if |greedy| > |other| {
      StaysAhead(greedy, other, sizes, capacity, |other|);
      CoveredAll(other);
      CoveredStep(greedy, |other|);
    }
  }

  // ----- what the packer maintains -----

  function Sizes<T>(size: T -> nat, items: seq<T>): (r: seq<nat>)
    ensures |r| == |items|
  {
    seq(|items|, i requires 0 <= i < |items| => size(items[i]))
  }

  /** The segment sizes of a grouping. */
  function GroupSizes<T>(size: T -> nat, groups: seq<seq<T>>): (r: seq<seq<nat>>)
    ensures |r| == |groups|
  {
    seq(|groups|, i requires 0 <= i < |groups| => Sizes(size, groups[i]))
  }

  function JoinAll<M>(groups: seq<seq<seq<M>>>): (rows: seq<seq<M>>)
    ensures |rows| == |groups|
  {
    seq(|groups|, i requires 0 <= i < |groups| => Flat(groups[i]))
  }

  lemma {:induction false} SizesOfFlat<T>(size: T -> nat, groups: seq<seq<T>>)
    ensures Flat(GroupSizes(size, groups)) == Sizes(size, Flat(groups))
  {
    if groups != [] {
      SizesOfFlat(size, groups[1..]);
      assert GroupSizes(size, groups)[1..] == GroupSizes(size, groups[1..]);
    }
  }

  /** `groups` packs `items` in order, within capacity, and never closes a row
      that could still take the next item. */
  ghost predicate GreedyGrouping<T>(size: T -> nat, capacity: nat, groups: seq<seq<T>>, items: seq<T>) {
    var sizes := GroupSizes(size, groups);
    && Flat(groups) == items
    && IsPacking(sizes, Sizes(size, items), capacity)
    && NeverClosesEarly(sizes, capacity)
  }

  ghost predicate Greedy<T>(size: T -> nat, capacity: nat, closed: seq<seq<T>>) {
    var sizes := GroupSizes(size, closed);
    && (forall i :: 0 <= i < |closed| ==> Fits(sizes[i], capacity))
    && NeverClosesEarly(sizes, capacity)
  }

  /** The last emitted row has no room for `n` more tokens. */
  ghost predicate Blocks<T>(size: T -> nat, capacity: nat, closed: seq<seq<T>>, n: nat) {
    closed != [] ==> Load(Sizes(size, closed[|closed| - 1])) + n > capacity
  }

  /** The state between two items: rows emitted, and the row still open. */
  ghost predicate Between<T>(size: T -> nat, capacity: nat, closed: seq<seq<T>>, open: seq<T>, done: seq<T>) {
    && Greedy(size, capacity, closed)
    && Flat(closed) + open == done
    && Load(Sizes(size, open)) < capacity
    && Blocks(size, capacity, closed, if open == [] then 1 else size(open[0]))
  }

  /** The state when an item of `n` tokens is about to be placed: it can only go
      into the open row, and there it either fits or starts the row. */
  ghost predicate Ready<T>(size: T -> nat, capacity: nat, closed: seq<seq<T>>, open: seq<T>, done: seq<T>, n: nat) {
    && Greedy(size, capacity, closed)
    && Flat(closed) + open == done
    && Blocks(size, capacity, closed, if open == [] then n else size(open[0]))
    && (open != [] ==> Load(Sizes(size, open)) + n <= capacity)
  }

  lemma SnocSizes<T>(size: T -> nat, open: seq<T>, c: T)
    ensures Sizes(size, open + [c]) == Sizes(size, open) + [size(c)]
    ensures Load(Sizes(size, open + [c])) == Load(Sizes(size, open)) + size(c)
  {
    assert Sizes(size, open + [c]) == Sizes(size, open) + [size(c)];
    LoadAppend(Sizes(size, open), [size(c)]);
  }

  /** Emitting a row keeps the emitted rows greedy, provided its first item did
      not fit into the row before. */
  lemma CloseRow<T>(size: T -> nat, capacity: nat, closed: seq<seq<T>>, row: seq<T>)
    requires row != []
    requires Greedy(size, capacity, closed) && Blocks(size, capacity, closed, size(row[0]))
    requires Fits(Sizes(size, row), capacity)
    ensures Greedy(size, capacity, closed + [row])
    ensures Flat(closed + [row]) == Flat(closed) + row
  {
    FlatSnoc(closed, row);
    assert GroupSizes(size, closed + [row]) == GroupSizes(size, closed) + [Sizes(size, row)];
    if closed != [] {
      assert GroupSizes(size, closed)[|closed| - 1] == Sizes(size, closed[|closed| - 1]);
    }
  }

  /** Emitting the open row makes room for an item that did not fit. */
  lemma Flush<T>(size: T -> nat, capacity: nat, closed: seq<seq<T>>, open: seq<T>, done: seq<T>, n: nat)
    requires Between(size, capacity, closed, open, done)
    requires open != [] && Load(Sizes(size, open)) + n > capacity
    ensures Ready(size, capacity, closed + [open], [], done, n)
  {
    CloseRow(size, capacity, closed, open);
  }

  lemma Oversized<T>(size: T -> nat, capacity: nat, closed: seq<seq<T>>, open: seq<T>, done: seq<T>, c: T)
    requires size(c) > capacity && Ready(size, capacity, closed, open, done, size(c))
    requires capacity > 0
    ensures open == [] && Between(size, capacity, closed + [[c]], [], done + [c])
  {
    SnocSizes(size, [], c);
    assert [] + [c] == [c];
    CloseRow(size, capacity, closed, [c]);
    assert (closed + [[c]])[|closed|] == [c];
  }

  lemma Extend<T>(size: T -> nat, capacity: nat, closed: seq<seq<T>>, open: seq<T>, done: seq<T>, c: T)
    requires size(c) <= capacity && Ready(size, capacity, closed, open, done, size(c))
    requires capacity > 0
    ensures var row := open + [c];
            && Load(Sizes(size, row)) == Load(Sizes(size, open)) + size(c) <= capacity
            && (Load(Sizes(size, row)) < capacity ==> Between(size, capacity, closed, row, done + [c]))
            && (Load(Sizes(size, row)) == capacity ==> Between(size, capacity, closed + [row], [], done + [c]))
  {
    var row := open + [c];
    SnocSizes(size, open, c);
    if Load(Sizes(size, row)) == capacity {
      CloseRow(size, capacity, closed, row);
      assert (closed + [row])[|closed|] == row;
    }
  }

  lemma Finish<T>(size: T -> nat, capacity: nat, groups: seq<seq<T>>)
    requires Greedy(size, capacity, groups)
    ensures GreedyGrouping(size, capacity, groups, Flat(groups))
  {
    SizesOfFlat(size, groups);
  }

  lemma JoinSnoc<M>(groups: seq<seq<seq<M>>>, row: seq<seq<M>>)
    ensures JoinAll(groups + [row]) == JoinAll(groups) + [Flat(row)]
  {
  }

  // ----- the packer -----

  datatype Params = Params(maxSeqLength: int, contextParallel: int, count: Conversation -> nat)

  function ParamError(p: Params): (e: Option<Error>) {
    if p.maxSeqLength < 1 || p.contextParallel < 1 then Some(NonPositiveSize)
    else if p.contextParallel > 1 && p.maxSeqLength % Granularity(p.contextParallel) != 0
    then Some(NotMultipleOfGranularity)
    else None
  }

  function ConversationError(p: Params, c: Conversation): (e: Option<Error>) {
    if c == [] || c[0].role != System then Some(MustStartWithSystem)
    else if c[|c| - 1].role != Assistant then Some(MustEndWithAssistant)
    else if p.count(c) == 0 then Some(ZeroTokens)
    else None
  }

  /** Tokens each conversation takes up in a row. */
  function SizeOf(p: Params): (size: Conversation -> nat)
    requires p.contextParallel >= 1
  {
    (c: Conversation) => SegmentTokens(p.count(c), p.contextParallel)
  }

  /** The rows yielded and the open row, as seen by the specification. */
  ghost predicate Tracks(p: Params, rows: seq<seq<Message>>, row: seq<Message>, rowTokens: nat,
                         groups: seq<seq<Conversation>>, open: seq<Conversation>, done: seq<Conversation>)
    requires ParamError(p).None?
  {
    && Between(SizeOf(p), p.maxSeqLength, groups, open, done)
    && rows == JoinAll(groups) && row == Flat(open) && rowTokens == Load(Sizes(SizeOf(p), open))
    && (row == [] <==> open == [])
  }

  /** One turn of the loop, for a conversation that passed the checks. */
  method Place(p: Params, c: Conversation, rows0: seq<seq<Message>>, row0: seq<Message>, rowTokens0: nat,
               ghost groups0: seq<seq<Conversation>>, ghost open0: seq<Conversation>, ghost done: seq<Conversation>)
    returns (rows: seq<seq<Message>>, row: seq<Message>, rowTokens: nat,
             ghost groups: seq<seq<Conversation>>, ghost open: seq<Conversation>)
    requires ParamError(p).None? && ConversationError(p, c).None?
    requires Tracks(p, rows0, row0, rowTokens0, groups0, open0, done)
    ensures Tracks(p, rows, row, rowTokens, groups, open, done + [c])
  {
    ghost var size := SizeOf(p);
    rows, row, rowTokens, groups, open := rows0, row0, rowTokens0, groups0, open0;
    var segment := SegmentTokens(p.count(c), p.contextParallel);
    assert segment == size(c);
    if row != [] && rowTokens + segment > p.maxSeqLength {
      Flush(size, p.maxSeqLength, groups, open, done, segment);
      JoinSnoc(groups, open);
      groups, open := groups + [open], [];
      rows, row, rowTokens := rows + [row], [], 0;
    }
    assert Ready(size, p.maxSeqLength, groups, open, done, segment);
    if segment > p.maxSeqLength {
      Oversized(size, p.maxSeqLength, groups, open, done, c);
      JoinSnoc(groups, [c]);
      assert Flat([c]) == c;
      groups, rows := groups + [[c]], rows + [c];
    } else {
      Extend(size, p.maxSeqLength, groups, open, done, c);
      FlatSnoc(open, c);
      open, row, rowTokens := open + [c], row + c, rowTokens + segment;
      if rowTokens == p.maxSeqLength {
        JoinSnoc(groups, open);
        groups, open := groups + [open], [];
        rows, row, rowTokens := rows + [row], [], 0;
      }
    }
  }

  /** All conversations before `accepted` pass the checks, and the next one does not. */
  ghost predicate Accepts(p: Params, conversations: seq<Conversation>) {
    forall i :: 0 <= i < |conversations| ==> ConversationError(p, conversations[i]).None?
  }

  lemma AcceptsNext(p: Params, conversations: seq<Conversation>, n: nat)
    requires n < |conversations| && Accepts(p, conversations[..n]) && ConversationError(p, conversations[n]).None?
    ensures conversations[..n + 1] == conversations[..n] + [conversations[n]] && Accepts(p, conversations[..n + 1])
  {
  }

  ghost predicate StoppedAt(p: Params, conversations: seq<Conversation>, error: Option<Error>, accepted: nat) {
    && accepted <= |conversations| && Accepts(p, conversations[..accepted])
    && error == (if accepted < |conversations| then ConversationError(p, conversations[accepted]) else None)
    && (accepted < |conversations| ==> error.Some?)
  }

  /** The rows are the greedy grouping of a prefix of the conversations. */
  ghost predicate RowsOf(p: Params, conversations: seq<Conversation>, rows: seq<seq<Message>>,
                         groups: seq<seq<Conversation>>)
    requires ParamError(p).None?
  {
    && rows == JoinAll(groups)
    && Flat(groups) <= conversations
    && GreedyGrouping(SizeOf(p), p.maxSeqLength, groups, Flat(groups))
  }

  /** Nothing is lost or reordered, and no order-preserving packing of the same
      conversations has fewer rows. */
  ghost predicate OptimalRows(p: Params, conversations: seq<Conversation>, rows: seq<seq<Message>>)
    requires ParamError(p).None?
  {
    && Flat(rows) == Flat(conversations)
    && forall other :: IsPacking(other, Sizes(SizeOf(p), conversations), p.maxSeqLength) ==> |rows| <= |other|
  }

  /** The rows closed so far are rows of what was accepted. */
  lemma StopHere(p: Params, rows: seq<seq<Message>>, row: seq<Message>, rowTokens: nat,
                 groups: seq<seq<Conversation>>, open: seq<Conversation>, done: seq<Conversation>)
    requires ParamError(p).None? && Tracks(p, rows, row, rowTokens, groups, open, done)
    ensures RowsOf(p, done, rows, groups)
  {
    Finish(SizeOf(p), p.maxSeqLength, groups);
  }

  /** With the open row closed, the rows are an optimal packing. */
  lemma CloseLast(p: Params, rows: seq<seq<Message>>, row: seq<Message>, rowTokens: nat,
                  groups: seq<seq<Conversation>>, open: seq<Conversation>, done: seq<Conversation>)
    requires ParamError(p).None? && Tracks(p, rows, row, rowTokens, groups, open, done)
    ensures var all := if row != [] then rows + [row] else rows;
            var closed := if row != [] then groups + [open] else groups;
            RowsOf(p, done, all, closed) && OptimalRows(p, done, all)
  {
    var closed := if row != [] then groups + [open] else groups;
    if row != [] {
      CloseRow(SizeOf(p), p.maxSeqLength, groups, open);
      JoinSnoc(groups, open);
    }
    Finish(SizeOf(p), p.maxSeqLength, closed);
    GroupingIsOptimal(p, closed, done);
  }

  /** The loop over conversations, up to the first that is rejected. */
  method PlaceAll(p: Params, conversations: seq<Conversation>)
    returns (rows: seq<seq<Message>>, row: seq<Message>, error: Option<Error>,
             ghost rowTokens: nat, ghost groups: seq<seq<Conversation>>, ghost open: seq<Conversation>,
             ghost accepted: nat)
    requires ParamError(p).None?
    ensures StoppedAt(p, conversations, error, accepted)
    ensures Tracks(p, rows, row, rowTokens, groups, open, conversations[..accepted])
  {
    rows, row, groups, open := [], [], [], [];
    var tokens, n := 0, 0;
    while n < |conversations|
      invariant 0 <= n <= |conversations| && Accepts(p, conversations[..n])
      invariant Tracks(p, rows, row, tokens, groups, open, conversations[..n])
    {
      error := ConversationError(p, conversations[n]);
      if error.Some? {
        rowTokens, accepted := tokens, n;
        return;
      }
      AcceptsNext(p, conversations, n);
      rows, row, tokens, groups, open :=
        Place(p, conversations[n], rows, row, tokens, groups, open, conversations[..n]);
      n := n + 1;
    }
    error, rowTokens, accepted := None, tokens, n;
  }

  /** The generator. A rejected conversation stops it after the rows already
      yielded; the open row is then lost. */
  method PackConversations(p: Params, conversations: seq<Conversation>)
    returns (out: Packed, ghost groups: seq<seq<Conversation>>, ghost accepted: nat)
    ensures ParamError(p).Some? ==> out == Packed([], ParamError(p))
    ensures ParamError(p).None? ==> StoppedAt(p, conversations, out.error, accepted)
    ensures ParamError(p).None? ==> RowsOf(p, conversations[..accepted], out.rows, groups)
    ensures ParamError(p).None? && out.error.None? ==> OptimalRows(p, conversations, out.rows)
  {
    if ParamError(p).Some? {
      return Packed([], ParamError(p)), [], 0;
    }
    var rows, row, error;
    ghost var rowTokens, open;
    rows, row, error, rowTokens, groups, open, accepted := PlaceAll(p, conversations);
    if error.Some? {
      StopHere(p, rows, row, rowTokens, groups, open, conversations[..accepted]);
      return Packed(rows, error), groups, accepted;
    }
    assert conversations[..accepted] == conversations;
    CloseLast(p, rows, row, rowTokens, groups, open, conversations);
    if row != [] {
      groups, rows := groups + [open], rows + [row];
    }
    out := Packed(rows, None);
  }

  lemma GroupingIsOptimal(p: Params, groups: seq<seq<Conversation>>, conversations: seq<Conversation>)
    requires ParamError(p).None?
    requires GreedyGrouping(SizeOf(p), p.maxSeqLength, groups, conversations)
    ensures OptimalRows(p, conversations, JoinAll(groups))
  {
    JoinIsFlat(groups);
    forall other | IsPacking(other, Sizes(SizeOf(p), conversations), p.maxSeqLength)
      ensures |groups| <= |other|
    {
      GreedyIsOptimal(GroupSizes(SizeOf(p), groups), other, Sizes(SizeOf(p), conversations), p.maxSeqLength);
    }
  }

  lemma {:induction false} JoinIsFlat(groups: seq<seq<Conversation>>)
    ensures Flat(JoinAll(groups)) == Flat(Flat(groups))
  {
    if groups != [] {
      JoinIsFlat(groups[1..]);
      assert JoinAll(groups)[1..] == JoinAll(groups[1..]);
      FlatAppend(groups[0], Flat(groups[1..]));
    }
  }

  // ----- reading a row back -----

  /** One system message, in front. */
  predicate OneSystem(c: Conversation) {
    && c != [] && c[0].role == System
    && forall i :: 1 <= i < |c| ==> c[i].role != System
  }

  /** Segments of a row given the messages of the segment being read. */
  function SplitFrom(current: Conversation, row: seq<Message>): (r: seq<Conversation>)
    decreases |row|
  {
    if row == [] then (if current == [] then [] else [current])
    else if row[0].role == System
    then (if current == [] then [] else [current]) + SplitFrom([row[0]], row[1..])
    else SplitFrom(current + [row[0]], row[1..])
  }

  /** Cut a row wherever a system message begins. */
  method SplitRow(row: seq<Message>) returns (conversations: seq<Conversation>)
    ensures conversations == SplitFrom([], row)
  {
    conversations := [];
    var current: Conversation := [];
    for i := 0 to |row|
      invariant conversations + SplitFrom(current, row[i..]) == SplitFrom([], row)
    {
      if row[i].role == System {
        if current != [] {
          conversations := conversations + [current];
        }
        current := [row[i]];
      } else {
        current := current + [row[i]];
      }
    }
    if current != [] {
      conversations := conversations + [current];
    }
  }

  lemma {:induction false} SplitTail(current: Conversation, rest: seq<Message>, tail: seq<Message>)
    requires forall i :: 0 <= i < |rest| ==> rest[i].role != System
    ensures SplitFrom(current, rest + tail) == SplitFrom(current + rest, tail)
    decreases |rest|
  {
    if rest == [] {
      assert rest + tail == tail && current + rest == current;
    } else {
      assert (rest + tail)[1..] == rest[1..] + tail;
      SplitTail(current + [rest[0]], rest[1..], tail);
      assert current + [rest[0]] + rest[1..] == current + rest;
    }
  }

  lemma SplitHead(current: Conversation, c: Conversation, tail: seq<Message>)
    requires OneSystem(c)
    ensures SplitFrom(current, c + tail) == (if current == [] then [] else [current]) + SplitFrom(c, tail)
  {
    assert (c + tail)[1..] == c[1..] + tail;
    SplitTail([c[0]], c[1..], tail);
    assert [c[0]] + c[1..] == c;
  }

  lemma {:induction false} SplitAfter(current: Conversation, group: seq<Conversation>)
    requires forall i :: 0 <= i < |group| ==> OneSystem(group[i])
    ensures SplitFrom(current, Flat(group)) == (if current == [] then [] else [current]) + group
    decreases |group|
  {
    if group != [] {
      SplitHead(current, group[0], Flat(group[1..]));
      SplitAfter(group[0], group[1..]);
    }
  }

  /** Splitting a packed row gives back the conversations packed into it. */
  lemma SplitRecovers(group: seq<Conversation>)
    requires forall i :: 0 <= i < |group| ==> OneSystem(group[i])
    ensures SplitFrom([], Flat(group)) == group
  {
    SplitAfter([], group);
  }
}
