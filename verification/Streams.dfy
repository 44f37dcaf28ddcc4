/**
 Streams: ordered logs of entries (`src/main.rs:56`, `265-303`, `784-843` and
 `src/command.rs:10-86`). The `BTreeMap` is the sequence of its entries in key order.
 */
module Streams {
  import opened Types
  import opened Decimal
  import opened Parser

  datatype StreamId = StreamId(ms: u64, seqNo: u64)

  const MAX_U64: u64 := U64_LIMIT - 1

  predicate Before(a: StreamId, b: StreamId) {
    a.ms < b.ms || (a.ms == b.ms && a.seqNo < b.seqNo)
  }

  datatype Entry = Entry(id: StreamId, fields: seq<Bytes>)

  type RedisStream = seq<Entry>

  ghost predicate Ascending(s: RedisStream) {
    forall i, j :: 0 <= i < j < |s| ==> Before(s[i].id, s[j].id)
  }

  /** `last_key_value`. */
  function LastId(s: RedisStream): Option<StreamId> {
    if s == [] then None else Some(s[|s| - 1].id)
  }

  predicate HasId(s: RedisStream, id: StreamId) {
    exists i :: 0 <= i < |s| && s[i].id == id
  }

  /** `BTreeMap::insert`. */
  function Insert(s: RedisStream, id: StreamId, fields: seq<Bytes>): RedisStream {
    if s == [] then [Entry(id, fields)]
    else
      var last := s[|s| - 1];
      if Before(last.id, id) then s + [Entry(id, fields)]
      else if last.id == id then s[..|s| - 1] + [Entry(id, fields)]
      else Insert(s[..|s| - 1], id, fields) + [last]
  }

  /** `range((Excluded(id), Unbounded))`. */
  function Above(s: RedisStream, id: StreamId): RedisStream {
    if s == [] then []
    else
      var last := s[|s| - 1];
      Above(s[..|s| - 1], id) + if Before(id, last.id) then [last] else []
  }

  // ------------------------------------------------------------------------------ ids

  datatype XaddId = Explicit(id: StreamId) | AutoSeq(ms: u64) | Auto

  datatype XreadId = After(id: StreamId) | Latest

  const DASH: byte := 45
  const ASTERISK: byte := 42
  const DOLLAR_SIGN: byte := 36

  function IdText(id: StreamId): Bytes {
    IntText(id.ms) + [DASH] + IntText(id.seqNo)
  }

  function ReadU64(input: Bytes): ParseResult<u64> {
    var (n, rest) :- Integer(0, U64_LIMIT, input);
    if 0 <= n < U64_LIMIT then Ok(n, rest) else Err
  }

  function ReadFullId(input: Bytes): ParseResult<StreamId> {
    var (ms, rest) :- ReadU64(input);
    var (_, rest) :- ReadByte(DASH, rest);
    var (seqNo, rest) :- ReadU64(rest);
    Ok(StreamId(ms, seqNo), rest)
  }

  function ReadStarId(input: Bytes): ParseResult<u64> {
    var (ms, rest) :- ReadU64(input);
    var (_, rest) :- ReadByte(DASH, rest);
    var (_, rest) :- ReadByte(ASTERISK, rest);
    Ok(ms, rest)
  }

  /** `parse_input_stream_id`: trailing bytes are ignored. */
  function ParseXaddId(text: Bytes): Option<XaddId> {
    match ReadFullId(text)
    case Ok(id, _) => Some(Explicit(id))
    case _ =>
      match ReadStarId(text)
      case Ok(ms, _) => Some(AutoSeq(ms))
      case _ => if ReadByte(ASTERISK, text).Ok? then Some(Auto) else None
  }

  /** `parse_xread_stream_id_input`. */
  function ParseXreadId(text: Bytes): Option<XreadId> {
    match ReadFullId(text)
    case Ok(id, _) => Some(After(id))
    case _ => if ReadByte(DOLLAR_SIGN, text).Ok? then Some(Latest) else None
  }

  /** The id of a row sent to a client is an id the client can send back. */
  lemma IdTextRoundTrip(id: StreamId)
    ensures ParseXreadId(IdText(id)) == Some(After(id))
    ensures ParseXaddId(IdText(id)) == Some(Explicit(id))
  {
    hide Integer, IntText;
    var tail := [DASH] + IntText(id.seqNo);
    assert IdText(id) == IntText(id.ms) + tail;
    IntegerRoundTrip(id.ms, 0, U64_LIMIT, tail);
    assert tail[1..] == IntText(id.seqNo) + [];
    IntegerRoundTrip(id.seqNo, 0, U64_LIMIT, []);
  }

  /** `next_stream_id`. `orig_sid + 1` wraps around at 64 bits. */
  function NextStreamId(input: XaddId, s: RedisStream, now: u64): Option<StreamId> {
    match input
    case Explicit(id) => Some(id)
    case AutoSeq(ms) =>
      (match LastId(s)
       case Some(last) =>
         if ms > last.ms then Some(StreamId(ms, 0))
         else if ms == last.ms then Some(StreamId(ms, WrapU64(last.seqNo + 1)))
         else None
       case None => if ms == 0 then Some(StreamId(ms, 1)) else Some(StreamId(ms, 0)))
    case Auto =>
      match LastId(s)
      case Some(last) =>
        if last.ms < now then Some(StreamId(now, 0))
        else if last.ms == now then Some(StreamId(now, WrapU64(last.seqNo + 1)))
        else None
      case None => Some(StreamId(now, 0))
  }

  datatype Verdict = Accepted(id: StreamId) | NotAboveZero | NotAboveLast

  /** The checks XADD makes on the next id, in order. */
  function Judge(input: XaddId, s: RedisStream, now: u64): Verdict {
    match NextStreamId(input, s, now)
    case None => NotAboveZero
    case Some(id) =>
      if Before(id, StreamId(0, 1)) then NotAboveZero
      else if HasId(s, id) then NotAboveLast
      else if LastId(s).Some? && Before(id, LastId(s).value) then NotAboveLast
      else Accepted(id)
  }

  /** An id a new entry can have: above 0-0 and above every entry, milliseconds first. */
  ghost predicate Fits(s: RedisStream, id: StreamId) {
    && (id.ms > 0 || id.seqNo > 0)
    && forall e :: e in s ==> e.id.ms < id.ms || (e.id.ms == id.ms && e.id.seqNo < id.seqNo)
  }

  /** The least id with its time that fits. */
  ghost predicate LeastFit(s: RedisStream, id: StreamId) {
    Fits(s, id) && forall q: u64 :: Fits(s, StreamId(id.ms, q)) ==> id.seqNo <= q
  }

  /** The id XADD is to give an entry: the one asked for, or the least one with the time asked for, which for `*` is the
      clock. The one exception is `*` at time 0 in an empty stream, which is refused. */
  ghost predicate Chosen(input: XaddId, s: RedisStream, now: u64, id: StreamId) {
    match input
    case Explicit(asked) => id == asked && Fits(s, id)
    case AutoSeq(ms) => id.ms == ms && LeastFit(s, id)
    case Auto => id.ms == now && LeastFit(s, id) && (s != [] || now > 0)
  }

  /** In an ordered stream only the last entry matters. */
  lemma FitsIff(s: RedisStream, id: StreamId)
    requires Ascending(s)
    ensures Fits(s, id) <==> id != StreamId(0, 0) && (s == [] || Before(s[|s| - 1].id, id))
  {
    if s != [] {
      var last := s[|s| - 1];
      assert last in s;
      if Before(last.id, id) {
        forall e | e in s ensures Before(e.id, id) {
          var i :| 0 <= i < |s| && s[i] == e;
          assert i == |s| - 1 || Before(s[i].id, last.id);
        }
      }
    }
  }

  /** The checks of XADD let an id pass exactly if it fits. */
  lemma ChecksMean(input: XaddId, s: RedisStream, now: u64, id: StreamId)
    requires Ascending(s)
    ensures Judge(input, s, now) == Accepted(id) <==> NextStreamId(input, s, now) == Some(id) && Fits(s, id)
  {
    hide NextStreamId, Fits;
    FitsIff(s, id);
    if HasId(s, id) {
      var i :| 0 <= i < |s| && s[i].id == id;
      assert i == |s| - 1 || Before(s[i].id, s[|s| - 1].id);
    }
  }

  /** The least fitting id with a given time, if there is one. */
  lemma LeastFitIs(s: RedisStream, ms: u64, id: StreamId)
    requires Ascending(s) && id.ms == ms
    ensures LeastFit(s, id) <==>
      if s == [] then id.seqNo == (if ms == 0 then 1 else 0)
      else
        var last := s[|s| - 1].id;
        if last.ms < ms then id.seqNo == 0
        else last.ms == ms && id.seqNo == last.seqNo + 1
  {
    hide Fits, Ascending;
    forall q: u64 ensures Fits(s, StreamId(ms, q)) <==>
      StreamId(ms, q) != StreamId(0, 0) && (s == [] || Before(s[|s| - 1].id, StreamId(ms, q)))
    {
      FitsIff(s, StreamId(ms, q));
    }
    assert id == StreamId(ms, id.seqNo);
    if s == [] {
      assert Fits(s, StreamId(ms, 1));
      assert ms > 0 ==> Fits(s, StreamId(ms, 0));
    } else {
      var last := s[|s| - 1].id;
      if last.ms < ms {
        assert Fits(s, StreamId(ms, 0));
      } else if last.ms == ms && last.seqNo < MAX_U64 {
        assert Fits(s, StreamId(ms, last.seqNo + 1));
      }
    }
  }

  /** Every form of id and every clock: XADD takes exactly the chosen id. */
  lemma AcceptedIffChosen(input: XaddId, s: RedisStream, now: u64, id: StreamId)
    requires Ascending(s)
    ensures Judge(input, s, now) == Accepted(id) <==> Chosen(input, s, now, id)
  {
    hide Fits, LeastFit, Judge, Ascending;
    ChecksMean(input, s, now, id);
    FitsIff(s, id);
    if !input.Explicit? {
      LeastFitIs(s, id.ms, id);
    }
  }

  /** No fitting id could be computed because the time asked for is past, or only 0-0 was left. */
  predicate AsksForZero(input: XaddId, s: RedisStream, now: u64) {
    match input
    case Explicit(id) => id == StreamId(0, 0)
    case AutoSeq(ms) => ms == 0 || (s != [] && ms < s[|s| - 1].id.ms)
    case Auto => now == 0 || (s != [] && now < s[|s| - 1].id.ms)
  }

  /** When XADD refuses, and with which of its two errors: an id that is asked for, if it does not fit; an id with an
      automatic sequence number, if no id with that time fits; and `*` also at time 0 in an empty stream. */
  lemma RefusedIff(input: XaddId, s: RedisStream, now: u64)
    requires Ascending(s)
    ensures
      !Judge(input, s, now).Accepted? <==>
      match input
      case Explicit(id) => !Fits(s, id)
      case AutoSeq(ms) => forall q: u64 :: !Fits(s, StreamId(ms, q))
      case Auto => (forall q: u64 :: !Fits(s, StreamId(now, q))) || (s == [] && now == 0)
    ensures !Judge(input, s, now).Accepted? ==>
      Judge(input, s, now) == if AsksForZero(input, s, now) then NotAboveZero else NotAboveLast
  {
    hide Fits;
    match input {
      case Explicit(id) => FitsIff(s, id);
      case AutoSeq(ms) => RefusedAtTime(s, ms);
      case Auto => RefusedAtTime(s, now);
    }
    LastIdIsThere(s);
  }

  lemma LastIdIsThere(s: RedisStream)
    requires Ascending(s)
    ensures s != [] ==> HasId(s, s[|s| - 1].id) && forall id :: HasId(s, id) ==> !Before(s[|s| - 1].id, id)
  {
  }

  lemma RefusedAtTime(s: RedisStream, ms: u64)
    requires Ascending(s)
    ensures (forall q: u64 :: !Fits(s, StreamId(ms, q))) <==>
            s != [] && (ms < s[|s| - 1].id.ms || (ms == s[|s| - 1].id.ms && s[|s| - 1].id.seqNo == MAX_U64))
  {
    hide Fits, Ascending;
    FitsIff(s, StreamId(ms, MAX_U64));
    forall q: u64 { FitsIff(s, StreamId(ms, q)); }
  }

  /** With the clock at or past the last entry, an automatic id is refused only if the sequence
      number of an entry of this very millisecond has reached its maximum, or in an empty stream at time 0. */
  lemma AutoIdAcceptedIff(s: RedisStream, now: u64)
    requires Ascending(s)
    ensures Judge(Auto, s, now).Accepted? <==>
      match LastId(s)
      case None => now > 0
      case Some(last) => last.ms < now || (last.ms == now && last.seqNo < MAX_U64)
  {
    match NextStreamId(Auto, s, now) {
      case None =>
      case Some(id) =>
        ChecksMean(Auto, s, now, id);
        if s != [] {
          assert s[|s| - 1] in s;
          forall e | e in s ensures e.id == s[|s| - 1].id || Before(e.id, s[|s| - 1].id) {
            var i :| 0 <= i < |s| && s[i] == e;
          }
        }
    }
  }

  /** An accepted entry goes to the end and leaves the others untouched. */
  lemma AcceptedAppends(input: XaddId, s: RedisStream, now: u64, fields: seq<Bytes>)
    requires Ascending(s) && Judge(input, s, now).Accepted?
    ensures
      var id := Judge(input, s, now).id;
      Insert(s, id, fields) == s + [Entry(id, fields)] && Ascending(s + [Entry(id, fields)])
  {
    var id := Judge(input, s, now).id;
    ChecksMean(input, s, now, id);
    if s != [] {
      assert s[|s| - 1] in s;
    }
    var t := s + [Entry(id, fields)];
    forall i, j | 0 <= i < j < |t| ensures Before(t[i].id, t[j].id) {
      if j == |s| {
        assert s[i] in s;
      }
    }
  }

  // -------------------------------------------------------------------------- reading

  lemma {:induction false} AboveConcat(a: RedisStream, b: RedisStream, id: StreamId)
    ensures Above(a + b, id) == Above(a, id) + Above(b, id)
  {
    if b == [] {
      assert a + b == a;
    } else {
      assert (a + b)[..|a + b| - 1] == a + b[..|b| - 1];
      AboveConcat(a, b[..|b| - 1], id);
    }
  }

  lemma {:induction false} AboveAllOrNothing(s: RedisStream, id: StreamId)
    ensures (forall e :: e in s ==> Before(id, e.id)) ==> Above(s, id) == s
    ensures (forall e :: e in s ==> !Before(id, e.id)) ==> Above(s, id) == []
  {
    if s != [] {
      var front := s[..|s| - 1];
      assert s == front + [s[|s| - 1]];
      AboveAllOrNothing(front, id);
    }
  }

  /** The id a client passes next: the last one it received, or the same again. */
  function Cursor(start: StreamId, got: RedisStream): StreamId {
    if got == [] then start else got[|got| - 1].id
  }

  /** Reading twice while the stream grows gives what one later read would have given. */
  lemma ReadThenRead(a: RedisStream, more: RedisStream, start: StreamId)
    requires Ascending(a + more)
    ensures Above(a, start) + Above(a + more, Cursor(start, Above(a, start))) == Above(a + more, start)
  {
    hide Above;
    var next := Cursor(start, Above(a, start));
    AboveConcat(a, more, start);
    AboveConcat(a, more, next);
    FrontAscends(a, more);
    CursorCovers(a, start);
    AboveAllOrNothing(a, next);
    assert Above(a + more, next) == Above(more, next) by {
      assert [] + Above(more, next) == Above(more, next);
    }
    if Above(a, start) != [] {
      LaterIsAbove(a, more, start);
      AboveAllOrNothing(more, start);
      AboveAllOrNothing(more, next);
    }
  }

  lemma FrontAscends(a: RedisStream, more: RedisStream)
    requires Ascending(a + more)
    ensures Ascending(a)
  {
    forall i, j | 0 <= i < j < |a| ensures Before(a[i].id, a[j].id) {
      assert (a + more)[i] == a[i] && (a + more)[j] == a[j];
    }
  }

  /** Entries appended after a read that returned something are above its cursor and its start. */
  lemma LaterIsAbove(a: RedisStream, more: RedisStream, start: StreamId)
    requires Ascending(a + more) && Above(a, start) != []
    ensures forall e :: e in more ==> Before(start, e.id) && Before(Cursor(start, Above(a, start)), e.id)
  {
    var got := Above(a, start);
    AboveMembers(a, start);
    var last := got[|got| - 1];
    assert last in got;
    forall e | e in more ensures Before(start, e.id) && Before(last.id, e.id) {
      var i :| 0 <= i < |a| && a[i] == last;
      var j :| 0 <= j < |more| && more[j] == e;
      assert (a + more)[i] == last && (a + more)[|a| + j] == e;
    }
  }

  lemma {:induction false} AboveMembers(s: RedisStream, id: StreamId)
    ensures forall e :: e in Above(s, id) <==> e in s && Before(id, e.id)
  {
    if s != [] {
      AboveMembers(s[..|s| - 1], id);
      assert s == s[..|s| - 1] + [s[|s| - 1]];
    }
  }

  lemma LastIsLargest(s: RedisStream)
    requires Ascending(s) && s != []
    ensures forall e :: e in s[..|s| - 1] ==> Before(e.id, s[|s| - 1].id)
  {
    var front := s[..|s| - 1];
    forall e | e in front ensures Before(e.id, s[|s| - 1].id) {
      var i :| 0 <= i < |front| && front[i] == e;
      assert s[i] == e;
    }
  }

  lemma CursorCovers(s: RedisStream, start: StreamId)
    requires Ascending(s)
    ensures forall e :: e in s ==> !Before(Cursor(start, Above(s, start)), e.id)
  {
    hide Ascending, Above;
    if s != [] {
      LastIsLargest(s);
      assert s == s[..|s| - 1] + [s[|s| - 1]];
      CursorIsLast(s, start);
    }
  }

  /** After a read the cursor is the last entry of the stream, or past it. */
  lemma CursorIsLast(s: RedisStream, start: StreamId)
    requires Ascending(s) && s != []
    ensures var last := s[|s| - 1].id;
            Cursor(start, Above(s, start)) == if Before(start, last) then last else start
  {
    var last := s[|s| - 1];
    if !Before(start, last.id) {
      hide Ascending, Above;
      LastIsLargest(s);
      assert s == s[..|s| - 1] + [last];
      AboveAllOrNothing(s, start);
    }
  }

  ghost predicate GrowsTo(a: RedisStream, b: RedisStream) {
    a <= b
  }

  /** What a reader collects that reads at each snapshot and always passes its last received id. */
  function ReadAll(snapshots: seq<RedisStream>, start: StreamId): RedisStream {
    if snapshots == [] then []
    else
      var got := Above(snapshots[0], start);
      got + ReadAll(snapshots[1..], Cursor(start, got))
  }

  /** Neither gaps nor duplicates: the reads, concatenated, are the entries above the start id. */
  lemma {:induction false} NoGapsNoDuplicates(snapshots: seq<RedisStream>, start: StreamId)
    requires |snapshots| > 0
    requires forall i :: 0 <= i < |snapshots| ==> Ascending(snapshots[i])
    requires forall i, j :: 0 <= i <= j < |snapshots| ==> GrowsTo(snapshots[i], snapshots[j])
    ensures ReadAll(snapshots, start) == Above(snapshots[|snapshots| - 1], start)
  {
    hide Above, Ascending;
    var got := Above(snapshots[0], start);
    if |snapshots| == 1 {
      assert ReadAll(snapshots[1..], Cursor(start, got)) == [];
    } else {
      NoGapsNoDuplicates(snapshots[1..], Cursor(start, got));
      var last := snapshots[|snapshots| - 1];
      assert GrowsTo(snapshots[0], last);
      assert last == snapshots[0] + last[|snapshots[0]|..];
      ReadThenRead(snapshots[0], last[|snapshots[0]|..], start);
    }
  }
}
