/**
 What each command does, as its client and the next command see it: the reply, the entry at its key, and nothing else
 (`src/main.rs:322-393`, `677-1158`).
 */
module CommandEffects {
  import opened Types
  import opened Decimal
  import opened Orders
  import opened RespCodec
  import opened Streams
  import opened Commands
  import opened StoreModel
  import opened StoreFrames
  import opened BlockingLists
  import opened ListDelivery
  import opened StreamLogs
  import opened Requests

  /** A command other than EXEC runs in the same state but for its mark as a writer. */
  lemma RunsMarked(s: State, c: ClientId, cmd: Command, r: Result, t: State) returns (marked: State, ch: Choice)
    requires Executes(s, c, cmd, r, t) && !cmd.ExecuteTx?
    ensures OnlyWatches(s, marked) && Allowed(marked, c, cmd, ch) && Prim(marked, c, cmd, ch) == Outcome(t, r)
  {
    hide Prim, Allowed, Touch;
    marked := Touch(s, c, ModifiedKeys(cmd));
    TouchFrame(s, c, ModifiedKeys(cmd));
    ch :| Allowed(marked, c, cmd, ch) && Prim(marked, c, cmd, ch) == Outcome(t, r);
  }

  // ------------------------------------------------------------------------- strings

  /** SET replaces the entry. Its deadline is the clock plus 1000 times EX, or plus PX, or never. */
  lemma SetStores(s: State, c: ClientId, key: Key, value: Bytes, ex: Option<u64>, px: Option<u64>, r: Result, t: State)
    returns (now: u64)
    requires Executes(s, c, Set(key, value, ex, px), r, t)
    ensures r == Done(SimpleString(Ascii("OK")))
    ensures t.data == s.data[key := t.data[key]] && t.data[key].value == Str(value)
    ensures t.data[key].expireMs ==
            if ex.Some? then Some((now + 1000 * ex.value) % U64_LIMIT)
            else if px.Some? then Some((now + px.value) % U64_LIMIT)
            else None
  {
    hide Allowed, Ascii;
    var marked, ch := RunsMarked(s, c, Set(key, value, ex, px), r, t);
    now := ch.now;
  }

  /** `command_get`. */
  function GetReply(s: State, key: Key, now: u64): Resp {
    if !HoldsString(s, key) then NullBulkString
    else
      match s.data[key].expireMs
      case Some(ms) => if ms < now then NullBulkString else BulkString(s.data[key].value.s)
      case None => BulkString(s.data[key].value.s)
  }

  /** A key that was SET is read back until its time is up: for ever without EX and PX, otherwise up to and including the
      last millisecond of the period; provided that the deadline does not wrap around, or wraps to the end of time. */
  lemma ReadableUntil(s: State, key: Key, value: Bytes, ex: Option<u64>, px: Option<u64>, now: u64)
    ensures
      var t := SetCommand(s, key, value, ex, px, now).state;
      var end := now + if ex.Some? then 1000 * ex.value else if px.Some? then px.value else 0;
      if ex == None && px == None then forall later: u64 :: GetReply(t, key, later) == BulkString(value)
      else
        (forall later: u64 :: GetReply(t, key, later) == if later <= end then BulkString(value) else NullBulkString)
        <==> end < U64_LIMIT || end % U64_LIMIT == MAX_U64
  {
    var t := SetCommand(s, key, value, ex, px, now).state;
    var end := now + if ex.Some? then 1000 * ex.value else if px.Some? then px.value else 0;
    if ex.Some? || px.Some? {
      assert t.data[key].expireMs == Some(end % U64_LIMIT);
      if end >= U64_LIMIT && end % U64_LIMIT != MAX_U64 {
        assert GetReply(t, key, MAX_U64) == NullBulkString;
      }
    }
  }

  /** Which texts INCR takes for numbers: a sign or none, then digits, then anything but a digit; the number must fit 64
      bits. What follows it is dropped. */
  lemma NumberRead(sign: Bytes, digits: Bytes, rest: Bytes)
    requires (sign == [] && digits != []) || sign == [MINUS] || sign == [PLUS]
    requires AllDigits(digits) && (rest == [] || !IsDigit(rest[0]))
    ensures
      var n := Parser.SignedValue(sign, digits);
      Incremented(sign + digits + rest) ==
      if digits == [] || !(-I64_LIMIT <= n < I64_LIMIT) then None else Some(WrapI64(n + 1))
  {
    hide Parser.Integer, Parser.SignedValue;
    Parser.NumberInAnyForm(sign, digits, rest, -I64_LIMIT, I64_LIMIT);
  }

  /** Text that starts neither with a digit nor with a sign is no number. */
  lemma NoNumber(text: Bytes)
    requires text == [] || !(IsDigit(text[0]) || text[0] == MINUS || text[0] == PLUS)
    ensures Incremented(text) == None
  {
    assert text[0..] == text;
    Parser.IntegerReads(-I64_LIMIT, I64_LIMIT, text);
  }

  /** INCR: a number becomes the next one and keeps its deadline; other text is refused and stays; anything else, or
      nothing, becomes 1. */
  lemma IncrStores(s: State, c: ClientId, key: Key, r: Result, t: State)
    requires Executes(s, c, Incr(key), r, t)
    ensures
      if key in s.data && s.data[key].value.Str? then
        match Incremented(s.data[key].value.s)
        case Some(n) =>
          r == Done(Integer(n)) && t.data == s.data[key := Value(Str(IntText(n)), s.data[key].expireMs)]
        case None =>
          r == Done(SimpleError(Ascii("ERR value is not an integer or out of range"))) && t.data == s.data
      else r == Done(Integer(1)) && t.data == s.data[key := Value(Str(IntText(1)), None)]
  {
    hide Allowed, Ascii, Incremented, IntText, SetCommand, WatchKeys, Cleanup, IncrCommand, XaddCommand, XreadCommand,
      PushCommand, LpopCommand, BlpopCommand, AckCommand, WaitCommand;
    var marked, ch := RunsMarked(s, c, Incr(key), r, t);
    IncrCases(marked, key);
  }

  lemma IncrCases(s: State, key: Key)
    ensures
      var o := IncrCommand(s, key);
      if key in s.data && s.data[key].value.Str? then
        match Incremented(s.data[key].value.s)
        case Some(n) =>
          o.result == Done(Integer(n)) && o.state.data == s.data[key := Value(Str(IntText(n)), s.data[key].expireMs)]
        case None =>
          && o.result == Done(SimpleError(Ascii("ERR value is not an integer or out of range")))
          && o.state.data == s.data
      else o.result == Done(Integer(1)) && o.state.data == s.data[key := Value(Str(IntText(1)), None)]
  {
    hide Ascii, Incremented, IntText;
  }

  // --------------------------------------------------------------------------- lists

  /** The list after a push and before anyone is woken: RPUSH adds at the end, LPUSH one after the other at the front. */
  function Pushed(s: State, key: Key, elems: seq<Bytes>, front: bool): seq<Bytes> {
    var there := if key in s.data && s.data[key].value.List? then s.data[key].value.items else [];
    if front then seq(|elems|, i requires 0 <= i < |elems| => elems[|elems| - 1 - i]) + there else there + elems
  }

  lemma {:induction false} ReversedIs<T>(xs: seq<T>)
    ensures Reversed(xs) == seq(|xs|, i requires 0 <= i < |xs| => xs[|xs| - 1 - i])
  {
    if xs != [] {
      ReversedIs(xs[1..]);
    }
  }

  lemma PushedIs(s: State, key: Key, elems: seq<Bytes>, front: bool)
    ensures ListOf(PushElements(s, key, elems, front), key) == Pushed(s, key, elems, front)
  {
    hide Reversed;
    ReversedIs(elems);
    PushLists(s, key, elems, front, key);
  }

  /** RPUSH and LPUSH: the reply is the length of the list with the new elements, before anyone is woken. The waiters for
      the key are served in some order, as many as there are elements: the first gets the first element, and so on. What
      remains is the list without those, with the deadline it had if it was one. Nothing else changes. */
  lemma PushStores(s: State, c: ClientId, cmd: Command, r: Result, t: State) returns (order: seq<WaiterId>)
    requires NoLostWakeup(s) && (cmd.Rpush? || cmd.Lpush?) && Executes(s, c, cmd, r, t)
    ensures Distinct(order)
    ensures forall w :: w in order <==> w in s.blpopWaiters && cmd.key in s.blpopWaiters[w].keys
    ensures
      var items := Pushed(s, cmd.key, cmd.elements, cmd.Lpush?);
      var m := Min(|order|, |items|);
      var deadline := if cmd.key in s.data && s.data[cmd.key].value.List? then s.data[cmd.key].expireMs else None;
      && r == Done(Integer(WrapI64(|items|)))
      && t.data == s.data[cmd.key := Value(List(items[m..]), deadline)]
      && t.blpopWaiters == s.blpopWaiters - (set i | 0 <= i < m :: order[i])
      && |t.out| == |s.out| + m && s.out <= t.out
      && forall i :: 0 <= i < m ==>
           t.out[|s.out| + i]
           == Reply(s.blpopWaiters[order[i]].channel, Array([BulkString(cmd.key), BulkString(items[i])]))
  {
    hide Allowed, Serve, PushElements, NoLostWakeup, Pushed;
    var marked, ch := RunsMarked(s, c, cmd, r, t);
    order := ch.order;
    var key, front := cmd.key, cmd.Lpush?;
    PushOrder(marked, c, cmd, ch);
    MarkedPushed(s, marked, key, cmd.elements, front);
    PushServes(marked, key, cmd.elements, front, order);
  }

  lemma PushOrder(s: State, c: ClientId, cmd: Command, ch: Choice)
    requires Allowed(s, c, cmd, ch) && (cmd.Rpush? || cmd.Lpush?)
    ensures IsOrder(ch.order, InterestedBlpop(s, cmd.key))
  {
  }

  lemma MarkedPushed(s: State, marked: State, key: Key, elems: seq<Bytes>, front: bool)
    requires OnlyWatches(s, marked) && NoLostWakeup(s)
    ensures NoLostWakeup(marked) && Pushed(marked, key, elems, front) == Pushed(s, key, elems, front)
  {
    Shrinking(s, marked);
  }

  lemma PushServes(s: State, key: Key, elems: seq<Bytes>, front: bool, order: seq<WaiterId>)
    requires NoLostWakeup(s) && IsOrder(order, InterestedBlpop(s, key))
    ensures
      var items := Pushed(s, key, elems, front);
      var m := Min(|order|, |items|);
      var deadline := if key in s.data && s.data[key].value.List? then s.data[key].expireMs else None;
      var o := PushCommand(s, key, elems, front, order);
      var t := o.state;
      && o.result == Done(Integer(WrapI64(|items|)))
      && t.data == s.data[key := Value(List(items[m..]), deadline)]
      && t.blpopWaiters == s.blpopWaiters - (set i | 0 <= i < m :: order[i])
      && |t.out| == |s.out| + m && s.out <= t.out
      && forall i :: 0 <= i < m ==>
           && order[i] in s.blpopWaiters
           && t.out[|s.out| + i]
              == Reply(s.blpopWaiters[order[i]].channel, Array([BulkString(key), BulkString(items[i])]))
  {
    hide Serve, Reversed;
    var pushed := PushElements(s, key, elems, front);
    PushedIs(s, key, elems, front);
    PushElementsFrame(s, key, elems, front);
    forall j | j != key ensures ListOf(pushed, j) == ListOf(s, j) {
      PushLists(s, key, elems, front, j);
    }
    assert NoLostWakeupBut(pushed, key);
    assert InterestedBlpop(pushed, key) == InterestedBlpop(s, key);
    PushServesInOrder(pushed, key, order);
    var m := Min(|order|, |ListOf(pushed, key)|);
    ServedPushed(s, pushed, key, order, m);
  }

  lemma ServedPushed(s: State, pushed: State, key: Key, order: seq<WaiterId>, m: nat)
    requires OnlyListData(s, pushed) && m <= |ListOf(pushed, key)| && m <= |order|
    requires forall w :: w in order ==> w in s.blpopWaiters
    requires key in pushed.data && pushed.data[key].value.List?
    requires pushed.data == s.data[key := pushed.data[key]]
    ensures
      var t := Served(pushed, key, order, m);
      var items := ListOf(pushed, key);
      && t.data == s.data[key := Value(List(items[m..]), pushed.data[key].expireMs)]
      && t.blpopWaiters == s.blpopWaiters - (set i | 0 <= i < m :: order[i])
      && |t.out| == |s.out| + m && s.out <= t.out
      && forall i :: 0 <= i < m ==>
           t.out[|s.out| + i] == Reply(s.blpopWaiters[order[i]].channel, Array([BulkString(key), BulkString(items[i])]))
  {
    var items := ListOf(pushed, key);
    assert items[0..] == items;
  }

  /** LPOP takes from the front: one element, or up to `count` of them. */
  lemma LpopTakes(s: State, c: ClientId, key: Key, count: Option<u32>, r: Result, t: State)
    requires Executes(s, c, Lpop(key, count), r, t)
    ensures
      var items := ListOf(s, key);
      if items == [] then r == Done(NullBulkString) && t.data == s.data
      else
        var m := if count == None then 1 else Min(count.value, |items|);
        && t.data == s.data[key := Value(List(items[m..]), s.data[key].expireMs)]
        && (count == None ==> r == Done(BulkString(items[0])))
        && (count.Some? ==> r.Done? && r.reply.Array? && |r.reply.els| == m
                            && forall i :: 0 <= i < m ==> r.reply.els[i] == BulkString(items[i]))
  {
    hide Allowed, PopMany;
    var marked, ch := RunsMarked(s, c, Lpop(key, count), r, t);
    if ListOf(s, key) != [] && count.Some? {
      PopManyData(marked, key, count.value);
    }
  }

  lemma {:induction false} PopManyData(s: State, key: Key, count: nat)
    requires ListOf(s, key) != []
    ensures PopMany(s, key, count).data
         == s.data[key := Value(List(ListOf(s, key)[Min(count, |ListOf(s, key)|)..]), s.data[key].expireMs)]
    decreases count
  {
    if count > 0 {
      var u := PopFront(s, key);
      if ListOf(u, key) == [] {
        PopNoMore(u, key, count - 1);
      } else {
        PopManyData(u, key, count - 1);
      }
    }
  }

  /** The first of the keys that has an element is the one at `i`. */
  ghost predicate FirstFilled(s: State, keys: seq<Key>, i: nat) {
    i < |keys| && ListOf(s, keys[i]) != [] && forall j :: 0 <= j < i ==> ListOf(s, keys[j]) == []
  }

  lemma BlpopCases(s: State, keys: seq<Key>)
    ensures
      var o := BlpopCommand(s, keys);
      && ((forall i :: 0 <= i < |keys| ==> ListOf(s, keys[i]) == []) ==>
            o == Outcome(s.(waiterId := s.waiterId + 1), BlockBlpop(s.waiterId + 1, keys)))
      && forall i: nat :: FirstFilled(s, keys, i) ==>
           var items := ListOf(s, keys[i]);
           && o.result == Done(Array([BulkString(keys[i]), BulkString(items[0])]))
           && o.state.data == s.data[keys[i] := Value(List(items[1..]), s.data[keys[i]].expireMs)]
  {
    hide FirstReady, ListOf, PopFront;
    if FirstReady(s, keys).Some? {
      var i := FirstReadyIsFirst(s, keys);
      PoppedData(s, keys[i]);
      forall j: nat | FirstFilled(s, keys, j) ensures j == i {
      }
    } else {
      assert forall i :: 0 <= i < |keys| ==> keys[i] in keys;
    }
  }

  lemma PoppedData(s: State, key: Key)
    requires ListOf(s, key) != []
    ensures key in s.data
    ensures PopFront(s, key).data == s.data[key := Value(List(ListOf(s, key)[1..]), s.data[key].expireMs)]
  {
  }

  /** BLPOP takes the head of the first of its keys that has one, and blocks under a new waiter id iff none has. */
  lemma BlpopTakes(s: State, c: ClientId, keys: seq<Key>, seconds: real, r: Result, t: State)
    requires Executes(s, c, Blpop(keys, seconds), r, t)
    ensures (forall i :: 0 <= i < |keys| ==> ListOf(s, keys[i]) == []) ==>
      r == BlockBlpop(s.waiterId + 1, keys) && t == s.(waiterId := s.waiterId + 1)
    ensures forall i: nat :: FirstFilled(s, keys, i) ==>
      var items := ListOf(s, keys[i]);
      && r == Done(Array([BulkString(keys[i]), BulkString(items[0])]))
      && t.data == s.data[keys[i] := Value(List(items[1..]), s.data[keys[i]].expireMs)]
  {
    hide SetCommand, WatchKeys, Cleanup, IncrCommand, XaddCommand, PushCommand, LpopCommand, XreadCommand,
      BlpopCommand, AckCommand, WaitCommand, IsOrder, Ascii, ListOf, FirstFilled;
    assert Touch(s, c, []) == s;
    BlpopCases(s, keys);
  }

  lemma SettleBlpop(s: State, channel: Channel, cmd: Command, r: Result, order: seq<ClientId>)
    requires cmd.Blpop? && (r.Done? || r.BlockBlpop?)
    ensures
      var t := Settle(s, channel, cmd, r, order);
      && (r.Done? ==> t.out == s.out + [Reply(channel, r.reply)] && t.blpopWaiters == s.blpopWaiters)
      && (r.BlockBlpop? ==>
            t.out == s.out && t.blpopWaiters == s.blpopWaiters[r.blpopId := BlpopWaiter(channel, r.blpopKeys)])
  {
    assert s.out + [] == s.out;
  }

  lemma BlpopCountsNothing(s: State, cmd: Command)
    requires cmd.Blpop?
    ensures !ToRespPanics(cmd) && Account(s, cmd) == s
  {
  }

  /** The request: with nothing to take, the channel waits for exactly these keys, unanswered. */
  lemma AskBlpop(s: State, c: ClientId, cmd: Command, channel: Channel, t: State)
    requires Accounted(s) && Step(s, WithReply(c, cmd, channel), t) && cmd.Blpop?
    ensures (forall i :: 0 <= i < |cmd.keys| ==> ListOf(s, cmd.keys[i]) == []) ==>
      && RepliesOn(t.out, channel) == []
      && t.blpopWaiters == s.blpopWaiters[s.waiterId + 1 := BlpopWaiter(channel, cmd.keys)]
    ensures forall i: nat :: FirstFilled(s, cmd.keys, i) ==>
      && RepliesOn(t.out, channel) == [Array([BulkString(cmd.keys[i]), BulkString(ListOf(s, cmd.keys[i])[0])])]
      && t.blpopWaiters == s.blpopWaiters
  {
    hide Step, Executes, Accounted, IsOrder, Settle, Account, ListOf, FirstFilled;
    BlpopCountsNothing(s, cmd);
    var r, mid, order := RequestParts(s, c, cmd, channel, t);
    ResultKind(s, c, cmd, r, mid);
    BlpopTakes(s, c, cmd.keys, cmd.seconds, r, mid);
    NotYetAnswered(s, channel);
    BlpopOut(s, c, cmd, r, mid);
    if r.Done? || r.BlockBlpop? {
      SettleBlpop(mid, channel, cmd, r, order);
    }
    if r.Done? {
      OneReply(s.out, channel, r.reply);
    }
  }

  lemma BlpopOut(s: State, c: ClientId, cmd: Command, r: Result, t: State)
    requires cmd.Blpop? && Executes(s, c, cmd, r, t)
    ensures t.out == s.out && t.blpopWaiters == s.blpopWaiters
  {
    hide Allowed, Prim, ExecFrame;
    var marked, ch := RunsMarked(s, c, cmd, r, t);
    PrimTouches(marked, c, cmd, ch);
  }

  // -------------------------------------------------------------------------- streams

  /** XADD, at some clock: the chosen id is the reply and the id of the one new entry, the deadline of the key stays, and
      no other key changes. Without one the reply is a refusal, and the only trace is an empty stream at a missing key. */
  lemma XaddStores(s: State, c: ClientId, key: Key, input: XaddId, fields: seq<Bytes>, r: Result, t: State)
    returns (now: u64)
    requires StreamsOrdered(s) && Executes(s, c, Xadd(key, input, fields), r, t)
    ensures
      var before := StreamOf(s, key);
      var possible := key in s.data ==> s.data[key].value.Stream?;
      var deadline := if key in s.data then s.data[key].expireMs else None;
      && (forall id :: possible && Chosen(input, before, now, id) ==>
            && r == Done(BulkString(IdText(id)))
            && t.data == s.data[key := Value(Stream(before + [Streams.Entry(id, fields)]), deadline)])
      && (!possible || (forall id :: !Chosen(input, before, now, id)) ==>
            && r == Done(SimpleError(Ascii(Refusal(s, key, input, now))))
            && t.data == if key in s.data then s.data else s.data[key := Value(Stream([]), None)])
  {
    hide Allowed, XaddCommand, Chosen, Refusal, StreamsOrdered, StreamOf, Ascii, IdText;
    var marked, ch := RunsMarked(s, c, Xadd(key, input, fields), r, t);
    now := ch.now;
    MarkedStreams(s, marked, key, input, now);
    XaddAppendsOne(marked, key, input, fields, now, ch.order);
    XaddEntry(marked, key, input, fields, now, ch.order);
  }

  lemma MarkedStreams(s: State, marked: State, key: Key, input: XaddId, now: u64)
    requires OnlyWatches(s, marked) && StreamsOrdered(s)
    ensures StreamsOrdered(marked) && StreamOf(marked, key) == StreamOf(s, key)
    ensures Refusal(marked, key, input, now) == Refusal(s, key, input, now)
  {
    hide AsksForZero;
    forall k ensures StreamOf(marked, k) == StreamOf(s, k) {
    }
  }

  lemma XaddEntry(s: State, key: Key, input: XaddId, fields: seq<Bytes>, now: u64, order: seq<WaiterId>)
    requires StreamsOrdered(s)
    ensures
      var t := XaddCommand(s, key, input, fields, now, order).state;
      var before := StreamOf(s, key);
      var possible := key in s.data ==> s.data[key].value.Stream?;
      var deadline := if key in s.data then s.data[key].expireMs else None;
      && (possible && (exists id :: Chosen(input, before, now, id)) ==>
            t.data == s.data[key := Value(Stream(StreamOf(t, key)), deadline)])
      && (!possible || (forall id :: !Chosen(input, before, now, id)) ==>
            t.data == if key in s.data then s.data else s.data[key := Value(Stream([]), None)])
  {
    hide XaddCommand, Judge, StreamsOrdered, Chosen, StreamOf, EnsureStream, AppendEntry;
    var before := StreamOf(s, key);
    var t := XaddCommand(s, key, input, fields, now, order).state;
    var ready := EnsureStream(s, key);
    OrderedAt(s, key);
    EnsureData(s, key);
    XaddData(s, key, input, fields, now, order);
    forall id ensures Chosen(input, before, now, id) <==> Judge(input, before, now) == Accepted(id) {
      AcceptedIffChosen(input, before, now, id);
    }
    if ready.data[key].value.Stream? && Judge(input, before, now).Accepted? {
      var id := Judge(input, before, now).id;
      AppendData(ready, key, id, fields);
      SameDataSameLists(t, AppendEntry(ready, key, id, fields), key);
      assert Chosen(input, before, now, id);
    }
  }

  lemma EnsureData(s: State, key: Key)
    ensures
      var ready := EnsureStream(s, key);
      && ready.data == (if key in s.data then s.data else s.data[key := Value(Stream([]), None)])
      && StreamOf(ready, key) == StreamOf(s, key)
  {
  }

  lemma AppendData(s: State, key: Key, id: StreamId, fields: seq<Bytes>)
    requires key in s.data && s.data[key].value.Stream?
    ensures
      var t := AppendEntry(s, key, id, fields);
      t.data == s.data[key := Value(Stream(StreamOf(t, key)), s.data[key].expireMs)]
  {
    hide Insert;
  }

  // --------------------------------------------------------------------- the other replies

  /** WATCH, UNWATCH and DISCARD answer OK and change nothing but marks. */
  lemma MarkReplies(s: State, c: ClientId, cmd: Command, r: Result, t: State)
    requires Executes(s, c, cmd, r, t) && (cmd.Watch? || cmd.Unwatch? || cmd.Discard?)
    ensures r == Done(SimpleString(Ascii("OK"))) && OnlyWatches(s, t)
  {
    hide Ascii, WatchKeys, Cleanup, SetCommand, IncrCommand, XaddCommand, PushCommand, LpopCommand, XreadCommand,
      AckCommand, WaitCommand, BlpopCommand, IsOrder, LockFailed, ExecutesAll, OnlyWatches;
    assert Touch(s, c, []) == s;
    if cmd.Watch? {
      WatchFrame(s, c, cmd.keys);
    }
    CleanupFrame(s, c);
  }

  /** Commands that mean nothing to the store, as a transaction may hold them, are answered with nothing. */
  predicate MeansNothing(cmd: Command) {
    cmd.Echo? || cmd.Multi? || cmd.Exec? || cmd.ListeningPort? || cmd.Capa? || cmd.Psync? || cmd.GetAck?
  }

  lemma EmptyReplies(s: State, c: ClientId, cmd: Command, r: Result, t: State)
    requires Executes(s, c, cmd, r, t) && MeansNothing(cmd)
    ensures t == s && r == Done(NullBulkString)
  {
    hide Ascii, WatchKeys, Cleanup, SetCommand, IncrCommand, XaddCommand, PushCommand, LpopCommand, XreadCommand,
      AckCommand, WaitCommand, BlpopCommand, IsOrder, LockFailed, ExecutesAll;
    assert Touch(s, c, []) == s;
  }

  lemma PingReplies(s: State, c: ClientId, cmd: Command, r: Result, t: State)
    requires Executes(s, c, cmd, r, t) && cmd.Ping?
    ensures t == s
    ensures r == Done(if cmd.payload.Some? then BulkString(cmd.payload.value) else SimpleString(Ascii("PONG")))
  {
    hide Ascii, WatchKeys, Cleanup, SetCommand, IncrCommand, XaddCommand, PushCommand, LpopCommand, XreadCommand,
      AckCommand, WaitCommand, BlpopCommand, IsOrder, LockFailed, ExecutesAll;
    assert Touch(s, c, []) == s;
  }

  /** A request that is done gets its result as the one reply on its channel. */
  lemma ResultIsSent(s: State, c: ClientId, cmd: Command, channel: Channel, t: State) returns (r: Result, mid: State)
    requires Accounted(s) && Step(s, WithReply(c, cmd, channel), t)
    ensures !ToRespPanics(cmd) && Executes(Account(s, cmd), c, cmd, r, mid) && t.data == mid.data
    ensures r.Done? ==> RepliesOn(t.out, channel) == [r.reply]
  {
    hide Step, Executes, Accounted, IsOrder, Settle, Account;
    var order;
    r, mid, order := RequestParts(s, c, cmd, channel, t);
    SettleFrame(mid, channel, cmd, r, order);
    SettleSends(mid, channel, cmd, r, order);
    StepKeepsAccounts(s, WithReply(c, cmd, channel), t);
    if r.Done? {
      assert (mid.out + [Reply(channel, r.reply)])[|mid.out|] == Reply(channel, r.reply);
      assert t.out[|mid.out|] == Reply(channel, r.reply);
      OnlyReply(t, channel, r.reply);
    }
  }

  /** How long a blocking command waits, in whole milliseconds: 0 stands for as long as there are any, and more than 64
      bits are cut off. */
  lemma WaitsFor(cmd: Command)
    ensures cmd.Xread? && cmd.milliseconds.Some? ==>
      BlockTimeout(cmd) == Some(if cmd.milliseconds.value == 0 then 0xFFFF_FFFF_FFFF_FFFF else cmd.milliseconds.value)
    ensures cmd.Blpop? ==>
      match BlockTimeout(cmd)
      case None => false
      case Some(ms) =>
        if cmd.seconds == 0.0 then ms == 0xFFFF_FFFF_FFFF_FFFF
        else if cmd.seconds < 0.0 then ms == 0
        else ms as real <= 1000.0 * cmd.seconds
             && (1000.0 * cmd.seconds < ms as real + 1.0 || ms == 0xFFFF_FFFF_FFFF_FFFF)
  {
  }
}
