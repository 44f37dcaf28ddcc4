/**
 What clients receive of lists: the elements taken during any command, transactions
 included, are exactly those in its result and in the replies sent to the waiters it woke
 (`src/main.rs:322-361`, `710-748`, `929-1017`, `1058-1066`).
 */
module ListHandout {
  import opened Types
  import opened Decimal
  import opened Orders
  import opened RespCodec
  import opened Streams
  import opened Commands
  import opened StoreModel
  import opened StoreFrames
  import opened BlockingLists
  import opened ListDelivery

  /** The elements taken, with their keys, in a list history. */
  function TakesIn(log: seq<ListEvent>): seq<ListEvent> {
    if log == [] then []
    else TakesIn(log[..|log| - 1]) + if log[|log| - 1].Took? then [log[|log| - 1]] else []
  }

  /** The element a BLPOP reply carries. */
  function PoppedIn(reply: Resp): seq<ListEvent> {
    if reply.Array? && |reply.els| == 2 && reply.els[0].BulkString? && reply.els[1].BulkString?
    then [Took(reply.els[0].bytes, reply.els[1].bytes)] else []
  }

  /** The elements carried by the replies sent. */
  function PoppedOut(out: seq<Output>): seq<ListEvent> {
    if out == [] then []
    else PoppedOut(out[..|out| - 1]) + if out[|out| - 1].Reply? then PoppedIn(out[|out| - 1].resp) else []
  }

  /** The elements an LPOP with a count replies with. */
  function TakesOf(key: Key, els: seq<Resp>): seq<ListEvent> {
    if els == [] then []
    else TakesOf(key, els[..|els| - 1]) + if els[|els| - 1].BulkString? then [Took(key, els[|els| - 1].bytes)] else []
  }

  /** The elements a command's own reply carries; for EXEC, those of all its replies. */
  function HandedBy(cmd: Command, reply: Resp): seq<ListEvent>
    decreases cmd, 1
  {
    match cmd
    case Lpop(key, _) =>
      if reply.BulkString? then [Took(key, reply.bytes)]
      else if reply.Array? then TakesOf(key, reply.els)
      else []
    case Blpop(_, _) => PoppedIn(reply)
    case ExecuteTx(cmds) => if reply.Array? && |reply.els| == |cmds| then HandedByAll(cmds, reply.els) else []
    case _ => []
  }

  function HandedByAll(cmds: seq<Command>, replies: seq<Resp>): seq<ListEvent>
    requires |cmds| == |replies|
    decreases cmds, 0
  {
    if cmds == [] then []
    else
      var n := |cmds| - 1;
      HandedByAll(cmds[..n], replies[..n]) + HandedBy(cmds[n], replies[n])
  }

  /** From `s` to `t`, what was taken is what was handed out: in `handed`, and in the replies sent. */
  ghost predicate HandedOut(s: State, t: State, handed: seq<ListEvent>) {
    && s.listLog <= t.listLog && s.out <= t.out
    && multiset(TakesIn(t.listLog[|s.listLog|..])) == multiset(handed) + multiset(PoppedOut(t.out[|s.out|..]))
  }

  lemma {:induction false} TakesConcat(a: seq<ListEvent>, b: seq<ListEvent>)
    ensures TakesIn(a + b) == TakesIn(a) + TakesIn(b)
  {
    if b == [] {
      assert a + b == a;
    } else {
      assert (a + b)[..|a + b| - 1] == a + b[..|b| - 1];
      TakesConcat(a, b[..|b| - 1]);
    }
  }

  lemma {:induction false} PoppedConcat(a: seq<Output>, b: seq<Output>)
    ensures PoppedOut(a + b) == PoppedOut(a) + PoppedOut(b)
  {
    if b == [] {
      assert a + b == a;
    } else {
      hide PoppedIn;
      assert (a + b)[..|a + b| - 1] == a + b[..|b| - 1];
      PoppedConcat(a, b[..|b| - 1]);
    }
  }

  lemma OneTake(e: ListEvent)
    ensures TakesIn([e]) == if e.Took? then [e] else []
  {
    assert [e][..0] == [];
  }

  lemma OnePopped(channel: Channel, reply: Resp)
    ensures PoppedOut([Reply(channel, reply)]) == PoppedIn(reply)
  {
    assert [Reply(channel, reply)][..0] == [];
  }

  lemma HandedThen(s: State, u: State, t: State, a: seq<ListEvent>, b: seq<ListEvent>)
    requires HandedOut(s, u, a) && HandedOut(u, t, b)
    ensures HandedOut(s, t, a + b)
  {
    hide TakesIn, PoppedOut;
    var log0, log1 := u.listLog[|s.listLog|..], t.listLog[|u.listLog|..];
    var out0, out1 := u.out[|s.out|..], t.out[|u.out|..];
    assert t.listLog[|s.listLog|..] == log0 + log1;
    assert t.out[|s.out|..] == out0 + out1;
    TakesConcat(log0, log1);
    PoppedConcat(out0, out1);
  }

  /** First nothing, then something; or the other way round. */
  lemma QuietThen(s: State, u: State, t: State, a: seq<ListEvent>)
    requires HandedOut(s, u, []) && HandedOut(u, t, a)
    ensures HandedOut(s, t, a)
  {
    hide HandedOut;
    HandedThen(s, u, t, [], a);
    assert [] + a == a;
  }

  lemma ThenQuiet(s: State, u: State, t: State, a: seq<ListEvent>)
    requires HandedOut(s, u, a) && HandedOut(u, t, [])
    ensures HandedOut(s, t, a)
  {
    hide HandedOut;
    HandedThen(s, u, t, a, []);
    assert a + [] == a;
  }

  lemma NothingHanded(s: State, t: State)
    requires t.listLog == s.listLog && t.out == s.out
    ensures HandedOut(s, t, [])
  {
    assert s.listLog[|s.listLog|..] == [] && s.out[|s.out|..] == [];
  }

  /** Events added to the list history, with no reply sent. */
  lemma OnlyTaken(s: State, t: State, more: seq<ListEvent>)
    requires t.listLog == s.listLog + more && t.out == s.out
    ensures HandedOut(s, t, TakesIn(more))
  {
    assert t.listLog[|s.listLog|..] == more && t.out[|s.out|..] == [];
  }

  /** Replies that carry no element, with the list history as it was. */
  lemma OtherReplies(s: State, t: State, more: seq<Output>)
    requires t.listLog == s.listLog && t.out == s.out + more && PoppedOut(more) == []
    ensures HandedOut(s, t, [])
  {
    assert t.listLog[|s.listLog|..] == [] && t.out[|s.out|..] == more;
  }

  // ------------------------------------------------------------------- the single commands

  /** A waiter that is served is sent the element taken for it. */
  lemma ServeOneHands(s: State, w: WaiterId)
    ensures HandedOut(s, ServeOne(s, w), [])
  {
    hide FirstReady, ListOf, HandedOut;
    if w in s.blpopWaiters && FirstReady(s, s.blpopWaiters[w].keys).Some? {
      var k := FirstReady(s, s.blpopWaiters[w].keys).value;
      ServedHands(s, ServeOne(s, w), s.blpopWaiters[w].channel, k, ListOf(s, k)[0]);
    } else {
      NothingHanded(s, ServeOne(s, w));
    }
  }

  lemma ServedHands(s: State, t: State, channel: Channel, k: Key, e: Bytes)
    requires t.listLog == s.listLog + [Took(k, e)] && t.out == s.out + [Reply(channel, PoppedReply(k, e))]
    ensures HandedOut(s, t, [])
  {
    OneTake(Took(k, e));
    OnePopped(channel, PoppedReply(k, e));
    assert t.listLog[|s.listLog|..] == [Took(k, e)] && t.out[|s.out|..] == [Reply(channel, PoppedReply(k, e))];
  }

  lemma {:induction false} ServeHands(s: State, order: seq<WaiterId>)
    ensures HandedOut(s, Serve(s, order), [])
    decreases |order|
  {
    hide ServeOne, HandedOut;
    if order == [] {
      NothingHanded(s, s);
    } else {
      ServeOneHands(s, order[0]);
      ServeHands(ServeOne(s, order[0]), order[1..]);
      QuietThen(s, ServeOne(s, order[0]), Serve(s, order), []);
    }
  }

  lemma PushHands(s: State, key: Key, elems: seq<Bytes>, front: bool, order: seq<WaiterId>)
    ensures HandedOut(s, PushCommand(s, key, elems, front, order).state, [])
  {
    hide HandedOut, Serve, Reversed, ListOf;
    var pushed := PushElements(s, key, elems, front);
    var e := if front then PushedFront(key, elems) else PushedBack(key, elems);
    OneTake(e);
    OnlyTaken(s, pushed, [e]);
    ServeHands(pushed, order);
    QuietThen(s, pushed, Serve(pushed, order), []);
  }

  lemma {:induction false} TakenEventsAreTakes(s: State, k: Key, m: nat)
    requires m <= |ListOf(s, k)|
    ensures TakesIn(TakenEvents(s, k, m)) == TakenEvents(s, k, m)
    ensures TakesOf(k, BulkStrings(ListOf(s, k)[..m])) == TakenEvents(s, k, m)
  {
    if m > 0 {
      TakenEventsAreTakes(s, k, m - 1);
      var els := BulkStrings(ListOf(s, k)[..m]);
      assert els[..m - 1] == BulkStrings(ListOf(s, k)[..m - 1]);
      assert TakenEvents(s, k, m)[..m - 1] == TakenEvents(s, k, m - 1);
    }
  }

  lemma LpopHands(s: State, key: Key, count: Option<u32>)
    ensures
      var o := LpopCommand(s, key, count);
      HandedOut(s, o.state, HandedBy(Lpop(key, count), TxReply(o.result)))
  {
    hide LpopCommand, HandedOut, ListOf, TakesIn, TakesOf, PopMany, TakenEvents;
    var m := if count == None then Min(1, |ListOf(s, key)|) else Min(count.value, |ListOf(s, key)|);
    var o := LpopCommand(s, key, count);
    LpopRepliesWhatItTakes(s, key, count);
    LpopFrame(s, key, count);
    TakenEventsAreTakes(s, key, m);
    OnlyTaken(s, o.state, TakenEvents(s, key, m));
    FirstTaken(s, key, m);
  }

  lemma FirstTaken(s: State, k: Key, m: nat)
    requires m <= |ListOf(s, k)|
    ensures m == 0 ==> TakenEvents(s, k, m) == []
    ensures m == 1 ==> TakenEvents(s, k, m) == [Took(k, ListOf(s, k)[0])]
  {
  }

  lemma BlpopHands(s: State, keys: seq<Key>, seconds: real)
    ensures
      var o := BlpopCommand(s, keys);
      HandedOut(s, o.state, HandedBy(Blpop(keys, seconds), TxReply(o.result)))
  {
    hide FirstReady, HandedOut, ListOf, TakesIn;
    var o := BlpopCommand(s, keys);
    if FirstReady(s, keys).Some? {
      var k := FirstReady(s, keys).value;
      var e := Took(k, ListOf(s, k)[0]);
      OneTake(e);
      OnlyTaken(s, o.state, [e]);
      assert HandedBy(Blpop(keys, seconds), PoppedReply(k, e.elem)) == [e];
    } else {
      NothingHanded(s, o.state);
    }
  }

  lemma SetHands(s: State, key: Key, value: Bytes, ex: Option<u64>, px: Option<u64>, now: u64)
    ensures HandedOut(s, SetCommand(s, key, value, ex, px, now).state, [])
  {
    hide HandedOut, Deadline, TakesIn;
    OneTake(Overwrote(key));
    OnlyTaken(s, SetCommand(s, key, value, ex, px, now).state, [Overwrote(key)]);
  }

  lemma NumberHands(s: State, key: Key, n: i64)
    ensures HandedOut(s, StoreNumber(s, key, n), [])
  {
    hide HandedOut, HoldsString, IntText, TakesIn;
    var t := StoreNumber(s, key, n);
    if HoldsString(s, key) {
      assert t.listLog == s.listLog;
      NothingHanded(s, t);
    } else {
      OneTake(Overwrote(key));
      assert t.listLog == s.listLog + [Overwrote(key)];
      OnlyTaken(s, t, [Overwrote(key)]);
    }
  }

  lemma IncrHands(s: State, key: Key)
    ensures HandedOut(s, IncrCommand(s, key).state, [])
  {
    hide HandedOut, IncrResult, StoreNumber, Ascii;
    match IncrResult(s, key) {
      case Some(n) => NumberHands(s, key, n);
      case None => NothingHanded(s, s);
    }
  }

  /** Replies to readers carry rows, and replies to WAIT numbers: no list elements. */
  lemma ReaderReplyPopsNothing(s: State, keys: seq<Key>, ids: seq<StreamId>)
    requires |keys| == |ids|
    ensures PoppedIn(Array(XreadRows(s, keys, ids))) == []
  {
    hide EntryRows, Above;
    RowsAreArrays(s, keys, ids);
  }

  lemma {:induction false} RowsAreArrays(s: State, keys: seq<Key>, ids: seq<StreamId>)
    requires |keys| == |ids|
    ensures forall i :: 0 <= i < |XreadRows(s, keys, ids)| ==> XreadRows(s, keys, ids)[i].Array?
  {
    hide EntryRows, Above;
    if keys != [] {
      RowsAreArrays(s, keys[1..], ids[1..]);
    }
  }

  lemma AnsweredHands(s: State, t: State, channel: Channel, reply: Resp)
    requires t.listLog == s.listLog && t.out == s.out + [Reply(channel, reply)] && PoppedIn(reply) == []
    ensures HandedOut(s, t, [])
  {
    hide PoppedIn;
    OnePopped(channel, reply);
    OtherReplies(s, t, [Reply(channel, reply)]);
  }

  lemma WakeOneHands(s: State, w: WaiterId)
    ensures HandedOut(s, WakeOne(s, w), [])
  {
    hide XreadRows, HandedOut, PoppedIn;
    if w in s.xreadWaiters && |s.xreadWaiters[w].keys| == |s.xreadWaiters[w].ids| {
      var x := s.xreadWaiters[w];
      ReaderReplyPopsNothing(s, x.keys, x.ids);
      AnsweredHands(s, WakeOne(s, w), x.channel, Array(XreadRows(s, x.keys, x.ids)));
    } else {
      NothingHanded(s, WakeOne(s, w));
    }
  }

  lemma {:induction false} WakeHands(s: State, order: seq<WaiterId>)
    ensures HandedOut(s, Wake(s, order), [])
    decreases |order|
  {
    hide WakeOne, HandedOut;
    if order == [] {
      NothingHanded(s, s);
    } else {
      WakeOneHands(s, order[0]);
      WakeHands(WakeOne(s, order[0]), order[1..]);
      QuietThen(s, WakeOne(s, order[0]), Wake(s, order), []);
    }
  }

  lemma ReleaseOneHands(s: State, w: WaiterId)
    ensures HandedOut(s, ReleaseOne(s, w), [])
  {
    hide CountAcked, HandedOut;
    if w in s.waitWaiters {
      var x := s.waitWaiters[w];
      AnsweredHands(s, ReleaseOne(s, w), x.channel, Integer(WrapI64(CountAcked(s, x.target))));
    } else {
      NothingHanded(s, ReleaseOne(s, w));
    }
  }

  lemma {:induction false} ReleaseHands(s: State, order: seq<WaiterId>)
    ensures HandedOut(s, Release(s, order), [])
    decreases |order|
  {
    hide ReleaseOne, HandedOut;
    if order == [] {
      NothingHanded(s, s);
    } else {
      ReleaseOneHands(s, order[0]);
      ReleaseHands(ReleaseOne(s, order[0]), order[1..]);
      QuietThen(s, ReleaseOne(s, order[0]), Release(s, order), []);
    }
  }

  lemma XaddHands(s: State, key: Key, id: XaddId, fields: seq<Bytes>, now: u64, order: seq<WaiterId>)
    ensures HandedOut(s, XaddCommand(s, key, id, fields, now, order).state, [])
  {
    hide XaddCommand, Wake, EnsureStream, AppendEntry, Judge, StreamOf, HandedOut;
    var ready := EnsureStream(s, key);
    ReadyFrame(s, key);
    XaddShape(s, key, id, fields, now, order);
    NothingHanded(s, ready);
    if ready.data[key].value.Stream? && Judge(id, StreamOf(ready, key), now).Accepted? {
      var appended := AppendEntry(ready, key, Judge(id, StreamOf(ready, key), now).id, fields);
      EntryHands(ready, key, Judge(id, StreamOf(ready, key), now).id, fields);
      WakeHands(appended, order);
      QuietThen(s, ready, appended, []);
      QuietThen(s, appended, Wake(appended, order), []);
    }
  }

  lemma EntryHands(s: State, key: Key, id: StreamId, fields: seq<Bytes>)
    requires key in s.data && s.data[key].value.Stream?
    ensures HandedOut(s, AppendEntry(s, key, id, fields), [])
  {
    hide Insert;
    NothingHanded(s, AppendEntry(s, key, id, fields));
  }

  lemma AckHands(s: State, c: ClientId, n: nat, order: seq<WaiterId>)
    ensures HandedOut(s, AckCommand(s, c, n, order).state, [])
  {
    hide Release, HandedOut;
    NothingHanded(s, RecordAck(s, c, n));
    ReleaseHands(RecordAck(s, c, n), order);
    QuietThen(s, RecordAck(s, c, n), Release(RecordAck(s, c, n), order), []);
  }

  // --------------------------------------------------------------------------- execution

  lemma PrimHands(s: State, c: ClientId, cmd: Command, ch: Choice)
    requires Allowed(s, c, cmd, ch)
    ensures
      var o := Prim(s, c, cmd, ch);
      HandedOut(s, o.state, HandedBy(cmd, TxReply(o.result)))
  {
    hide SetCommand, WatchKeys, Cleanup, IncrCommand, XaddCommand, XreadCommand, PushCommand, LpopCommand, BlpopCommand,
      AckCommand, WaitCommand, IsOrder, Ascii, HandedOut, Touches, ExecFrame;
    match cmd {
      case Rpush(key, elements) => PushHands(s, key, elements, false, ch.order);
      case Lpush(key, elements) => PushHands(s, key, elements, true, ch.order);
      case Lpop(key, count) => LpopHands(s, key, count);
      case Blpop(keys, seconds) => BlpopHands(s, keys, seconds);
      case Set(key, value, ex, px) => SetHands(s, key, value, ex, px, ch.now);
      case Incr(key) => IncrHands(s, key);
      case Xadd(key, id, fields) => XaddHands(s, key, id, fields, ch.now, ch.order);
      case Ack(n) => AckHands(s, c, n, ch.order);
      case _ => OthersHand(s, c, cmd, ch);
    }
  }

  predicate TouchesNoList(cmd: Command) {
    && !cmd.Rpush? && !cmd.Lpush? && !cmd.Lpop? && !cmd.Blpop? && !cmd.Set? && !cmd.Incr? && !cmd.Xadd? && !cmd.Ack?
    && !cmd.ExecuteTx?
  }

  lemma OthersHand(s: State, c: ClientId, cmd: Command, ch: Choice)
    requires TouchesNoList(cmd)
    ensures
      var o := Prim(s, c, cmd, ch);
      HandedOut(s, o.state, HandedBy(cmd, TxReply(o.result)))
  {
    hide Prim, HandedOut;
    PrimTouches(s, c, cmd, ch);
    NothingHanded(s, Prim(s, c, cmd, ch).state);
  }

  lemma TouchHands(s: State, c: ClientId, keys: seq<Key>)
    ensures HandedOut(s, Touch(s, c, keys), [])
  {
    hide Touch, HandedOut;
    TouchFrame(s, c, keys);
    NothingHanded(s, Touch(s, c, keys));
  }

  lemma CleanupHands(s: State, c: ClientId)
    ensures HandedOut(s, Cleanup(s, c), [])
  {
    hide HandedOut;
    NothingHanded(s, Cleanup(s, c));
  }

  /** Whatever the command, transactions included: the elements taken while it ran are exactly those its own reply
      carries and those sent to the waiters it woke. */
  lemma {:induction false} TakenIsHandedOut(s: State, c: ClientId, cmd: Command, r: Result, t: State)
    requires Executes(s, c, cmd, r, t)
    ensures HandedOut(s, t, HandedBy(cmd, TxReply(r)))
    decreases cmd, 1
  {
    hide Prim, Allowed, Touch, Cleanup, HandedOut;
    var marked := Touch(s, c, ModifiedKeys(cmd));
    TouchHands(s, c, ModifiedKeys(cmd));
    if cmd.ExecuteTx? {
      if LockFailed(marked, c) {
        CleanupHands(marked, c);
        QuietThen(s, marked, t, []);
      } else {
        var replies, mid :|
          ExecutesAll(marked, c, cmd.commands, replies, mid) && r == Done(Array(replies)) && t == Cleanup(mid, c);
        RepliesLength(marked, c, cmd.commands, replies, mid);
        TakenIsHandedOutAll(marked, c, cmd.commands, replies, mid);
        CleanupHands(mid, c);
        var handed := HandedByAll(cmd.commands, replies);
        QuietThen(s, marked, mid, handed);
        ThenQuiet(s, mid, t, handed);
      }
    } else {
      var ch :| Allowed(marked, c, cmd, ch) && Prim(marked, c, cmd, ch) == Outcome(t, r);
      PrimHands(marked, c, cmd, ch);
      QuietThen(s, marked, t, HandedBy(cmd, TxReply(r)));
    }
  }

  lemma {:induction false} TakenIsHandedOutAll(s: State, c: ClientId, cmds: seq<Command>, replies: seq<Resp>, t: State)
    requires ExecutesAll(s, c, cmds, replies, t) && |cmds| == |replies|
    ensures HandedOut(s, t, HandedByAll(cmds, replies))
    decreases cmds, 0
  {
    hide Prim, Allowed, Touch, Cleanup, HandedOut;
    if cmds == [] {
      NothingHanded(s, t);
    } else {
      var n := |cmds| - 1;
      var mid, r :| ExecutesAll(s, c, cmds[..n], replies[..n], mid) && Executes(mid, c, cmds[n], r, t)
                 && replies[n] == TxReply(r);
      TakenIsHandedOutAll(s, c, cmds[..n], replies[..n], mid);
      TakenIsHandedOut(mid, c, cmds[n], r, t);
      HandedThen(s, mid, t, HandedByAll(cmds[..n], replies[..n]), HandedBy(cmds[n], replies[n]));
    }
  }

  /** A request as the clients see it: first the waiters it woke are answered, then the client itself unless it has to
      wait, and between them these replies carry exactly the elements taken. */
  lemma RequestHandsOut(s: State, c: ClientId, cmd: Command, channel: Channel, t: State)
    returns (woken: seq<Output>, r: Result)
    requires Step(s, WithReply(c, cmd, channel), t)
    ensures s.listLog <= t.listLog && s.out + woken <= t.out
    ensures r.Done? ==> s.out + woken + [Reply(channel, r.reply)] <= t.out
    ensures multiset(TakesIn(t.listLog[|s.listLog|..]))
         == multiset(HandedBy(cmd, TxReply(r))) + multiset(PoppedOut(woken))
  {
    hide Step, Executes, Account, Settle, TakesIn, PoppedOut;
    var mid, order;
    r, mid, order := RequestParts(s, c, cmd, channel, t);
    AccountFrame(s, cmd);
    TakenIsHandedOut(Account(s, cmd), c, cmd, r, mid);
    SettleSends(mid, channel, cmd, r, order);
    woken := mid.out[|s.out|..];
    assert s.out + woken == mid.out;
  }
}
