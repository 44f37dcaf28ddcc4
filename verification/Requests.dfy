/**
 One reply per request: over any run a request is answered exactly once or sits in exactly
 one table of waiters (`src/main.rs:733-741`, `880-881`, `1064-1065`, `1095-1096`, `1234-1320`).
 */
module Requests {
  import opened Types
  import opened Orders
  import opened RespCodec
  import opened Streams
  import opened Commands
  import opened StoreModel
  import opened StoreFrames

  /** How many answers were sent on a channel. */
  function Answers(out: seq<Output>, channel: Channel): nat {
    if out == [] then 0
    else
      var last := out[|out| - 1];
      Answers(out[..|out| - 1], channel) + if last.Reply? && last.channel == channel then 1 else 0
  }

  lemma {:induction false} AnswersConcat(a: seq<Output>, b: seq<Output>, channel: Channel)
    ensures Answers(a + b, channel) == Answers(a, channel) + Answers(b, channel)
  {
    if b == [] {
      assert a + b == a;
    } else {
      assert (a + b)[..|a + b| - 1] == a + b[..|b| - 1];
      AnswersConcat(a, b[..|b| - 1], channel);
    }
  }

  /** What was sent on a channel, in order. */
  function RepliesOn(out: seq<Output>, channel: Channel): seq<Resp> {
    if out == [] then []
    else
      var last := out[|out| - 1];
      RepliesOn(out[..|out| - 1], channel) + if last.Reply? && last.channel == channel then [last.resp] else []
  }

  lemma {:induction false} RepliesAreCounted(out: seq<Output>, channel: Channel)
    ensures |RepliesOn(out, channel)| == Answers(out, channel)
  {
    if out != [] {
      RepliesAreCounted(out[..|out| - 1], channel);
    }
  }

  lemma {:induction false} RepliesConcat(a: seq<Output>, b: seq<Output>, channel: Channel)
    ensures RepliesOn(a + b, channel) == RepliesOn(a, channel) + RepliesOn(b, channel)
  {
    if b == [] {
      assert a + b == a;
    } else {
      assert (a + b)[..|a + b| - 1] == a + b[..|b| - 1];
      RepliesConcat(a, b[..|b| - 1], channel);
    }
  }

  lemma {:induction false} SentIsReceived(out: seq<Output>, channel: Channel, resp: Resp)
    requires Reply(channel, resp) in out
    ensures resp in RepliesOn(out, channel)
  {
    if out[|out| - 1] != Reply(channel, resp) {
      SentIsReceived(out[..|out| - 1], channel, resp);
    }
  }

  /** With one answer at most, what was answered stays the answer. */
  lemma AnswerStays(before: seq<Output>, after: seq<Output>, channel: Channel)
    requires before <= after && Answers(after, channel) <= 1 && RepliesOn(before, channel) != []
    ensures RepliesOn(after, channel) == RepliesOn(before, channel)
  {
    var more := after[|before|..];
    assert after == before + more;
    RepliesConcat(before, more, channel);
    RepliesAreCounted(before, channel);
    RepliesAreCounted(more, channel);
    RepliesAreCounted(after, channel);
  }

  lemma {:induction false} PushesAnswerNobody(out: seq<Output>, channel: Channel)
    requires forall i :: 0 <= i < |out| ==> out[i].Push?
    ensures Answers(out, channel) == 0
  {
    if out != [] {
      PushesAnswerNobody(out[..|out| - 1], channel);
    }
  }

  /** Waiter `w` of some table holds the channel. */
  ghost predicate Holds(s: State, w: WaiterId, channel: Channel) {
    || (w in s.xreadWaiters && s.xreadWaiters[w].channel == channel)
    || (w in s.blpopWaiters && s.blpopWaiters[w].channel == channel)
    || (w in s.waitWaiters && s.waitWaiters[w].channel == channel)
  }

  ghost predicate Pending(s: State, channel: Channel) {
    exists w :: Holds(s, w, channel)
  }

  /** Waiter ids were all issued, and no id is in two tables. */
  ghost predicate TablesDisjoint(s: State) {
    && (forall w :: w in s.xreadWaiters ==> w <= s.waiterId && w !in s.blpopWaiters && w !in s.waitWaiters)
    && (forall w :: w in s.blpopWaiters ==> w <= s.waiterId && w !in s.waitWaiters)
    && (forall w :: w in s.waitWaiters ==> w <= s.waiterId)
  }

  ghost predicate OneHolder(s: State) {
    forall v, w, channel :: Holds(s, v, channel) && Holds(s, w, channel) ==> v == w
  }

  /** The requests that get an answer; acknowledgements do not. */
  predicate Expects(s: State, channel: Channel) {
    channel in s.requests && s.requests[channel]
  }

  ghost predicate EachOnce(s: State) {
    forall channel ::
      if Pending(s, channel) then Expects(s, channel) && Answers(s.out, channel) == 0
      else Answers(s.out, channel) == if Expects(s, channel) then 1 else 0
  }

  ghost predicate Accounted(s: State) {
    TablesDisjoint(s) && OneHolder(s) && EachOnce(s)
  }

  lemma NotYetAnswered(s: State, channel: Channel)
    requires Accounted(s) && channel !in s.requests
    ensures RepliesOn(s.out, channel) == []
  {
    RepliesAreCounted(s.out, channel);
    assert !Expects(s, channel);
  }

  lemma {:induction false} PushesReplyNothing(order: seq<ClientId>, cmd: Command, channel: Channel)
    ensures RepliesOn(PushTo(order, cmd), channel) == []
  {
    if order != [] {
      var n := |order| - 1;
      assert PushTo(order, cmd)[..n] == PushTo(order[..n], cmd);
      PushesReplyNothing(order[..n], cmd, channel);
    }
  }

  lemma OneReply(before: seq<Output>, channel: Channel, reply: Resp)
    requires RepliesOn(before, channel) == []
    ensures RepliesOn(before + [Reply(channel, reply)], channel) == [reply]
  {
    RepliesConcat(before, [Reply(channel, reply)], channel);
    assert [Reply(channel, reply)][..0] == [];
  }

  lemma OnlyReply(s: State, channel: Channel, resp: Resp)
    requires Accounted(s) && Reply(channel, resp) in s.out
    ensures RepliesOn(s.out, channel) == [resp]
  {
    RepliesAreCounted(s.out, channel);
    SentIsReceived(s.out, channel, resp);
    assert Answers(s.out, channel) <= 1;
  }

  // ---------------------------------------------------------------------- small moves

  /** A waiter leaves its table and its channel gets its answer. */
  lemma AnswerOne(s: State, t: State, w: WaiterId, channel: Channel, resp: Resp)
    requires Accounted(s) && Holds(s, w, channel)
    requires t == s.(xreadWaiters := s.xreadWaiters - {w}, blpopWaiters := s.blpopWaiters - {w},
                     waitWaiters := s.waitWaiters - {w}, out := s.out + [Reply(channel, resp)],
                     data := t.data, listLog := t.listLog)
    ensures Accounted(t)
  {
    assert forall v, ch :: Holds(t, v, ch) <==> Holds(s, v, ch) && v != w;
    forall ch ensures
        if Pending(t, ch) then Expects(t, ch) && Answers(t.out, ch) == 0
        else Answers(t.out, ch) == if Expects(t, ch) then 1 else 0
    {
      AnswersConcat(s.out, [Reply(channel, resp)], ch);
      if ch == channel {
        assert Pending(s, ch) && !Pending(t, ch);
      } else if Pending(s, ch) {
        var v :| Holds(s, v, ch);
        assert v != w;
        assert Holds(t, v, ch);
      }
    }
  }

  /** Changes elsewhere in the state do not matter. */
  lemma SameAccounts(s: State, t: State)
    requires Accounted(s)
    requires t.xreadWaiters == s.xreadWaiters && t.blpopWaiters == s.blpopWaiters && t.waitWaiters == s.waitWaiters
    requires s.waiterId <= t.waiterId && t.out == s.out && t.requests == s.requests
    ensures Accounted(t)
  {
    assert forall v, ch :: Holds(t, v, ch) <==> Holds(s, v, ch);
    assert forall ch :: Pending(t, ch) <==> Pending(s, ch);
  }

  lemma ServeOneKeeps(s: State, w: WaiterId)
    requires Accounted(s)
    ensures Accounted(ServeOne(s, w))
  {
    hide FirstReady, Accounted, ListOf;
    if w in s.blpopWaiters && FirstReady(s, s.blpopWaiters[w].keys).Some? {
      var k := FirstReady(s, s.blpopWaiters[w].keys).value;
      NotElsewhere(s, w);
      AnswerOne(s, ServeOne(s, w), w, s.blpopWaiters[w].channel, PoppedReply(k, ListOf(s, k)[0]));
    }
  }

  lemma WakeOneKeeps(s: State, w: WaiterId)
    requires Accounted(s)
    ensures Accounted(WakeOne(s, w))
  {
    hide XreadRows, Accounted;
    if w in s.xreadWaiters && |s.xreadWaiters[w].keys| == |s.xreadWaiters[w].ids| {
      NotElsewhere(s, w);
      var waiter := s.xreadWaiters[w];
      AnswerOne(s, WakeOne(s, w), w, waiter.channel, Array(XreadRows(s, waiter.keys, waiter.ids)));
    }
  }

  lemma ReleaseOneKeeps(s: State, w: WaiterId)
    requires Accounted(s)
    ensures Accounted(ReleaseOne(s, w))
  {
    hide CountAcked, Accounted;
    if w in s.waitWaiters {
      NotElsewhere(s, w);
      var waiter := s.waitWaiters[w];
      AnswerOne(s, ReleaseOne(s, w), w, waiter.channel, Integer(WrapI64(CountAcked(s, waiter.target))));
    }
  }

  /** A registered waiter is in one table, so taking its id out of the others changes nothing. */
  lemma NotElsewhere(s: State, w: WaiterId)
    requires Accounted(s)
    ensures w in s.xreadWaiters ==> s.blpopWaiters - {w} == s.blpopWaiters && s.waitWaiters - {w} == s.waitWaiters
    ensures w in s.blpopWaiters ==> s.xreadWaiters - {w} == s.xreadWaiters && s.waitWaiters - {w} == s.waitWaiters
    ensures w in s.waitWaiters ==> s.xreadWaiters - {w} == s.xreadWaiters && s.blpopWaiters - {w} == s.blpopWaiters
  {
  }

  // ------------------------------------------------------------------------- execution

  lemma PushKeepsAccounts(s: State, k: Key, elems: seq<Bytes>, front: bool, order: seq<WaiterId>)
    requires Accounted(s)
    ensures Accounted(PushCommand(s, k, elems, front, order).state)
  {
    hide Accounted, PushElements, ServeOne, Serve, ListOf;
    var pushed := PushElements(s, k, elems, front);
    PushElementsFrame(s, k, elems, front);
    SameAccounts(s, pushed);
    forall u, w | Accounted(u) ensures Accounted(ServeOne(u, w)) {
      ServeOneKeeps(u, w);
    }
    ServeKeeps(Accounted, pushed, order);
  }

  lemma XaddKeepsAccounts(s: State, key: Key, input: XaddId, fields: seq<Bytes>, now: u64, order: seq<WaiterId>)
    requires Accounted(s)
    ensures Accounted(XaddCommand(s, key, input, fields, now, order).state)
  {
    hide Accounted, Wake, WakeOne, Judge, XaddCommand, EnsureStream, AppendEntry, StreamOf;
    var ready := EnsureStream(s, key);
    ReadyFrame(s, key);
    SameAccounts(s, ready);
    XaddShape(s, key, input, fields, now, order);
    if ready.data[key].value.Stream? && Judge(input, StreamOf(ready, key), now).Accepted? {
      AppendKeepsAccounts(ready, key, Judge(input, StreamOf(ready, key), now).id, fields, order);
    }
  }

  lemma AppendKeepsAccounts(s: State, key: Key, id: StreamId, fields: seq<Bytes>, order: seq<WaiterId>)
    requires Accounted(s) && key in s.data && s.data[key].value.Stream?
    ensures Accounted(Wake(AppendEntry(s, key, id, fields), order))
  {
    hide Accounted, Wake, WakeOne, AppendEntry;
    var appended := AppendEntry(s, key, id, fields);
    AppendFrame(s, key, id, fields);
    SameAccounts(s, appended);
    forall u, w | Accounted(u) ensures Accounted(WakeOne(u, w)) {
      WakeOneKeeps(u, w);
    }
    WakeKeeps(Accounted, appended, order);
  }

  lemma AppendFrame(s: State, key: Key, id: StreamId, fields: seq<Bytes>)
    requires key in s.data && s.data[key].value.Stream?
    ensures AppendEntry(s, key, id, fields) == s.(data := AppendEntry(s, key, id, fields).data)
  {
    hide Insert, StreamOf;
  }

  lemma AckKeepsAccounts(s: State, c: ClientId, n: nat, order: seq<WaiterId>)
    requires Accounted(s)
    ensures Accounted(AckCommand(s, c, n, order).state)
  {
    hide Accounted, Release, ReleaseOne;
    var recorded := RecordAck(s, c, n);
    SameAccounts(s, recorded);
    forall u, w | Accounted(u) ensures Accounted(ReleaseOne(u, w)) {
      ReleaseOneKeeps(u, w);
    }
    ReleaseKeeps(Accounted, recorded, order);
  }

  lemma PrimKeepsAccounts(s: State, c: ClientId, cmd: Command, ch: Choice)
    requires Accounted(s)
    ensures Accounted(Prim(s, c, cmd, ch).state)
  {
    hide XaddCommand, PushCommand, AckCommand, Accounted;
    if cmd.Rpush? {
      PushKeepsAccounts(s, cmd.key, cmd.elements, false, ch.order);
    } else if cmd.Lpush? {
      PushKeepsAccounts(s, cmd.key, cmd.elements, true, ch.order);
    } else if cmd.Xadd? {
      XaddKeepsAccounts(s, cmd.key, cmd.id, cmd.fieldValues, ch.now, ch.order);
    } else if cmd.Ack? {
      AckKeepsAccounts(s, c, cmd.ackBytes, ch.order);
    } else {
      hide Prim;
      QuietCommands(s, c, cmd, ch);
      SameAccounts(s, Prim(s, c, cmd, ch).state);
    }
  }

  /** Every other command answers nobody and leaves the tables alone. */
  lemma QuietCommands(s: State, c: ClientId, cmd: Command, ch: Choice)
    requires !cmd.Rpush? && !cmd.Lpush? && !cmd.Xadd? && !cmd.Ack?
    ensures
      var t := Prim(s, c, cmd, ch).state;
      && t.xreadWaiters == s.xreadWaiters && t.blpopWaiters == s.blpopWaiters && t.waitWaiters == s.waitWaiters
      && s.waiterId <= t.waiterId && t.out == s.out && t.requests == s.requests
  {
    hide Prim;
    PrimTouches(s, c, cmd, ch);
  }

  lemma AccountsPrinciple()
    ensures forall u, d, ks :: Accounted(u) ==> Accounted(Touch(u, d, ks))
    ensures forall u, d :: Accounted(u) ==> Accounted(Cleanup(u, d))
    ensures forall u, d, p, ch :: Accounted(u) && Allowed(u, d, p, ch) ==> Accounted(Prim(u, d, p, ch).state)
  {
    hide Prim, Touch, Cleanup, Allowed, Accounted;
    forall u, d, ks | Accounted(u) ensures Accounted(Touch(u, d, ks)) {
      TouchFrame(u, d, ks);
      SameAccounts(u, Touch(u, d, ks));
    }
    forall u, d | Accounted(u) ensures Accounted(Cleanup(u, d)) {
      CleanupFrame(u, d);
      SameAccounts(u, Cleanup(u, d));
    }
    forall u, d, p, ch | Accounted(u) && Allowed(u, d, p, ch) ensures Accounted(Prim(u, d, p, ch).state) {
      PrimKeepsAccounts(u, d, p, ch);
    }
  }

  // -------------------------------------------------------------------------- settling

  /** A request answered at once. */
  lemma SettleDone(s: State, t: State, channel: Channel, resp: Resp, pushes: seq<Output>)
    requires Accounted(s) && channel !in s.requests
    requires forall i :: 0 <= i < |pushes| ==> pushes[i].Push?
    requires t == s.(out := s.out + [Reply(channel, resp)] + pushes, requests := s.requests[channel := true],
                     clients := t.clients)
    ensures Accounted(t)
  {
    assert forall v, ch :: Holds(t, v, ch) <==> Holds(s, v, ch);
    forall ch ensures
        if Pending(t, ch) then Expects(t, ch) && Answers(t.out, ch) == 0
        else Answers(t.out, ch) == if Expects(t, ch) then 1 else 0
    {
      AnswersConcat(s.out + [Reply(channel, resp)], pushes, ch);
      AnswersConcat(s.out, [Reply(channel, resp)], ch);
      PushesAnswerNobody(pushes, ch);
      assert Pending(t, ch) <==> Pending(s, ch);
    }
  }

  /** A request that waits under a new id. */
  lemma SettleBlocked(s: State, t: State, w: WaiterId, channel: Channel, pushes: seq<Output>)
    requires Accounted(s) && channel !in s.requests
    requires w !in s.xreadWaiters && w !in s.blpopWaiters && w !in s.waitWaiters
    requires TablesDisjoint(t) && t.out == s.out + pushes && t.requests == s.requests[channel := true]
    requires forall i :: 0 <= i < |pushes| ==> pushes[i].Push?
    requires forall v, ch :: Holds(t, v, ch) <==> Holds(s, v, ch) || (v == w && ch == channel)
    ensures Accounted(t)
  {
    assert Holds(t, w, channel);
    assert !Pending(s, channel);
    forall ch ensures
        if Pending(t, ch) then Expects(t, ch) && Answers(t.out, ch) == 0
        else Answers(t.out, ch) == if Expects(t, ch) then 1 else 0
    {
      AnswersConcat(s.out, pushes, ch);
      PushesAnswerNobody(pushes, ch);
      if ch != channel {
        assert Pending(t, ch) <==> Pending(s, ch);
      }
    }
  }

  lemma SettleSilent(s: State, channel: Channel)
    requires Accounted(s) && channel !in s.requests
    ensures Accounted(s.(requests := s.requests[channel := false]))
  {
    var t := s.(requests := s.requests[channel := false]);
    assert forall v, ch :: Holds(t, v, ch) <==> Holds(s, v, ch);
    assert !Pending(s, channel);
    assert forall ch :: Pending(t, ch) <==> Pending(s, ch);
  }

  /** The id of a waiter about to be registered is in none of the tables. */
  lemma NewIdIsNew(s: State, mid: State)
    requires Accounted(s) && mid == s.(waiterId := s.waiterId + 1)
    ensures mid.waiterId !in mid.xreadWaiters && mid.waiterId !in mid.blpopWaiters && mid.waiterId !in mid.waitWaiters
  {
  }

  lemma SettleKeepsAccounts(s: State, c: ClientId, cmd: Command, r: Result, mid: State, channel: Channel,
                            order: seq<ClientId>)
    requires Accounted(s) && Accounted(mid) && Executes(s, c, cmd, r, mid) && channel !in mid.requests
    ensures Accounted(Settle(mid, channel, cmd, r, order))
  {
    hide Executes, Accounted;
    var t := Settle(mid, channel, cmd, r, order);
    match r {
      case Done(reply) =>
        SettleDone(mid, t, channel, reply, if IsReplicatable(cmd) then PushTo(order, cmd) else []);
      case NoReply =>
        SettleSilent(mid, channel);
      case BlockXread(w, keys, ids) =>
        BlockingMeans(s, c, cmd, r, mid);
        NewIdIsNew(s, mid);
        XreadBlocked(mid, t, w, XreadWaiter(channel, keys, ids));
      case BlockBlpop(w, keys) =>
        BlockingMeans(s, c, cmd, r, mid);
        NewIdIsNew(s, mid);
        BlpopBlocked(mid, t, w, BlpopWaiter(channel, keys));
      case BlockWait(w, n, _) =>
        BlockingMeans(s, c, cmd, r, mid);
        NewIdIsNew(s, mid);
        WaitBlocked(mid, t, w, WaitWaiter(channel, n, mid.masterAck),
                    if mid.pendingWrites then PushTo(order, GetAck) else []);
    }
  }

  ghost predicate NewId(s: State, w: WaiterId, channel: Channel) {
    && Accounted(s) && channel !in s.requests && w == s.waiterId
    && w !in s.xreadWaiters && w !in s.blpopWaiters && w !in s.waitWaiters
  }

  lemma XreadBlocked(s: State, t: State, w: WaiterId, waiter: XreadWaiter)
    requires NewId(s, w, waiter.channel)
    requires t == s.(xreadWaiters := s.xreadWaiters[w := waiter], requests := s.requests[waiter.channel := true])
    ensures Accounted(t)
  {
    assert t.out == s.out + [];
    SettleBlocked(s, t, w, waiter.channel, []);
  }

  lemma BlpopBlocked(s: State, t: State, w: WaiterId, waiter: BlpopWaiter)
    requires NewId(s, w, waiter.channel)
    requires t == s.(blpopWaiters := s.blpopWaiters[w := waiter], requests := s.requests[waiter.channel := true])
    ensures Accounted(t)
  {
    assert t.out == s.out + [];
    SettleBlocked(s, t, w, waiter.channel, []);
  }

  lemma WaitBlocked(s: State, t: State, w: WaiterId, waiter: WaitWaiter, pushes: seq<Output>)
    requires NewId(s, w, waiter.channel)
    requires forall i :: 0 <= i < |pushes| ==> pushes[i].Push?
    requires t == s.(waitWaiters := s.waitWaiters[w := waiter], requests := s.requests[waiter.channel := true],
                     out := s.out + pushes, broadcasts := t.broadcasts, pendingWrites := t.pendingWrites)
    ensures Accounted(t)
  {
    SettleBlocked(s, t, w, waiter.channel, pushes);
  }

  lemma XreadTimeoutKeeps(s: State, w: WaiterId)
    requires Accounted(s)
    ensures Accounted(TimeOutXread(s, w))
  {
    hide Accounted;
    NotElsewhere(s, w);
    if w in s.xreadWaiters {
      AnswerOne(s, TimeOutXread(s, w), w, s.xreadWaiters[w].channel, NullArray);
    }
  }

  lemma BlpopTimeoutKeeps(s: State, w: WaiterId)
    requires Accounted(s)
    ensures Accounted(TimeOutBlpop(s, w))
  {
    hide Accounted;
    NotElsewhere(s, w);
    if w in s.blpopWaiters {
      AnswerOne(s, TimeOutBlpop(s, w), w, s.blpopWaiters[w].channel, NullArray);
    }
  }

  lemma WaitTimeoutKeeps(s: State, w: WaiterId)
    requires Accounted(s)
    ensures Accounted(TimeOutWait(s, w))
  {
    hide Accounted, CountAcked;
    NotElsewhere(s, w);
    if w in s.waitWaiters {
      AnswerOne(s, TimeOutWait(s, w), w, s.waitWaiters[w].channel,
                Integer(WrapI64(CountAcked(s, s.waitWaiters[w].target))));
    }
  }

  lemma JoinKeepsAccounts(s: State, c: ClientId, channel: Channel, t: State)
    requires Accounted(s) && Step(s, AddReplica(c, channel), t)
    ensures Accounted(t)
  {
    hide Accounted;
    JoinFrame(s, c, channel, t);
    assert channel !in s.requests;
    hide Step;
    var resp :| t.out == s.out + [Reply(channel, resp)];
    assert t.out == s.out + [Reply(channel, resp)] + [];
    SettleDone(s, t, channel, resp, []);
  }

  lemma StepKeepsAccounts(s: State, e: Envelope, t: State)
    requires Accounted(s) && Step(s, e, t)
    ensures Accounted(t)
  {
    hide Executes, Account, Settle, Accounted, IsOrder, Prim, Touch, Cleanup, Allowed;
    hide TimeOutXread, TimeOutBlpop, TimeOutWait, JoinReplica;
    match e {
      case WithReply(c, cmd, channel) => RequestKeepsAccounts(s, c, cmd, channel, t);
      case Replicate(cmd) =>
        var r := ReplicatePart(s, cmd, t);
        AccountsPrinciple();
        ExecKeeps(Accounted, s, 0, cmd, r, t);
      case TimeoutXread(w) => XreadTimeoutKeeps(s, w);
      case TimeoutBlpop(w) => BlpopTimeoutKeeps(s, w);
      case TimeoutWait(w) => WaitTimeoutKeeps(s, w);
      case AddReplica(c, channel) => JoinKeepsAccounts(s, c, channel, t);
      case RegisterClient(_) => SameAccounts(s, t);
      case UnregisterClient(_) => SameAccounts(s, t);
    }
  }

  lemma RequestKeepsAccounts(s: State, c: ClientId, cmd: Command, channel: Channel, t: State)
    requires Accounted(s) && Step(s, WithReply(c, cmd, channel), t)
    ensures Accounted(t)
  {
    hide Step, Executes, Account, Settle, Accounted, IsOrder, Prim, Touch, Cleanup, Allowed;
    var r, mid, order := RequestParts(s, c, cmd, channel, t);
    var counted := Account(s, cmd);
    AccountFrame(s, cmd);
    SameAccounts(s, counted);
    AccountsPrinciple();
    ExecKeeps(Accounted, counted, c, cmd, r, mid);
    ExecKeepsFrame(counted, c, cmd, r, mid);
    SettleKeepsAccounts(counted, c, cmd, r, mid, channel, order);
  }

  lemma BootAccounts(s: State)
    requires Booted(s)
    ensures Accounted(s)
  {
    hide Prim, Touch, Cleanup, Allowed, ExecutesAll;
    var r: RdbCodec.Rdb, cmds, replies :| ExecutesAll(Fresh(FromRdb(r)), 0, cmds, replies, s);
    var start := Fresh(FromRdb(r));
    assert forall w, ch :: !Holds(start, w, ch);
    assert Accounted(start);
    hide Accounted;
    AccountsPrinciple();
    ExecSeqKeeps(Accounted, start, 0, cmds, replies, s);
  }

  /** In every reachable state each request that expects an answer has been answered exactly once or
      is held by exactly one waiter, and no channel was ever answered twice. */
  lemma {:induction false} OneReplyPerRequest(states: seq<State>, envelopes: seq<Envelope>, i: nat)
    requires Run(states, envelopes) && i < |states|
    ensures TablesDisjoint(states[i]) && OneHolder(states[i]) && EachOnce(states[i])
  {
    hide Step, Booted, TablesDisjoint, OneHolder, EachOnce;
    if i == 0 {
      BootAccounts(states[0]);
    } else {
      OneReplyPerRequest(states, envelopes, i - 1);
      StepKeepsAccounts(states[i - 1], envelopes[i - 1], states[i]);
    }
  }

  /** Which requests expect an answer: all but acknowledgements. */
  lemma RequestExpectsReply(s: State, c: ClientId, cmd: Command, channel: Channel, t: State)
    requires Step(s, WithReply(c, cmd, channel), t)
    ensures channel in t.requests && (t.requests[channel] <==> !cmd.Ack?)
    ensures forall other :: other != channel ==> (other in t.requests <==> other in s.requests)
    ensures forall other :: other != channel && other in s.requests ==> t.requests[other] == s.requests[other]
  {
    hide Step, Executes, Account, IsOrder, PushTo;
    var r, mid, order := RequestParts(s, c, cmd, channel, t);
    AccountFrame(s, cmd);
    ExecKeepsFrame(Account(s, cmd), c, cmd, r, mid);
    ResultKind(Account(s, cmd), c, cmd, r, mid);
  }
}
