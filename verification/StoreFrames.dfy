/**
 What the parts of a command leave alone, and what each kind of result says about the
 command that gave it. Used by all the theorems about runs.
 */
module StoreFrames {
  import opened Types
  import opened Decimal
  import opened Orders
  import opened RespCodec
  import opened Streams
  import opened Commands
  import opened RdbCodec
  import opened StoreModel

  /** `t` differs from `s` at most in who watches what. */
  ghost predicate OnlyWatches(s: State, t: State) {
    t == s.(watched := t.watched, watchLog := t.watchLog)
  }

  lemma TouchFrame(s: State, c: ClientId, keys: seq<Key>)
    ensures OnlyWatches(s, Touch(s, c, keys))
  {
    TouchKeeps(u => OnlyWatches(s, u), s, c, keys);
  }

  lemma WatchFrame(s: State, c: ClientId, keys: seq<Key>)
    ensures OnlyWatches(s, WatchKeys(s, c, keys))
  {
    WatchKeeps(u => OnlyWatches(s, u), s, c, keys);
  }

  ghost predicate OnlyLists(s: State, t: State) {
    t == s.(data := t.data, listLog := t.listLog, blpopWaiters := t.blpopWaiters, out := t.out)
  }

  lemma ServeFrame(s: State, order: seq<WaiterId>)
    ensures OnlyLists(s, Serve(s, order))
  {
    ServeKeeps(u => OnlyLists(s, u), s, order);
  }

  ghost predicate OnlyListData(s: State, t: State) {
    t == s.(data := t.data, listLog := t.listLog)
  }

  lemma PopManyFrame(s: State, k: Key, count: nat)
    ensures OnlyListData(s, PopMany(s, k, count))
  {
    PopManyKeeps(u => OnlyListData(s, u), s, k, count);
  }

  ghost predicate OnlyXreadWaiters(s: State, t: State) {
    t == s.(xreadWaiters := t.xreadWaiters, out := t.out)
  }

  lemma WakeFrame(s: State, order: seq<WaiterId>)
    ensures OnlyXreadWaiters(s, Wake(s, order))
  {
    WakeKeeps(u => OnlyXreadWaiters(s, u), s, order);
  }

  ghost predicate OnlyWaitWaiters(s: State, t: State) {
    t == s.(waitWaiters := t.waitWaiters, out := t.out)
  }

  lemma ReleaseFrame(s: State, order: seq<WaiterId>)
    ensures OnlyWaitWaiters(s, Release(s, order))
  {
    ReleaseKeeps(u => OnlyWaitWaiters(s, u), s, order);
  }

  /** Only BLPOP, XREAD and WAIT block, and only acknowledgements go unanswered. */
  ghost predicate KindOfResult(cmd: Command, r: Result) {
    && (r.BlockBlpop? ==> cmd.Blpop?) && (r.BlockXread? ==> cmd.Xread?) && (r.BlockWait? ==> cmd.Wait?)
    && (r.NoReply? <==> cmd.Ack?)
    && (IsReplicatable(cmd) || cmd.ExecuteTx? ==> r.Done?)
  }

  lemma ArmResults(s: State, c: ClientId, cmd: Command, ch: Choice)
    requires Allowed(s, c, cmd, ch)
    ensures KindOfResult(cmd, Prim(s, c, cmd, ch).result)
  {
    hide Serve, Wake, Release, PopMany, Touch, WatchKeys, IsOrder, Incremented, Judge;
  }

  lemma ResultKind(s: State, c: ClientId, cmd: Command, r: Result, t: State)
    requires Executes(s, c, cmd, r, t)
    ensures KindOfResult(cmd, r)
  {
    hide Prim, Allowed, Touch;
    if !cmd.ExecuteTx? {
      var marked := Touch(s, c, ModifiedKeys(cmd));
      var ch :| Allowed(marked, c, cmd, ch) && Prim(marked, c, cmd, ch) == Outcome(t, r);
      ArmResults(marked, c, cmd, ch);
    }
  }

  /** A command that blocks changes nothing but the waiter counter; its waiter id is the new value of
      the counter and what it waits for is not there. */
  lemma BlockingMeans(s: State, c: ClientId, cmd: Command, r: Result, t: State)
    requires Executes(s, c, cmd, r, t) && (r.BlockBlpop? || r.BlockXread? || r.BlockWait?)
    ensures t == s.(waiterId := s.waiterId + 1) && BlockTimeout(cmd).Some? == !r.BlockWait?
    ensures r.BlockBlpop? ==>
      && cmd.Blpop? && r.blpopId == t.waiterId && r.blpopKeys == cmd.keys
      && forall k :: k in cmd.keys ==> ListOf(t, k) == []
    ensures r.BlockXread? ==>
      && cmd.Xread? && r.xreadId == t.waiterId && r.xreadKeys == cmd.keys && |cmd.keys| == |cmd.ids|
      && r.ids == ResolveIds(s, cmd.keys, cmd.ids) && NothingAbove(t, r.xreadKeys, r.ids)
    ensures r.BlockWait? ==>
      && cmd.Wait? && r.waitId == t.waiterId && r.numReplicas == cmd.numReplicas
      && CountAcked(t, t.masterAck) < r.numReplicas
  {
    ResultKind(s, c, cmd, r, t);
  }

  /** EXEC answers null if another client shares a watched key, and one reply per command otherwise. */
  lemma TransactionReplies(s: State, c: ClientId, cmds: seq<Command>, r: Result, t: State)
    requires Executes(s, c, ExecuteTx(cmds), r, t)
    ensures LockFailed(s, c) ==> r == Done(NullArray) && t == Cleanup(s, c)
    ensures !LockFailed(s, c) ==> r.Done? && r.reply.Array? && |r.reply.els| == |cmds|
    ensures c !in Watchers(t)
  {
    var marked := Touch(s, c, []);
    assert marked == s;
    if !LockFailed(s, c) {
      var replies, mid :| ExecutesAll(s, c, cmds, replies, mid) && r == Done(Array(replies)) && t == Cleanup(mid, c);
    }
  }

  /** Everyone who watches something. */
  function Watchers(s: State): set<ClientId> {
    set k, c | k in s.watched && c in s.watched[k] :: c
  }

  /** What an execution, nested or not, never touches. */
  ghost predicate ExecFrame(s: State, t: State) {
    && t.clients == s.clients && t.masterAck == s.masterAck && t.pendingWrites == s.pendingWrites
    && t.aof == s.aof && t.logged == s.logged && t.requests == s.requests && t.broadcasts == s.broadcasts
    && s.waiterId <= t.waiterId
    && s.out <= t.out
    && forall i :: |s.out| <= i < |t.out| ==> t.out[i].Reply?
  }

  lemma ExecFrameRefl(s: State)
    ensures ExecFrame(s, s)
  {
  }

  lemma ExecFrameTrans(s: State, t: State, u: State)
    requires ExecFrame(s, t) && ExecFrame(t, u)
    ensures ExecFrame(s, u)
  {
  }

  /** Which commands can touch which part of the state. */
  ghost predicate Touches(s: State, cmd: Command, t: State) {
    && ExecFrame(s, t)
    && (cmd.Watch? || cmd.Unwatch? || cmd.Discard? || (t.watched == s.watched && t.watchLog == s.watchLog))
    && (cmd.Rpush? || cmd.Lpush? || cmd.Xadd? || cmd.Ack? || t.out == s.out)
    && (cmd.Xadd? || t.xreadWaiters == s.xreadWaiters)
    && (cmd.Rpush? || cmd.Lpush? || t.blpopWaiters == s.blpopWaiters)
    && (cmd.Ack? || (t.waitWaiters == s.waitWaiters && t.replicaAcks == s.replicaAcks))
    && (cmd.Blpop? || cmd.Xread? || cmd.Wait? || t.waiterId == s.waiterId)
    && (cmd.Rpush? || cmd.Lpush? || cmd.Lpop? || cmd.Blpop? || cmd.Set? || cmd.Incr?
        || t.listLog == s.listLog)
    && (cmd.Rpush? || cmd.Lpush? || cmd.Lpop? || cmd.Blpop? || cmd.Set? || cmd.Incr? || cmd.Xadd?
        || t.data == s.data)
  }

  lemma XaddFrame(s: State, key: Key, id: XaddId, fields: seq<Bytes>, now: u64, order: seq<WaiterId>)
    ensures
      var t := XaddCommand(s, key, id, fields, now, order).state;
      t == s.(data := t.data, xreadWaiters := t.xreadWaiters, out := t.out) && ExecFrame(s, t)
  {
    hide Wake, Judge, Ascii, IdText, StreamOf, ExecFrame, EnsureStream, AppendEntry;
    var ready := EnsureStream(s, key);
    ReadyFrame(s, key);
    SameOut(s, ready);
    if ready.data[key].value.Stream? && Judge(id, StreamOf(ready, key), now).Accepted? {
      var newId := Judge(id, StreamOf(ready, key), now).id;
      AppendWakes(s, ready, key, newId, fields, order);
    }
  }

  lemma ReadyFrame(s: State, key: Key)
    ensures key in EnsureStream(s, key).data && EnsureStream(s, key) == s.(data := EnsureStream(s, key).data)
  {
    if key in s.data {
      assert EnsureStream(s, key) == s;
    } else {
      assert EnsureStream(s, key) == s.(data := s.data[key := Value(Stream([]), None)]);
    }
  }

  lemma AppendWakes(s: State, ready: State, key: Key, id: StreamId, fields: seq<Bytes>, order: seq<WaiterId>)
    requires ready == s.(data := ready.data) && key in ready.data && ready.data[key].value.Stream?
    ensures
      var t := Wake(AppendEntry(ready, key, id, fields), order);
      t == s.(data := t.data, xreadWaiters := t.xreadWaiters, out := t.out) && ExecFrame(s, t)
  {
    hide Wake, Insert, StreamOf, ExecFrame;
    var appended := AppendEntry(ready, key, id, fields);
    SameOut(s, appended);
    WakeReplies(appended, order);
    WakeFrame(appended, order);
    ExecFrameTrans(s, appended, Wake(appended, order));
  }

  lemma SameOut(s: State, t: State)
    requires t == s.(data := t.data, listLog := t.listLog, waiterId := t.waiterId, replicaAcks := t.replicaAcks)
    requires s.waiterId <= t.waiterId
    ensures ExecFrame(s, t)
  {
  }

  lemma PushFrame(s: State, key: Key, elems: seq<Bytes>, front: bool, order: seq<WaiterId>)
    ensures OnlyLists(s, PushCommand(s, key, elems, front, order).state)
    ensures ExecFrame(s, PushCommand(s, key, elems, front, order).state)
  {
    hide Serve, Reversed, ExecFrame, ListOf;
    var pushed := PushElements(s, key, elems, front);
    SameOut(s, pushed);
    ServeReplies(pushed, order);
    ServeFrame(pushed, order);
    ExecFrameTrans(s, pushed, Serve(pushed, order));
  }

  lemma ListDataItself(s: State)
    ensures OnlyListData(s, s)
  {
  }

  lemma PopFrontFrame(s: State, key: Key)
    requires ListOf(s, key) != []
    ensures OnlyListData(s, PopFront(s, key))
  {
  }

  lemma LpopFrame(s: State, key: Key, count: Option<u32>)
    ensures OnlyListData(s, LpopCommand(s, key, count).state)
  {
    hide PopMany, PopFront, OnlyListData, BulkStrings;
    ListDataItself(s);
    if ListOf(s, key) != [] {
      PopFrontFrame(s, key);
    }
    if count.Some? {
      PopManyFrame(s, key, count.value);
    }
  }

  lemma AckFrame(s: State, c: ClientId, n: nat, order: seq<WaiterId>)
    ensures
      var t := AckCommand(s, c, n, order).state;
      t == s.(replicaAcks := t.replicaAcks, waitWaiters := t.waitWaiters, out := t.out) && ExecFrame(s, t)
  {
    hide Release, ExecFrame;
    var recorded := RecordAck(s, c, n);
    SameOut(s, recorded);
    ReleaseReplies(recorded, order);
    ReleaseFrame(recorded, order);
    ExecFrameTrans(s, recorded, Release(recorded, order));
  }

  lemma SetFrame(s: State, key: Key, value: Bytes, ex: Option<u64>, px: Option<u64>, now: u64)
    ensures OnlyListData(s, SetCommand(s, key, value, ex, px, now).state)
  {
  }

  lemma IncrFrame(s: State, key: Key)
    ensures OnlyListData(s, IncrCommand(s, key).state)
  {
    hide Incremented, Ascii, IntText;
  }

  lemma BlpopFrame(s: State, keys: seq<Key>)
    ensures
      var t := BlpopCommand(s, keys).state;
      OnlyListData(s, t) || t == s.(waiterId := s.waiterId + 1)
  {
    hide FirstReady;
  }

  lemma ReaderFrame(s: State, keys: seq<Key>, ms: Option<u64>, ids: seq<XreadId>, n: nat, timeout: nat)
    ensures |keys| == |ids| ==>
      var t := XreadCommand(s, keys, ms, ids).state; t == s || t == s.(waiterId := s.waiterId + 1)
    ensures
      var t := WaitCommand(s, n, timeout).state; t == s || t == s.(waiterId := s.waiterId + 1)
  {
    hide ResolveIds, XreadRows, NothingAbove, CountAcked;
  }

  lemma PrimTouches(s: State, c: ClientId, cmd: Command, ch: Choice)
    ensures Touches(s, cmd, Prim(s, c, cmd, ch).state)
  {
    hide SetCommand, WatchKeys, Cleanup, IncrCommand, XaddCommand, XreadCommand, PushCommand, LpopCommand;
    hide BlpopCommand, AckCommand, WaitCommand, Touches;
    NothingTouched(s, cmd);
    match cmd {
      case Watch(_) => WatchTouches(s, c, cmd);
      case Unwatch => WatchTouches(s, c, cmd);
      case Discard => WatchTouches(s, c, cmd);
      case Rpush(key, elements) => PushTouches(s, cmd, key, elements, false, ch.order);
      case Lpush(key, elements) => PushTouches(s, cmd, key, elements, true, ch.order);
      case Lpop(key, count) =>
        LpopFrame(s, key, count);
        ListDataTouches(s, cmd, LpopCommand(s, key, count).state);
      case Xadd(key, id, fields) => XaddTouches(s, cmd, key, id, fields, ch.now, ch.order);
      case Ack(n) => AckTouches(s, c, cmd, ch.order);
      case Set(key, value, ex, px) =>
        SetFrame(s, key, value, ex, px, ch.now);
        ListDataTouches(s, cmd, SetCommand(s, key, value, ex, px, ch.now).state);
      case Incr(key) =>
        IncrFrame(s, key);
        ListDataTouches(s, cmd, IncrCommand(s, key).state);
      case Blpop(keys, _) => BlpopTouches(s, cmd);
      case Xread(keys, ms, ids) => ReadersTouch(s, cmd);
      case Wait(n, timeout) => ReadersTouch(s, cmd);
      case _ =>
    }
  }

  lemma NothingTouched(s: State, cmd: Command)
    ensures Touches(s, cmd, s)
  {
  }

  lemma ListDataTouches(s: State, cmd: Command, t: State)
    requires OnlyListData(s, t) && (cmd.Lpop? || cmd.Set? || cmd.Incr? || cmd.Blpop?)
    ensures Touches(s, cmd, t)
  {
  }

  lemma CounterTouches(s: State, cmd: Command, t: State)
    requires t == s.(waiterId := s.waiterId + 1) && (cmd.Blpop? || cmd.Xread? || cmd.Wait?)
    ensures Touches(s, cmd, t)
  {
  }

  lemma WatchesTouch(s: State, cmd: Command, t: State)
    requires OnlyWatches(s, t) && (cmd.Watch? || cmd.Unwatch? || cmd.Discard?)
    ensures Touches(s, cmd, t)
  {
  }

  lemma WatchTouches(s: State, c: ClientId, cmd: Command)
    requires cmd.Watch? || cmd.Unwatch? || cmd.Discard?
    ensures cmd.Watch? ==> Touches(s, cmd, WatchKeys(s, c, cmd.keys))
    ensures Touches(s, cmd, Cleanup(s, c))
  {
    hide WatchKeys, Touches, Cleanup;
    CleanupFrame(s, c);
    WatchesTouch(s, cmd, Cleanup(s, c));
    if cmd.Watch? {
      WatchFrame(s, c, cmd.keys);
      WatchesTouch(s, cmd, WatchKeys(s, c, cmd.keys));
    }
  }

  lemma PushTouches(s: State, cmd: Command, key: Key, elems: seq<Bytes>, front: bool, order: seq<WaiterId>)
    requires cmd.Rpush? || cmd.Lpush?
    ensures Touches(s, cmd, PushCommand(s, key, elems, front, order).state)
  {
    hide PushCommand, ExecFrame;
    PushFrame(s, key, elems, front, order);
  }

  lemma XaddTouches(s: State, cmd: Command, key: Key, id: XaddId, fields: seq<Bytes>, now: u64, order: seq<WaiterId>)
    requires cmd.Xadd?
    ensures Touches(s, cmd, XaddCommand(s, key, id, fields, now, order).state)
  {
    hide XaddCommand, ExecFrame;
    XaddFrame(s, key, id, fields, now, order);
  }

  lemma AckTouches(s: State, c: ClientId, cmd: Command, order: seq<WaiterId>)
    requires cmd.Ack?
    ensures Touches(s, cmd, AckCommand(s, c, cmd.ackBytes, order).state)
  {
    hide AckCommand, ExecFrame;
    AckFrame(s, c, cmd.ackBytes, order);
  }

  lemma BlpopTouches(s: State, cmd: Command)
    requires cmd.Blpop?
    ensures Touches(s, cmd, BlpopCommand(s, cmd.keys).state)
  {
    hide BlpopCommand, Touches;
    var t := BlpopCommand(s, cmd.keys).state;
    BlpopFrame(s, cmd.keys);
    if OnlyListData(s, t) {
      ListDataTouches(s, cmd, t);
    } else {
      CounterTouches(s, cmd, t);
    }
  }

  lemma ReadersTouch(s: State, cmd: Command)
    ensures cmd.Xread? && |cmd.keys| == |cmd.ids| ==>
      Touches(s, cmd, XreadCommand(s, cmd.keys, cmd.milliseconds, cmd.ids).state)
    ensures cmd.Wait? ==> Touches(s, cmd, WaitCommand(s, cmd.numReplicas, cmd.timeout).state)
  {
    hide XreadCommand, WaitCommand, Touches;
    NothingTouched(s, cmd);
    if cmd.Xread? && |cmd.keys| == |cmd.ids| {
      ReaderFrame(s, cmd.keys, cmd.milliseconds, cmd.ids, 0, 0);
      if XreadCommand(s, cmd.keys, cmd.milliseconds, cmd.ids).state != s {
        CounterTouches(s, cmd, XreadCommand(s, cmd.keys, cmd.milliseconds, cmd.ids).state);
      }
    } else if cmd.Wait? {
      ReaderFrame(s, [], None, [], cmd.numReplicas, cmd.timeout);
      if WaitCommand(s, cmd.numReplicas, cmd.timeout).state != s {
        CounterTouches(s, cmd, WaitCommand(s, cmd.numReplicas, cmd.timeout).state);
      }
    }
  }

  lemma CleanupFrame(s: State, c: ClientId)
    ensures OnlyWatches(s, Cleanup(s, c))
  {
  }

  lemma ServeReplies(s: State, order: seq<WaiterId>)
    ensures ExecFrame(s, Serve(s, order))
  {
    ServeKeeps(u => ExecFrame(s, u), s, order);
  }

  lemma WakeReplies(s: State, order: seq<WaiterId>)
    ensures ExecFrame(s, Wake(s, order))
  {
    WakeKeeps(u => ExecFrame(s, u), s, order);
  }

  lemma ReleaseReplies(s: State, order: seq<WaiterId>)
    ensures ExecFrame(s, Release(s, order))
  {
    ReleaseKeeps(u => ExecFrame(s, u), s, order);
  }

  lemma FramePrinciple(s: State)
    ensures forall u, d, ks :: ExecFrame(s, u) ==> ExecFrame(s, Touch(u, d, ks))
    ensures forall u, d :: ExecFrame(s, u) ==> ExecFrame(s, Cleanup(u, d))
    ensures forall u, d, p, ch :: ExecFrame(s, u) && Allowed(u, d, p, ch) ==> ExecFrame(s, Prim(u, d, p, ch).state)
  {
    hide Prim, Touch, Allowed;
    forall u, d, ks | ExecFrame(s, u) ensures ExecFrame(s, Touch(u, d, ks)) {
      TouchFrame(u, d, ks);
    }
    forall u, d, p, ch | ExecFrame(s, u) && Allowed(u, d, p, ch) ensures ExecFrame(s, Prim(u, d, p, ch).state) {
      PrimTouches(u, d, p, ch);
      ExecFrameTrans(s, u, Prim(u, d, p, ch).state);
    }
  }

  lemma ExecKeepsFrame(s: State, c: ClientId, cmd: Command, r: Result, t: State)
    requires Executes(s, c, cmd, r, t)
    ensures ExecFrame(s, t)
  {
    hide Prim, Executes, Touch, Cleanup, Allowed;
    FramePrinciple(s);
    ExecKeeps(u => ExecFrame(s, u), s, c, cmd, r, t);
  }

  // ------------------------------------------------------------------ other envelopes

  lemma JoinFrame(s: State, c: ClientId, channel: Channel, t: State)
    requires Step(s, AddReplica(c, channel), t)
    ensures t == s.(clients := t.clients, requests := s.requests[channel := true], out := t.out)
    ensures t.clients == if c in s.clients then s.clients[c := true] else s.clients
    ensures exists resp :: t.out == s.out + [Reply(channel, resp)]
  {
    hide SerializeIn, ToRdb;
    var order :| IsOrder(order, ToRdb(s.data).data.Keys) && t == JoinReplica(s, c, channel, order);
    assert t.out == s.out + [Reply(channel, File(SerializeIn(ToRdb(s.data), [], order)))];
  }

  lemma XreadTimeOut(s: State, w: WaiterId)
    ensures
      var t := TimeOutXread(s, w);
      && t == s.(xreadWaiters := s.xreadWaiters - {w}, out := t.out)
      && t.out == s.out + if w in s.xreadWaiters then [Reply(s.xreadWaiters[w].channel, NullArray)] else []
  {
    assert w !in s.xreadWaiters ==> s.xreadWaiters - {w} == s.xreadWaiters;
  }

  lemma BlpopTimeOut(s: State, w: WaiterId)
    ensures
      var t := TimeOutBlpop(s, w);
      && t == s.(blpopWaiters := s.blpopWaiters - {w}, out := t.out)
      && t.out == s.out + if w in s.blpopWaiters then [Reply(s.blpopWaiters[w].channel, NullArray)] else []
  {
    assert w !in s.blpopWaiters ==> s.blpopWaiters - {w} == s.blpopWaiters;
  }

  lemma WaitTimeOut(s: State, w: WaiterId)
    ensures
      var t := TimeOutWait(s, w);
      && t == s.(waitWaiters := s.waitWaiters - {w}, out := t.out)
      && t.out == s.out + if w in s.waitWaiters
                          then [Reply(s.waitWaiters[w].channel, Integer(WrapI64(CountAcked(s, s.waitWaiters[w].target))))]
                          else []
  {
    hide CountAcked;
    assert w !in s.waitWaiters ==> s.waitWaiters - {w} == s.waitWaiters;
  }

  /** A timer for a waiter already answered does nothing; otherwise the waiter is answered and removed. */
  lemma TimeOutFrames(s: State, w: WaiterId)
    ensures
      var t := TimeOutXread(s, w);
      && t == s.(xreadWaiters := s.xreadWaiters - {w}, out := t.out)
      && t.out == s.out + if w in s.xreadWaiters then [Reply(s.xreadWaiters[w].channel, NullArray)] else []
    ensures
      var t := TimeOutBlpop(s, w);
      && t == s.(blpopWaiters := s.blpopWaiters - {w}, out := t.out)
      && t.out == s.out + if w in s.blpopWaiters then [Reply(s.blpopWaiters[w].channel, NullArray)] else []
    ensures
      var t := TimeOutWait(s, w);
      && t == s.(waitWaiters := s.waitWaiters - {w}, out := t.out)
      && t.out == s.out + if w in s.waitWaiters
                          then [Reply(s.waitWaiters[w].channel, Integer(WrapI64(CountAcked(s, s.waitWaiters[w].target))))]
                          else []
  {
    hide CountAcked, TimeOutXread, TimeOutBlpop, TimeOutWait;
    XreadTimeOut(s, w);
    BlpopTimeOut(s, w);
    WaitTimeOut(s, w);
  }

  /** What every step other than a request and a replicated command leaves alone. */
  ghost predicate Quiet(s: State, t: State) {
    && t == s.(clients := t.clients, replicaAcks := t.replicaAcks, xreadWaiters := t.xreadWaiters,
               blpopWaiters := t.blpopWaiters, waitWaiters := t.waitWaiters, out := t.out, requests := t.requests)
    && (forall w :: w in t.xreadWaiters ==> w in s.xreadWaiters && t.xreadWaiters[w] == s.xreadWaiters[w])
    && (forall w :: w in t.blpopWaiters ==> w in s.blpopWaiters && t.blpopWaiters[w] == s.blpopWaiters[w])
    && (forall w :: w in t.waitWaiters ==> w in s.waitWaiters && t.waitWaiters[w] == s.waitWaiters[w])
    && (forall c :: c in t.replicaAcks ==> c in s.replicaAcks && t.replicaAcks[c] == s.replicaAcks[c])
    && s.out <= t.out && forall i :: |s.out| <= i < |t.out| ==> t.out[i].Reply?
  }

  lemma QuietSteps(s: State, e: Envelope, t: State)
    requires Step(s, e, t) && !e.WithReply? && !e.Replicate?
    ensures Quiet(s, t)
  {
    hide Executes, IsOrder, JoinReplica, TimeOutXread, TimeOutBlpop, TimeOutWait;
    match e {
      case AddReplica(c, channel) => JoinFrame(s, c, channel, t);
      case TimeoutXread(w) => TimeOutFrames(s, w);
      case TimeoutBlpop(w) => TimeOutFrames(s, w);
      case TimeoutWait(w) => TimeOutFrames(s, w);
      case RegisterClient(_) =>
      case UnregisterClient(_) =>
    }
  }

  lemma RequestParts(s: State, c: ClientId, cmd: Command, channel: Channel, t: State)
    returns (r: Result, mid: State, order: seq<ClientId>)
    requires Step(s, WithReply(c, cmd, channel), t)
    ensures !ToRespPanics(cmd) && channel !in s.requests
    ensures Executes(Account(s, cmd), c, cmd, r, mid) && IsOrder(order, Replicas(mid))
    ensures t == Settle(mid, channel, cmd, r, order)
  {
    hide Executes, IsOrder, Account, Settle;
    r, mid, order :| Executes(Account(s, cmd), c, cmd, r, mid) && IsOrder(order, Replicas(mid))
                  && t == Settle(mid, channel, cmd, r, order);
  }

  lemma ReplicatePart(s: State, cmd: Command, t: State) returns (r: Result)
    requires Step(s, Replicate(cmd), t)
    ensures Executes(s, 0, cmd, r, t)
  {
    hide Executes;
    r :| Executes(s, 0, cmd, r, t);
  }

  /** Settling a request touches neither the data nor the histories of watches and lists. */
  lemma SettleFrame(s: State, channel: Channel, cmd: Command, r: Result, order: seq<ClientId>)
    ensures
      var t := Settle(s, channel, cmd, r, order);
      && t == s.(out := t.out, requests := t.requests, xreadWaiters := t.xreadWaiters, blpopWaiters := t.blpopWaiters,
                 waitWaiters := t.waitWaiters, broadcasts := t.broadcasts, pendingWrites := t.pendingWrites)
      && (!r.BlockXread? ==> t.xreadWaiters == s.xreadWaiters)
      && (!r.BlockBlpop? ==> t.blpopWaiters == s.blpopWaiters)
      && (!r.BlockWait? ==> t.waitWaiters == s.waitWaiters)
  {
    hide PushTo;
  }

  /** Settling a request leaves the lists alone, and answers it if it is done. */
  lemma SettleSends(s: State, channel: Channel, cmd: Command, r: Result, order: seq<ClientId>)
    ensures
      var t := Settle(s, channel, cmd, r, order);
      && t.listLog == s.listLog && s.out <= t.out
      && (r.Done? ==> s.out + [Reply(channel, r.reply)] <= t.out)
  {
    hide PushTo;
  }

  lemma CountFrame(s: State, cmd: Command)
    requires !ToRespPanics(cmd)
    ensures Count(s, cmd) == s.(pendingWrites := Count(s, cmd).pendingWrites, masterAck := Count(s, cmd).masterAck)
  {
    if IsReplicatable(cmd) {
      assert ToResp(cmd).Some?;
      hide ToResp, RespCodec.Len;
      assert Count(s, cmd) == s.(pendingWrites := true, masterAck := s.masterAck + Len(ToResp(cmd).value));
    }
  }

  lemma LogFrame(s: State, cmd: Command)
    requires !ToRespPanics(cmd)
    ensures Log(s, cmd) == s.(aof := Log(s, cmd).aof, logged := Log(s, cmd).logged)
  {
    hide ToResp, RespCodec.Encode;
    if ToResp(cmd).Some? {
      assert Log(s, cmd) == s.(aof := s.aof + Encode(ToResp(cmd).value), logged := s.logged + [cmd]);
    }
  }

  lemma AccountFrame(s: State, cmd: Command)
    requires !ToRespPanics(cmd)
    ensures
      var t := Account(s, cmd);
      t == s.(pendingWrites := t.pendingWrites, masterAck := t.masterAck, aof := t.aof, logged := t.logged)
  {
    hide ToResp, Count, Log;
    CountFrame(s, cmd);
    LogFrame(Count(s, cmd), cmd);
  }

  // -------------------------------------------------------------------- effects on data

  /** XADD leaves the data with the stream in place, or with one accepted entry appended to it. */
  lemma XaddShape(s: State, key: Key, id: XaddId, fields: seq<Bytes>, now: u64, order: seq<WaiterId>)
    ensures
      var ready := EnsureStream(s, key);
      var t := XaddCommand(s, key, id, fields, now, order).state;
      if ready.data[key].value.Stream? && Judge(id, StreamOf(ready, key), now).Accepted?
      then t == Wake(AppendEntry(ready, key, Judge(id, StreamOf(ready, key), now).id, fields), order)
      else t == ready
  {
    hide Wake, Judge, Ascii, IdText, StreamOf, AppendEntry;
  }

  lemma XaddData(s: State, key: Key, id: XaddId, fields: seq<Bytes>, now: u64, order: seq<WaiterId>)
    ensures
      var ready := EnsureStream(s, key);
      var t := XaddCommand(s, key, id, fields, now, order).state;
      if ready.data[key].value.Stream? && Judge(id, StreamOf(ready, key), now).Accepted?
      then t.data == AppendEntry(ready, key, Judge(id, StreamOf(ready, key), now).id, fields).data
      else t.data == ready.data
  {
    hide Wake, Judge, StreamOf, AppendEntry, XaddCommand;
    var ready := EnsureStream(s, key);
    XaddShape(s, key, id, fields, now, order);
    if ready.data[key].value.Stream? && Judge(id, StreamOf(ready, key), now).Accepted? {
      WakeFrame(AppendEntry(ready, key, Judge(id, StreamOf(ready, key), now).id, fields), order);
    }
  }

  lemma EnsureLists(s: State, key: Key, k: Key)
    ensures ListOf(EnsureStream(s, key), k) == ListOf(s, k)
  {
    if key !in s.data {
      assert EnsureStream(s, key).data == s.data[key := Value(Stream([]), None)];
    }
  }

  lemma AppendLists(s: State, key: Key, id: StreamId, fields: seq<Bytes>, k: Key)
    requires key in s.data && s.data[key].value.Stream?
    ensures ListOf(AppendEntry(s, key, id, fields), k) == ListOf(s, k)
  {
    hide Insert;
  }

  lemma SameDataSameLists(s: State, t: State, k: Key)
    requires s.data == t.data
    ensures ListOf(s, k) == ListOf(t, k) && StreamOf(s, k) == StreamOf(t, k)
  {
  }

  lemma XaddLists(s: State, key: Key, id: XaddId, fields: seq<Bytes>, now: u64, order: seq<WaiterId>, k: Key)
    ensures ListOf(XaddCommand(s, key, id, fields, now, order).state, k) == ListOf(s, k)
  {
    hide Judge, XaddCommand, ListOf, AppendEntry, EnsureStream, StreamOf;
    var ready := EnsureStream(s, key);
    ReadyFrame(s, key);
    EnsureLists(s, key, k);
    XaddData(s, key, id, fields, now, order);
    var t := XaddCommand(s, key, id, fields, now, order).state;
    if ready.data[key].value.Stream? && Judge(id, StreamOf(ready, key), now).Accepted? {
      var newId := Judge(id, StreamOf(ready, key), now).id;
      AppendLists(ready, key, newId, fields, k);
      SameDataSameLists(t, AppendEntry(ready, key, newId, fields), k);
    } else {
      SameDataSameLists(t, ready, k);
    }
  }

  lemma SetLists(s: State, key: Key, value: Bytes, ex: Option<u64>, px: Option<u64>, now: u64, k: Key)
    ensures ListOf(SetCommand(s, key, value, ex, px, now).state, k) == if k == key then [] else ListOf(s, k)
  {
    hide Deadline;
  }

  /** INCR leaves a string at its key and the other keys alone. */
  lemma IncrData(s: State, key: Key)
    ensures
      var t := IncrCommand(s, key).state;
      && key in t.data && t.data[key].value.Str? && t.data.Keys == s.data.Keys + {key}
      && forall k :: k != key && k in s.data ==> t.data[k] == s.data[k]
  {
    hide Incremented, Ascii, StoreNumber;
    if IncrResult(s, key).Some? {
      NumberData(s, key, IncrResult(s, key).value);
    }
  }

  lemma NumberData(s: State, key: Key, n: i64)
    ensures
      var t := StoreNumber(s, key, n);
      && key in t.data && t.data[key].value.Str? && t.data.Keys == s.data.Keys + {key}
      && forall k :: k != key && k in s.data ==> t.data[k] == s.data[k]
  {
    hide IntText;
    if HoldsString(s, key) {
      assert StoreNumber(s, key, n).data == s.data[key := Value(Str(IntText(n)), s.data[key].expireMs)];
    } else {
      assert StoreNumber(s, key, n).data == s.data[key := Value(Str(IntText(n)), None)];
    }
  }

  lemma IncrLists(s: State, key: Key, k: Key)
    ensures ListOf(IncrCommand(s, key).state, k) == if k == key then [] else ListOf(s, k)
  {
    IncrData(s, key);
    hide IncrCommand;
  }

  lemma PopFrontLists(s: State, key: Key, k: Key)
    requires ListOf(s, key) != []
    ensures ListOf(PopFront(s, key), k) == if k == key then ListOf(s, key)[1..] else ListOf(s, k)
  {
  }

  lemma PushElementsFrame(s: State, key: Key, elems: seq<Bytes>, front: bool)
    ensures OnlyListData(s, PushElements(s, key, elems, front))
  {
    hide Reversed, ListOf;
  }

  lemma PushLists(s: State, key: Key, elems: seq<Bytes>, front: bool, k: Key)
    ensures ListOf(PushElements(s, key, elems, front), k) ==
            if k != key then ListOf(s, k)
            else if front then Reversed(elems) + ListOf(s, k)
            else ListOf(s, k) + elems
  {
    hide Reversed;
  }
}
