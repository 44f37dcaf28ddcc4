/**
 The store as an object (`src/main.rs:82-1357`): the fields `run_store` owns, updated in
 place by methods that loop as the program does. Every method is tied to the transition
 system of `StoreModel`, so what is proved of all its runs holds of this loop.

 The reply and push channels, and the append-only file, are the sequences `out` and `aof`.
 Hash maps iterate through `Iterate`, in an order nothing fixes, and the clock is read as
 an arbitrary number.
 */
module StoreServer {
  import opened Types
  import opened Decimal
  import opened Orders
  import opened RespCodec
  import opened RdbCodec
  import opened RdbFiles
  import opened Streams
  import opened Commands
  import opened StoreModel
  import opened StoreFrames
  import opened Requests
  import opened Replication
  import BlockedWaiters

  /** An XREAD names an id for every key; decoding makes sure of it. */
  predicate Paired(cmd: Command) {
    && (cmd.Xread? ==> |cmd.keys| == |cmd.ids|)
    && (cmd.ExecuteTx? ==> forall i :: 0 <= i < |cmd.commands| ==> Paired(cmd.commands[i]))
  }

  /** A command that blocks on a list or a stream has a timeout, and a blocked XREAD an id for every key. */
  lemma BlockedIsTimed(s: State, c: ClientId, cmd: Command, r: Result, t: State)
    requires Executes(s, c, cmd, r, t)
    ensures r.BlockBlpop? || r.BlockXread? ==> BlockTimeout(cmd).Some?
    ensures r.BlockXread? ==> |r.xreadKeys| == |r.ids|
  {
    hide Executes, BlockTimeout;
    if r.BlockBlpop? || r.BlockXread? {
      BlockingMeans(s, c, cmd, r, t);
    }
  }

  lemma ReplicatedHasEncoding(cmd: Command)
    requires IsReplicatable(cmd) && !ToRespPanics(cmd)
    ensures ToResp(cmd).Some?
  {
  }

  /** Commands whose answers come from state this model does not hold. */
  predicate AnsweredElsewhere(cmd: Command) {
    cmd.Subscribe? || cmd.Publish? || cmd.Unsubscribe? || cmd.Auth? || cmd.Query?
  }

  /** Commands `try_execute` leaves to its last arm: the client handles them itself. */
  predicate Unhandled(cmd: Command) {
    cmd.Echo? || cmd.Multi? || cmd.Exec? || cmd.ListeningPort? || cmd.Capa? || cmd.Psync? || cmd.GetAck?
  }

  lemma SequenceArms(s: State, c: ClientId, cmd: Command, ch: Choice)
    requires cmd.Xadd? || cmd.Xread? || cmd.Rpush? || cmd.Lpush? || cmd.Lpop? || cmd.Blpop?
    requires cmd.Xadd? ==> IsOrder(ch.order, InterestedXread(s, cmd.key))
    requires cmd.Rpush? || cmd.Lpush? ==> IsOrder(ch.order, InterestedBlpop(s, cmd.key))
    requires cmd.Xread? ==> |cmd.keys| == |cmd.ids|
    ensures Allowed(s, c, cmd, ch)
    ensures cmd.Xadd? ==> Prim(s, c, cmd, ch) == XaddCommand(s, cmd.key, cmd.id, cmd.fieldValues, ch.now, ch.order)
    ensures cmd.Xread? ==> Prim(s, c, cmd, ch) == XreadCommand(s, cmd.keys, cmd.milliseconds, cmd.ids)
    ensures cmd.Rpush? || cmd.Lpush? ==>
      Prim(s, c, cmd, ch) == PushCommand(s, cmd.key, cmd.elements, cmd.Lpush?, ch.order)
    ensures cmd.Lpop? ==> Prim(s, c, cmd, ch) == LpopCommand(s, cmd.key, cmd.count)
    ensures cmd.Blpop? ==> Prim(s, c, cmd, ch) == BlpopCommand(s, cmd.keys)
  {
    hide XaddCommand, XreadCommand, PushCommand, LpopCommand, BlpopCommand, IsOrder, InterestedBlpop, InterestedXread;
  }

  lemma WaitingArms(s: State, c: ClientId, cmd: Command, ch: Choice)
    requires cmd.Ack? || cmd.Wait? || cmd.Ping?
    requires cmd.Ack? ==> IsOrder(ch.order, Satisfied(RecordAck(s, c, cmd.ackBytes)))
    ensures Allowed(s, c, cmd, ch)
    ensures cmd.Ack? ==> Prim(s, c, cmd, ch) == AckCommand(s, c, cmd.ackBytes, ch.order)
    ensures cmd.Wait? ==> Prim(s, c, cmd, ch) == WaitCommand(s, cmd.numReplicas, cmd.timeout)
    ensures cmd.Ping? ==>
      Prim(s, c, cmd, ch)
      == Outcome(s, Done(if cmd.payload.Some? then BulkString(cmd.payload.value) else SimpleString(Ascii("PONG"))))
  {
    hide AckCommand, WaitCommand, IsOrder, Ascii, Satisfied;
  }

  lemma LastArms(s: State, c: ClientId, cmd: Command, ch: Choice)
    requires AnsweredElsewhere(cmd) || Unhandled(cmd)
    ensures Allowed(s, c, cmd, ch)
    ensures Prim(s, c, cmd, ch) == Outcome(s, Done(if AnsweredElsewhere(cmd) then ch.answer else NullBulkString))
  {
    hide SetCommand, WatchKeys, Cleanup, IncrCommand, XaddCommand, XreadCommand, PushCommand, LpopCommand, BlpopCommand,
      AckCommand, WaitCommand, IsOrder, Ascii;
  }

  lemma JoinIsStep(s: State, c: ClientId, channel: Channel, order: seq<Key>, t: State)
    requires channel !in s.requests && IsOrder(order, ToRdb(s.data).data.Keys)
    requires t == s.(clients := if c in s.clients then s.clients[c := true] else s.clients,
                     requests := s.requests[channel := true],
                     out := s.out + [Reply(channel, File(SnapshotBytes(s.data, order)))])
    ensures Step(s, StoreModel.AddReplica(c, channel), t)
  {
    hide SerializeIn, ToRdb;
    assert t == JoinReplica(s, c, channel, order);
  }

  /** What a snapshot of the data is, written in this order. */
  ghost function SnapshotBytes(data: map<Key, Value>, order: seq<Key>): Bytes
    requires IsOrder(order, ToRdb(data).data.Keys)
  {
    SerializeIn(ToRdb(data), [], order)
  }

  lemma NextReady(s: State, keys: seq<Key>, i: nat)
    requires i < |keys|
    ensures FirstReady(s, keys[i..]) == if ListOf(s, keys[i]) != [] then Some(keys[i]) else FirstReady(s, keys[i + 1..])
  {
    assert keys[i..][1..] == keys[i + 1..];
  }

  lemma NoneReady(s: State)
    ensures FirstReady(s, []) == None
  {
  }

  lemma NoStreamFound(s: State, key: Key, id: XaddId, fields: seq<Bytes>, now: u64, order: seq<WaiterId>)
    requires key in EnsureStream(s, key).data && !EnsureStream(s, key).data[key].value.Stream?
    ensures XaddCommand(s, key, id, fields, now, order)
         == Outcome(EnsureStream(s, key), Done(SimpleError(Ascii("ERR No stream found for given key"))))
  {
    hide Ascii;
  }

  lemma IdJudged(s: State, key: Key, id: XaddId, fields: seq<Bytes>, now: u64, order: seq<WaiterId>)
    requires key in EnsureStream(s, key).data && EnsureStream(s, key).data[key].value.Stream?
    ensures
      var ready := EnsureStream(s, key);
      XaddCommand(s, key, id, fields, now, order) ==
      match Judge(id, ready.data[key].value.stream, now)
      case NotAboveZero =>
        Outcome(ready, Done(SimpleError(Ascii("ERR The ID specified in XADD must be greater than 0-0"))))
      case NotAboveLast =>
        Outcome(ready, Done(SimpleError(
          Ascii("ERR The ID specified in XADD is equal or smaller than the target stream top item"))))
      case Accepted(newId) =>
        Outcome(Wake(AppendEntry(ready, key, newId, fields), order), Done(BulkString(IdText(newId))))
  {
    hide Ascii, Judge, EnsureStream, Wake, AppendEntry, IdText;
  }

  lemma SameReplicas(s: State, t: State)
    requires s.clients == t.clients
    ensures Replicas(s) == Replicas(t)
  {
  }

  lemma SameXreadWaiters(s: State, t: State, key: Key)
    requires s.xreadWaiters == t.xreadWaiters
    ensures InterestedXread(s, key) == InterestedXread(t, key)
  {
  }

  lemma SameBlpopWaiters(s: State, t: State, key: Key)
    requires s.blpopWaiters == t.blpopWaiters
    ensures InterestedBlpop(s, key) == InterestedBlpop(t, key)
  {
  }

  lemma {:induction false} SameLists(s: State, t: State, keys: seq<Key>)
    requires s.data == t.data
    ensures FirstReady(s, keys) == FirstReady(t, keys)
  {
    if keys != [] {
      SameLists(s, t, keys[1..]);
    }
  }

  /** Serving a waiter, seen from the moment it was taken out of the table. */
  lemma ServedWhenTaken(s: State, w: WaiterId)
    requires w in s.blpopWaiters
    ensures
      var taken := s.(blpopWaiters := s.blpopWaiters - {w});
      var waiter := s.blpopWaiters[w];
      match FirstReady(taken, waiter.keys)
      case None => ServeOne(s, w) == s
      case Some(k) =>
        var popped := PopFront(taken, k);
        && ServeOne(s, w) == Answer(popped, waiter.channel, PoppedReply(k, ListOf(taken, k)[0]))
        && popped.blpopWaiters == popped.blpopWaiters - {w} && popped.blpopWaiters == taken.blpopWaiters
  {
    hide FirstReady;
    var taken := s.(blpopWaiters := s.blpopWaiters - {w});
    SameLists(s, taken, s.blpopWaiters[w].keys);
    assert taken.blpopWaiters - {w} == taken.blpopWaiters;
  }

  lemma NoMoreRows(s: State)
    ensures XreadRows(s, [], []) == []
  {
  }

  function RowOf(s: State, key: Key, id: StreamId): seq<Resp> {
    if key in s.data && s.data[key].value.Stream? then [StreamRow(key, Above(StreamOf(s, key), id))] else []
  }

  lemma NothingAboveInNothing(id: StreamId)
    ensures Above([], id) == []
  {
  }

  /** The row of one key, if it holds a stream, comes before the rows of the keys after it. */
  lemma NextRow(s: State, keys: seq<Key>, ids: seq<StreamId>, i: nat)
    requires |keys| == |ids| && i < |keys|
    ensures XreadRows(s, keys[i..], ids[i..]) == RowOf(s, keys[i], ids[i]) + XreadRows(s, keys[i + 1..], ids[i + 1..])
  {
    hide EntryRows, Above;
    assert keys[i..][1..] == keys[i + 1..] && ids[i..][1..] == ids[i + 1..];
  }

  class Store {
    var clients: map<ClientId, bool>
    var data: map<Key, Value>
    var waiterId: nat
    var watched: map<Key, set<ClientId>>
    var xreadWaiters: map<WaiterId, XreadWaiter>
    var blpopWaiters: map<WaiterId, BlpopWaiter>
    var waitWaiters: map<WaiterId, WaitWaiter>
    var masterAck: nat
    var replicaAcks: map<ClientId, nat>
    var pendingWrites: bool
    var out: seq<Output>
    var aof: Bytes
    ghost var logged: seq<Command>
    ghost var requests: map<Channel, bool>
    ghost var broadcasts: nat
    ghost var watchLog: seq<WatchEvent>
    ghost var listLog: seq<ListEvent>

    ghost function Abs(): (s: State)
      reads this
    {
      State(clients, data, waiterId, watched, xreadWaiters, blpopWaiters, waitWaiters, masterAck, replicaAcks,
            pendingWrites, out, aof, logged, requests, broadcasts, watchLog, listLog)
    }

    /** Every waiting XREAD has an id for every key. */
    ghost predicate Valid()
      reads this
    {
      forall w :: w in xreadWaiters ==> |xreadWaiters[w].keys| == |xreadWaiters[w].ids|
    }

    // ------------------------------------------------------------------ start and snapshot

    /** `from_rdb`. */
    constructor (rdb: Rdb)
      ensures Valid() && Abs() == Fresh(FromRdb(rdb))
    {
      clients, watched, xreadWaiters, blpopWaiters, waitWaiters, replicaAcks := map[], map[], map[], map[], map[], map[];
      data := map[];
      waiterId, masterAck, pendingWrites := 0, 0, false;
      out, aof, logged, requests, broadcasts, watchLog, listLog := [], [], [], map[], 0, [], [];
      new;
      data := Loaded(rdb);
    }

    static method Loaded(rdb: Rdb) returns (data: map<Key, Value>)
      ensures data == FromRdb(rdb)
    {
      data := map[];
      var order := Iterate(rdb.data.Keys);
      ghost var loaded := FromRdb(rdb);
      for i := 0 to |order|
        invariant forall k :: k in data <==> k in order[..i]
        invariant forall k :: k in data ==> k in loaded && data[k] == loaded[k]
      {
        var v := rdb.data[order[i]];
        var expireMs := match v.expire {
          case NoExpiry => None
          case Milliseconds(ms) => Some(ms)
          case Seconds(secs) => Some(secs * 1000)
        };
        data := data[order[i] := Value(Str(v.value), expireMs)];
      }
      assert data == loaded;
    }

    /** `to_rdb`. */
    method ToRdbFile() returns (rdb: RdbFile)
      ensures fresh(rdb) && rdb.Contents() == ToRdb(data)
    {
      rdb := new RdbFile(map[], map[]);
      var order := Iterate(data.Keys);
      ghost var goal := ToRdb(data).data;
      for i := 0 to |order|
        invariant rdb.metadata == map[]
        invariant forall k :: k in rdb.data <==> k in order[..i] && data[k].value.Str?
        invariant forall k :: k in rdb.data ==> rdb.data[k] == goal[k]
      {
        var v := data[order[i]];
        if v.value.Str? {
          var expire := if v.expireMs.Some? then Milliseconds(v.expireMs.value) else NoExpiry;
          var previous := rdb.Set(order[i], RdbString(0, v.value.s, expire));
        }
      }
      assert rdb.data == goal;
    }

    // --------------------------------------------------------------------------- watching

    method MarkModified(c: ClientId, keys: seq<Key>)
      modifies `watched, `watchLog
      ensures Abs() == Touch(old(Abs()), c, keys)
    {
      for i := 0 to |keys|
        invariant Touch(Abs(), c, keys[i..]) == Touch(old(Abs()), c, keys)
      {
        ghost var before := Abs();
        var k := keys[i];
        if k in watched {
          watched := watched[k := watched[k] + {c}];
        }
        watchLog := watchLog + [Wrote(c, k)];
        assert Abs() == TouchKey(before, c, k);
        assert keys[i..][0] == k && keys[i..][1..] == keys[i + 1..];
      }
    }

    method Watch(c: ClientId, keys: seq<Key>)
      modifies `watched, `watchLog
      ensures Abs() == WatchKeys(old(Abs()), c, keys)
    {
      for i := 0 to |keys|
        invariant WatchKeys(Abs(), c, keys[i..]) == WatchKeys(old(Abs()), c, keys)
      {
        ghost var before := Abs();
        var k := keys[i];
        if k in watched {
          watched := watched[k := watched[k] + {c}];
        } else {
          watched := watched[k := {c}];
          assert {} + {c} == {c};
        }
        watchLog := watchLog + [Watched(c, k)];
        assert Abs() == WatchKey(before, c, k);
        assert keys[i..][0] == k && keys[i..][1..] == keys[i + 1..];
      }
    }

    /** The client leaves every set; then only the sets with somebody in them are retained. */
    method Forget(c: ClientId)
      modifies `watched, `watchLog
      ensures Abs() == Cleanup(old(Abs()), c)
    {
      LeaveAll(c);
      watched := map k | k in watched && watched[k] != {} :: watched[k];
      watchLog := watchLog + [Cleared(c)];
    }

    method LeaveAll(c: ClientId)
      modifies `watched
      ensures watched == map k | k in old(watched) :: old(watched)[k] - {c}
    {
      var order := Iterate(watched.Keys);
      for i := 0 to |order|
        invariant watched.Keys == old(watched).Keys
        invariant forall j :: 0 <= j < i ==> watched[order[j]] == old(watched)[order[j]] - {c}
        invariant forall j :: i <= j < |order| ==> watched[order[j]] == old(watched)[order[j]]
      {
        watched := watched[order[i] := watched[order[i]] - {c}];
      }
      forall k | k in watched ensures watched[k] == old(watched)[k] - {c} {
        assert k in order;
      }
    }

    /** The optimistic lock: some watched key has this client and another one. */
    method LockIsBroken(c: ClientId) returns (broken: bool)
      ensures broken == LockFailed(Abs(), c)
    {
      broken := false;
      var order := Iterate(watched.Keys);
      for i := 0 to |order|
        invariant broken <==> exists j :: 0 <= j < i && c in watched[order[j]] && |watched[order[j]]| > 1
      {
        if c in watched[order[i]] && |watched[order[i]]| > 1 {
          broken := true;
        }
      }
      if LockFailed(Abs(), c) {
        ghost var k :| k in watched && c in watched[k] && |watched[k]| > 1;
        assert k in order;
      }
    }

    // ------------------------------------------------------------------------------ lists

    /** `fetch_blpop`. */
    method FetchBlpop(keys: seq<Key>) returns (reply: Resp, isEmpty: bool)
      modifies `data, `listLog
      ensures isEmpty <==> FirstReady(old(Abs()), keys).None?
      ensures isEmpty ==> Abs() == old(Abs())
      ensures !isEmpty ==>
        var k := FirstReady(old(Abs()), keys).value;
        reply == PoppedReply(k, ListOf(old(Abs()), k)[0]) && Abs() == PopFront(old(Abs()), k)
    {
      hide FirstReady, PopFront;
      NoneReady(Abs());
      for i := 0 to |keys|
        invariant Abs() == old(Abs())
        invariant FirstReady(Abs(), keys) == FirstReady(Abs(), keys[i..])
      {
        var k := keys[i];
        NextReady(Abs(), keys, i);
        if k in data && data[k].value.List? {
          if data[k].value.items != [] {
            var head := PopHead(k);
            return Array([BulkString(k), BulkString(head)]), false;
          }
        }
      }
      return NullArray, true;
    }

    /** One waiter: taken out of the table, served if one of its keys has an element, else put back. */
    method ServeWaiter(w: WaiterId)
      requires w in blpopWaiters
      modifies `data, `listLog, `blpopWaiters, `out
      ensures Abs() == ServeOne(old(Abs()), w)
      ensures forall v :: v != w ==> (v in blpopWaiters <==> v in old(blpopWaiters))
    {
      hide FirstReady, PopFront, ServeOne;
      ghost var before := Abs();
      var waiter := blpopWaiters[w];
      blpopWaiters := blpopWaiters - {w};
      ServedWhenTaken(before, w);
      var reply, isEmpty := FetchBlpop(waiter.keys);
      if !isEmpty {
        out := out + [Reply(waiter.channel, reply)];
        blpopWaiters := blpopWaiters - {w};
      } else {
        blpopWaiters := blpopWaiters[w := waiter];
        assert blpopWaiters == before.blpopWaiters;
      }
    }

    /** `notify_blpop_waiters`: those interested are collected first, then served one by one. */
    method NotifyBlpopWaiters(key: Key) returns (ghost order: seq<WaiterId>)
      modifies `data, `listLog, `blpopWaiters, `out
      ensures IsOrder(order, InterestedBlpop(old(Abs()), key))
      ensures Abs() == Serve(old(Abs()), order)
    {
      var waiters: seq<WaiterId> := [];
      var all := Iterate(blpopWaiters.Keys);
      for i := 0 to |all|
        invariant Distinct(waiters)
        invariant forall w :: w in waiters <==> w in all[..i] && key in blpopWaiters[w].keys
        invariant forall w :: w in waiters ==> w in blpopWaiters
      {
        if key in blpopWaiters[all[i]].keys {
          waiters := waiters + [all[i]];
        }
      }
      order := waiters;
      for i := 0 to |waiters|
        invariant Serve(Abs(), waiters[i..]) == Serve(old(Abs()), waiters)
        invariant forall j :: i <= j < |waiters| ==> waiters[j] in blpopWaiters
      {
        hide ServeOne;
        ServeWaiter(waiters[i]);
        assert waiters[i..][0] == waiters[i] && waiters[i..][1..] == waiters[i + 1..];
      }
    }

    /** Elements go in one by one, at the back or at the front. */
    static method Extended(list: seq<Bytes>, elements: seq<Bytes>, front: bool) returns (items: seq<Bytes>)
      ensures items == if front then Reversed(elements) + list else list + elements
    {
      hide Reversed;
      EmptyReversed();
      items := list;
      for i := 0 to |elements|
        invariant items == if front then Reversed(elements[..i]) + list else list + elements[..i]
      {
        ghost var longer := elements[..i + 1];
        LastReversed(longer);
        assert longer[..i] == elements[..i] && longer[i] == elements[i];
        if front {
          assert [elements[i]] + Reversed(elements[..i]) + list == [elements[i]] + (Reversed(elements[..i]) + list);
          items := [elements[i]] + items;
        } else {
          items := items + [elements[i]];
        }
      }
      assert elements[..|elements|] == elements;
    }

    method Push(key: Key, elements: seq<Bytes>, front: bool) returns (r: Result, ghost order: seq<WaiterId>)
      modifies `data, `listLog, `blpopWaiters, `out
      ensures IsOrder(order, InterestedBlpop(old(Abs()), key))
      ensures PushCommand(old(Abs()), key, elements, front, order) == Outcome(Abs(), r)
    {
      hide PushElements, Serve, IsOrder, InterestedBlpop;
      ghost var before := Abs();
      var n := AddElements(key, elements, front);
      SameBlpopWaiters(before, Abs(), key);
      order := NotifyBlpopWaiters(key);
      r := Done(Integer(WrapI64(n)));
    }

    /** The list grows, or a new one takes the place of whatever was there. */
    method AddElements(key: Key, elements: seq<Bytes>, front: bool) returns (n: nat)
      modifies `data, `listLog
      ensures Abs() == PushElements(old(Abs()), key, elements, front) && n == |ListOf(Abs(), key)|
    {
      ReversedLength(elements);
      hide Reversed;
      if key in data && data[key].value.List? {
        var items := Extended(data[key].value.items, elements, front);
        n := |items|;
        data := data[key := data[key].(value := List(items))];
      } else {
        n := |elements|;
        var items := if front then Reversed(elements) else elements;
        assert items + [] == items && [] + items == items;
        data := data[key := Value(List(items), None)];
      }
      listLog := listLog + [if front then PushedFront(key, elements) else PushedBack(key, elements)];
    }

    method Lpop(key: Key, count: Option<u32>) returns (r: Result)
      modifies `data, `listLog
      ensures LpopCommand(old(Abs()), key, count) == Outcome(Abs(), r)
    {
      ghost var before := Abs();
      if key !in data || !data[key].value.List? || data[key].value.items == [] {
        return Done(NullBulkString);
      }
      if count == None {
        var e := PopHead(key);
        return Done(BulkString(e));
      }
      var els := PopSome(key, count.value);
      r := Done(Array(els));
    }

    /** Up to `count` elements, one by one, until the list is empty. */
    method PopSome(key: Key, count: nat) returns (els: seq<Resp>)
      requires ListOf(Abs(), key) != []
      modifies `data, `listLog
      ensures Abs() == PopMany(old(Abs()), key, count)
      ensures els == BulkStrings(ListOf(old(Abs()), key)[..Min(count, |ListOf(old(Abs()), key)|)])
    {
      hide PopMany, PopFront;
      els := [];
      ghost var all := ListOf(Abs(), key);
      var i := 0;
      while i < count && data[key].value.items != []
        invariant i <= count && i <= |all|
        invariant key in data && data[key].value.List? && data[key].value.items == all[i..]
        invariant els == BulkStrings(all[..i])
        invariant PopMany(Abs(), key, count - i) == PopMany(old(Abs()), key, count)
      {
        PopOneMore(Abs(), key, count - i);
        var e := PopHead(key);
        els := els + [BulkString(e)];
        i := i + 1;
      }
      PopNoMore(Abs(), key, count - i);
    }

    /** `pop_front` of a list that has an element. */
    method PopHead(key: Key) returns (e: Bytes)
      requires ListOf(Abs(), key) != []
      modifies `data, `listLog
      ensures Abs() == PopFront(old(Abs()), key) && e == ListOf(old(Abs()), key)[0]
      ensures key in data && data[key].value == List(ListOf(old(Abs()), key)[1..])
    {
      var items := data[key].value.items;
      e := items[0];
      data := data[key := data[key].(value := List(items[1..]))];
      listLog := listLog + [Took(key, e)];
    }

    method Blpop(keys: seq<Key>) returns (r: Result)
      modifies `data, `listLog, `waiterId
      ensures BlpopCommand(old(Abs()), keys) == Outcome(Abs(), r)
    {
      var reply, isEmpty := FetchBlpop(keys);
      if !isEmpty {
        return Done(reply);
      }
      waiterId := waiterId + 1;
      r := BlockBlpop(waiterId, keys);
    }

    // ---------------------------------------------------------------------------- strings

    /** `command_set`. */
    method Set(key: Key, value: Bytes, ex: Option<u64>, px: Option<u64>) returns (r: Result, ghost now: u64)
      modifies `data, `listLog
      ensures SetCommand(old(Abs()), key, value, ex, px, now) == Outcome(Abs(), r)
    {
      var clock: u64 := *;
      now := clock;
      var expire := None;
      if ex.Some? {
        expire := Some(Deadline(clock, ex.value, 1000));
      } else if px.Some? {
        expire := Some(Deadline(clock, px.value, 1));
      }
      data := data[key := Value(Str(value), expire)];
      listLog := listLog + [Overwrote(key)];
      r := Done(OK());
    }

    method Incr(key: Key) returns (r: Result)
      modifies `data, `listLog
      ensures IncrCommand(old(Abs()), key) == Outcome(Abs(), r)
    {
      hide Parser.Integer, IntText, Ascii;
      if key in data && data[key].value.Str? {
        var parsed := Parser.Integer(-I64_LIMIT, I64_LIMIT, data[key].value.s);
        if parsed.IsFailure() {
          return Done(SimpleError(Ascii("ERR value is not an integer or out of range")));
        }
        var n := WrapI64(parsed.value + 1);
        data := data[key := Value(Str(IntText(n)), data[key].expireMs)];
        return Done(Integer(n));
      }
      data := data[key := Value(Str(IntText(1)), None)];
      listLog := listLog + [Overwrote(key)];
      r := Done(Integer(1));
    }

    // ---------------------------------------------------------------------------- streams

    /** `fetch_xread`. */
    method FetchXread(keys: seq<Key>, ids: seq<StreamId>) returns (rows: seq<Resp>, isEmpty: bool)
      requires |keys| == |ids|
      ensures rows == XreadRows(Abs(), keys, ids)
      ensures isEmpty == NothingAbove(Abs(), keys, ids)
    {
      hide XreadRows, Above, StreamOf, RowOf;
      rows, isEmpty := [], true;
      NoMoreRows(Abs());
      for i := 0 to |keys|
        invariant rows + XreadRows(Abs(), keys[i..], ids[i..]) == XreadRows(Abs(), keys, ids)
        invariant isEmpty <==> forall j :: 0 <= j < i ==> Above(StreamOf(Abs(), keys[j]), ids[j]) == []
      {
        NextRow(Abs(), keys, ids, i);
        var row, nothing := FetchRow(keys[i], ids[i]);
        assert rows + (row + XreadRows(Abs(), keys[i + 1..], ids[i + 1..]))
            == rows + row + XreadRows(Abs(), keys[i + 1..], ids[i + 1..]);
        rows := rows + row;
        if !nothing {
          isEmpty := false;
        }
      }
    }

    /** One key: a row if it holds a stream, and whether there was nothing to put in it. */
    method FetchRow(key: Key, id: StreamId) returns (row: seq<Resp>, nothing: bool)
      ensures row == RowOf(Abs(), key, id)
      ensures nothing <==> Above(StreamOf(Abs(), key), id) == []
    {
      hide Above, EntryRows;
      if key !in data || !data[key].value.Stream? {
        NothingAboveInNothing(id);
        return [], true;
      }
      var found := Above(data[key].value.stream, id);
      var streamRows := StreamRows(found);
      row, nothing := [Array([BulkString(key), Array(streamRows)])], found == [];
    }

    static method StreamRows(entries: RedisStream) returns (rows: seq<Resp>)
      ensures rows == EntryRows(entries)
    {
      rows := [];
      for i := 0 to |entries|
        invariant rows == EntryRows(entries[..i])
      {
        rows := rows + [Array([BulkString(IdText(entries[i].id)), Array(BulkStrings(entries[i].fields))])];
      }
      assert entries[..|entries|] == entries;
    }

    /** One reader: taken out of the table and sent what it waited for. */
    method WakeWaiter(w: WaiterId)
      requires Valid() && w in xreadWaiters
      modifies `xreadWaiters, `out
      ensures Valid() && Abs() == WakeOne(old(Abs()), w)
      ensures forall v :: v != w ==> (v in xreadWaiters <==> v in old(xreadWaiters))
    {
      ghost var before := Abs();
      var waiter := xreadWaiters[w];
      xreadWaiters := xreadWaiters - {w};
      BlockedWaiters.SameRows(before, Abs(), waiter.keys, waiter.ids);
      var rows, _ := FetchXread(waiter.keys, waiter.ids);
      out := out + [Reply(waiter.channel, Array(rows))];
    }

    /** `notify_xread_waiters`. */
    method NotifyXreadWaiters(key: Key) returns (ghost order: seq<WaiterId>)
      requires Valid()
      modifies `xreadWaiters, `out
      ensures Valid() && IsOrder(order, InterestedXread(old(Abs()), key))
      ensures Abs() == Wake(old(Abs()), order)
    {
      var waiters: seq<WaiterId> := [];
      var all := Iterate(xreadWaiters.Keys);
      for i := 0 to |all|
        invariant Distinct(waiters)
        invariant forall w :: w in waiters <==> w in all[..i] && key in xreadWaiters[w].keys
        invariant forall w :: w in waiters ==> w in xreadWaiters
      {
        if key in xreadWaiters[all[i]].keys {
          waiters := waiters + [all[i]];
        }
      }
      order := waiters;
      for i := 0 to |waiters|
        invariant Valid() && Wake(Abs(), waiters[i..]) == Wake(old(Abs()), waiters)
        invariant forall j :: i <= j < |waiters| ==> waiters[j] in xreadWaiters
      {
        hide WakeOne;
        WakeWaiter(waiters[i]);
        assert waiters[i..][0] == waiters[i] && waiters[i..][1..] == waiters[i + 1..];
      }
    }

    /** The checks on the id of a new entry, in order. */
    static method JudgeId(id: XaddId, stream: RedisStream, now: u64) returns (verdict: Verdict)
      ensures verdict == Judge(id, stream, now)
    {
      var next := NextStreamId(id, stream, now);
      if next == None {
        return NotAboveZero;
      }
      if Before(next.value, StreamId(0, 1)) {
        return NotAboveZero;
      }
      if HasId(stream, next.value) {
        return NotAboveLast;
      }
      var latest := LastId(stream);
      if latest.Some? && Before(next.value, latest.value) {
        return NotAboveLast;
      }
      verdict := Accepted(next.value);
    }

    method CreateStream(key: Key)
      modifies `data
      ensures Abs() == EnsureStream(old(Abs()), key) && key in data
    {
      if key !in data {
        data := data[key := Value(Stream([]), None)];
      }
    }

    method AddEntry(key: Key, id: StreamId, fields: seq<Bytes>)
      requires key in data && data[key].value.Stream?
      modifies `data
      ensures Abs() == AppendEntry(old(Abs()), key, id, fields)
    {
      data := data[key := data[key].(value := Stream(Insert(data[key].value.stream, id, fields)))];
    }

    method AddAndNotify(key: Key, id: StreamId, fields: seq<Bytes>) returns (ghost order: seq<WaiterId>)
      requires Valid() && key in data && data[key].value.Stream?
      modifies `data, `xreadWaiters, `out
      ensures Valid() && IsOrder(order, InterestedXread(old(Abs()), key))
      ensures Abs() == Wake(AppendEntry(old(Abs()), key, id, fields), order)
    {
      hide Wake, AppendEntry, IsOrder, InterestedXread;
      ghost var before := Abs();
      AddEntry(key, id, fields);
      SameXreadWaiters(before, Abs(), key);
      order := NotifyXreadWaiters(key);
    }

    /** XADD: the stream is created first, and stays even if the id is refused. */
    method Xadd(key: Key, id: XaddId, fields: seq<Bytes>) returns (r: Result, ghost now: u64, ghost order: seq<WaiterId>)
      requires Valid()
      modifies `data, `xreadWaiters, `out
      ensures Valid() && IsOrder(order, InterestedXread(old(Abs()), key))
      ensures XaddCommand(old(Abs()), key, id, fields, now, order) == Outcome(Abs(), r)
    {
      hide XaddCommand, Wake, EnsureStream, AppendEntry, IdText, Judge, Ascii, IsOrder, InterestedXread;
      var clock: u64 := *;
      now := clock;
      ghost var before := Abs();
      OrderExists(InterestedXread(Abs(), key));
      order :| IsOrder(order, InterestedXread(Abs(), key));
      CreateStream(key);
      SameXreadWaiters(before, Abs(), key);
      if !data[key].value.Stream? {
        NoStreamFound(before, key, id, fields, now, order);
        return Done(SimpleError(Ascii("ERR No stream found for given key"))), now, order;
      }
      var verdict := JudgeId(id, data[key].value.stream, clock);
      match verdict {
        case NotAboveZero =>
          r := Done(SimpleError(Ascii("ERR The ID specified in XADD must be greater than 0-0")));
        case NotAboveLast =>
          r := Done(SimpleError(
            Ascii("ERR The ID specified in XADD is equal or smaller than the target stream top item")));
        case Accepted(newId) =>
          order := AddAndNotify(key, newId, fields);
          r := Done(BulkString(IdText(newId)));
      }
      IdJudged(before, key, id, fields, now, order);
    }

    method Xread(keys: seq<Key>, milliseconds: Option<u64>, ids: seq<XreadId>) returns (r: Result)
      requires |keys| == |ids|
      modifies `waiterId
      ensures XreadCommand(old(Abs()), keys, milliseconds, ids) == Outcome(Abs(), r)
    {
      var resolved: seq<StreamId> := [];
      for i := 0 to |ids|
        invariant |resolved| == i
        invariant forall j :: 0 <= j < i ==> resolved[j] == ResolveId(Abs(), keys[j], ids[j])
        invariant Abs() == old(Abs())
      {
        match ids[i] {
          case After(id) =>
            resolved := resolved + [id];
          case Latest =>
            var last := if keys[i] in data && data[keys[i]].value.Stream? then LastId(data[keys[i]].value.stream) else None;
            resolved := resolved + [if last.Some? then last.value else StreamId(0, 1)];
        }
      }
      assert resolved == ResolveIds(Abs(), keys, ids);
      var rows, isEmpty := FetchXread(keys, resolved);
      if !isEmpty {
        return Done(Array(rows));
      }
      if milliseconds == None {
        return Done(Array([]));
      }
      waiterId := waiterId + 1;
      r := BlockXread(waiterId, keys, resolved);
    }

    // ------------------------------------------------------------------------ replication

    /** `count_acked`. */
    method CountAckedNow(target: nat) returns (n: nat)
      ensures n == CountAcked(Abs(), target)
    {
      if target == 0 {
        n := CountReplicas();
        return;
      }
      n := 0;
      var order := Iterate(replicaAcks.Keys);
      ghost var counted: set<ClientId> := {};
      for i := 0 to |order|
        invariant forall c :: c in counted <==> c in order[..i] && replicaAcks[c] >= target
        invariant n == |counted|
      {
        if replicaAcks[order[i]] >= target {
          n := n + 1;
          counted := counted + {order[i]};
        }
      }
      assert counted == AckedBy(Abs(), target);
    }

    method CountReplicas() returns (n: nat)
      ensures n == |Replicas(Abs())|
    {
      n := 0;
      var order := Iterate(clients.Keys);
      ghost var counted: set<ClientId> := {};
      for i := 0 to |order|
        invariant forall c :: c in counted <==> c in order[..i] && clients[c]
        invariant n == |counted|
      {
        if clients[order[i]] {
          n := n + 1;
          counted := counted + {order[i]};
        }
      }
      assert counted == Replicas(Abs());
    }

    /** One satisfied WAIT: removed and answered. */
    method ReleaseWaiter(w: WaiterId)
      requires w in waitWaiters
      modifies `waitWaiters, `out
      ensures Abs() == ReleaseOne(old(Abs()), w)
      ensures forall v :: v != w ==> (v in waitWaiters <==> v in old(waitWaiters))
    {
      var waiter := waitWaiters[w];
      waitWaiters := waitWaiters - {w};
      var n := CountAckedNow(waiter.target);
      out := out + [Reply(waiter.channel, Integer(WrapI64(n)))];
    }

    /** `command_replconf_ack`. */
    method RecordAckOf(c: ClientId, ackBytes: nat) returns (r: Result, ghost order: seq<WaiterId>)
      modifies `replicaAcks, `waitWaiters, `out
      ensures IsOrder(order, Satisfied(RecordAck(old(Abs()), c, ackBytes)))
      ensures AckCommand(old(Abs()), c, ackBytes, order) == Outcome(Abs(), r)
    {
      replicaAcks := replicaAcks[c := ackBytes];
      ghost var recorded := Abs();
      var done: seq<WaiterId> := [];
      var all := Iterate(waitWaiters.Keys);
      for i := 0 to |all|
        invariant Abs() == recorded
        invariant Distinct(done) && forall w :: w in done ==> w in waitWaiters
        invariant forall w :: w in done <==>
          w in all[..i] && CountAcked(recorded, waitWaiters[w].target) >= waitWaiters[w].numReplicas
      {
        var n := CountAckedNow(waitWaiters[all[i]].target);
        if n >= waitWaiters[all[i]].numReplicas {
          done := done + [all[i]];
        }
      }
      order := done;
      assert IsOrder(order, Satisfied(recorded));
      for i := 0 to |done|
        invariant Release(Abs(), done[i..]) == Release(recorded, done)
        invariant forall j :: i <= j < |done| ==> done[j] in waitWaiters
      {
        ReleaseWaiter(done[i]);
        assert done[i..][0] == done[i] && done[i..][1..] == done[i + 1..];
      }
      r := NoReply;
    }

    method Wait(numReplicas: nat, timeout: nat) returns (r: Result)
      modifies `waiterId
      ensures WaitCommand(old(Abs()), numReplicas, timeout) == Outcome(Abs(), r)
    {
      var current := CountAckedNow(masterAck);
      if current >= numReplicas {
        return Done(Integer(WrapI64(current)));
      }
      waiterId := waiterId + 1;
      r := BlockWait(waiterId, numReplicas, timeout);
    }

    // -------------------------------------------------------------------------- execution

    /** The arms of `try_execute` other than EXEC. The answer of a command whose state is not held here is
        arbitrary. */
    method ExecutePrim(c: ClientId, cmd: Command) returns (r: Result, ghost ch: Choice)
      requires Valid() && !cmd.ExecuteTx? && Paired(cmd)
      modifies this
      ensures Valid()
      ensures Allowed(old(Abs()), c, cmd, ch) && Prim(old(Abs()), c, cmd, ch) == Outcome(Abs(), r)
    {
      hide SetCommand, WatchKeys, Cleanup, IncrCommand, XaddCommand, XreadCommand, PushCommand, LpopCommand, BlpopCommand,
        AckCommand, WaitCommand, IsOrder, Ascii, InterestedBlpop, InterestedXread, Satisfied;
      if cmd.Xadd? || cmd.Xread? || cmd.Rpush? || cmd.Lpush? || cmd.Lpop? || cmd.Blpop? {
        r, ch := ExecuteSequence(c, cmd);
        return;
      }
      if cmd.Ack? || cmd.Wait? || cmd.Ping? || AnsweredElsewhere(cmd) || Unhandled(cmd) {
        r, ch := ExecuteOther(c, cmd);
        return;
      }
      ch := Choice(0, [], NullBulkString);
      match cmd {
        case Set(key, value, ex, px) =>
          ghost var now;
          r, now := Set(key, value, ex, px);
          ch := Choice(now, [], NullBulkString);
        case Watch(keys) =>
          Watch(c, keys);
          r := Done(OK());
        case Unwatch =>
          Forget(c);
          r := Done(OK());
        case Discard =>
          Forget(c);
          r := Done(OK());
        case Incr(key) =>
          r := Incr(key);
      }
    }

    /** The arms that touch neither keys nor values. */
    method ExecuteOther(c: ClientId, cmd: Command) returns (r: Result, ghost ch: Choice)
      requires Valid() && (cmd.Ack? || cmd.Wait? || cmd.Ping? || AnsweredElsewhere(cmd) || Unhandled(cmd))
      modifies this
      ensures Valid()
      ensures Allowed(old(Abs()), c, cmd, ch) && Prim(old(Abs()), c, cmd, ch) == Outcome(Abs(), r)
    {
      hide AckCommand, WaitCommand, IsOrder, Ascii, Satisfied, Prim, Allowed;
      ghost var before := Abs();
      var answer: Resp := *;
      ch := Choice(0, [], answer);
      match cmd {
        case Ack(n) =>
          ghost var order;
          r, order := RecordAckOf(c, n);
          ch := Choice(0, order, answer);
        case Wait(n, timeout) =>
          r := Wait(n, timeout);
        case Ping(payload) =>
          r := Done(if payload.Some? then BulkString(payload.value) else SimpleString(Ascii("PONG")));
        case _ =>
          r := Done(if AnsweredElsewhere(cmd) then answer else NullBulkString);
      }
      if cmd.Ack? || cmd.Wait? || cmd.Ping? {
        WaitingArms(before, c, cmd, ch);
      } else {
        LastArms(before, c, cmd, ch);
      }
    }

    /** The arms for lists and streams. */
    method ExecuteSequence(c: ClientId, cmd: Command) returns (r: Result, ghost ch: Choice)
      requires Valid() && Paired(cmd)
      requires cmd.Xadd? || cmd.Xread? || cmd.Rpush? || cmd.Lpush? || cmd.Lpop? || cmd.Blpop?
      modifies this
      ensures Valid()
      ensures Allowed(old(Abs()), c, cmd, ch) && Prim(old(Abs()), c, cmd, ch) == Outcome(Abs(), r)
    {
      hide XaddCommand, XreadCommand, PushCommand, LpopCommand, BlpopCommand, IsOrder, InterestedBlpop, InterestedXread,
        Prim, Allowed;
      ghost var before := Abs();
      ch := Choice(0, [], NullBulkString);
      ghost var now, order;
      match cmd {
        case Xadd(key, id, fields) =>
          r, now, order := Xadd(key, id, fields);
          ch := Choice(now, order, NullBulkString);
        case Xread(keys, ms, ids) =>
          r := Xread(keys, ms, ids);
        case Rpush(key, elements) =>
          r, order := Push(key, elements, false);
          ch := Choice(0, order, NullBulkString);
        case Lpush(key, elements) =>
          r, order := Push(key, elements, true);
          ch := Choice(0, order, NullBulkString);
        case Lpop(key, count) =>
          r := Lpop(key, count);
        case Blpop(keys, _) =>
          r := Blpop(keys);
      }
      SequenceArms(before, c, cmd, ch);
    }

    /** `try_execute`. */
    method TryExecute(c: ClientId, cmd: Command) returns (r: Result)
      requires Valid() && Paired(cmd)
      modifies this
      ensures Valid() && Executes(old(Abs()), c, cmd, r, Abs())
      decreases cmd
    {
      hide Prim, Allowed, Touch, Cleanup, LockFailed;
      ghost var start := Abs();
      MarkModified(c, ModifiedKeys(cmd));
      ghost var marked := Abs();
      if cmd.ExecuteTx? {
        var broken := LockIsBroken(c);
        if broken {
          Forget(c);
          return Done(NullArray);
        }
        var replies: seq<Resp> := [];
        for i := 0 to |cmd.commands|
          invariant Valid() && ExecutesAll(marked, c, cmd.commands[..i], replies, Abs())
        {
          ghost var last := Abs();
          var result := TryExecute(c, cmd.commands[i]);
          assert cmd.commands[..i + 1][..i] == cmd.commands[..i];
          ExecutesSnoc(marked, c, cmd.commands[..i + 1], replies, last, result, Abs());
          replies := replies + [if result.Done? then result.reply else NullArray];
        }
        assert cmd.commands[..|cmd.commands|] == cmd.commands;
        Forget(c);
        r := Done(Array(replies));
      } else {
        ghost var ch;
        r, ch := ExecutePrim(c, cmd);
      }
    }

    // -------------------------------------------------------------------------- envelopes

    /** Every connected replica is pushed the command. */
    method PushToReplicas(cmd: Command) returns (ghost order: seq<ClientId>)
      modifies `out
      ensures IsOrder(order, Replicas(old(Abs())))
      ensures out == old(out) + PushTo(order, cmd)
    {
      var all := Iterate(clients.Keys);
      order := [];
      for i := 0 to |all|
        invariant Distinct(order)
        invariant forall c :: c in order <==> c in all[..i] && clients[c]
        invariant out == old(out) + PushTo(order, cmd)
      {
        if clients[all[i]] {
          out := out + [StoreModel.Push(all[i], cmd)];
          order := order + [all[i]];
        }
      }
    }

    /** A request: accounted for, executed, and settled. The timeout of a command that blocks is known, so the
        program's `unwrap` of it cannot fail. */
    method HandleRequest(c: ClientId, cmd: Command, channel: Channel)
      requires Valid() && Paired(cmd) && !ToRespPanics(cmd) && channel !in requests
      modifies this
      ensures Valid() && Step(old(Abs()), WithReply(c, cmd, channel), Abs())
    {
      hide Executes, ToResp, Encode, IsOrder, PushTo;
      ghost var start := Abs();
      var timeout := BlockTimeout(cmd);
      AccountFor(cmd);
      ghost var counted := Abs();
      var r := TryExecute(c, cmd);
      ghost var mid := Abs();
      ghost var order := Settled(c, cmd, channel, counted, timeout, r);
      assert Step(start, WithReply(c, cmd, channel), Abs());
    }

    method AccountFor(cmd: Command)
      requires !ToRespPanics(cmd)
      modifies `pendingWrites, `masterAck, `aof, `logged
      ensures Abs() == Account(old(Abs()), cmd)
    {
      hide Encode, Len, ToResp, ToRespPanics;
      if IsReplicatable(cmd) {
        ReplicatedHasEncoding(cmd);
      }
      var resp := BuildResp(cmd);
      if IsReplicatable(cmd) {
        pendingWrites := true;
        masterAck := masterAck + Len(resp.value);
      }
      if resp.Some? {
        aof := aof + Encode(resp.value);
        logged := logged + [cmd];
      }
    }

    method Settled(c: ClientId, cmd: Command, channel: Channel, ghost counted: State, timeout: Option<u64>, r: Result)
      returns (ghost order: seq<ClientId>)
      requires Valid() && timeout == BlockTimeout(cmd) && Executes(counted, c, cmd, r, Abs())
      modifies `out, `requests, `xreadWaiters, `blpopWaiters, `waitWaiters, `broadcasts, `pendingWrites
      ensures Valid() && IsOrder(order, Replicas(old(Abs())))
      ensures Abs() == Settle(old(Abs()), channel, cmd, r, order)
    {
      hide Executes, IsOrder, BlockTimeout, Replicas, Settle;
      BlockedIsTimed(counted, c, cmd, r, Abs());
      match r {
        case Done(reply) =>
          order := AnswerRequest(channel, cmd, reply);
        case BlockXread(_, _, _) =>
          order := Register(channel, cmd, r);
          var duration := timeout.value;
        case BlockBlpop(_, _) =>
          order := Register(channel, cmd, r);
          var duration := timeout.value;
        case BlockWait(w, n, duration) =>
          order := AskReplicas(channel, cmd, r);
        case NoReply =>
          order := Register(channel, cmd, r);
      }
    }

    /** The reply goes out first, then a replicated command to every replica. */
    method AnswerRequest(channel: Channel, cmd: Command, reply: Resp) returns (ghost order: seq<ClientId>)
      modifies `out, `requests
      ensures IsOrder(order, Replicas(old(Abs())))
      ensures Abs() == Settle(old(Abs()), channel, cmd, Done(reply), order)
    {
      hide IsOrder, PushTo, Replicas, IsReplicatable;
      OrderExists(Replicas(Abs()));
      order :| IsOrder(order, Replicas(Abs()));
      ghost var before := Abs();
      out := out + [Reply(channel, reply)];
      requests := requests[channel := true];
      SameReplicas(before, Abs());
      if IsReplicatable(cmd) {
        order := PushToReplicas(cmd);
        assert Abs() == Settle(before, channel, cmd, Done(reply), order);
      } else {
        assert out + [] == out;
        assert Abs() == Settle(before, channel, cmd, Done(reply), order);
      }
    }

    /** A waiter goes into its table; an acknowledgement goes nowhere. */
    method Register(channel: Channel, cmd: Command, r: Result) returns (ghost order: seq<ClientId>)
      requires Valid() && (r.BlockXread? || r.BlockBlpop? || r.NoReply?)
      requires r.BlockXread? ==> |r.xreadKeys| == |r.ids|
      modifies `requests, `xreadWaiters, `blpopWaiters
      ensures Valid() && IsOrder(order, Replicas(old(Abs())))
      ensures Abs() == Settle(old(Abs()), channel, cmd, r, order)
    {
      hide IsOrder, Replicas;
      OrderExists(Replicas(Abs()));
      order :| IsOrder(order, Replicas(Abs()));
      if r.BlockXread? {
        xreadWaiters := xreadWaiters[r.xreadId := XreadWaiter(channel, r.xreadKeys, r.ids)];
        requests := requests[channel := true];
      } else if r.BlockBlpop? {
        blpopWaiters := blpopWaiters[r.blpopId := BlpopWaiter(channel, r.blpopKeys)];
        requests := requests[channel := true];
      } else {
        requests := requests[channel := false];
      }
    }

    /** A WAIT that has to wait: the replicas are asked for their offsets if anything was written since the last time. */
    method AskReplicas(channel: Channel, cmd: Command, r: Result) returns (ghost order: seq<ClientId>)
      requires r.BlockWait?
      modifies `out, `requests, `waitWaiters, `broadcasts, `pendingWrites
      ensures IsOrder(order, Replicas(old(Abs())))
      ensures Abs() == Settle(old(Abs()), channel, cmd, r, order)
    {
      hide IsOrder, PushTo, Replicas;
      OrderExists(Replicas(Abs()));
      order :| IsOrder(order, Replicas(Abs()));
      ghost var before := Abs();
      if pendingWrites {
        order := PushToReplicas(GetAck);
        broadcasts := broadcasts + 1;
        pendingWrites := false;
      } else {
        assert before.out + [] == before.out;
      }
      waitWaiters := waitWaiters[r.waitId := WaitWaiter(channel, r.numReplicas, masterAck)];
      requests := requests[channel := true];
    }

    /** The serialized snapshot, written in some order of the keys. */
    method Snapshot() returns (file: Bytes, ghost order: seq<Key>)
      ensures IsOrder(order, ToRdb(data).data.Keys) && file == SnapshotBytes(data, order)
    {
      hide ToRdb, SerializeIn;
      var rdb := ToRdbFile();
      file := rdb.Serialize();
      ghost var metadataOrder;
      metadataOrder, order :|
        && IsOrder(metadataOrder, rdb.metadata.Keys) && IsOrder(order, rdb.data.Keys)
        && file == SerializeIn(rdb.Contents(), metadataOrder, order);
      NoMetadata(data);
      OrderLength(metadataOrder, rdb.metadata.Keys);
    }

    /** `AddReplica`: marked if it is registered, and sent a snapshot either way. */
    method AddReplica(c: ClientId, channel: Channel)
      requires channel !in requests
      modifies this
      ensures xreadWaiters == old(xreadWaiters)
      ensures Step(old(Abs()), StoreModel.AddReplica(c, channel), Abs())
    {
      hide SnapshotBytes, ToRdb, Step, IsOrder;
      ghost var before := Abs();
      if c in clients {
        clients := clients[c := true];
      }
      var file, order := Snapshot();
      out := out + [Reply(channel, File(file))];
      requests := requests[channel := true];
      JoinIsStep(before, c, channel, order, Abs());
    }

    method XreadTimedOut(w: WaiterId)
      requires Valid()
      modifies `xreadWaiters, `out
      ensures Valid() && Abs() == TimeOutXread(old(Abs()), w)
    {
      if w in xreadWaiters {
        var channel := xreadWaiters[w].channel;
        xreadWaiters := xreadWaiters - {w};
        out := out + [Reply(channel, NullArray)];
      }
    }

    method BlpopTimedOut(w: WaiterId)
      modifies `blpopWaiters, `out
      ensures Abs() == TimeOutBlpop(old(Abs()), w)
    {
      if w in blpopWaiters {
        var channel := blpopWaiters[w].channel;
        blpopWaiters := blpopWaiters - {w};
        out := out + [Reply(channel, NullArray)];
      }
    }

    /** However many replicas are caught up by now is the answer. */
    method WaitTimedOut(w: WaiterId)
      modifies `waitWaiters, `out
      ensures Abs() == TimeOutWait(old(Abs()), w)
    {
      hide CountAcked;
      if w in waitWaiters {
        ghost var before := Abs();
        var waiter := waitWaiters[w];
        waitWaiters := waitWaiters - {w};
        BlockedWaiters.SameAcks(before, Abs(), waiter.target);
        var n := CountAckedNow(waiter.target);
        out := out + [Reply(waiter.channel, Integer(WrapI64(n)))];
      }
    }

    /** One envelope of `run_store`. A request whose encoding panics ends the loop. */
    method HandleEnvelope(e: Envelope) returns (alive: bool)
      requires Valid() && Acceptable(e, Abs())
      modifies this
      ensures alive <==> !Panics(e)
      ensures alive ==> Valid() && Step(old(Abs()), e, Abs())
      ensures !alive ==> Abs() == old(Abs())
    {
      hide Executes, TimeOutXread, TimeOutBlpop, TimeOutWait, JoinReplica, IsOrder, Account, Settle;
      alive := true;
      match e {
        case WithReply(c, cmd, channel) =>
          if ToRespPanics(cmd) {
            return false;
          }
          HandleRequest(c, cmd, channel);
        case TimeoutXread(w) =>
          XreadTimedOut(w);
        case TimeoutBlpop(w) =>
          BlpopTimedOut(w);
        case TimeoutWait(w) =>
          WaitTimedOut(w);
        case AddReplica(c, channel) =>
          AddReplica(c, channel);
        case Replicate(cmd) =>
          var _ := TryExecute(0, cmd);
        case RegisterClient(c) =>
          clients := clients[c := false];
        case UnregisterClient(c) =>
          clients := clients - {c};
          replicaAcks := replicaAcks - {c};
      }
    }

    /** `run_store`: the logged commands are replayed, then envelopes are consumed one by one. */
    method Run(ghost rdb: Rdb, initial: seq<Command>, envelopes: seq<Envelope>) returns (ghost states: seq<State>)
      requires Valid() && Abs() == Fresh(FromRdb(rdb))
      requires forall i :: 0 <= i < |initial| ==> Paired(initial[i])
      requires FreshChannels(envelopes) && forall i :: 0 <= i < |envelopes| ==> PairedEnvelope(envelopes[i])
      modifies this
      ensures 1 <= |states| <= |envelopes| + 1 && Abs() == states[|states| - 1]
      ensures exists replies :: ExecutesAll(Fresh(FromRdb(rdb)), 0, initial, replies, states[0])
      ensures StoreModel.Run(states, envelopes[..|states| - 1])
      ensures |states| <= |envelopes| ==> Panics(envelopes[|states| - 1])
    {
      hide Step, Executes, ExecutesAll, FromRdb;
      ghost var start := Abs();
      Replay(initial);
      NoRequestsYet(start, initial, Abs());
      states := [Abs()];
      var i := 0;
      while i < |envelopes|
        invariant i <= |envelopes| && |states| == i + 1 && Abs() == states[i] && Valid()
        invariant exists replies :: ExecutesAll(start, 0, initial, replies, states[0])
        invariant StoreModel.Run(states, envelopes[..i])
        invariant forall channel :: channel in requests ==> Used(envelopes[..i], channel)
      {
        ghost var before := Abs();
        NotUsedYet(envelopes, i);
        var alive := HandleEnvelope(envelopes[i]);
        if !alive {
          return;
        }
        ChannelsAdded(before, envelopes[i], Abs());
        RunOneMore(states, envelopes[..i], envelopes[i], Abs());
        assert envelopes[..i] + [envelopes[i]] == envelopes[..i + 1];
        UsedGrows(envelopes, i);
        states := states + [Abs()];
        i := i + 1;
      }
      assert envelopes[..|envelopes|] == envelopes;
    }

    method Replay(initial: seq<Command>)
      requires Valid() && forall i :: 0 <= i < |initial| ==> Paired(initial[i])
      modifies this
      ensures Valid() && exists replies :: ExecutesAll(old(Abs()), 0, initial, replies, Abs())
    {
      hide Executes;
      ghost var replies: seq<Resp> := [];
      for i := 0 to |initial|
        invariant Valid() && ExecutesAll(old(Abs()), 0, initial[..i], replies, Abs())
      {
        ghost var last := Abs();
        var result := TryExecute(0, initial[i]);
        assert initial[..i + 1][..i] == initial[..i];
        ExecutesSnoc(old(Abs()), 0, initial[..i + 1], replies, last, result, Abs());
        replies := replies + [TxReply(result)];
      }
      assert initial[..|initial|] == initial;
    }
  }

  // ---------------------------------------------------------------------- whole runs

  predicate Panics(e: Envelope) {
    e.WithReply? && ToRespPanics(e.command)
  }

  predicate PairedEnvelope(e: Envelope) {
    (e.WithReply? ==> Paired(e.command)) && (e.Replicate? ==> Paired(e.command))
  }

  /** An envelope that brings a reply channel. */
  predicate AwaitsReply(e: Envelope) {
    e.WithReply? || e.AddReplica?
  }

  /** The reply channel of an envelope is new. */
  predicate Acceptable(e: Envelope, s: State) {
    && PairedEnvelope(e)
    && (AwaitsReply(e) ==> e.channel !in s.requests)
  }

  predicate Used(envelopes: seq<Envelope>, channel: Channel) {
    exists i :: 0 <= i < |envelopes| && AwaitsReply(envelopes[i]) && envelopes[i].channel == channel
  }

  /** Every request brings its own reply channel. */
  predicate FreshChannels(envelopes: seq<Envelope>) {
    forall i, j :: 0 <= i < j < |envelopes|
      && AwaitsReply(envelopes[i]) && AwaitsReply(envelopes[j])
      ==> envelopes[i].channel != envelopes[j].channel
  }

  lemma NotUsedYet(envelopes: seq<Envelope>, i: nat)
    requires FreshChannels(envelopes) && i < |envelopes|
    ensures AwaitsReply(envelopes[i]) ==> !Used(envelopes[..i], envelopes[i].channel)
  {
  }

  lemma UsedGrows(envelopes: seq<Envelope>, i: nat)
    requires i < |envelopes|
    ensures forall channel :: Used(envelopes[..i], channel) ==> Used(envelopes[..i + 1], channel)
    ensures AwaitsReply(envelopes[i]) ==> Used(envelopes[..i + 1], envelopes[i].channel)
  {
    forall channel | Used(envelopes[..i], channel) ensures Used(envelopes[..i + 1], channel) {
      var j :| 0 <= j < i && AwaitsReply(envelopes[..i][j]) && envelopes[..i][j].channel == channel;
      assert envelopes[..i + 1][j] == envelopes[j];
    }
    assert envelopes[..i + 1][i] == envelopes[i];
  }

  lemma ChannelsAdded(s: State, e: Envelope, t: State)
    requires Step(s, e, t)
    ensures forall channel :: channel in t.requests ==>
      channel in s.requests || (AwaitsReply(e) && e.channel == channel)
  {
    hide Step, Executes;
    if e.WithReply? {
      RequestExpectsReply(s, e.client, e.command, e.channel, t);
    } else if e.Replicate? {
      var r := ReplicatePart(s, e.command, t);
      ExecKeepsFrame(s, 0, e.command, r, t);
    } else if e.AddReplica? {
      JoinFrame(s, e.client, e.channel, t);
    } else {
      TimerRequests(s, e, t);
    }
  }

  lemma TimerRequests(s: State, e: Envelope, t: State)
    requires Step(s, e, t) && !e.WithReply? && !e.Replicate? && !e.AddReplica?
    ensures t.requests == s.requests
  {
    hide Executes, CountAcked;
  }

  lemma NoRequestsYet(start: State, cmds: seq<Command>, s: State)
    requires start.requests == map[] && exists replies :: ExecutesAll(start, 0, cmds, replies, s)
    ensures s.requests == map[]
  {
    hide Prim, Touch, Cleanup, Allowed, ExecutesAll, ExecFrame;
    var replies :| ExecutesAll(start, 0, cmds, replies, s);
    FramePrinciple(start);
    ExecFrameRefl(start);
    ExecSeqKeeps(u => ExecFrame(start, u), start, 0, cmds, replies, s);
    FrameKeepsRequests(start, s);
  }

  lemma FrameKeepsRequests(s: State, t: State)
    requires ExecFrame(s, t)
    ensures t.requests == s.requests
  {
  }

  lemma RunOneMore(states: seq<State>, envelopes: seq<Envelope>, e: Envelope, t: State)
    requires StoreModel.Run(states, envelopes) && Step(states[|states| - 1], e, t)
    ensures StoreModel.Run(states + [t], envelopes + [e])
  {
    hide Step, Booted;
  }

  lemma NoMetadata(data: map<Key, Value>)
    ensures ToRdb(data).metadata == map[]
  {
  }

  lemma {:induction false} LastReversed(xs: seq<Bytes>)
    requires xs != []
    ensures Reversed(xs) == [xs[|xs| - 1]] + Reversed(xs[..|xs| - 1])
  {
    if |xs| > 1 {
      LastReversed(xs[1..]);
      assert xs[1..][..|xs| - 2] == xs[..|xs| - 1][1..];
    }
  }

  lemma EmptyReversed()
    ensures Reversed<Bytes>([]) == []
  {
  }

  lemma {:induction false} ReversedLength(xs: seq<Bytes>)
    ensures |Reversed(xs)| == |xs|
  {
    if xs != [] {
      ReversedLength(xs[1..]);
    }
  }
}
