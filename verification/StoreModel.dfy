/**
 The store as a transition system (`src/main.rs:56-1357`): the state `run_store` owns,
 what each command does to it, and what one envelope does.

 Every choice the program leaves open is explicit. A `Choice` is what one primitive command
 observes of the outside: the clock, the order in which a hash map of waiters iterates, and
 the answer of a command this model does not open. The last fields of `State` are history:
 what was sent on the channels, the bytes of the append-only file, and what happened to
 watches and lists.
 */
module StoreModel {
  import opened Types
  import opened Decimal
  import opened Orders
  import opened RespCodec
  import opened RdbCodec
  import opened Streams
  import opened Commands

  datatype PrimitiveValue = Str(s: Bytes) | List(items: seq<Bytes>) | Stream(stream: RedisStream)

  datatype Value = Value(value: PrimitiveValue, expireMs: Option<u64>)

  type ClientId = nat
  type WaiterId = nat

  /** The sending half of a oneshot reply channel. */
  type Channel = nat

  datatype XreadWaiter = XreadWaiter(channel: Channel, keys: seq<Key>, ids: seq<StreamId>)
  datatype BlpopWaiter = BlpopWaiter(channel: Channel, keys: seq<Key>)
  datatype WaitWaiter = WaitWaiter(channel: Channel, numReplicas: nat, target: nat)

  /** What leaves the store: an answer on a reply channel, or a command pushed to a client. */
  datatype Output = Reply(channel: Channel, resp: Resp) | Push(client: ClientId, command: Command)

  datatype WatchEvent = Watched(client: ClientId, key: Key) | Wrote(client: ClientId, key: Key) | Cleared(client: ClientId)

  datatype ListEvent =
    | PushedBack(key: Key, elems: seq<Bytes>)
    | PushedFront(key: Key, elems: seq<Bytes>)
    | Took(key: Key, elem: Bytes)
    | Overwrote(key: Key)

  datatype State = State(
    clients: map<ClientId, bool>,
    data: map<Key, Value>,
    waiterId: nat,
    watched: map<Key, set<ClientId>>,
    xreadWaiters: map<WaiterId, XreadWaiter>,
    blpopWaiters: map<WaiterId, BlpopWaiter>,
    waitWaiters: map<WaiterId, WaitWaiter>,
    masterAck: nat,
    replicaAcks: map<ClientId, nat>,
    pendingWrites: bool,
    out: seq<Output>,
    aof: Bytes,
    logged: seq<Command>,
    requests: map<Channel, bool>,
    broadcasts: nat,
    watchLog: seq<WatchEvent>,
    listLog: seq<ListEvent>
  )

  datatype Result =
    | Done(reply: Resp)
    | BlockXread(xreadId: WaiterId, xreadKeys: seq<Key>, ids: seq<StreamId>)
    | BlockBlpop(blpopId: WaiterId, blpopKeys: seq<Key>)
    | BlockWait(waitId: WaiterId, numReplicas: nat, timeout: nat)
    | NoReply

  datatype Outcome = Outcome(state: State, result: Result)

  datatype Choice = Choice(now: u64, order: seq<WaiterId>, answer: Resp)

  // ------------------------------------------------------------------------ observers

  function ListOf(s: State, k: Key): seq<Bytes> {
    if k in s.data && s.data[k].value.List? then s.data[k].value.items else []
  }

  function StreamOf(s: State, k: Key): RedisStream {
    if k in s.data && s.data[k].value.Stream? then s.data[k].value.stream else []
  }

  function Replicas(s: State): set<ClientId> {
    set c | c in s.clients && s.clients[c]
  }

  function AckedBy(s: State, target: nat): set<ClientId> {
    set c | c in s.replicaAcks && s.replicaAcks[c] >= target
  }

  /** `count_acked`: with nothing to wait for, every connected replica counts. */
  function CountAcked(s: State, target: nat): nat {
    if target == 0 then |Replicas(s)| else |AckedBy(s, target)|
  }

  function Answer(s: State, channel: Channel, resp: Resp): State {
    s.(out := s.out + [Reply(channel, resp)])
  }

  function OK(): Resp {
    SimpleString(Ascii("OK"))
  }

  // ------------------------------------------------------------------- watching (tx)

  function TouchKey(s: State, c: ClientId, k: Key): State {
    s.(watched := if k in s.watched then s.watched[k := s.watched[k] + {c}] else s.watched,
       watchLog := s.watchLog + [Wrote(c, k)])
  }

  /** A client that modifies a watched key joins its watchers. */
  function Touch(s: State, c: ClientId, keys: seq<Key>): State
    decreases |keys|
  {
    if keys == [] then s else Touch(TouchKey(s, c, keys[0]), c, keys[1..])
  }

  function WatchKey(s: State, c: ClientId, k: Key): State {
    s.(watched := s.watched[k := (if k in s.watched then s.watched[k] else {}) + {c}],
       watchLog := s.watchLog + [Watched(c, k)])
  }

  function WatchKeys(s: State, c: ClientId, keys: seq<Key>): State
    decreases |keys|
  {
    if keys == [] then s else WatchKeys(WatchKey(s, c, keys[0]), c, keys[1..])
  }

  /** The client leaves every set of watchers, and empty sets are dropped. */
  function Cleanup(s: State, c: ClientId): State {
    s.(watched := map k | k in s.watched && s.watched[k] - {c} != {} :: s.watched[k] - {c},
       watchLog := s.watchLog + [Cleared(c)])
  }

  ghost predicate LockFailed(s: State, c: ClientId) {
    exists k :: k in s.watched && c in s.watched[k] && |s.watched[k]| > 1
  }

  // ---------------------------------------------------------------------------- lists

  function PopFront(s: State, k: Key): State
    requires ListOf(s, k) != []
  {
    s.(data := s.data[k := s.data[k].(value := List(ListOf(s, k)[1..]))],
       listLog := s.listLog + [Took(k, ListOf(s, k)[0])])
  }

  function PopMany(s: State, k: Key, count: nat): State
    decreases count
  {
    if count == 0 || ListOf(s, k) == [] then s else PopMany(PopFront(s, k), k, count - 1)
  }

  function FirstReady(s: State, keys: seq<Key>): (r: Option<Key>)
    ensures r.Some? ==> r.value in keys && ListOf(s, r.value) != []
    ensures r.None? ==> forall k :: k in keys ==> ListOf(s, k) == []
  {
    if keys == [] then None
    else if ListOf(s, keys[0]) != [] then Some(keys[0])
    else FirstReady(s, keys[1..])
  }

  function PoppedReply(k: Key, elem: Bytes): Resp {
    Array([BulkString(k), BulkString(elem)])
  }

  function InterestedBlpop(s: State, k: Key): set<WaiterId> {
    set w | w in s.blpopWaiters && k in s.blpopWaiters[w].keys
  }

  /** One iteration of `notify_blpop_waiters`: served and removed, or put back. */
  function ServeOne(s: State, w: WaiterId): State {
    if w !in s.blpopWaiters then s
    else
      match FirstReady(s, s.blpopWaiters[w].keys)
      case None => s
      case Some(k) =>
        Answer(PopFront(s, k).(blpopWaiters := s.blpopWaiters - {w}),
               s.blpopWaiters[w].channel, PoppedReply(k, ListOf(s, k)[0]))
  }

  function Serve(s: State, order: seq<WaiterId>): State
    decreases |order|
  {
    if order == [] then s else Serve(ServeOne(s, order[0]), order[1..])
  }

  function Reversed<T>(xs: seq<T>): seq<T> {
    if xs == [] then [] else Reversed(xs[1..]) + [xs[0]]
  }

  /** RPUSH or LPUSH before anyone is woken. A value that is not a list is replaced. */
  function PushElements(s: State, k: Key, elems: seq<Bytes>, front: bool): State {
    var items := if front then Reversed(elems) + ListOf(s, k) else ListOf(s, k) + elems;
    var expire := if k in s.data && s.data[k].value.List? then s.data[k].expireMs else None;
    s.(data := s.data[k := Value(List(items), expire)],
       listLog := s.listLog + [if front then PushedFront(k, elems) else PushedBack(k, elems)])
  }

  function PushCommand(s: State, k: Key, elems: seq<Bytes>, front: bool, order: seq<WaiterId>): Outcome {
    var pushed := PushElements(s, k, elems, front);
    Outcome(Serve(pushed, order), Done(Integer(WrapI64(|ListOf(pushed, k)|))))
  }

  function BulkStrings(xs: seq<Bytes>): seq<Resp> {
    seq(|xs|, i requires 0 <= i < |xs| => BulkString(xs[i]))
  }

  function Min(a: int, b: int): int {
    if a < b then a else b
  }

  function LpopCommand(s: State, k: Key, count: Option<u32>): Outcome {
    if ListOf(s, k) == [] then Outcome(s, Done(NullBulkString))
    else if count == None then Outcome(PopFront(s, k), Done(BulkString(ListOf(s, k)[0])))
    else
      Outcome(PopMany(s, k, count.value),
              Done(Array(BulkStrings(ListOf(s, k)[..Min(count.value, |ListOf(s, k)|)]))))
  }

  function BlpopCommand(s: State, keys: seq<Key>): Outcome {
    match FirstReady(s, keys)
    case Some(k) => Outcome(PopFront(s, k), Done(PoppedReply(k, ListOf(s, k)[0])))
    case None => Outcome(s.(waiterId := s.waiterId + 1), BlockBlpop(s.waiterId + 1, keys))
  }

  // ------------------------------------------------------------------------- strings

  /** `now` plus so many units of `ms` milliseconds, wrapping around. */
  function Deadline(now: u64, count: u64, ms: nat): u64 {
    WrapU64(now + count * ms)
  }

  function SetCommand(s: State, key: Key, value: Bytes, ex: Option<u64>, px: Option<u64>, now: u64): Outcome {
    var expire :=
      if ex.Some? then Some(Deadline(now, ex.value, 1000))
      else if px.Some? then Some(Deadline(now, px.value, 1))
      else None;
    Outcome(s.(data := s.data[key := Value(Str(value), expire)], listLog := s.listLog + [Overwrote(key)]),
            Done(OK()))
  }

  /** The number a string starts with, plus one; what follows the number is ignored. */
  function Incremented(text: Bytes): Option<i64> {
    match Parser.Integer(-I64_LIMIT, I64_LIMIT, text)
    case Ok(n, _) => Some(WrapI64(n + 1))
    case _ => None
  }

  predicate HoldsString(s: State, key: Key) {
    key in s.data && s.data[key].value.Str?
  }

  /** What INCR stores: a missing value, or one that is not a string, is replaced by 1. */
  function IncrResult(s: State, key: Key): Option<i64> {
    if HoldsString(s, key) then Incremented(s.data[key].value.s) else Some(1)
  }

  function StoreNumber(s: State, key: Key, n: i64): State {
    if HoldsString(s, key) then s.(data := s.data[key := Value(Str(IntText(n)), s.data[key].expireMs)])
    else s.(data := s.data[key := Value(Str(IntText(n)), None)], listLog := s.listLog + [Overwrote(key)])
  }

  function IncrCommand(s: State, key: Key): Outcome {
    match IncrResult(s, key)
    case Some(n) => Outcome(StoreNumber(s, key, n), Done(Integer(n)))
    case None => Outcome(s, Done(SimpleError(Ascii("ERR value is not an integer or out of range"))))
  }

  // ------------------------------------------------------------------------- streams

  function EntryRow(e: Streams.Entry): Resp {
    Array([BulkString(IdText(e.id)), Array(BulkStrings(e.fields))])
  }

  function EntryRows(entries: RedisStream): seq<Resp> {
    seq(|entries|, i requires 0 <= i < |entries| => EntryRow(entries[i]))
  }

  function StreamRow(k: Key, entries: RedisStream): Resp {
    Array([BulkString(k), Array(EntryRows(entries))])
  }

  /** `fetch_xread`: one row for every key that holds a stream, even an empty row. */
  function XreadRows(s: State, keys: seq<Key>, ids: seq<StreamId>): seq<Resp>
    requires |keys| == |ids|
  {
    if keys == [] then []
    else
      (if keys[0] in s.data && s.data[keys[0]].value.Stream?
       then [StreamRow(keys[0], Above(StreamOf(s, keys[0]), ids[0]))] else [])
      + XreadRows(s, keys[1..], ids[1..])
  }

  predicate NothingAbove(s: State, keys: seq<Key>, ids: seq<StreamId>) {
    |keys| == |ids| && forall i :: 0 <= i < |keys| ==> Above(StreamOf(s, keys[i]), ids[i]) == []
  }

  function ResolveId(s: State, k: Key, id: XreadId): StreamId {
    match id
    case After(id) => id
    case Latest => if LastId(StreamOf(s, k)).Some? then LastId(StreamOf(s, k)).value else StreamId(0, 1)
  }

  function ResolveIds(s: State, keys: seq<Key>, ids: seq<XreadId>): seq<StreamId>
    requires |keys| == |ids|
  {
    seq(|ids|, i requires 0 <= i < |ids| => ResolveId(s, keys[i], ids[i]))
  }

  function XreadCommand(s: State, keys: seq<Key>, milliseconds: Option<u64>, ids: seq<XreadId>): Outcome
    requires |keys| == |ids|
  {
    var resolved := ResolveIds(s, keys, ids);
    if !NothingAbove(s, keys, resolved) then Outcome(s, Done(Array(XreadRows(s, keys, resolved))))
    else if milliseconds == None then Outcome(s, Done(Array([])))
    else Outcome(s.(waiterId := s.waiterId + 1), BlockXread(s.waiterId + 1, keys, resolved))
  }

  function InterestedXread(s: State, k: Key): set<WaiterId> {
    set w | w in s.xreadWaiters && k in s.xreadWaiters[w].keys
  }

  /** One iteration of `notify_xread_waiters`. */
  function WakeOne(s: State, w: WaiterId): State {
    if w !in s.xreadWaiters || |s.xreadWaiters[w].keys| != |s.xreadWaiters[w].ids| then s
    else
      var waiter := s.xreadWaiters[w];
      Answer(s.(xreadWaiters := s.xreadWaiters - {w}), waiter.channel, Array(XreadRows(s, waiter.keys, waiter.ids)))
  }

  function Wake(s: State, order: seq<WaiterId>): State
    decreases |order|
  {
    if order == [] then s else Wake(WakeOne(s, order[0]), order[1..])
  }

  function EnsureStream(s: State, key: Key): State {
    if key in s.data then s else s.(data := s.data[key := Value(Stream([]), None)])
  }

  function AppendEntry(s: State, key: Key, id: StreamId, fields: seq<Bytes>): State
    requires key in s.data && s.data[key].value.Stream?
  {
    s.(data := s.data[key := s.data[key].(value := Stream(Insert(StreamOf(s, key), id, fields)))])
  }

  function XaddCommand(s: State, key: Key, id: XaddId, fields: seq<Bytes>, now: u64, order: seq<WaiterId>): Outcome {
    var ready := EnsureStream(s, key);
    if !ready.data[key].value.Stream? then
      Outcome(ready, Done(SimpleError(Ascii("ERR No stream found for given key"))))
    else
      match Judge(id, StreamOf(ready, key), now)
      case NotAboveZero =>
        Outcome(ready, Done(SimpleError(Ascii("ERR The ID specified in XADD must be greater than 0-0"))))
      case NotAboveLast =>
        Outcome(ready, Done(SimpleError(
          Ascii("ERR The ID specified in XADD is equal or smaller than the target stream top item"))))
      case Accepted(newId) =>
        Outcome(Wake(AppendEntry(ready, key, newId, fields), order), Done(BulkString(IdText(newId))))
  }

  // --------------------------------------------------------------------- replication

  function Satisfied(s: State): set<WaiterId> {
    set w | w in s.waitWaiters && CountAcked(s, s.waitWaiters[w].target) >= s.waitWaiters[w].numReplicas
  }

  function ReleaseOne(s: State, w: WaiterId): State {
    if w !in s.waitWaiters then s
    else
      var waiter := s.waitWaiters[w];
      Answer(s.(waitWaiters := s.waitWaiters - {w}),
             waiter.channel, Integer(WrapI64(CountAcked(s, waiter.target))))
  }

  function Release(s: State, order: seq<WaiterId>): State
    decreases |order|
  {
    if order == [] then s else Release(ReleaseOne(s, order[0]), order[1..])
  }

  function RecordAck(s: State, c: ClientId, ackBytes: nat): State {
    s.(replicaAcks := s.replicaAcks[c := ackBytes])
  }

  /** `command_replconf_ack`. */
  function AckCommand(s: State, c: ClientId, ackBytes: nat, order: seq<WaiterId>): Outcome {
    Outcome(Release(RecordAck(s, c, ackBytes), order), NoReply)
  }

  function WaitCommand(s: State, numReplicas: nat, timeout: nat): Outcome {
    var current := CountAcked(s, s.masterAck);
    if current >= numReplicas then Outcome(s, Done(Integer(WrapI64(current))))
    else Outcome(s.(waiterId := s.waiterId + 1), BlockWait(s.waiterId + 1, numReplicas, timeout))
  }

  // ------------------------------------------------------------------------- execution

  /** One command other than EXEC, after its keys were marked as modified. */
  function Prim(s: State, c: ClientId, cmd: Command, ch: Choice): Outcome {
    match cmd
    case Set(key, value, ex, px) => SetCommand(s, key, value, ex, px, ch.now)
    case Watch(keys) => Outcome(WatchKeys(s, c, keys), Done(OK()))
    case Unwatch => Outcome(Cleanup(s, c), Done(OK()))
    case Discard => Outcome(Cleanup(s, c), Done(OK()))
    case Incr(key) => IncrCommand(s, key)
    case Xadd(key, id, fields) => XaddCommand(s, key, id, fields, ch.now, ch.order)
    case Xread(keys, ms, ids) => if |keys| == |ids| then XreadCommand(s, keys, ms, ids) else Outcome(s, NoReply)
    case Rpush(key, elements) => PushCommand(s, key, elements, false, ch.order)
    case Lpush(key, elements) => PushCommand(s, key, elements, true, ch.order)
    case Lpop(key, count) => LpopCommand(s, key, count)
    case Blpop(keys, _) => BlpopCommand(s, keys)
    case Ack(n) => AckCommand(s, c, n, ch.order)
    case Wait(n, timeout) => WaitCommand(s, n, timeout)
    case Ping(payload) => Outcome(s, Done(if payload.Some? then BulkString(payload.value) else SimpleString(Ascii("PONG"))))
    case Subscribe(_) => Outcome(s, Done(ch.answer))
    case Publish(_, _) => Outcome(s, Done(ch.answer))
    case Unsubscribe(_) => Outcome(s, Done(ch.answer))
    case Auth(_, _) => Outcome(s, Done(ch.answer))
    case Query(_) => Outcome(s, Done(ch.answer))
    case _ => Outcome(s, Done(NullBulkString))
  }

  /** The choices open to a command: a hash map of waiters iterates in some order of the waiters
      concerned. An XREAD whose keys and ids differ in number panics and has no outcome. */
  ghost predicate Allowed(s: State, c: ClientId, cmd: Command, ch: Choice) {
    match cmd
    case Rpush(key, _) => IsOrder(ch.order, InterestedBlpop(s, key))
    case Lpush(key, _) => IsOrder(ch.order, InterestedBlpop(s, key))
    case Xadd(key, _, _) => IsOrder(ch.order, InterestedXread(s, key))
    case Ack(n) => IsOrder(ch.order, Satisfied(RecordAck(s, c, n)))
    case Xread(keys, _, ids) => |keys| == |ids|
    case ExecuteTx(_) => false
    case _ => true
  }

  /** `try_execute`: from `s`, `cmd` may give result `r` and state `t`. */
  ghost predicate Executes(s: State, c: ClientId, cmd: Command, r: Result, t: State)
    decreases cmd, 1
  {
    var marked := Touch(s, c, ModifiedKeys(cmd));
    if cmd.ExecuteTx? then
      if LockFailed(marked, c) then r == Done(NullArray) && t == Cleanup(marked, c)
      else exists replies, mid ::
          ExecutesAll(marked, c, cmd.commands, replies, mid) && r == Done(Array(replies)) && t == Cleanup(mid, c)
    else exists ch :: Allowed(marked, c, cmd, ch) && Prim(marked, c, cmd, ch) == Outcome(t, r)
  }

  function TxReply(r: Result): Resp {
    if r.Done? then r.reply else NullArray
  }

  /** Commands run one after the other, with one reply each. */
  ghost predicate ExecutesAll(s: State, c: ClientId, cmds: seq<Command>, replies: seq<Resp>, t: State)
    decreases cmds, 0
  {
    if cmds == [] then replies == [] && t == s
    else
      var n := |cmds| - 1;
      |replies| == |cmds| && exists mid, r ::
        ExecutesAll(s, c, cmds[..n], replies[..n], mid) && Executes(mid, c, cmds[n], r, t) && replies[n] == TxReply(r)
  }

  // -------------------------------------------------------------------- store envelopes

  datatype Envelope =
    | WithReply(client: ClientId, command: Command, channel: Channel)
    | TimeoutXread(waiter: WaiterId)
    | TimeoutBlpop(waiter: WaiterId)
    | TimeoutWait(waiter: WaiterId)
    | AddReplica(client: ClientId, channel: Channel)
    | Replicate(command: Command)
    | RegisterClient(client: ClientId)
    | UnregisterClient(client: ClientId)

  /** A command bound for the replicas advances the replication offset by its length. */
  function Count(s: State, cmd: Command): State
    requires !ToRespPanics(cmd)
  {
    if IsReplicatable(cmd)
    then s.(pendingWrites := true, masterAck := s.masterAck + Len(ToResp(cmd).value))
    else s
  }

  /** A command that has an encoding is appended to the file. */
  function Log(s: State, cmd: Command): State
    requires !ToRespPanics(cmd)
  {
    if ToResp(cmd).Some?
    then s.(aof := s.aof + Encode(ToResp(cmd).value), logged := s.logged + [cmd])
    else s
  }

  /** Bookkeeping before execution. */
  function Account(s: State, cmd: Command): State
    requires !ToRespPanics(cmd)
  {
    Log(Count(s, cmd), cmd)
  }

  function PushTo(order: seq<ClientId>, cmd: Command): seq<Output> {
    seq(|order|, i requires 0 <= i < |order| => Push(order[i], cmd))
  }

  /** What `run_store` does with the result of a request. */
  function Settle(s: State, channel: Channel, cmd: Command, r: Result, order: seq<ClientId>): State {
    match r
    case Done(reply) =>
      s.(out := s.out + [Reply(channel, reply)] + if IsReplicatable(cmd) then PushTo(order, cmd) else [],
         requests := s.requests[channel := true])
    case BlockXread(w, keys, ids) =>
      s.(xreadWaiters := s.xreadWaiters[w := XreadWaiter(channel, keys, ids)],
         requests := s.requests[channel := true])
    case BlockBlpop(w, keys) =>
      s.(blpopWaiters := s.blpopWaiters[w := BlpopWaiter(channel, keys)],
         requests := s.requests[channel := true])
    case BlockWait(w, n, _) =>
      s.(out := s.out + if s.pendingWrites then PushTo(order, GetAck) else [],
         broadcasts := s.broadcasts + if s.pendingWrites then 1 else 0,
         pendingWrites := false,
         waitWaiters := s.waitWaiters[w := WaitWaiter(channel, n, s.masterAck)],
         requests := s.requests[channel := true])
    case NoReply =>
      s.(requests := s.requests[channel := false])
  }

  function TimeOutXread(s: State, w: WaiterId): State {
    if w in s.xreadWaiters
    then Answer(s.(xreadWaiters := s.xreadWaiters - {w}), s.xreadWaiters[w].channel, NullArray) else s
  }

  function TimeOutBlpop(s: State, w: WaiterId): State {
    if w in s.blpopWaiters
    then Answer(s.(blpopWaiters := s.blpopWaiters - {w}), s.blpopWaiters[w].channel, NullArray) else s
  }

  function TimeOutWait(s: State, w: WaiterId): State {
    if w in s.waitWaiters
    then Answer(s.(waitWaiters := s.waitWaiters - {w}), s.waitWaiters[w].channel,
                Integer(WrapI64(CountAcked(s, s.waitWaiters[w].target)))) else s
  }

  /** `to_rdb`: the string values. */
  function ToRdb(data: map<Key, Value>): Rdb {
    Rdb(map[], map k | k in data && data[k].value.Str? ::
          RdbString(0, data[k].value.s, if data[k].expireMs.Some? then Milliseconds(data[k].expireMs.value) else NoExpiry))
  }

  /** `from_rdb`: seconds become milliseconds. */
  function FromRdb(r: Rdb): map<Key, Value> {
    map k | k in r.data ::
      Value(Str(r.data[k].value),
            match r.data[k].expire
            case NoExpiry => None
            case Milliseconds(ms) => Some(ms)
            case Seconds(secs) => Some(secs * 1000))
  }

  function JoinReplica(s: State, c: ClientId, channel: Channel, order: seq<Key>): State
    requires KeysOf(order, ToRdb(s.data).data)
  {
    var joined := s.(clients := if c in s.clients then s.clients[c := true] else s.clients,
                     requests := s.requests[channel := true]);
    Answer(joined, channel, File(SerializeIn(ToRdb(s.data), [], order)))
  }

  /** One envelope. Reply channels are new for every request; a command whose encoding panics stops
      the store and takes no step. Timers may fire at any time, for any waiter id. */
  ghost predicate Step(s: State, e: Envelope, t: State) {
    match e
    case WithReply(c, cmd, channel) =>
      && !ToRespPanics(cmd) && channel !in s.requests
      && exists r, mid, order ::
          && Executes(Account(s, cmd), c, cmd, r, mid) && IsOrder(order, Replicas(mid))
          && t == Settle(mid, channel, cmd, r, order)
    case TimeoutXread(w) => t == TimeOutXread(s, w)
    case TimeoutBlpop(w) => t == TimeOutBlpop(s, w)
    case TimeoutWait(w) => t == TimeOutWait(s, w)
    case AddReplica(c, channel) =>
      && channel !in s.requests
      && exists order :: IsOrder(order, ToRdb(s.data).data.Keys) && t == JoinReplica(s, c, channel, order)
    case Replicate(cmd) => exists r :: Executes(s, 0, cmd, r, t)
    case RegisterClient(c) => t == s.(clients := s.clients[c := false])
    case UnregisterClient(c) => t == s.(clients := s.clients - {c}, replicaAcks := s.replicaAcks - {c})
  }

  function Fresh(data: map<Key, Value>): State {
    State(map[], data, 0, map[], map[], map[], map[], 0, map[], false, [], [], [], map[], 0, [], [])
  }

  /** A store just started: loaded from a file, then the logged commands replayed as client 0. */
  ghost predicate Booted(s: State) {
    exists r: Rdb, cmds, replies :: ExecutesAll(Fresh(FromRdb(r)), 0, cmds, replies, s)
  }

  /** The states between steps, one more than the envelopes consumed. */
  ghost predicate Run(states: seq<State>, envelopes: seq<Envelope>) {
    && |states| == |envelopes| + 1
    && Booted(states[0])
    && forall i :: 0 <= i < |envelopes| ==> Step(states[i], envelopes[i], states[i + 1])
  }

  lemma {:induction false} RepliesLength(s: State, c: ClientId, cmds: seq<Command>, replies: seq<Resp>, t: State)
    requires ExecutesAll(s, c, cmds, replies, t)
    ensures |replies| == |cmds|
  {
    hide Executes;
  }

  /** One more command after the others. */
  lemma ExecutesSnoc(s: State, c: ClientId, cmds: seq<Command>, replies: seq<Resp>, last: State, r: Result, t: State)
    requires cmds != []
    requires ExecutesAll(s, c, cmds[..|cmds| - 1], replies, last) && Executes(last, c, cmds[|cmds| - 1], r, t)
    ensures ExecutesAll(s, c, cmds, replies + [TxReply(r)], t)
  {
    hide Executes;
    var n := |cmds| - 1;
    RepliesLength(s, c, cmds[..n], replies, last);
    var all := replies + [TxReply(r)];
    assert all[..n] == replies;
    assert ExecutesAll(s, c, cmds[..n], all[..n], last) && Executes(last, c, cmds[n], r, t) && all[n] == TxReply(r);
  }

  lemma OneMoreState(states: seq<State>, envelopes: seq<Envelope>)
    requires Run(states, envelopes)
    ensures |states| == |envelopes| + 1
  {
  }

  lemma StepAt(states: seq<State>, envelopes: seq<Envelope>, i: nat)
    requires Run(states, envelopes) && 0 < i < |states|
    ensures |states| == |envelopes| + 1 && Step(states[i - 1], envelopes[i - 1], states[i])
  {
    hide Step, Booted;
  }

  lemma PopOneMore(s: State, k: Key, count: nat)
    requires count > 0 && ListOf(s, k) != []
    ensures PopMany(s, k, count) == PopMany(PopFront(s, k), k, count - 1)
  {
  }

  lemma PopNoMore(s: State, k: Key, count: nat)
    requires count == 0 || ListOf(s, k) == []
    ensures PopMany(s, k, count) == s
  {
  }

  // ------------------------------------------------------------------ proof principles

  /** What every primitive command, marking and clean-up keeps, every execution keeps. */
  lemma {:induction false} ExecKeeps(inv: State -> bool, s: State, c: ClientId, cmd: Command, r: Result, t: State)
    requires Executes(s, c, cmd, r, t) && inv(s)
    requires forall u, d, ks :: inv(u) ==> inv(Touch(u, d, ks))
    requires forall u, d :: inv(u) ==> inv(Cleanup(u, d))
    requires forall u, d, p, ch :: inv(u) && Allowed(u, d, p, ch) ==> inv(Prim(u, d, p, ch).state)
    ensures inv(t)
    decreases cmd, 1
  {
    hide Prim, Allowed, Touch, Cleanup;
    var marked := Touch(s, c, ModifiedKeys(cmd));
    if cmd.ExecuteTx? {
      if !LockFailed(marked, c) {
        var replies, mid :|
          ExecutesAll(marked, c, cmd.commands, replies, mid) && r == Done(Array(replies)) && t == Cleanup(mid, c);
        ExecSeqKeeps(inv, marked, c, cmd.commands, replies, mid);
      }
    } else {
      var ch :| Allowed(marked, c, cmd, ch) && Prim(marked, c, cmd, ch) == Outcome(t, r);
      assert inv(Prim(marked, c, cmd, ch).state);
    }
  }

  lemma {:induction false} ExecSeqKeeps(inv: State -> bool, s: State, c: ClientId, cmds: seq<Command>,
                                        replies: seq<Resp>, t: State)
    requires ExecutesAll(s, c, cmds, replies, t) && inv(s)
    requires forall u, d, ks :: inv(u) ==> inv(Touch(u, d, ks))
    requires forall u, d :: inv(u) ==> inv(Cleanup(u, d))
    requires forall u, d, p, ch :: inv(u) && Allowed(u, d, p, ch) ==> inv(Prim(u, d, p, ch).state)
    ensures inv(t)
    decreases cmds, 0
  {
    hide Prim, Allowed, Touch, Cleanup;
    if cmds != [] {
      var n := |cmds| - 1;
      var mid, r :|
        ExecutesAll(s, c, cmds[..n], replies[..n], mid) && Executes(mid, c, cmds[n], r, t) && replies[n] == TxReply(r);
      ExecSeqKeeps(inv, s, c, cmds[..n], replies[..n], mid);
      ExecKeeps(inv, mid, c, cmds[n], r, t);
    }
  }

  lemma {:induction false} TouchKeeps(inv: State -> bool, s: State, c: ClientId, keys: seq<Key>)
    requires inv(s) && forall u, k :: inv(u) ==> inv(TouchKey(u, c, k))
    ensures inv(Touch(s, c, keys))
    decreases |keys|
  {
    hide TouchKey;
    if keys != [] {
      TouchKeeps(inv, TouchKey(s, c, keys[0]), c, keys[1..]);
    }
  }

  lemma {:induction false} WatchKeeps(inv: State -> bool, s: State, c: ClientId, keys: seq<Key>)
    requires inv(s) && forall u, k :: inv(u) ==> inv(WatchKey(u, c, k))
    ensures inv(WatchKeys(s, c, keys))
    decreases |keys|
  {
    hide WatchKey;
    if keys != [] {
      WatchKeeps(inv, WatchKey(s, c, keys[0]), c, keys[1..]);
    }
  }

  lemma {:induction false} ServeKeeps(inv: State -> bool, s: State, order: seq<WaiterId>)
    requires inv(s) && forall u, w :: inv(u) ==> inv(ServeOne(u, w))
    ensures inv(Serve(s, order))
    decreases |order|
  {
    hide ServeOne;
    if order != [] {
      ServeKeeps(inv, ServeOne(s, order[0]), order[1..]);
    }
  }

  lemma {:induction false} WakeKeeps(inv: State -> bool, s: State, order: seq<WaiterId>)
    requires inv(s) && forall u, w :: inv(u) ==> inv(WakeOne(u, w))
    ensures inv(Wake(s, order))
    decreases |order|
  {
    hide WakeOne;
    if order != [] {
      WakeKeeps(inv, WakeOne(s, order[0]), order[1..]);
    }
  }

  lemma {:induction false} ReleaseKeeps(inv: State -> bool, s: State, order: seq<WaiterId>)
    requires inv(s) && forall u, w :: inv(u) ==> inv(ReleaseOne(u, w))
    ensures inv(Release(s, order))
    decreases |order|
  {
    hide ReleaseOne;
    if order != [] {
      ReleaseKeeps(inv, ReleaseOne(s, order[0]), order[1..]);
    }
  }

  lemma {:induction false} PopManyKeeps(inv: State -> bool, s: State, k: Key, count: nat)
    requires inv(s) && forall u :: inv(u) && ListOf(u, k) != [] ==> inv(PopFront(u, k))
    ensures inv(PopMany(s, k, count))
    decreases count
  {
    hide PopFront;
    if count > 0 && ListOf(s, k) != [] {
      PopManyKeeps(inv, PopFront(s, k), k, count - 1);
    }
  }
}
