/**
 Streams are append-only logs that are read without gaps or duplicates, and no blocked
 reader is left behind (`src/main.rs:265-320`, `784-882`, `src/command.rs:47-86`).
 */
module StreamLogs {
  import opened Types
  import opened RespCodec
  import opened Streams
  import opened Commands
  import opened StoreModel
  import opened StoreFrames

  // -------------------------------------------------------------------- append-only data

  ghost predicate AboveZero(s: RedisStream) {
    forall i :: 0 <= i < |s| ==> Before(StreamId(0, 0), s[i].id)
  }

  /** Every stream is in strictly ascending order, all above 0-0. */
  ghost predicate StreamsOrdered(s: State) {
    forall k :: Ascending(StreamOf(s, k)) && AboveZero(StreamOf(s, k))
  }

  /** Keys never vanish, a value that is not a stream never becomes one, and a stream that is still a
      stream has kept all its entries and only gained new ones at the end. */
  ghost predicate Grown(s: State, t: State) {
    forall k :: k in s.data ==>
      && k in t.data
      && (t.data[k].value.Stream? ==> s.data[k].value.Stream? && s.data[k].value.stream <= t.data[k].value.stream)
  }

  ghost predicate Good(s: State, t: State) {
    Grown(s, t) && StreamsOrdered(t)
  }

  lemma GrownTrans(s: State, t: State, u: State)
    requires Grown(s, t) && Grown(t, u)
    ensures Grown(s, u)
  {
  }

  /** `t` holds the streams of `s`, or something else than a stream in their place. */
  ghost predicate NoNewStreams(s: State, t: State) {
    && (forall k :: k in s.data ==> k in t.data && (t.data[k] == s.data[k] || !t.data[k].value.Stream?))
    && (forall k :: k in t.data && k !in s.data ==> !t.data[k].value.Stream?)
  }

  lemma NoNewStreamsIsGood(s: State, t: State)
    requires StreamsOrdered(s) && NoNewStreams(s, t)
    ensures Good(s, t)
  {
    forall k ensures Ascending(StreamOf(t, k)) && AboveZero(StreamOf(t, k)) {
      assert StreamOf(t, k) == [] || StreamOf(t, k) == StreamOf(s, k);
    }
  }

  lemma PopIsNoStream(s: State, u: State, k: Key)
    requires NoNewStreams(s, u) && ListOf(u, k) != []
    ensures NoNewStreams(s, PopFront(u, k))
  {
  }

  lemma ServeMakesNoStream(s: State, u: State, order: seq<WaiterId>)
    requires NoNewStreams(s, u)
    ensures NoNewStreams(s, Serve(u, order))
  {
    hide FirstReady, PopFront, NoNewStreams;
    forall v, w | NoNewStreams(s, v) ensures NoNewStreams(s, ServeOne(v, w)) {
      ServeOneMakesNoStream(s, v, w);
    }
    ServeKeeps(v => NoNewStreams(s, v), u, order);
  }

  lemma ServeOneMakesNoStream(s: State, u: State, w: WaiterId)
    requires NoNewStreams(s, u)
    ensures NoNewStreams(s, ServeOne(u, w))
  {
    hide FirstReady, PopFront;
    if w in u.blpopWaiters && FirstReady(u, u.blpopWaiters[w].keys).Some? {
      PopIsNoStream(s, u, FirstReady(u, u.blpopWaiters[w].keys).value);
    }
  }

  lemma PushMakesNoStream(s: State, k: Key, elems: seq<Bytes>, front: bool, order: seq<WaiterId>)
    ensures NoNewStreams(s, PushCommand(s, k, elems, front, order).state)
  {
    hide Serve, PushElements;
    PushedMakesNoStream(s, k, elems, front);
    ServeMakesNoStream(s, PushElements(s, k, elems, front), order);
  }

  lemma PushedMakesNoStream(s: State, k: Key, elems: seq<Bytes>, front: bool)
    ensures NoNewStreams(s, PushElements(s, k, elems, front))
  {
    hide Reversed, ListOf;
  }

  lemma PopsMakeNoStream(s: State, k: Key, count: nat)
    ensures NoNewStreams(s, PopMany(s, k, count))
  {
    hide NoNewStreams, PopFront;
    assert NoNewStreams(s, s) by { NothingNew(s); }
    forall v | NoNewStreams(s, v) && ListOf(v, k) != [] ensures NoNewStreams(s, PopFront(v, k)) {
      PopIsNoStream(s, v, k);
    }
    PopManyKeeps(v => NoNewStreams(s, v), s, k, count);
  }

  lemma NothingNew(s: State)
    ensures NoNewStreams(s, s)
  {
  }

  lemma ListCommandsMakeNoStream(s: State, keys: seq<Key>, k: Key, count: Option<u32>)
    ensures NoNewStreams(s, LpopCommand(s, k, count).state)
    ensures NoNewStreams(s, BlpopCommand(s, keys).state)
  {
    hide NoNewStreams, PopFront, PopMany, FirstReady;
    NothingNew(s);
    if ListOf(s, k) != [] {
      PopIsNoStream(s, s, k);
      if count.Some? {
        PopsMakeNoStream(s, k, count.value);
      }
    }
    if FirstReady(s, keys).Some? {
      PopIsNoStream(s, s, FirstReady(s, keys).value);
    } else {
      SameData(s, BlpopCommand(s, keys).state);
    }
  }

  lemma SameData(s: State, t: State)
    requires t.data == s.data
    ensures NoNewStreams(s, t)
  {
  }

  lemma StringsMakeNoStream(s: State, key: Key, value: Bytes, ex: Option<u64>, px: Option<u64>, now: u64)
    ensures NoNewStreams(s, SetCommand(s, key, value, ex, px, now).state)
    ensures NoNewStreams(s, IncrCommand(s, key).state)
  {
    hide Deadline, IncrCommand;
    IncrData(s, key);
  }

  /** What XADD says when it refuses. */
  function Refusal(s: State, key: Key, input: XaddId, now: u64): string {
    if key in s.data && !s.data[key].value.Stream? then "ERR No stream found for given key"
    else if AsksForZero(input, StreamOf(s, key), now) then "ERR The ID specified in XADD must be greater than 0-0"
    else "ERR The ID specified in XADD is equal or smaller than the target stream top item"
  }

  /** XADD, whatever the id form and the clock: if the key holds a stream, or nothing, and there is an id to choose, the
      entry is appended under that id, which is the reply, and nothing else changes; otherwise no stream changes, though
      an empty one may be left behind. */
  lemma XaddAppendsOne(s: State, key: Key, input: XaddId, fields: seq<Bytes>, now: u64, order: seq<WaiterId>)
    requires StreamsOrdered(s)
    ensures
      var before := StreamOf(s, key);
      var t := XaddCommand(s, key, input, fields, now, order);
      var possible := key in s.data ==> s.data[key].value.Stream?;
      && (forall id :: possible && Chosen(input, before, now, id) ==>
            && t.result == Done(BulkString(IdText(id)))
            && StreamOf(t.state, key) == before + [Streams.Entry(id, fields)])
      && (!possible || (forall id :: !Chosen(input, before, now, id)) ==>
            && t.result == Done(SimpleError(Ascii(Refusal(s, key, input, now))))
            && StreamOf(t.state, key) == before)
    ensures forall k :: k != key ==>
      StreamOf(XaddCommand(s, key, input, fields, now, order).state, k) == StreamOf(s, k)
    ensures Good(s, XaddCommand(s, key, input, fields, now, order).state)
  {
    hide XaddCommand, Judge, IdText, Ascii, StreamsOrdered, Good, Chosen, StreamOf, Refusal;
    var before := StreamOf(s, key);
    OrderedAt(s, key);
    XaddJudged(s, key, input, fields, now, order);
    var verdict := Judge(input, before, now);
    forall id ensures Chosen(input, before, now, id) <==> verdict == Accepted(id) {
      AcceptedIffChosen(input, before, now, id);
    }
    if verdict.Accepted? {
      assert Chosen(input, before, now, verdict.id);
    }
  }

  /** The same by the verdict of the checks. */
  lemma XaddJudged(s: State, key: Key, input: XaddId, fields: seq<Bytes>, now: u64, order: seq<WaiterId>)
    requires StreamsOrdered(s)
    ensures
      var before := StreamOf(s, key);
      var verdict := Judge(input, before, now);
      var t := XaddCommand(s, key, input, fields, now, order);
      var possible := key in s.data ==> s.data[key].value.Stream?;
      if possible && verdict.Accepted?
      then t.result == Done(BulkString(IdText(verdict.id)))
           && StreamOf(t.state, key) == before + [Streams.Entry(verdict.id, fields)]
      else
        && t.result == Done(SimpleError(Ascii(Refusal(s, key, input, now))))
        && StreamOf(t.state, key) == before
    ensures forall k :: k != key ==>
      StreamOf(XaddCommand(s, key, input, fields, now, order).state, k) == StreamOf(s, k)
    ensures Good(s, XaddCommand(s, key, input, fields, now, order).state)
  {
    hide Wake, Judge, IdText, Ascii, EnsureStream, StreamsOrdered, Good, Refusal;
    var ready := EnsureStream(s, key);
    EnsureKeeps(s, key);
    XaddShape(s, key, input, fields, now, order);
    var t := XaddCommand(s, key, input, fields, now, order).state;
    if ready.data[key].value.Stream? && Judge(input, StreamOf(ready, key), now).Accepted? {
      var id := Judge(input, StreamOf(ready, key), now).id;
      XaddAccepted(s, ready, key, input, now, fields);
      var appended := AppendEntry(ready, key, id, fields);
      WakeFrame(appended, order);
      SameStreams(s, appended, t);
    } else {
      XaddRefusal(s, key, input, fields, now, order);
    }
  }

  lemma XaddRefusal(s: State, key: Key, input: XaddId, fields: seq<Bytes>, now: u64, order: seq<WaiterId>)
    requires StreamsOrdered(s)
    requires (key in s.data && !s.data[key].value.Stream?) || !Judge(input, StreamOf(s, key), now).Accepted?
    ensures XaddCommand(s, key, input, fields, now, order).result == Done(SimpleError(Ascii(Refusal(s, key, input, now))))
  {
    hide XaddCommand, Judge, StreamsOrdered, Good, EnsureStream, StreamOf, Refusal;
    EnsureKeeps(s, key);
    OrderedAt(s, key);
    if key in s.data && !s.data[key].value.Stream? {
      XaddNoStream(s, key, input, fields, now, order);
    } else {
      RefusedIff(input, StreamOf(s, key), now);
      if Judge(input, StreamOf(s, key), now).NotAboveZero? {
        XaddZero(s, key, input, fields, now, order);
      } else {
        XaddLast(s, key, input, fields, now, order);
      }
    }
  }

  lemma XaddNoStream(s: State, key: Key, input: XaddId, fields: seq<Bytes>, now: u64, order: seq<WaiterId>)
    requires key in s.data && !s.data[key].value.Stream?
    ensures XaddCommand(s, key, input, fields, now, order).result == Done(SimpleError(Ascii(Refusal(s, key, input, now))))
  {
    hide Ascii, Judge, AsksForZero, Wake, IdText, StreamOf, AppendEntry;
  }

  lemma XaddZero(s: State, key: Key, input: XaddId, fields: seq<Bytes>, now: u64, order: seq<WaiterId>)
    requires key in s.data ==> s.data[key].value.Stream?
    requires StreamOf(EnsureStream(s, key), key) == StreamOf(s, key)
    requires Judge(input, StreamOf(s, key), now).NotAboveZero? && AsksForZero(input, StreamOf(s, key), now)
    ensures XaddCommand(s, key, input, fields, now, order).result == Done(SimpleError(Ascii(Refusal(s, key, input, now))))
  {
    hide Ascii, Judge, AsksForZero, Wake, IdText, StreamOf, AppendEntry;
  }

  lemma XaddLast(s: State, key: Key, input: XaddId, fields: seq<Bytes>, now: u64, order: seq<WaiterId>)
    requires key in s.data ==> s.data[key].value.Stream?
    requires StreamOf(EnsureStream(s, key), key) == StreamOf(s, key)
    requires Judge(input, StreamOf(s, key), now).NotAboveLast? && !AsksForZero(input, StreamOf(s, key), now)
    ensures XaddCommand(s, key, input, fields, now, order).result == Done(SimpleError(Ascii(Refusal(s, key, input, now))))
  {
    hide Ascii, Judge, AsksForZero, Wake, IdText, StreamOf, AppendEntry;
  }

  /** Creating an empty stream changes no stream. */
  lemma EnsureKeeps(s: State, key: Key)
    requires StreamsOrdered(s)
    ensures
      var ready := EnsureStream(s, key);
      && key in ready.data && Good(s, ready)
      && (ready.data[key].value.Stream? <==> key !in s.data || s.data[key].value.Stream?)
      && forall k :: StreamOf(ready, k) == StreamOf(s, k)
  {
    var ready := EnsureStream(s, key);
    forall k ensures StreamOf(ready, k) == StreamOf(s, k) {
    }
  }

  lemma XaddAccepted(s: State, ready: State, key: Key, input: XaddId, now: u64, fields: seq<Bytes>)
    requires Good(s, ready) && key in ready.data && ready.data[key].value.Stream?
    requires Judge(input, StreamOf(ready, key), now).Accepted?
    ensures
      var id := Judge(input, StreamOf(ready, key), now).id;
      var appended := AppendEntry(ready, key, id, fields);
      && StreamOf(appended, key) == StreamOf(ready, key) + [Streams.Entry(id, fields)]
      && Before(StreamId(0, 0), id) && (forall e :: e in StreamOf(ready, key) ==> Before(e.id, id))
      && (forall k :: k != key ==> StreamOf(appended, k) == StreamOf(ready, k))
      && Good(s, appended)
  {
    hide Judge, Insert;
    var before := StreamOf(ready, key);
    var id := Judge(input, before, now).id;
    ChecksMean(input, before, now, id);
    AcceptedAppends(input, before, now, fields);
    var appended := AppendEntry(ready, key, id, fields);
    assert AboveZero(before + [Streams.Entry(id, fields)]);
    forall k ensures Ascending(StreamOf(appended, k)) && AboveZero(StreamOf(appended, k)) {
      assert k != key ==> StreamOf(appended, k) == StreamOf(ready, k);
    }
  }

  lemma SameStreams(s: State, t: State, u: State)
    requires Good(s, t) && u.data == t.data
    ensures Good(s, u) && forall k :: StreamOf(u, k) == StreamOf(t, k)
  {
    forall k ensures StreamOf(u, k) == StreamOf(t, k) {
    }
  }

  /** Only XADD makes or extends a stream. */
  lemma OtherCommandsMakeNoStream(s: State, c: ClientId, cmd: Command, ch: Choice)
    requires !cmd.Xadd?
    ensures NoNewStreams(s, Prim(s, c, cmd, ch).state)
  {
    hide SetCommand, WatchKeys, Cleanup, IncrCommand, XaddCommand, XreadCommand, PushCommand, LpopCommand;
    hide AckCommand, WaitCommand, BlpopCommand, ExecFrame, NoNewStreams;
    if cmd.Rpush? {
      PushMakesNoStream(s, cmd.key, cmd.elements, false, ch.order);
    } else if cmd.Lpush? {
      PushMakesNoStream(s, cmd.key, cmd.elements, true, ch.order);
    } else if cmd.Lpop? {
      ListCommandsMakeNoStream(s, [], cmd.key, cmd.count);
    } else if cmd.Blpop? {
      ListCommandsMakeNoStream(s, cmd.keys, [], None);
    } else if cmd.Set? {
      StringsMakeNoStream(s, cmd.key, cmd.value, cmd.ex, cmd.px, ch.now);
    } else if cmd.Incr? {
      StringsMakeNoStream(s, cmd.key, [], None, None, ch.now);
    } else {
      DataUntouched(s, c, cmd, ch);
      SameData(s, Prim(s, c, cmd, ch).state);
    }
  }

  lemma DataUntouched(s: State, c: ClientId, cmd: Command, ch: Choice)
    requires !cmd.Rpush? && !cmd.Lpush? && !cmd.Lpop? && !cmd.Blpop? && !cmd.Set? && !cmd.Incr? && !cmd.Xadd?
    ensures Prim(s, c, cmd, ch).state.data == s.data
  {
    hide Prim;
    PrimTouches(s, c, cmd, ch);
  }

  lemma PrimGrows(s: State, c: ClientId, cmd: Command, ch: Choice)
    requires StreamsOrdered(s)
    ensures Good(s, Prim(s, c, cmd, ch).state)
  {
    hide XaddCommand, Good, StreamsOrdered, NoNewStreams;
    if cmd.Xadd? {
      XaddAppendsOne(s, cmd.key, cmd.id, cmd.fieldValues, ch.now, ch.order);
    } else {
      hide Prim;
      OtherCommandsMakeNoStream(s, c, cmd, ch);
      NoNewStreamsIsGood(s, Prim(s, c, cmd, ch).state);
    }
  }

  lemma ExecGrows(s: State, c: ClientId, cmd: Command, r: Result, t: State)
    requires StreamsOrdered(s) && Executes(s, c, cmd, r, t)
    ensures Good(s, t)
  {
    hide Prim, Executes, Touch, Cleanup, Allowed, StreamsOrdered, Grown;
    SelfGood(s);
    GoodPrinciple(s);
    ExecKeeps(u => Good(s, u), s, c, cmd, r, t);
  }

  lemma SelfGood(s: State)
    requires StreamsOrdered(s)
    ensures Good(s, s)
  {
  }

  lemma GoodPrinciple(s: State)
    ensures forall u, d, ks :: Good(s, u) ==> Good(s, Touch(u, d, ks))
    ensures forall u, d :: Good(s, u) ==> Good(s, Cleanup(u, d))
    ensures forall u, d, p, ch :: Good(s, u) && Allowed(u, d, p, ch) ==> Good(s, Prim(u, d, p, ch).state)
  {
    hide Prim, Touch, Cleanup, Allowed, StreamsOrdered, Grown;
    forall u, d, ks | Good(s, u) ensures Good(s, Touch(u, d, ks)) {
      TouchFrame(u, d, ks);
      SameStreams(s, u, Touch(u, d, ks));
    }
    forall u, d | Good(s, u) ensures Good(s, Cleanup(u, d)) {
      CleanupFrame(u, d);
      SameStreams(s, u, Cleanup(u, d));
    }
    forall u, d, p, ch | Good(s, u) && Allowed(u, d, p, ch) ensures Good(s, Prim(u, d, p, ch).state) {
      PrimGrows(u, d, p, ch);
      GrownTrans(s, u, Prim(u, d, p, ch).state);
    }
  }

  lemma StepGrows(s: State, e: Envelope, t: State)
    requires StreamsOrdered(s) && Step(s, e, t)
    ensures Good(s, t)
  {
    hide Step, StreamsOrdered, Grown, Executes, Account, Settle;
    SelfGood(s);
    if e.WithReply? {
      var r, mid, order := RequestParts(s, e.client, e.command, e.channel, t);
      AccountFrame(s, e.command);
      SameStreams(s, s, Account(s, e.command));
      ExecGrows(Account(s, e.command), e.client, e.command, r, mid);
      GrownTrans(s, Account(s, e.command), mid);
      SettleFrame(mid, e.channel, e.command, r, order);
      SameStreams(s, mid, t);
    } else if e.Replicate? {
      var r := ReplicatePart(s, e.command, t);
      ExecGrows(s, 0, e.command, r, t);
    } else {
      QuietSteps(s, e, t);
      SameStreams(s, s, t);
    }
  }

  lemma BootOrders(s: State)
    requires Booted(s)
    ensures StreamsOrdered(s)
  {
    hide Prim, Touch, Cleanup, Allowed, ExecutesAll, Grown;
    var r: RdbCodec.Rdb, cmds, replies :| ExecutesAll(Fresh(FromRdb(r)), 0, cmds, replies, s);
    var initial := Fresh(FromRdb(r));
    forall k ensures StreamOf(initial, k) == [] {
    }
    SelfGood(initial);
    GoodPrinciple(initial);
    hide StreamsOrdered;
    ExecSeqKeeps(u => Good(initial, u), initial, 0, cmds, replies, s);
  }

  /** Over a whole run streams stay ordered and only ever grow. */
  lemma {:induction false} StreamsOnlyGrow(states: seq<State>, envelopes: seq<Envelope>, i: nat, j: nat)
    requires Run(states, envelopes) && i <= j < |states|
    ensures StreamsOrdered(states[j]) && Grown(states[i], states[j])
    decreases j
  {
    hide Step, Booted, StreamsOrdered, Grown;
    if j == 0 {
      BootOrders(states[0]);
      SelfGood(states[0]);
    } else if i == j {
      StreamsOnlyGrow(states, envelopes, j - 1, j - 1);
      StepGrows(states[j - 1], envelopes[j - 1], states[j]);
      SelfGood(states[j]);
    } else {
      StreamsOnlyGrow(states, envelopes, i, j - 1);
      StepGrows(states[j - 1], envelopes[j - 1], states[j]);
      GrownTrans(states[i], states[j - 1], states[j]);
    }
  }

  lemma OrderedAt(s: State, k: Key)
    requires StreamsOrdered(s)
    ensures Ascending(StreamOf(s, k))
  {
  }
}
