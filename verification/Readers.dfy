/**
 Readers of a stream, by the replies they receive: a client that sends XREAD over and over,
 alone or inside EXEC, blocking or not, and always passes the last id it received, gets the
 entries above its start id without gaps or duplicates (`src/main.rs:265-320`, `710-748`,
 `845-882`, `1221-1304`).
 */
module StreamReaders {
  import opened Types
  import opened Orders
  import opened RespCodec
  import opened Streams
  import opened Commands
  import opened StoreModel
  import opened StoreFrames
  import opened StreamLogs
  import opened BlockedWaiters
  import opened Requests
  import Client

  // --------------------------------------------------------------------- one command

  /** `v` lies between `s` and `t`: its streams extend those of `s` and are extended by those of `t`. */
  ghost predicate Between(s: State, v: State, t: State) {
    Grown(s, v) && Grown(v, t)
  }

  /** A reply that says what is above the ids in `v`: the rows, or one of the two empty replies when nothing is. */
  ghost predicate ReadsAs(v: State, keys: seq<Key>, ids: seq<StreamId>, reply: Resp) {
    && |keys| == |ids|
    && (reply == Array(XreadRows(v, keys, ids))
        || ((reply == Array([]) || reply == NullArray) && NothingAbove(v, keys, ids)))
  }

  ghost predicate XreadReply(v: State, cmd: Command, reply: Resp)
    requires cmd.Xread?
  {
    |cmd.keys| == |cmd.ids| && ReadsAs(v, cmd.keys, ResolveIds(v, cmd.keys, cmd.ids), reply)
  }

  /** One of the streams holds an entry past the id asked for, milliseconds compared first. */
  ghost predicate SomethingNew(s: State, keys: seq<Key>, ids: seq<StreamId>)
    requires |keys| == |ids|
  {
    exists i, e :: 0 <= i < |keys| && e in StreamOf(s, keys[i])
      && (ids[i].ms < e.id.ms || (ids[i].ms == e.id.ms && ids[i].seqNo < e.id.seqNo))
  }

  lemma NothingAboveIff(s: State, keys: seq<Key>, ids: seq<StreamId>)
    requires |keys| == |ids|
    ensures NothingAbove(s, keys, ids) <==> !SomethingNew(s, keys, ids)
  {
    hide Above, StreamOf;
    forall i | 0 <= i < |keys| {
      AboveMembers(StreamOf(s, keys[i]), ids[i]);
    }
    if !NothingAbove(s, keys, ids) {
      var i :| 0 <= i < |keys| && Above(StreamOf(s, keys[i]), ids[i]) != [];
      var e := Above(StreamOf(s, keys[i]), ids[i])[0];
      assert e in Above(StreamOf(s, keys[i]), ids[i]);
      assert e in StreamOf(s, keys[i]) && Before(ids[i], e.id);
    }
  }

  /** XREAD gives the rows if there is something new, else nothing at once if no time is given, and blocks under a new
      waiter id exactly if one is. */
  lemma XreadGives(s: State, c: ClientId, cmd: Command, r: Result, t: State)
    requires cmd.Xread? && Executes(s, c, cmd, r, t)
    ensures |cmd.keys| == |cmd.ids|
    ensures
      var ids := ResolveIds(s, cmd.keys, cmd.ids);
      if SomethingNew(s, cmd.keys, ids) then r == Done(Array(XreadRows(s, cmd.keys, ids))) && t == s
      else if cmd.milliseconds == None then r == Done(Array([])) && t == s
      else r == BlockXread(s.waiterId + 1, cmd.keys, ids) && t == s.(waiterId := s.waiterId + 1)
  {
    hide NothingAbove, XreadRows, ResolveIds, SetCommand, WatchKeys, Cleanup, IncrCommand, XaddCommand, PushCommand,
      LpopCommand, BlpopCommand, AckCommand, WaitCommand, IsOrder, Ascii, XreadCommand, SomethingNew;
    assert Touch(s, c, []) == s;
    var ch :| Allowed(s, c, cmd, ch) && Prim(s, c, cmd, ch) == Outcome(t, r);
    XreadCases(s, cmd);
  }

  lemma XreadCases(s: State, cmd: Command)
    requires cmd.Xread? && |cmd.keys| == |cmd.ids|
    ensures
      var ids := ResolveIds(s, cmd.keys, cmd.ids);
      var o := XreadCommand(s, cmd.keys, cmd.milliseconds, cmd.ids);
      if SomethingNew(s, cmd.keys, ids) then o == Outcome(s, Done(Array(XreadRows(s, cmd.keys, ids))))
      else if cmd.milliseconds == None then o == Outcome(s, Done(Array([])))
      else o == Outcome(s.(waiterId := s.waiterId + 1), BlockXread(s.waiterId + 1, cmd.keys, ids))
  {
    hide NothingAbove, XreadRows, SomethingNew;
    NothingAboveIff(s, cmd.keys, ResolveIds(s, cmd.keys, cmd.ids));
  }

  /** `$` reads from the end: nothing that is there is new, and everything appended later is; except that in an empty
      stream it stands for 0-1, so that an entry with this very id is missed. */
  lemma LatestMeansNew(s: State, t: State, k: Key, more: RedisStream)
    requires Ascending(StreamOf(t, k)) && AboveZero(StreamOf(t, k)) && StreamOf(t, k) == StreamOf(s, k) + more
    ensures
      var id := ResolveId(s, k, Latest);
      && Above(StreamOf(s, k), id) == []
      && (Above(StreamOf(t, k), id) == more <==> StreamOf(s, k) != [] || more == [] || more[0].id != StreamId(0, 1))
  {
    var a := StreamOf(s, k);
    var id := ResolveId(s, k, Latest);
    hide Ascending, Above, StreamOf;
    FrontAscends(a, more);
    CursorAtEnd(a, more, id);
  }

  lemma CursorAtEnd(a: RedisStream, more: RedisStream, id: StreamId)
    requires Ascending(a + more) && AboveZero(a + more)
    requires id == if a == [] then StreamId(0, 1) else a[|a| - 1].id
    ensures Above(a, id) == []
    ensures Above(a + more, id) == more <==> a != [] || more == [] || more[0].id != StreamId(0, 1)
  {
    hide Above;
    AboveConcat(a, more, id);
    forall e | e in a ensures !Before(id, e.id) {
      var i :| 0 <= i < |a| && a[i] == e;
      assert (a + more)[i] == e && (a + more)[|a| - 1] == a[|a| - 1];
    }
    AboveAllOrNothing(a, id);
    assert [] + Above(more, id) == Above(more, id);
    if a != [] || more == [] || more[0].id != StreamId(0, 1) {
      forall e | e in more ensures Before(id, e.id) {
        var j :| 0 <= j < |more| && more[j] == e;
        assert (a + more)[|a| + j] == e && (a + more)[|a|] == more[0];
        if a != [] {
          assert (a + more)[|a| - 1] == a[|a| - 1];
        }
      }
      AboveAllOrNothing(more, id);
    } else {
      AboveMembers(more, id);
      assert more[0] in more;
    }
  }

  /** The rows of a request are those of its parts, in the order of its keys. */
  lemma {:induction false} RowsInOrder(s: State, keys: seq<Key>, ids: seq<StreamId>, i: nat)
    requires |keys| == |ids| && i <= |keys|
    ensures XreadRows(s, keys, ids) == XreadRows(s, keys[..i], ids[..i]) + XreadRows(s, keys[i..], ids[i..])
  {
    hide Above, StreamRow;
    if i > 0 {
      RowsInOrder(s, keys[1..], ids[1..], i - 1);
      assert keys[1..][..i - 1] == keys[..i][1..] && ids[1..][..i - 1] == ids[..i][1..];
      assert keys[1..][i - 1..] == keys[i..] && ids[1..][i - 1..] == ids[i..];
    }
  }

  /** The row of a key: nothing if it holds no stream, otherwise the key and, oldest first, id and fields of every entry
      past the id, even if there is none. */
  lemma RowOfOne(s: State, k: Key, id: StreamId)
    ensures
      var entries := Above(StreamOf(s, k), id);
      var rows := EntryRows(entries);
      && XreadRows(s, [k], [id]) == (if k !in s.data || !s.data[k].value.Stream? then []
                                     else [Array([BulkString(k), Array(rows)])])
      && |rows| == |entries|
      && forall i :: 0 <= i < |entries| ==>
           && rows[i] == Array([BulkString(IdText(entries[i].id)), Array(BulkStrings(entries[i].fields))])
           && |BulkStrings(entries[i].fields)| == |entries[i].fields|
           && forall j :: 0 <= j < |entries[i].fields| ==>
                BulkStrings(entries[i].fields)[j] == BulkString(entries[i].fields[j])
  {
    hide Above, IdText;
    assert [k][1..] == [] && [id][1..] == [];
  }

  lemma XreadAnswers(s: State, c: ClientId, cmd: Command, r: Result, t: State)
    requires cmd.Xread? && Executes(s, c, cmd, r, t)
    ensures t == s || t == s.(waiterId := s.waiterId + 1)
    ensures |cmd.keys| == |cmd.ids| && (r.Done? || r.BlockXread?)
    ensures XreadReply(s, cmd, TxReply(r))
    ensures r.BlockXread? ==>
      r.xreadKeys == cmd.keys && r.ids == ResolveIds(s, cmd.keys, cmd.ids) && NothingAbove(s, cmd.keys, r.ids)
  {
    hide NothingAbove, XreadRows, ResolveIds, SetCommand, WatchKeys, Cleanup, IncrCommand, XaddCommand, PushCommand,
      LpopCommand, BlpopCommand, AckCommand, WaitCommand, IsOrder, Ascii, XreadCommand;
    var marked := Touch(s, c, []);
    assert marked == s;
    var ch :| Allowed(marked, c, cmd, ch) && Prim(marked, c, cmd, ch) == Outcome(t, r);
    XreadOutcome(s, cmd);
  }

  lemma XreadOutcome(s: State, cmd: Command)
    requires cmd.Xread? && |cmd.keys| == |cmd.ids|
    ensures
      var o := XreadCommand(s, cmd.keys, cmd.milliseconds, cmd.ids);
      && (o.state == s || o.state == s.(waiterId := s.waiterId + 1))
      && (o.result.Done? || o.result.BlockXread?)
      && XreadReply(s, cmd, TxReply(o.result))
      && (o.result.BlockXread? ==>
            && o.result.xreadKeys == cmd.keys && o.result.ids == ResolveIds(s, cmd.keys, cmd.ids)
            && NothingAbove(s, cmd.keys, o.result.ids))
  {
    hide NothingAbove, XreadRows;
  }

  lemma SeqGrows(s: State, c: ClientId, cmds: seq<Command>, replies: seq<Resp>, t: State)
    requires StreamsOrdered(s) && ExecutesAll(s, c, cmds, replies, t)
    ensures Good(s, t)
  {
    hide Prim, Touch, Cleanup, Allowed, StreamsOrdered, Grown;
    SelfGood(s);
    GoodPrinciple(s);
    ExecSeqKeeps(u => Good(s, u), s, c, cmds, replies, t);
  }

  /** Each XREAD of a batch is answered from a state in the middle of it. */
  lemma {:induction false} NestedReads(s: State, c: ClientId, cmds: seq<Command>, replies: seq<Resp>, t: State, i: nat)
    returns (v: State)
    requires StreamsOrdered(s) && ExecutesAll(s, c, cmds, replies, t)
    requires i < |cmds| == |replies| && cmds[i].Xread?
    ensures Between(s, v, t) && XreadReply(v, cmds[i], replies[i])
    decreases |cmds|
  {
    hide Executes, StreamsOrdered, Grown, XreadReply;
    var n := |cmds| - 1;
    var mid, r :| ExecutesAll(s, c, cmds[..n], replies[..n], mid) && Executes(mid, c, cmds[n], r, t)
               && replies[n] == TxReply(r);
    SeqGrows(s, c, cmds[..n], replies[..n], mid);
    ExecGrows(mid, c, cmds[n], r, t);
    if i == n {
      v := mid;
      XreadAnswers(mid, c, cmds[n], r, t);
    } else {
      v := NestedReads(s, c, cmds[..n], replies[..n], mid, i);
      GrownTrans(v, mid, t);
    }
  }

  // ----------------------------------------------------------------- one blocked reader

  /** The one reply on the channel of reader `x` says what is above its ids in `v`. */
  ghost predicate AnsweredFrom(v: State, out: seq<Output>, x: XreadWaiter) {
    && |RepliesOn(out, x.channel)| == 1
    && ReadsAs(v, x.keys, x.ids, RepliesOn(out, x.channel)[0])
  }

  /** A reader that was blocked in `s`: in `u` it is still there, or it has been answered once, from a state
      in between. */
  ghost predicate Followed(s: State, u: State, w: WaiterId, x: XreadWaiter) {
    if w in u.xreadWaiters then u.xreadWaiters[w] == x
    else exists v :: Between(s, v, u) && AnsweredFrom(v, u.out, x)
  }

  ghost predicate Tracked(s: State, u: State, w: WaiterId, x: XreadWaiter) {
    Waiting(u) && Accounted(u) && Grown(s, u) && Followed(s, u, w, x)
  }

  lemma NeverTwice(s: State, channel: Channel)
    requires Accounted(s)
    ensures Answers(s.out, channel) <= 1
  {
  }

  lemma BetweenTrans(s: State, v: State, u: State, t: State)
    requires Between(s, v, u) && Grown(u, t)
    ensures Between(s, v, t)
  {
    hide Grown;
    GrownTrans(v, u, t);
  }

  /** Nothing about the reader changes unless it is taken out of the table. */
  lemma StillFollowed(s: State, u: State, t: State, w: WaiterId, x: XreadWaiter)
    requires Followed(s, u, w, x) && Grown(u, t) && Accounted(t) && u.out <= t.out
    requires w in u.xreadWaiters ==> w in t.xreadWaiters && t.xreadWaiters[w] == u.xreadWaiters[w]
    requires w !in u.xreadWaiters ==> w !in t.xreadWaiters
    ensures Followed(s, t, w, x)
  {
    hide Grown, Accounted, XreadRows;
    if w !in u.xreadWaiters {
      var v :| Between(s, v, u) && AnsweredFrom(v, u.out, x);
      BetweenTrans(s, v, u, t);
      NeverTwice(t, x.channel);
      AnswerStays(u.out, t.out, x.channel);
    }
  }

  /** The reader is woken: its answer is what is above its ids now. */
  lemma WokenIsFollowed(s: State, appended: State, order: seq<WaiterId>, w: WaiterId, x: XreadWaiter)
    requires Distinct(order) && w in order && w in appended.xreadWaiters && appended.xreadWaiters[w] == x
    requires forall o :: o in order ==> (
      o in appended.xreadWaiters && |appended.xreadWaiters[o].keys| == |appended.xreadWaiters[o].ids|)
    requires Accounted(Wake(appended, order)) && Grown(s, Wake(appended, order))
    ensures Followed(s, Wake(appended, order), w, x)
  {
    hide Grown, Accounted, XreadRows, NothingAbove, Wake;
    var t := Wake(appended, order);
    WakeAnswersAll(appended, order);
    SameRows(appended, t, x.keys, x.ids);
    var j :| 0 <= j < |order| && order[j] == w;
    var answer := Array(XreadRows(t, x.keys, x.ids));
    assert t.out[|appended.out| + j] == Reply(x.channel, answer);
    SentIsReceived(t.out, x.channel, answer);
    NeverTwice(t, x.channel);
    RepliesAreCounted(t.out, x.channel);
    assert RepliesOn(t.out, x.channel) == [answer];
    GrownItself(t);
    assert w !in t.xreadWaiters;
    assert Between(s, t, t) && AnsweredFrom(t, t.out, x);
  }

  lemma GrownItself(s: State)
    ensures Grown(s, s)
  {
  }

  lemma PrimFollows(s: State, u: State, w: WaiterId, x: XreadWaiter, c: ClientId, cmd: Command, ch: Choice)
    requires Tracked(s, u, w, x) && Allowed(u, c, cmd, ch)
    ensures Tracked(s, Prim(u, c, cmd, ch).state, w, x)
  {
    hide Prim, Waiting, Accounted, Grown, Followed, Allowed;
    var t := Prim(u, c, cmd, ch).state;
    AccountsPrinciple();
    WaitingPrinciple();
    OrderedOf(u);
    PrimGrows(u, c, cmd, ch);
    GrownTrans(s, u, t);
    if cmd.Xadd? {
      XaddFollows(s, u, w, x, c, cmd, ch);
    } else {
      OtherFollows(s, u, w, x, c, cmd, ch);
    }
  }

  lemma OrderedOf(s: State)
    requires Waiting(s)
    ensures StreamsOrdered(s) && CaughtUp(s)
  {
  }

  lemma OtherFollows(s: State, u: State, w: WaiterId, x: XreadWaiter, c: ClientId, cmd: Command, ch: Choice)
    requires Followed(s, u, w, x) && !cmd.Xadd?
    requires Grown(u, Prim(u, c, cmd, ch).state) && Accounted(Prim(u, c, cmd, ch).state)
    ensures Followed(s, Prim(u, c, cmd, ch).state, w, x)
  {
    hide Prim, Accounted, Grown, Followed;
    PrimTouches(u, c, cmd, ch);
    StillFollowed(s, u, Prim(u, c, cmd, ch).state, w, x);
  }

  lemma XaddFollows(s: State, u: State, w: WaiterId, x: XreadWaiter, c: ClientId, cmd: Command, ch: Choice)
    requires Followed(s, u, w, x) && CaughtUp(u) && cmd.Xadd? && Allowed(u, c, cmd, ch)
    requires var t := Prim(u, c, cmd, ch).state; Grown(s, t) && Grown(u, t) && Accounted(t)
    ensures Followed(s, Prim(u, c, cmd, ch).state, w, x)
  {
    hide XaddCommand, Wake, EnsureStream, AppendEntry, Judge, Accounted, Grown, Followed, CaughtUp;
    var t := XaddCommand(u, cmd.key, cmd.id, cmd.fieldValues, ch.now, ch.order).state;
    var ready := EnsureStream(u, cmd.key);
    ReadyFrame(u, cmd.key);
    XaddShape(u, cmd.key, cmd.id, cmd.fieldValues, ch.now, ch.order);
    if ready.data[cmd.key].value.Stream? && Judge(cmd.id, StreamOf(ready, cmd.key), ch.now).Accepted? {
      var newId := Judge(cmd.id, StreamOf(ready, cmd.key), ch.now).id;
      var appended := AppendEntry(ready, cmd.key, newId, cmd.fieldValues);
      EntryFrame(ready, cmd.key, newId, cmd.fieldValues);
      InterestedAreCaughtUp(u, cmd.key, ch.order);
      AppendFollows(s, u, appended, ch.order, w, x);
    } else {
      StillFollowed(s, u, t, w, x);
    }
  }

  lemma EntryFrame(s: State, key: Key, id: StreamId, fields: seq<Bytes>)
    requires key in s.data && s.data[key].value.Stream?
    ensures AppendEntry(s, key, id, fields) == s.(data := AppendEntry(s, key, id, fields).data)
  {
    hide Insert;
  }

  lemma InterestedAreCaughtUp(s: State, key: Key, order: seq<WaiterId>)
    requires CaughtUp(s) && IsOrder(order, InterestedXread(s, key))
    ensures Distinct(order)
    ensures forall o :: o in order ==> o in s.xreadWaiters && |s.xreadWaiters[o].keys| == |s.xreadWaiters[o].ids|
  {
    forall o | o in order ensures o in s.xreadWaiters && |s.xreadWaiters[o].keys| == |s.xreadWaiters[o].ids| {
      assert o in InterestedXread(s, key);
      assert NothingAbove(s, s.xreadWaiters[o].keys, s.xreadWaiters[o].ids);
    }
  }

  lemma AppendFollows(s: State, u: State, appended: State, order: seq<WaiterId>, w: WaiterId, x: XreadWaiter)
    requires Followed(s, u, w, x) && appended == u.(data := appended.data) && Distinct(order)
    requires forall o :: o in order ==> o in u.xreadWaiters && |u.xreadWaiters[o].keys| == |u.xreadWaiters[o].ids|
    requires var t := Wake(appended, order); Grown(s, t) && Grown(u, t) && Accounted(t)
    ensures Followed(s, Wake(appended, order), w, x)
  {
    hide Accounted, Grown, XreadRows;
    var t := Wake(appended, order);
    WakeAnswersAll(appended, order);
    if w in order {
      WokenIsFollowed(s, appended, order, w, x);
    } else {
      hide Followed, Wake;
      StillFollowed(s, u, t, w, x);
    }
  }

  /** Through any command, transactions included. */
  lemma ExecFollows(s: State, c: ClientId, cmd: Command, r: Result, t: State, w: WaiterId)
    requires Waiting(s) && Accounted(s) && w in s.xreadWaiters && Executes(s, c, cmd, r, t)
    ensures Tracked(s, t, w, s.xreadWaiters[w])
  {
    hide Prim, Touch, Cleanup, Allowed, Waiting, Accounted, Grown, Tracked;
    var x := s.xreadWaiters[w];
    StartTracking(s, w);
    TrackingPrinciple(s, w, x);
    ExecKeeps(u => Tracked(s, u, w, x), s, c, cmd, r, t);
  }

  lemma StartTracking(s: State, w: WaiterId)
    requires Waiting(s) && Accounted(s) && w in s.xreadWaiters
    ensures Tracked(s, s, w, s.xreadWaiters[w])
  {
    hide Waiting, Accounted;
  }

  lemma TrackingPrinciple(s: State, w: WaiterId, x: XreadWaiter)
    ensures forall u, d, ks :: Tracked(s, u, w, x) ==> Tracked(s, Touch(u, d, ks), w, x)
    ensures forall u, d :: Tracked(s, u, w, x) ==> Tracked(s, Cleanup(u, d), w, x)
    ensures forall u, d, p, ch :: Tracked(s, u, w, x) && Allowed(u, d, p, ch) ==> Tracked(s, Prim(u, d, p, ch).state, w, x)
  {
    hide Prim, Touch, Cleanup, Allowed, Tracked;
    forall u, d, ks | Tracked(s, u, w, x) ensures Tracked(s, Touch(u, d, ks), w, x) {
      TouchFrame(u, d, ks);
      SameDataTracked(s, u, Touch(u, d, ks), w, x);
    }
    forall u, d | Tracked(s, u, w, x) ensures Tracked(s, Cleanup(u, d), w, x) {
      CleanupFrame(u, d);
      SameDataTracked(s, u, Cleanup(u, d), w, x);
    }
    forall u, d, p, ch | Tracked(s, u, w, x) && Allowed(u, d, p, ch) ensures Tracked(s, Prim(u, d, p, ch).state, w, x) {
      PrimFollows(s, u, w, x, d, p, ch);
    }
  }

  lemma SameDataTracked(s: State, u: State, t: State, w: WaiterId, x: XreadWaiter)
    requires Tracked(s, u, w, x) && t == u.(watched := t.watched, watchLog := t.watchLog)
    ensures Tracked(s, t, w, x)
  {
    hide Waiting, Accounted, Grown, Followed;
    WaitingFrame(u, t);
    SameAccounts(u, t);
    SameGrown(s, u, t);
    StillFollowed(s, u, t, w, x);
  }

  lemma SameGrown(s: State, u: State, t: State)
    requires Grown(s, u) && t.data == u.data
    ensures Grown(s, t) && Grown(u, t)
  {
  }

  // ------------------------------------------------------------------------- one envelope

  lemma ReaderStep(s: State, e: Envelope, t: State, w: WaiterId)
    requires Waiting(s) && Accounted(s) && Step(s, e, t) && w in s.xreadWaiters
    ensures Grown(s, t) && Followed(s, t, w, s.xreadWaiters[w])
  {
    hide Step, Executes, Account, Settle, Waiting, Accounted, Grown, Followed, IsOrder;
    OrderedOf(s);
    StepGrows(s, e, t);
    StepKeepsAccounts(s, e, t);
    if e.WithReply? {
      RequestFollows(s, e.client, e.command, e.channel, t, w);
    } else if e.Replicate? {
      var r := ReplicatePart(s, e.command, t);
      ExecFollows(s, 0, e.command, r, t, w);
    } else if e.TimeoutXread? {
      TimeoutIs(s, e.waiter, t);
      TimeoutFollows(s, e.waiter, t, w);
    } else {
      TrackedStart(s, w);
      OtherTables(s, e, t);
      StillFollowed(s, s, t, w, s.xreadWaiters[w]);
    }
  }

  lemma TrackedStart(s: State, w: WaiterId)
    requires w in s.xreadWaiters
    ensures Followed(s, s, w, s.xreadWaiters[w])
  {
  }

  lemma OtherTables(s: State, e: Envelope, t: State)
    requires Step(s, e, t) && !e.WithReply? && !e.Replicate? && !e.TimeoutXread?
    ensures t.xreadWaiters == s.xreadWaiters && s.out <= t.out
  {
    hide Executes, IsOrder, JoinReplica, TimeOutXread, TimeOutBlpop, TimeOutWait;
    match e {
      case AddReplica(c, channel) => JoinFrame(s, c, channel, t);
      case TimeoutBlpop(w) => TimeOutFrames(s, w);
      case TimeoutWait(w) => TimeOutFrames(s, w);
      case RegisterClient(_) =>
      case UnregisterClient(_) =>
    }
  }

  lemma TimeoutIs(s: State, w: WaiterId, t: State)
    requires Step(s, TimeoutXread(w), t)
    ensures t == TimeOutXread(s, w)
  {
  }

  /** The timer fires: there was nothing to read. */
  lemma TimeoutFollows(s: State, fired: WaiterId, t: State, w: WaiterId)
    requires Waiting(s) && w in s.xreadWaiters && t == TimeOutXread(s, fired) && Accounted(t) && Grown(s, t)
    ensures Followed(s, t, w, s.xreadWaiters[w])
  {
    hide Waiting, Accounted, Grown, NothingAbove, XreadRows, TimeOutXread, TimeOutBlpop, TimeOutWait;
    var x := s.xreadWaiters[w];
    TimeOutFrames(s, fired);
    if fired == w {
      ReaderIsCaughtUp(s, w);
      SentIsReceived(t.out, x.channel, NullArray);
      NeverTwice(t, x.channel);
      RepliesAreCounted(t.out, x.channel);
      assert RepliesOn(t.out, x.channel) == [NullArray];
      GrownItself(s);
      assert Between(s, s, t) && AnsweredFrom(s, t.out, x);
    } else {
      TrackedStart(s, w);
      StillFollowed(s, s, t, w, x);
    }
  }

  lemma ReaderIsCaughtUp(s: State, w: WaiterId)
    requires Waiting(s) && w in s.xreadWaiters
    ensures |s.xreadWaiters[w].keys| == |s.xreadWaiters[w].ids|
    ensures NothingAbove(s, s.xreadWaiters[w].keys, s.xreadWaiters[w].ids)
  {
  }

  lemma RequestFollows(s: State, c: ClientId, cmd: Command, channel: Channel, t: State, w: WaiterId)
    requires Waiting(s) && Accounted(s) && w in s.xreadWaiters
    requires Step(s, WithReply(c, cmd, channel), t) && Accounted(t)
    ensures Followed(s, t, w, s.xreadWaiters[w])
  {
    hide Step, Executes, Account, Settle, Waiting, Accounted, Grown, Followed, IsOrder;
    var r, mid, order := RequestParts(s, c, cmd, channel, t);
    var counted := Account(s, cmd);
    AccountFrame(s, cmd);
    WaitingFrame(s, counted);
    SameAccounts(s, counted);
    ExecFollows(counted, c, cmd, r, mid, w);
    SameStart(s, counted, mid, w, s.xreadWaiters[w]);
    SettleFrame(mid, channel, cmd, r, order);
    SameGrown(mid, mid, t);
    IssuedBefore(s, w);
    SettleLeavesReader(counted, c, cmd, r, mid, channel, order, w);
    StillFollowed(s, mid, t, w, s.xreadWaiters[w]);
  }

  lemma IssuedBefore(s: State, w: WaiterId)
    requires Accounted(s) && w in s.xreadWaiters
    ensures w <= s.waiterId
  {
  }

  lemma SameStart(s: State, counted: State, u: State, w: WaiterId, x: XreadWaiter)
    requires Followed(counted, u, w, x) && counted.data == s.data
    ensures Followed(s, u, w, x)
  {
    hide AnsweredFrom;
    if w !in u.xreadWaiters {
      var v :| Between(counted, v, u) && AnsweredFrom(v, u.out, x);
      assert Between(s, v, u);
    }
  }

  /** Settling a request registers a waiter under a new id at most. */
  lemma SettleLeavesReader(s: State, c: ClientId, cmd: Command, r: Result, mid: State, channel: Channel,
                           order: seq<ClientId>, w: WaiterId)
    requires Executes(s, c, cmd, r, mid) && w <= s.waiterId
    ensures
      var t := Settle(mid, channel, cmd, r, order);
      && (w in t.xreadWaiters <==> w in mid.xreadWaiters)
      && (w in mid.xreadWaiters ==> t.xreadWaiters[w] == mid.xreadWaiters[w])
      && mid.out <= t.out
  {
    hide Executes, PushTo;
    if r.BlockXread? {
      BlockingMeans(s, c, cmd, r, mid);
    }
  }

  // ------------------------------------------------------------------- asking, and waiting

  lemma SettleXread(s: State, channel: Channel, cmd: Command, r: Result, order: seq<ClientId>)
    requires cmd.Xread? && (r.Done? || r.BlockXread?)
    ensures
      var t := Settle(s, channel, cmd, r, order);
      && t.waiterId == s.waiterId
      && (r.Done? ==> t.out == s.out + [Reply(channel, r.reply)] && t.xreadWaiters == s.xreadWaiters)
      && (r.BlockXread? ==>
            && t.out == s.out
            && t.xreadWaiters == s.xreadWaiters[r.xreadId := XreadWaiter(channel, r.xreadKeys, r.ids)])
  {
  }

  /** XREAD on its own: answered at once, or registered with its keys and ids as they are now. */
  lemma AskDirectly(s: State, c: ClientId, cmd: Command, channel: Channel, t: State)
    requires Accounted(s) && StreamsOrdered(s) && Step(s, WithReply(c, cmd, channel), t) && cmd.Xread?
    ensures Grown(s, t) && |cmd.keys| == |cmd.ids|
    ensures
      || (t.waiterId in t.xreadWaiters
          && t.xreadWaiters[t.waiterId] == XreadWaiter(channel, cmd.keys, ResolveIds(s, cmd.keys, cmd.ids)))
      || (|RepliesOn(t.out, channel)| == 1 && XreadReply(s, cmd, RepliesOn(t.out, channel)[0]))
    ensures
      var ids := ResolveIds(s, cmd.keys, cmd.ids);
      if SomethingNew(s, cmd.keys, ids) then
        t.xreadWaiters == s.xreadWaiters && RepliesOn(t.out, channel) == [Array(XreadRows(s, cmd.keys, ids))]
      else if cmd.milliseconds == None then
        t.xreadWaiters == s.xreadWaiters && RepliesOn(t.out, channel) == [Array([])]
      else
        && t.out == s.out && RepliesOn(t.out, channel) == [] && t.waiterId == s.waiterId + 1
        && t.xreadWaiters == s.xreadWaiters[t.waiterId := XreadWaiter(channel, cmd.keys, ids)]
  {
    hide Step, Executes, Account, Accounted, Grown, StreamsOrdered, IsOrder, ResolveIds, Settle, XreadReply,
      SomethingNew, XreadRows;
    StepGrows(s, WithReply(c, cmd, channel), t);
    var r, mid, order := RequestParts(s, c, cmd, channel, t);
    AccountFrame(s, cmd);
    var counted := Account(s, cmd);
    SameAccounts(s, counted);
    XreadAnswers(counted, c, cmd, r, mid);
    XreadGives(counted, c, cmd, r, mid);
    SameReply(s, counted, cmd, TxReply(r));
    SameNews(s, counted, cmd);
    SettleXread(mid, channel, cmd, r, order);
    NotYetAnswered(s, channel);
    if r.Done? {
      OneReply(s.out, channel, r.reply);
    } else {
      BlockingMeans(counted, c, cmd, r, mid);
      SameResolution(s, counted, cmd);
    }
  }

  lemma SameReply(s: State, t: State, cmd: Command, reply: Resp)
    requires cmd.Xread? && XreadReply(t, cmd, reply) && s.data == t.data
    ensures XreadReply(s, cmd, reply)
  {
    hide Above, XreadRows;
    SameResolution(s, t, cmd);
    SameRows(t, s, cmd.keys, ResolveIds(s, cmd.keys, cmd.ids));
    forall k ensures StreamOf(s, k) == StreamOf(t, k) {
      SameDataSameLists(s, t, k);
    }
  }

  lemma SameNews(s: State, t: State, cmd: Command)
    requires cmd.Xread? && |cmd.keys| == |cmd.ids| && s.data == t.data
    ensures
      var ids := ResolveIds(s, cmd.keys, cmd.ids);
      && ResolveIds(t, cmd.keys, cmd.ids) == ids && XreadRows(t, cmd.keys, ids) == XreadRows(s, cmd.keys, ids)
      && (SomethingNew(t, cmd.keys, ids) <==> SomethingNew(s, cmd.keys, ids))
  {
    hide XreadRows;
    var ids := ResolveIds(s, cmd.keys, cmd.ids);
    SameResolution(s, t, cmd);
    SameRows(t, s, cmd.keys, ids);
    forall k ensures StreamOf(s, k) == StreamOf(t, k) {
      SameDataSameLists(s, t, k);
    }
  }

  lemma SameResolution(s: State, t: State, cmd: Command)
    requires cmd.Xread? && |cmd.keys| == |cmd.ids| && s.data == t.data
    ensures ResolveIds(s, cmd.keys, cmd.ids) == ResolveIds(t, cmd.keys, cmd.ids)
  {
  }

  /** XREAD inside EXEC: unless the transaction is aborted, answered from a state in the middle of the step. */
  lemma AskInBatch(s: State, c: ClientId, cmds: seq<Command>, channel: Channel, t: State, i: nat) returns (v: State)
    requires Accounted(s) && StreamsOrdered(s) && Step(s, WithReply(c, ExecuteTx(cmds), channel), t)
    requires i < |cmds| && cmds[i].Xread?
    ensures |RepliesOn(t.out, channel)| == 1
    ensures
      var reply := RepliesOn(t.out, channel)[0];
      || reply == NullArray
      || (Between(s, v, t) && reply.Array? && |reply.els| == |cmds| && XreadReply(v, cmds[i], reply.els[i]))
  {
    hide Step, ExecutesAll, LockFailed, Accounted, StreamsOrdered, Grown, XreadReply;
    v := s;
    var replies, mid := Client.TransactionInOneStep(s, c, cmds, channel, t);
    FreshChannel(s, c, ExecuteTx(cmds), channel, t);
    if LockFailed(s, c) {
      NotYetAnswered(s, channel);
      OneReply(s.out, channel, NullArray);
    } else {
      BatchAnswersOthers(s, c, cmds, replies, mid, channel);
      OneReply(mid.out, channel, Array(replies));
      v := NestedReads(s, c, cmds, replies, mid, i);
      SameGrown(v, mid, t);
    }
  }

  lemma FreshChannel(s: State, c: ClientId, cmd: Command, channel: Channel, t: State)
    requires Step(s, WithReply(c, cmd, channel), t)
    ensures channel !in s.requests
  {
  }

  lemma BatchAnswersOthers(s: State, c: ClientId, cmds: seq<Command>, replies: seq<Resp>, t: State, channel: Channel)
    requires Accounted(s) && ExecutesAll(s, c, cmds, replies, t) && channel !in s.requests
    ensures RepliesOn(t.out, channel) == []
  {
    hide Prim, Touch, Cleanup, Allowed, Accounted, ExecFrame;
    AccountsPrinciple();
    ExecSeqKeeps(Accounted, s, c, cmds, replies, t);
    FramePrinciple(s);
    ExecFrameRefl(s);
    ExecSeqKeeps(u => ExecFrame(s, u), s, c, cmds, replies, t);
    FrameRequests(s, t);
    NotYetAnswered(t, channel);
  }

  lemma FrameRequests(s: State, t: State)
    requires ExecFrame(s, t)
    ensures t.requests == s.requests
  {
  }

  // ----------------------------------------------------------------------- over a run

  /** Reader `x` was answered in step `m`, from `v`, and at moment `n` that is still its answer. */
  ghost predicate AnsweredAt(states: seq<State>, m: nat, v: State, n: nat, x: XreadWaiter) {
    m + 1 < |states| && n < |states| && Between(states[m], v, states[m + 1]) && AnsweredFrom(v, states[n].out, x)
  }

  ghost predicate AnsweredSince(states: seq<State>, i: nat, n: nat, x: XreadWaiter) {
    exists m: nat, v :: i <= m < n && AnsweredAt(states, m, v, n, x)
  }

  lemma GoodState(states: seq<State>, envelopes: seq<Envelope>, i: nat)
    requires Run(states, envelopes) && i < |states|
    ensures Waiting(states[i]) && Accounted(states[i]) && StreamsOrdered(states[i])
  {
    hide Run, CaughtUp, StillShort, StreamsOrdered, TablesDisjoint, OneHolder, EachOnce;
    NobodyWaitsForWhatIsThere(states, envelopes, i);
    OneReplyPerRequest(states, envelopes, i);
  }

  lemma StepSends(s: State, e: Envelope, t: State)
    requires Step(s, e, t)
    ensures s.out <= t.out
  {
    hide Step, Executes, Account, IsOrder, Settle;
    if e.WithReply? {
      var r, mid, order := RequestParts(s, e.client, e.command, e.channel, t);
      AccountFrame(s, e.command);
      ExecKeepsFrame(Account(s, e.command), e.client, e.command, r, mid);
      SettleSends(mid, e.channel, e.command, r, order);
    } else if e.Replicate? {
      var r := ReplicatePart(s, e.command, t);
      ExecKeepsFrame(s, 0, e.command, r, t);
    } else {
      QuietSteps(s, e, t);
    }
  }

  lemma AnswerLasts(s: State, e: Envelope, t: State, v: State, x: XreadWaiter)
    requires Step(s, e, t) && Accounted(t) && AnsweredFrom(v, s.out, x)
    ensures AnsweredFrom(v, t.out, x)
  {
    hide Step, Accounted, ReadsAs;
    StepSends(s, e, t);
    NeverTwice(t, x.channel);
    AnswerStays(s.out, t.out, x.channel);
  }

  lemma WaitsUnanswered(s: State, w: WaiterId)
    requires Accounted(s) && w in s.xreadWaiters
    ensures RepliesOn(s.out, s.xreadWaiters[w].channel) == []
  {
    var channel := s.xreadWaiters[w].channel;
    assert Holds(s, w, channel);
    RepliesAreCounted(s.out, channel);
  }

  /** A blocked reader stays in the table as it is, or it has been answered. */
  lemma {:induction false} BlockedRead(states: seq<State>, envelopes: seq<Envelope>, i: nat, n: nat, w: WaiterId)
    requires Run(states, envelopes) && i <= n < |states| && w in states[i].xreadWaiters
    ensures
      var x := states[i].xreadWaiters[w];
      || (w in states[n].xreadWaiters && states[n].xreadWaiters[w] == x && RepliesOn(states[n].out, x.channel) == [])
      || AnsweredSince(states, i, n, x)
    decreases n
  {
    hide Run, Step, Waiting, Accounted, StreamsOrdered, Grown, AnsweredFrom;
    GoodState(states, envelopes, n);
    var x := states[i].xreadWaiters[w];
    var t := states[n];
    if i == n {
      WaitsUnanswered(t, w);
    } else {
      OneMoreState(states, envelopes);
      BlockedRead(states, envelopes, i, n - 1, w);
      StepAt(states, envelopes, n);
      GoodState(states, envelopes, n - 1);
      var s := states[n - 1];
      if AnsweredSince(states, i, n - 1, x) {
        var m: nat, v :| i <= m < n - 1 && AnsweredAt(states, m, v, n - 1, x);
        AnswerLasts(s, envelopes[n - 1], t, v, x);
        assert AnsweredAt(states, m, v, n, x);
      } else {
        ReaderStep(s, envelopes[n - 1], t, w);
        if w in t.xreadWaiters {
          WaitsUnanswered(t, w);
        } else {
          var v :| Between(s, v, t) && AnsweredFrom(v, t.out, x);
          assert AnsweredAt(states, n - 1, v, n, x);
        }
      }
    }
  }

  // ------------------------------------------------------------------- what a client gets

  predicate IsRowOf(row: Resp, k: Key) {
    row.Array? && |row.els| == 2 && row.els[0] == BulkString(k) && row.els[1].Array?
  }

  /** The entries a list of rows gives for key `k`. */
  function RowsFor(rows: seq<Resp>, k: Key): seq<Resp> {
    if rows == [] then [] else (if IsRowOf(rows[0], k) then rows[0].els[1].els else []) + RowsFor(rows[1..], k)
  }

  function EntriesFor(reply: Resp, k: Key): seq<Resp> {
    if reply.Array? then RowsFor(reply.els, k) else []
  }

  /** Rows name their keys, so a key asked for once has one row at most. */
  lemma {:induction false} RowsOfOthers(v: State, keys: seq<Key>, ids: seq<StreamId>, k: Key)
    requires |keys| == |ids| && k !in keys
    ensures RowsFor(XreadRows(v, keys, ids), k) == []
  {
    hide Above, EntryRows;
    if keys != [] {
      RowsOfOthers(v, keys[1..], ids[1..], k);
      RowsSplit(v, keys, ids, k);
    }
  }

  lemma RowsSplit(v: State, keys: seq<Key>, ids: seq<StreamId>, k: Key)
    requires |keys| == |ids| && keys != []
    ensures RowsFor(XreadRows(v, keys, ids), k)
         == (if keys[0] == k && k in v.data && v.data[k].value.Stream?
             then EntryRows(Above(StreamOf(v, k), ids[0])) else [])
            + RowsFor(XreadRows(v, keys[1..], ids[1..]), k)
  {
    hide Above, EntryRows, StreamOf;
    var rest := XreadRows(v, keys[1..], ids[1..]);
    if keys[0] in v.data && v.data[keys[0]].value.Stream? {
      var row := StreamRow(keys[0], Above(StreamOf(v, keys[0]), ids[0]));
      assert ([row] + rest)[1..] == rest;
      assert [] + RowsFor(rest, k) == RowsFor(rest, k);
    } else {
      assert [] + rest == rest && [] + RowsFor(rest, k) == RowsFor(rest, k);
    }
  }

  lemma NoEntries(id: StreamId)
    ensures EntryRows(Above([], id)) == []
  {
  }

  lemma {:induction false} RowsOfKey(v: State, keys: seq<Key>, ids: seq<StreamId>, k: Key, p: nat)
    requires |keys| == |ids| && p < |keys| && keys[p] == k
    requires forall q :: 0 <= q < |keys| && q != p ==> keys[q] != k
    ensures RowsFor(XreadRows(v, keys, ids), k) == EntryRows(Above(StreamOf(v, k), ids[p]))
    decreases p
  {
    hide Above, EntryRows, XreadRows, RowsFor;
    RowsSplit(v, keys, ids, k);
    NoEntries(ids[p]);
    if p == 0 {
      RowsOfOthers(v, keys[1..], ids[1..], k);
      var entries := EntryRows(Above(StreamOf(v, k), ids[0]));
      assert entries + [] == entries;
    } else {
      RowsOfKey(v, keys[1..], ids[1..], k, p - 1);
      var rest := RowsFor(XreadRows(v, keys[1..], ids[1..]), k);
      assert [] + rest == rest;
    }
  }

  /** Whatever the form of the reply, it gives the entries above the id asked for. */
  lemma ReplyGivesEntries(v: State, keys: seq<Key>, ids: seq<StreamId>, reply: Resp, k: Key, p: nat)
    requires ReadsAs(v, keys, ids, reply) && p < |keys| && keys[p] == k
    requires forall q :: 0 <= q < |keys| && q != p ==> keys[q] != k
    ensures EntriesFor(reply, k) == EntryRows(Above(StreamOf(v, k), ids[p]))
  {
    hide Above, XreadRows, StreamOf;
    if reply == Array(XreadRows(v, keys, ids)) {
      RowsOfKey(v, keys, ids, k, p);
    } else {
      assert Above(StreamOf(v, keys[p]), ids[p]) == [];
    }
  }

  // ------------------------------------------------------------------------- one reading

  /** A read of a client: the envelope that carries it, which command of the batch it is if that is an EXEC, the
      moment by which the client has the reply, and the reply. */
  datatype Read = Read(sent: nat, part: Option<nat>, seen: nat, reply: Resp)

  function XreadIn(cmd: Command, part: Option<nat>): Command {
    if part.Some? && cmd.ExecuteTx? && part.value < |cmd.commands| then cmd.commands[part.value] else cmd
  }

  /** The part of the reply that answers the XREAD; there is none if the transaction was aborted. */
  function PartOf(reply: Resp, part: Option<nat>): Resp {
    if part == None then reply
    else if reply.Array? && part.value < |reply.els| then reply.els[part.value]
    else NullArray
  }

  /** An XREAD of `k` from `id`, of that key only once. */
  ghost predicate AsksFor(cmd: Command, k: Key, id: StreamId) {
    && cmd.Xread? && |cmd.keys| == |cmd.ids|
    && exists p :: 0 <= p < |cmd.keys| && cmd.keys[p] == k && cmd.ids[p] == After(id)
                   && forall q :: 0 <= q < |cmd.keys| && q != p ==> cmd.keys[q] != k
  }

  /** The run carries this read of `k` from `id`, and its reply is the only one on its channel. */
  ghost predicate IsRead(states: seq<State>, envelopes: seq<Envelope>, read: Read, k: Key, id: StreamId) {
    && read.sent < |envelopes| && read.sent < read.seen < |states|
    && envelopes[read.sent].WithReply?
    && (read.part.Some? <==> envelopes[read.sent].command.ExecuteTx?)
    && (read.part.Some? ==> read.part.value < |envelopes[read.sent].command.commands|)
    && AsksFor(XreadIn(envelopes[read.sent].command, read.part), k, id)
    && RepliesOn(states[read.seen].out, envelopes[read.sent].channel) == [read.reply]
  }

  function Received(read: Read, k: Key): seq<Resp> {
    EntriesFor(PartOf(read.reply, read.part), k)
  }

  predicate Aborted(read: Read) {
    read.part.Some? && read.reply == NullArray
  }

  ghost predicate ReadAt(states: seq<State>, read: Read, k: Key, id: StreamId, m: nat, v: State)
  {
    && read.sent <= m < read.seen < |states| && Between(states[m], v, states[m + 1])
    && Received(read, k) == EntryRows(Above(StreamOf(v, k), id))
  }

  lemma {:induction false} AnswerUntil(states: seq<State>, envelopes: seq<Envelope>, i: nat, n: nat, channel: Channel)
    requires Run(states, envelopes) && i <= n < |states| && RepliesOn(states[i].out, channel) != []
    ensures RepliesOn(states[n].out, channel) == RepliesOn(states[i].out, channel)
    decreases n
  {
    hide Run, Step, Waiting, Accounted;
    if i < n {
      OneMoreState(states, envelopes);
      AnswerUntil(states, envelopes, i, n - 1, channel);
      StepAt(states, envelopes, n);
      StepSends(states[n - 1], envelopes[n - 1], states[n]);
      GoodState(states, envelopes, n);
      NeverTwice(states[n], channel);
      AnswerStays(states[n - 1].out, states[n].out, channel);
    }
  }

  /** The id asked for is the id read from, whatever the other keys resolve to. */
  lemma AskedEntries(s: State, v: State, cmd: Command, reply: Resp, k: Key, id: StreamId)
    requires AsksFor(cmd, k, id) && ReadsAs(v, cmd.keys, ResolveIds(s, cmd.keys, cmd.ids), reply)
    ensures EntriesFor(reply, k) == EntryRows(Above(StreamOf(v, k), id))
  {
    hide Above, XreadRows, StreamOf, EntriesFor, ReadsAs;
    var p :| 0 <= p < |cmd.keys| && cmd.keys[p] == k && cmd.ids[p] == After(id)
             && forall q :: 0 <= q < |cmd.keys| && q != p ==> cmd.keys[q] != k;
    ReplyGivesEntries(v, cmd.keys, ResolveIds(s, cmd.keys, cmd.ids), reply, k, p);
  }

  /** The reply of a read that has come at moment `n` is the reply the client sees. */
  lemma SeenReply(states: seq<State>, envelopes: seq<Envelope>, read: Read, k: Key, id: StreamId, n: nat)
    requires Run(states, envelopes) && IsRead(states, envelopes, read, k, id) && n <= read.seen
    requires |RepliesOn(states[n].out, envelopes[read.sent].channel)| == 1
    ensures read.reply == RepliesOn(states[n].out, envelopes[read.sent].channel)[0]
  {
    hide Run, AsksFor, XreadIn, RepliesOn;
    AnswerUntil(states, envelopes, n, read.seen, envelopes[read.sent].channel);
  }

  lemma AnsweredAtOnce(states: seq<State>, envelopes: seq<Envelope>, read: Read, k: Key, id: StreamId)
    requires Run(states, envelopes) && IsRead(states, envelopes, read, k, id) && read.part == None
    requires |RepliesOn(states[read.sent + 1].out, envelopes[read.sent].channel)| == 1
    requires envelopes[read.sent].command.Xread? && Grown(states[read.sent], states[read.sent + 1])
    requires XreadReply(states[read.sent], envelopes[read.sent].command,
                        RepliesOn(states[read.sent + 1].out, envelopes[read.sent].channel)[0])
    ensures ReadAt(states, read, k, id, read.sent, states[read.sent])
  {
    hide Run, AsksFor, RepliesOn, EntriesFor, ReadsAs, ResolveIds, Above, StreamOf, EntryRows, Grown;
    SeenReply(states, envelopes, read, k, id, read.sent + 1);
    var s := states[read.sent];
    GrownItself(s);
    AskedEntries(s, s, envelopes[read.sent].command, read.reply, k, id);
  }

  lemma AnsweredLater(s: State, cmd: Command, states: seq<State>, i: nat, n: nat, reply: Resp, k: Key, id: StreamId,
                      x: XreadWaiter) returns (m: nat, v: State)
    requires n < |states| && AsksFor(cmd, k, id)
    requires x.keys == cmd.keys && x.ids == ResolveIds(s, cmd.keys, cmd.ids)
    requires RepliesOn(states[n].out, x.channel) == [reply] && AnsweredSince(states, i, n, x)
    ensures i <= m < n && m + 1 < |states| && Between(states[m], v, states[m + 1])
    ensures EntriesFor(reply, k) == EntryRows(Above(StreamOf(v, k), id))
  {
    hide AsksFor, RepliesOn, EntriesFor, ReadsAs, ResolveIds, Above, StreamOf, EntryRows, Between;
    m, v :| i <= m < n && AnsweredAt(states, m, v, n, x);
    AskedEntries(s, v, cmd, reply, k, id);
  }

  lemma AsksByXread(cmd: Command, k: Key, id: StreamId)
    requires AsksFor(cmd, k, id)
    ensures cmd.Xread? && |cmd.keys| == |cmd.ids|
  {
  }

  lemma DirectReadGives(states: seq<State>, envelopes: seq<Envelope>, read: Read, k: Key, id: StreamId)
    returns (m: nat, v: State)
    requires Run(states, envelopes) && IsRead(states, envelopes, read, k, id) && read.part == None
    ensures ReadAt(states, read, k, id, m, v)
  {
    hide Run, Step, Waiting, Accounted, StreamsOrdered, Grown, XreadReply, ResolveIds, AnsweredSince, RepliesOn,
      EntriesFor, Above, StreamOf, EntryRows, Between, AsksFor;
    OneMoreState(states, envelopes);
    StepAt(states, envelopes, read.sent + 1);
    GoodState(states, envelopes, read.sent);
    var s, t, e := states[read.sent], states[read.sent + 1], envelopes[read.sent];
    AsksByXread(e.command, k, id);
    AskDirectly(s, e.client, e.command, e.channel, t);
    if |RepliesOn(t.out, e.channel)| == 1 && XreadReply(s, e.command, RepliesOn(t.out, e.channel)[0]) {
      m, v := read.sent, s;
      AnsweredAtOnce(states, envelopes, read, k, id);
    } else {
      BlockedRead(states, envelopes, read.sent + 1, read.seen, t.waiterId);
      m, v := AnsweredLater(s, e.command, states, read.sent + 1, read.seen, read.reply, k, id, t.xreadWaiters[t.waiterId]);
    }
  }

  lemma BatchReadGives(states: seq<State>, envelopes: seq<Envelope>, read: Read, k: Key, id: StreamId)
    returns (m: nat, v: State)
    requires Run(states, envelopes) && IsRead(states, envelopes, read, k, id) && read.part.Some?
    ensures Aborted(read) || ReadAt(states, read, k, id, m, v)
  {
    hide Run, Step, Waiting, Accounted, StreamsOrdered, Grown, EntriesFor, Above, StreamOf, ReadsAs, ResolveIds, RepliesOn,
      EntryRows, Between;
    OneMoreState(states, envelopes);
    StepAt(states, envelopes, read.sent + 1);
    GoodState(states, envelopes, read.sent);
    var s, t, e := states[read.sent], states[read.sent + 1], envelopes[read.sent];
    m := read.sent;
    v := AskInBatch(s, e.client, e.command.commands, e.channel, t, read.part.value);
    SeenReply(states, envelopes, read, k, id, read.sent + 1);
    if !Aborted(read) {
      AskedEntries(v, v, e.command.commands[read.part.value], PartOf(read.reply, read.part), k, id);
    }
  }

  /** What a read gives: nothing if its transaction was aborted, else the entries above the id in a state the run
      went through between the request and the reply. */
  lemma ReadGives(states: seq<State>, envelopes: seq<Envelope>, read: Read, k: Key, id: StreamId)
    requires Run(states, envelopes) && IsRead(states, envelopes, read, k, id)
    ensures Aborted(read) ==> Received(read, k) == []
    ensures Aborted(read) || exists m: nat, v :: ReadAt(states, read, k, id, m, v)
  {
    if read.part == None {
      var m, v := DirectReadGives(states, envelopes, read, k, id);
    } else {
      var m, v := BatchReadGives(states, envelopes, read, k, id);
    }
  }

  // -------------------------------------------------------------------------- the reader

  /** Everything a series of reads gave for `k`, in order. */
  function AllReceived(readings: seq<Read>, k: Key): seq<Resp> {
    if readings == [] then [] else AllReceived(readings[..|readings| - 1], k) + Received(readings[|readings| - 1], k)
  }

  /** The id a row starts with, as the server reads it back. */
  function IdOfRow(row: Resp): Option<StreamId> {
    if row.Array? && row.els != [] && GetBytes(row.els[0]).Some? then
      (match ParseXreadId(GetBytes(row.els[0]).value)
       case Some(After(id)) => Some(id)
       case _ => None)
    else None
  }

  /** The id to pass next: the last one received, or the one to start from. */
  function NextId(start: StreamId, received: seq<Resp>): StreamId {
    if received == [] || IdOfRow(received[|received| - 1]) == None then start
    else IdOfRow(received[|received| - 1]).value
  }

  lemma NextIdIsCursor(start: StreamId, entries: RedisStream)
    ensures NextId(start, EntryRows(entries)) == Cursor(start, entries)
  {
    hide IdOfRow;
    if entries != [] {
      IdOfEntry(entries[|entries| - 1]);
    }
  }

  lemma IdOfEntry(e: Streams.Entry)
    ensures IdOfRow(EntryRow(e)) == Some(e.id)
  {
    hide ParseXreadId, ParseXaddId, IdText;
    IdTextRoundTrip(e.id);
  }

  lemma RowsConcat(a: RedisStream, b: RedisStream)
    ensures EntryRows(a) + EntryRows(b) == EntryRows(a + b)
  {
  }

  /** A client that reads `k` over and over: each read is sent after the reply to the one before was seen, and asks
      from the last id received. */
  ghost predicate IsReader(states: seq<State>, envelopes: seq<Envelope>, readings: seq<Read>, k: Key, start: StreamId) {
    forall i :: 0 <= i < |readings| ==>
      && IsRead(states, envelopes, readings[i], k, NextId(start, AllReceived(readings[..i], k)))
      && (i > 0 ==> readings[i - 1].seen <= readings[i].sent)
  }

  /** The key holds a stream, or nothing. */
  predicate StreamOrNothing(s: State, k: Key) {
    k in s.data ==> s.data[k].value.Stream?
  }

  lemma GrownStream(s: State, t: State, k: Key)
    requires Grown(s, t) && StreamOrNothing(t, k)
    ensures StreamOrNothing(s, k) && StreamOf(s, k) <= StreamOf(t, k)
  {
  }

  lemma ReaderBefore(states: seq<State>, envelopes: seq<Envelope>, readings: seq<Read>, k: Key, start: StreamId)
    requires IsReader(states, envelopes, readings, k, start) && readings != []
    ensures IsReader(states, envelopes, readings[..|readings| - 1], k, start)
  {
    hide IsRead, NextId, AllReceived;
    var before := readings[..|readings| - 1];
    forall i | 0 <= i < |before|
      ensures IsRead(states, envelopes, before[i], k, NextId(start, AllReceived(before[..i], k)))
      ensures i > 0 ==> before[i - 1].seen <= before[i].sent
    {
      assert before[..i] == readings[..i];
    }
  }

  /** What the reads gave is what is above the start id in a beginning of the stream. */
  ghost predicate Got(got: RedisStream, readings: seq<Read>, k: Key, start: StreamId) {
    AllReceived(readings, k) == EntryRows(Above(got, start))
  }

  lemma {:induction false} ReaderGets(states: seq<State>, envelopes: seq<Envelope>, readings: seq<Read>, k: Key,
                                      start: StreamId, n: nat) returns (got: RedisStream)
    requires Run(states, envelopes) && IsReader(states, envelopes, readings, k, start)
    requires n < |states| && (readings != [] ==> readings[|readings| - 1].seen <= n) && StreamOrNothing(states[n], k)
    ensures got <= StreamOf(states[n], k) && Got(got, readings, k, start)
    ensures readings != [] && !Aborted(readings[|readings| - 1]) ==>
      StreamOf(states[readings[|readings| - 1].sent], k) <= got
    decreases |readings|
  {
    hide Run, Grown, StreamOf, IsRead, Above, EntryRows, Received, Aborted, ReadAt;
    got := [];
    if readings == [] {
      NothingReceived(start);
    } else {
      var last := readings[|readings| - 1];
      var before := readings[..|readings| - 1];
      ReaderBefore(states, envelopes, readings, k, start);
      SentBeforeSeen(states, envelopes, last, k, NextId(start, AllReceived(before, k)));
      StreamsOnlyGrow(states, envelopes, last.sent, n);
      GrownStream(states[last.sent], states[n], k);
      got := ReaderGets(states, envelopes, before, k, start, last.sent);
      ReadGives(states, envelopes, last, k, NextId(start, AllReceived(before, k)));
      if Aborted(last) {
        assert AllReceived(before, k) + [] == AllReceived(before, k);
      } else {
        got := OneMoreRead(states, envelopes, before, last, k, start, n, got);
      }
    }
  }

  lemma NothingReceived(start: StreamId)
    ensures EntryRows(Above([], start)) == []
  {
  }

  lemma SentBeforeSeen(states: seq<State>, envelopes: seq<Envelope>, read: Read, k: Key, id: StreamId)
    requires IsRead(states, envelopes, read, k, id)
    ensures read.sent < read.seen < |states|
  {
  }

  lemma OneMoreRead(states: seq<State>, envelopes: seq<Envelope>, before: seq<Read>, last: Read, k: Key, start: StreamId,
                    n: nat, got: RedisStream) returns (more: RedisStream)
    requires Run(states, envelopes) && last.seen <= n < |states| && StreamOrNothing(states[n], k)
    requires exists m: nat, v :: ReadAt(states, last, k, NextId(start, AllReceived(before, k)), m, v)
    requires last.sent < |states| && got <= StreamOf(states[last.sent], k) && Got(got, before, k, start)
    ensures more <= StreamOf(states[n], k) && StreamOf(states[last.sent], k) <= more
    ensures AllReceived(before, k) + Received(last, k) == EntryRows(Above(more, start))
  {
    hide Run, Grown, Above, EntryRows, Received, StreamOf, AllReceived, NextId;
    var m: nat, v :| ReadAt(states, last, k, NextId(start, AllReceived(before, k)), m, v);
    StreamsOnlyGrow(states, envelopes, m + 1, n);
    StreamsOnlyGrow(states, envelopes, last.sent, m);
    GrownStream(states[m + 1], states[n], k);
    GrownStream(v, states[m + 1], k);
    GrownStream(states[m], v, k);
    GrownStream(states[last.sent], states[m], k);
    more := StreamOf(v, k);
    NextIdIsCursor(start, Above(got, start));
    OrderedAt(states[n], k);
    var rest := StreamOf(states[n], k)[|more|..];
    assert StreamOf(states[n], k) == more + rest;
    FrontAscends(more, rest);
    var tail := more[|got|..];
    assert more == got + tail;
    ReadThenRead(got, tail, start);
    RowsConcat(Above(got, start), Above(more, Cursor(start, Above(got, start))));
  }

  /** A client that reads a key by any number of XREADs, alone or inside EXEC, blocking or not, and always passes the
      last id it received, gets exactly the entries above its start id in a beginning of the stream, in order and
      once each, as long as the key still holds the stream. That beginning holds every entry that was there when the
      last read was sent, unless the transaction of that read was aborted. */
  lemma ReaderSeesEverything(states: seq<State>, envelopes: seq<Envelope>, readings: seq<Read>, k: Key, start: StreamId)
    requires Run(states, envelopes) && readings != [] && IsReader(states, envelopes, readings, k, start)
    requires readings[|readings| - 1].seen < |states| && StreamOrNothing(states[readings[|readings| - 1].seen], k)
    ensures exists got ::
      && got <= StreamOf(states[readings[|readings| - 1].seen], k) && Got(got, readings, k, start)
      && (!Aborted(readings[|readings| - 1]) ==> StreamOf(states[readings[|readings| - 1].sent], k) <= got)
  {
    hide Run, Grown, StreamOf, IsReader, Got, Aborted;
    var got := ReaderGets(states, envelopes, readings, k, start, readings[|readings| - 1].seen);
  }
}
