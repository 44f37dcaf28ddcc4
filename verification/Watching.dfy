/**
 Optimistic locking: who is recorded as watching a key is determined by the history alone,
 and EXEC aborts exactly when another client shares a key with the caller
 (`src/main.rs:678-682`, `689-756`; `src/command.rs:712-730`).
 */
module Watching {
  import opened Types
  import opened Orders
  import opened RespCodec
  import opened Commands
  import opened StoreModel
  import opened StoreFrames
  import Client

  function AfterEvent(before: set<ClientId>, e: WatchEvent, k: Key): set<ClientId> {
    match e
    case Watched(c, j) => if j == k then before + {c} else before
    case Wrote(c, j) => if j == k && before != {} then before + {c} else before
    case Cleared(c) => before - {c}
  }

  /** The clients marked on `k` after history `h`, event by event. */
  function MarkedOn(h: seq<WatchEvent>, k: Key): set<ClientId> {
    if h == [] then {} else AfterEvent(MarkedOn(h[..|h| - 1], k), h[|h| - 1], k)
  }

  ghost predicate NotClearedAfter(h: seq<WatchEvent>, i: nat, c: ClientId) {
    forall j :: i < j < |h| ==> h[j] != Cleared(c)
  }

  /** Event `i` marks `c` on `k`: it watches `k`, or writes `k` while somebody is marked on it. */
  ghost predicate MarkingEvent(h: seq<WatchEvent>, i: nat, c: ClientId, k: Key) {
    i < |h| && (h[i] == Watched(c, k) || (h[i] == Wrote(c, k) && MarkedOn(h[..i], k) != {}))
  }

  /** What being marked means: since its own last EXEC, DISCARD or UNWATCH, the client watched the key,
      or wrote it at a moment when somebody was marked on it. */
  lemma {:induction false} MarkedMeans(h: seq<WatchEvent>, c: ClientId, k: Key)
    ensures c in MarkedOn(h, k) <==> exists i: nat :: MarkingEvent(h, i, c, k) && NotClearedAfter(h, i, c)
  {
    hide MarkedOn, MarkingEvent, NotClearedAfter;
    MarkedByEvent(h, c, k);
    if h != [] {
      var n := |h| - 1;
      MarkedMeans(h[..n], c, k);
      if h[n] != Cleared(c) && c in MarkedOn(h[..n], k) {
        var i: nat :| MarkingEvent(h[..n], i, c, k) && NotClearedAfter(h[..n], i, c);
        EarlierMark(h, i, c, k);
        assert MarkedBy(h, i, c, k);
      }
    }
    if i: nat :| MarkingEvent(h, i, c, k) && NotClearedAfter(h, i, c) {
      assert MarkedBy(h, i, c, k);
      if h != [] {
        EarlierMark(h, i, c, k);
      }
    } else {
      forall i: nat ensures !MarkedBy(h, i, c, k) {
      }
    }
  }

  /** Event `i` marks `c` on `k`, and `c` has not ended its transaction or unwatched since. */
  ghost predicate MarkedBy(h: seq<WatchEvent>, i: nat, c: ClientId, k: Key) {
    MarkingEvent(h, i, c, k) && NotClearedAfter(h, i, c)
  }

  /** Marked after an event: by it, or before it and not cleared by it. */
  lemma MarkedByEvent(h: seq<WatchEvent>, c: ClientId, k: Key)
    ensures h == [] ==> c !in MarkedOn(h, k) && forall i: nat :: !MarkedBy(h, i, c, k)
    ensures h != [] ==>
      var n := |h| - 1;
      c in MarkedOn(h, k) <==> MarkedBy(h, n, c, k) || (h[n] != Cleared(c) && c in MarkedOn(h[..n], k))
  {
  }

  lemma EarlierMark(h: seq<WatchEvent>, i: nat, c: ClientId, k: Key)
    requires h != []
    ensures
      var n := |h| - 1;
      MarkedBy(h, i, c, k) <==>
        if i < n then MarkedBy(h[..n], i, c, k) && h[n] != Cleared(c) else i == n && MarkedBy(h, n, c, k)
    ensures MarkedBy(h[..|h| - 1], i, c, k) ==> i < |h| - 1
  {
    hide MarkedOn;
    if i < |h| - 1 {
      assert h[..|h| - 1][..i] == h[..i];
    }
  }

  function WatchersOf(s: State, k: Key): set<ClientId> {
    if k in s.watched then s.watched[k] else {}
  }

  /** The table of watchers says what the history says, and has no empty entries. */
  ghost predicate TableIsHistory(s: State) {
    && (forall k :: WatchersOf(s, k) == MarkedOn(s.watchLog, k))
    && (forall k :: k in s.watched ==> s.watched[k] != {})
  }

  // ----------------------------------------------------------------------- one operation

  lemma MarkedThen(h: seq<WatchEvent>, e: WatchEvent, k: Key)
    ensures MarkedOn(h + [e], k) == AfterEvent(MarkedOn(h, k), e, k)
  {
    assert (h + [e])[..|h|] == h;
  }

  lemma TouchKeyKeeps(s: State, c: ClientId, k: Key)
    requires TableIsHistory(s)
    ensures TableIsHistory(TouchKey(s, c, k))
  {
    hide MarkedOn;
    var t := TouchKey(s, c, k);
    forall j ensures WatchersOf(t, j) == MarkedOn(t.watchLog, j) {
      assert WatchersOf(s, j) == MarkedOn(s.watchLog, j);
      MarkedThen(s.watchLog, Wrote(c, k), j);
    }
  }

  lemma WatchKeyKeeps(s: State, c: ClientId, k: Key)
    requires TableIsHistory(s)
    ensures TableIsHistory(WatchKey(s, c, k))
  {
    hide MarkedOn;
    var t := WatchKey(s, c, k);
    forall j ensures WatchersOf(t, j) == MarkedOn(t.watchLog, j) {
      assert WatchersOf(s, j) == MarkedOn(s.watchLog, j);
      MarkedThen(s.watchLog, Watched(c, k), j);
    }
  }

  lemma CleanupKeeps(s: State, c: ClientId)
    requires TableIsHistory(s)
    ensures TableIsHistory(Cleanup(s, c))
  {
    hide MarkedOn;
    var t := Cleanup(s, c);
    forall j ensures WatchersOf(t, j) == MarkedOn(t.watchLog, j) {
      assert WatchersOf(s, j) == MarkedOn(s.watchLog, j);
      MarkedThen(s.watchLog, Cleared(c), j);
    }
  }

  lemma SameTable(s: State, t: State)
    requires TableIsHistory(s) && t.watched == s.watched && t.watchLog == s.watchLog
    ensures TableIsHistory(t)
  {
  }

  lemma PrimKeepsTable(s: State, c: ClientId, cmd: Command, ch: Choice)
    requires TableIsHistory(s)
    ensures TableIsHistory(Prim(s, c, cmd, ch).state)
  {
    hide TableIsHistory, Cleanup, ExecFrame;
    if cmd.Watch? {
      hide WatchKeys, WatchKey;
      forall u, k | TableIsHistory(u) ensures TableIsHistory(WatchKey(u, c, k)) {
        WatchKeyKeeps(u, c, k);
      }
      WatchKeeps(TableIsHistory, s, c, cmd.keys);
    } else if cmd.Unwatch? || cmd.Discard? {
      CleanupKeeps(s, c);
    } else {
      hide Prim;
      PrimTouches(s, c, cmd, ch);
      SameTable(s, Prim(s, c, cmd, ch).state);
    }
  }

  lemma TablePrinciple()
    ensures forall u, d, ks :: TableIsHistory(u) ==> TableIsHistory(Touch(u, d, ks))
    ensures forall u, d :: TableIsHistory(u) ==> TableIsHistory(Cleanup(u, d))
    ensures forall u, d, p, ch :: TableIsHistory(u) && Allowed(u, d, p, ch) ==> TableIsHistory(Prim(u, d, p, ch).state)
  {
    hide Prim, Touch, TouchKey, Cleanup, Allowed, TableIsHistory;
    forall u, d, ks | TableIsHistory(u) ensures TableIsHistory(Touch(u, d, ks)) {
      forall v, k | TableIsHistory(v) ensures TableIsHistory(TouchKey(v, d, k)) {
        TouchKeyKeeps(v, d, k);
      }
      TouchKeeps(TableIsHistory, u, d, ks);
    }
    forall u, d | TableIsHistory(u) ensures TableIsHistory(Cleanup(u, d)) {
      CleanupKeeps(u, d);
    }
    forall u, d, p, ch | TableIsHistory(u) && Allowed(u, d, p, ch) ensures TableIsHistory(Prim(u, d, p, ch).state) {
      PrimKeepsTable(u, d, p, ch);
    }
  }

  lemma StepKeepsTable(s: State, e: Envelope, t: State)
    requires TableIsHistory(s) && Step(s, e, t)
    ensures TableIsHistory(t)
  {
    hide Step, Executes, Account, Settle, TableIsHistory, IsOrder, Prim, Touch, Cleanup, Allowed;
    TablePrinciple();
    if e.WithReply? {
      var r, mid, order := RequestParts(s, e.client, e.command, e.channel, t);
      AccountFrame(s, e.command);
      SameTable(s, Account(s, e.command));
      ExecKeeps(TableIsHistory, Account(s, e.command), e.client, e.command, r, mid);
      SettleFrame(mid, e.channel, e.command, r, order);
      SameTable(mid, t);
    } else if e.Replicate? {
      var r := ReplicatePart(s, e.command, t);
      ExecKeeps(TableIsHistory, s, 0, e.command, r, t);
    } else {
      QuietSteps(s, e, t);
      SameTable(s, t);
    }
  }

  lemma BootTable(s: State)
    requires Booted(s)
    ensures TableIsHistory(s)
  {
    hide Prim, Touch, Cleanup, Allowed, ExecutesAll;
    var r: RdbCodec.Rdb, cmds, replies :| ExecutesAll(Fresh(FromRdb(r)), 0, cmds, replies, s);
    assert TableIsHistory(Fresh(FromRdb(r)));
    hide TableIsHistory;
    TablePrinciple();
    ExecSeqKeeps(TableIsHistory, Fresh(FromRdb(r)), 0, cmds, replies, s);
  }

  /** In every reachable state the watchers of a key are exactly those the history marks. */
  lemma {:induction false} WatchersAreHistory(states: seq<State>, envelopes: seq<Envelope>, i: nat)
    requires Run(states, envelopes) && i < |states|
    ensures TableIsHistory(states[i])
  {
    hide Step, Booted, TableIsHistory;
    if i == 0 {
      BootTable(states[0]);
    } else {
      WatchersAreHistory(states, envelopes, i - 1);
      StepKeepsTable(states[i - 1], envelopes[i - 1], states[i]);
    }
  }

  // -------------------------------------------------------------------------------- EXEC

  /** Another client is marked on a key that `c` is marked on. */
  ghost predicate SharesKey(h: seq<WatchEvent>, c: ClientId, d: ClientId, k: Key) {
    d != c && c in MarkedOn(h, k) && d in MarkedOn(h, k)
  }

  lemma MoreThanOne<T>(a: set<T>, x: T)
    requires x in a
    ensures |a| > 1 <==> exists y :: y in a && y != x
  {
    if |a| > 1 {
      assert |a - {x}| > 0;
      var y :| y in a - {x};
    }
    if y :| y in a && y != x {
      assert {x, y} <= a;
      assert a == {x, y} + (a - {x, y});
    }
  }

  /** The lock fails exactly if another client is marked on a key the caller is marked on. */
  lemma LockFailsIff(s: State, c: ClientId)
    requires TableIsHistory(s)
    ensures LockFailed(s, c) <==> exists d, k :: SharesKey(s.watchLog, c, d, k)
  {
    hide MarkedOn;
    if LockFailed(s, c) {
      var k :| k in s.watched && c in s.watched[k] && |s.watched[k]| > 1;
      MoreThanOne(s.watched[k], c);
      var d :| d in s.watched[k] && d != c;
      assert WatchersOf(s, k) == MarkedOn(s.watchLog, k);
      assert SharesKey(s.watchLog, c, d, k);
    }
    if d, k :| SharesKey(s.watchLog, c, d, k) {
      assert WatchersOf(s, k) == MarkedOn(s.watchLog, k);
      MoreThanOne(s.watched[k], c);
    }
  }

  /** EXEC aborts, with the null array and everything but the caller's own marks unchanged, exactly if
      another client shares a key; otherwise it answers once per command. In both cases the caller is
      unmarked afterwards. */
  lemma ExecAbortsIff(s: State, c: ClientId, cmds: seq<Command>, r: Result, t: State)
    requires TableIsHistory(s) && Executes(s, c, ExecuteTx(cmds), r, t)
    ensures if exists d, k :: SharesKey(s.watchLog, c, d, k)
            then r == Done(NullArray) && t == Cleanup(s, c) && t.data == s.data && t.out == s.out
            else r.Done? && r.reply.Array? && |r.reply.els| == |cmds|
    ensures forall k :: c !in MarkedOn(t.watchLog, k)
  {
    LockFailsIff(s, c);
    TransactionReplies(s, c, cmds, r, t);
    TablePrinciple();
    hide Touch, Cleanup, Prim, Allowed, MarkedOn;
    ExecKeeps(TableIsHistory, s, c, ExecuteTx(cmds), r, t);
    hide Executes;
    forall k ensures c !in MarkedOn(t.watchLog, k) {
      assert WatchersOf(t, k) == MarkedOn(t.watchLog, k);
      assert k in t.watched && c in t.watched[k] ==> c in Watchers(t);
    }
    CleanupFrame(s, c);
  }

  /** If EXEC succeeds, every write another client made to a watched key since the WATCH was followed by
      that writer's own EXEC, DISCARD or UNWATCH. */
  lemma SuccessMeansWritersLeft(h: seq<WatchEvent>, c: ClientId, d: ClientId, k: Key, i: nat, j: nat)
    requires i < j < |h| && h[i] == Watched(c, k) && NotClearedAfter(h, i, c)
    requires d != c && h[j] == Wrote(d, k)
    requires !SharesKey(h, c, d, k)
    ensures exists m :: j < m < |h| && h[m] == Cleared(d)
  {
    MarkedMeans(h, c, k);
    MarkedMeans(h, d, k);
    MarkedMeans(h[..j], c, k);
    assert MarkingEvent(h, i, c, k);
    assert MarkingEvent(h[..j], i, c, k) && NotClearedAfter(h[..j], i, c);
    assert MarkingEvent(h, j, d, k);
    assert !NotClearedAfter(h, j, d);
  }

  // ---------------------------------------------------------------- what EXEC amounts to

  /** Two clients have marked the same key, neither of them cleared since: each watched it, or wrote it while
      somebody was marked on it. */
  ghost predicate Conflict(h: seq<WatchEvent>, c: ClientId, d: ClientId, k: Key, a: nat, b: nat) {
    d != c && MarkedBy(h, a, c, k) && MarkedBy(h, b, d, k)
  }

  lemma ConflictIffShared(h: seq<WatchEvent>, c: ClientId, d: ClientId, k: Key)
    ensures SharesKey(h, c, d, k) <==> exists a: nat, b: nat :: Conflict(h, c, d, k, a, b)
  {
    hide MarkedOn, MarkingEvent, NotClearedAfter;
    MarkedMeans(h, c, k);
    MarkedMeans(h, d, k);
    if SharesKey(h, c, d, k) {
      var a: nat :| MarkingEvent(h, a, c, k) && NotClearedAfter(h, a, c);
      var b: nat :| MarkingEvent(h, b, d, k) && NotClearedAfter(h, b, d);
      assert Conflict(h, c, d, k, a, b);
    }
  }

  /** At any moment of any run: EXEC sends null, with the data unchanged, if and only if the history before it holds
      such a conflict with some other client. Nothing else about the keys, their values or their deadlines matters. */
  lemma ExecSendsNullIff(states: seq<State>, envelopes: seq<Envelope>, i: nat, c: ClientId, cmds: seq<Command>,
                         channel: Channel)
    requires Run(states, envelopes) && i < |envelopes| && envelopes[i] == WithReply(c, ExecuteTx(cmds), channel)
    ensures i + 1 < |states| && states[i + 1].out != []
    ensures
      var sent := states[i + 1].out[|states[i + 1].out| - 1];
      var conflict := exists d, k, a: nat, b: nat :: Conflict(states[i].watchLog, c, d, k, a, b);
      && sent.Reply? && sent.channel == channel
      && (sent.resp == NullArray <==> conflict)
      && (conflict ==> states[i + 1].data == states[i].data)
      && (!conflict ==> sent.resp.Array? && |sent.resp.els| == |cmds|)
  {
    hide Run, Step, LockFailed, Conflict, SharesKey, TableIsHistory, ExecutesAll;
    OneMoreState(states, envelopes);
    StepAt(states, envelopes, i + 1);
    WatchersAreHistory(states, envelopes, i);
    var s, t := states[i], states[i + 1];
    LockFailsIff(s, c);
    var replies, mid := Client.TransactionInOneStep(s, c, cmds, channel, t);
    if d, k :| SharesKey(s.watchLog, c, d, k) {
      ConflictIffShared(s.watchLog, c, d, k);
    }
    if d, k, a: nat, b: nat :| Conflict(s.watchLog, c, d, k, a, b) {
      ConflictIffShared(s.watchLog, c, d, k);
    }
  }

  /** So when EXEC succeeds in a run, every write another client made to a key after the caller watched it was followed
      by that writer's own EXEC, DISCARD or UNWATCH. */
  lemma ExecSucceedsOverLeavers(states: seq<State>, envelopes: seq<Envelope>, i: nat, c: ClientId, cmds: seq<Command>,
                                channel: Channel, d: ClientId, k: Key, a: nat, b: nat)
    requires Run(states, envelopes) && i < |envelopes| && envelopes[i] == WithReply(c, ExecuteTx(cmds), channel)
    requires i + 1 < |states| && states[i + 1].out != []
    requires states[i + 1].out[|states[i + 1].out| - 1] != Reply(channel, NullArray)
    requires a < b < |states[i].watchLog| && states[i].watchLog[a] == Watched(c, k)
    requires NotClearedAfter(states[i].watchLog, a, c)
    requires d != c && states[i].watchLog[b] == Wrote(d, k)
    ensures exists m :: b < m < |states[i].watchLog| && states[i].watchLog[m] == Cleared(d)
  {
    hide Run, Step, Conflict, SharesKey, MarkedOn;
    ExecSendsNullIff(states, envelopes, i, c, cmds, channel);
    var h := states[i].watchLog;
    if SharesKey(h, c, d, k) {
      ConflictIffShared(h, c, d, k);
    }
    SuccessMeansWritersLeft(h, c, d, k, a, b);
  }

  // ------------------------------------------------- where this is not optimistic locking

  lemma RunsAs(s: State, c: ClientId, cmd: Command, r: Result, t: State, ch: Choice)
    requires !cmd.ExecuteTx? && Allowed(Touch(s, c, ModifiedKeys(cmd)), c, cmd, ch)
    requires Prim(Touch(s, c, ModifiedKeys(cmd)), c, cmd, ch) == Outcome(t, r)
    ensures Executes(s, c, cmd, r, t)
  {
    hide Prim, Allowed, Touch;
  }

  /** An empty transaction of a client that shares no key, and of one that does. */
  lemma EmptyExec(s: State, c: ClientId)
    ensures if LockFailed(s, c) then Executes(s, c, ExecuteTx([]), Done(NullArray), Cleanup(s, c))
            else Executes(s, c, ExecuteTx([]), Done(Array([])), Cleanup(s, c))
  {
    hide Cleanup, LockFailed;
    assert Touch(s, c, []) == s;
    assert ExecutesAll(s, c, [], [], s);
  }

  lemma SetRuns(s: State, c: ClientId, k: Key, v: Bytes) returns (t: State)
    ensures Executes(s, c, Set(k, v, None, None), Done(OK()), t)
    ensures k in t.data && t.data[k].value == Str(v) && t.watched == TouchKey(s, c, k).watched
  {
    hide Ascii;
    var touched := TouchKey(s, c, k);
    assert Touch(s, c, [k]) == Touch(touched, c, []) == touched;
    t := SetCommand(touched, k, v, None, None, 0).state;
    RunsAs(s, c, Set(k, v, None, None), Done(OK()), t, Choice(0, [], NullArray));
  }

  lemma WatchRuns(s: State, c: ClientId, k: Key)
    ensures Executes(s, c, Watch([k]), Done(OK()), WatchKey(s, c, k))
  {
    hide Ascii, WatchKey;
    var t := WatchKey(s, c, k);
    assert WatchKeys(s, c, [k]) == WatchKeys(t, c, []) == t;
    assert Touch(s, c, []) == s;
    RunsAs(s, c, Watch([k]), Done(OK()), t, Choice(0, [], NullArray));
  }

  /** Two clients are marked on a key, the second by its write: its EXEC fails, and leaves the first one alone. */
  lemma AloneAgain(s: State, c: ClientId, d: ClientId, k: Key)
    requires c != d && s.watched == map[k := {} + {c}][k := {} + {c} + {d}]
    ensures LockFailed(s, d) && !LockFailed(Cleanup(s, d), c)
  {
    assert s.watched[k] == {c, d} && |{c, d}| == 2;
    assert s.watched[k] - {d} == {c};
  }

  /** A write goes unnoticed: `c` watches `k`, `d` sets it and then sends an EXEC of its own, which fails but takes the
      mark of `d` away, and the EXEC of `c` succeeds although the value has changed under it. From any store without
      watchers, for any two clients. */
  lemma WriteGoesUnnoticed(s: State, c: ClientId, d: ClientId, k: Key, v: Bytes)
    returns (watching: State, written: State, left: State, t: State)
    requires c != d && s.watched == map[]
    ensures Executes(s, c, Watch([k]), Done(OK()), watching) && watching.data == s.data
    ensures Executes(watching, d, Set(k, v, None, None), Done(OK()), written)
    ensures Executes(written, d, ExecuteTx([]), Done(NullArray), left)
    ensures Executes(left, c, ExecuteTx([]), Done(Array([])), t)
    ensures k in t.data && t.data[k].value == Str(v)
  {
    hide Executes;
    watching := WatchKey(s, c, k);
    WatchRuns(s, c, k);
    written := SetRuns(watching, d, k, v);
    left := Cleanup(written, d);
    t := Cleanup(left, c);
    AloneAgain(written, c, d, k);
    EmptyExec(written, d);
    EmptyExec(left, c);
  }

  /** So does a write inside the EXEC of another client. */
  lemma TransactionGoesUnnoticed(s: State, c: ClientId, d: ClientId, k: Key, v: Bytes)
    returns (watching: State, written: State, t: State)
    requires c != d && s.watched == map[]
    ensures Executes(s, c, Watch([k]), Done(OK()), watching) && watching.data == s.data
    ensures Executes(watching, d, ExecuteTx([Set(k, v, None, None)]), Done(Array([OK()])), written)
    ensures Executes(written, c, ExecuteTx([]), Done(Array([])), t)
    ensures k in t.data && t.data[k].value == Str(v)
  {
    hide Executes;
    watching := WatchKey(s, c, k);
    WatchRuns(s, c, k);
    assert watching.watched == map[k := {c}] by {
      assert {} + {c} == {c};
    }
    var cmd := Set(k, v, None, None);
    var mid := SetRuns(watching, d, k, v);
    OneCommandBatch(watching, d, cmd, Done(OK()), mid);
    written := Cleanup(mid, d);
    t := Cleanup(written, c);
    AloneAgain(mid, c, d, k);
    EmptyExec(written, c);
  }

  lemma OneCommandBatch(s: State, c: ClientId, cmd: Command, r: Result, t: State)
    requires Executes(s, c, cmd, r, t) && !LockFailed(s, c)
    ensures Executes(s, c, ExecuteTx([cmd]), Done(Array([TxReply(r)])), Cleanup(t, c))
  {
    hide Executes, ExecutesAll, LockFailed, Cleanup;
    NoCommands(s, c);
    assert [cmd][..0] == [];
    ExecutesSnoc(s, c, [cmd], [], s, r, t);
    assert [] + [TxReply(r)] == [TxReply(r)];
    BatchRuns(s, c, [cmd], [TxReply(r)], t);
  }

  lemma NoCommands(s: State, c: ClientId)
    ensures ExecutesAll(s, c, [], [], s)
  {
  }

  lemma BatchRuns(s: State, c: ClientId, cmds: seq<Command>, replies: seq<Resp>, t: State)
    requires ExecutesAll(s, c, cmds, replies, t) && !LockFailed(s, c)
    ensures Executes(s, c, ExecuteTx(cmds), Done(Array(replies)), Cleanup(t, c))
  {
    hide ExecutesAll, LockFailed, Cleanup;
    assert Touch(s, c, []) == s;
  }

  /** And nobody need write at all: two clients that watch the same key make the EXEC of either fail. */
  lemma WatchersConflict(s: State, c: ClientId, d: ClientId, k: Key) returns (first: State, both: State, t: State)
    requires c != d
    ensures Executes(s, c, Watch([k]), Done(OK()), first) && Executes(first, d, Watch([k]), Done(OK()), both)
    ensures Executes(both, c, ExecuteTx([]), Done(NullArray), t) && t.data == s.data
  {
    hide Executes;
    first := WatchKey(s, c, k);
    both := WatchKey(first, d, k);
    t := Cleanup(both, c);
    WatchRuns(s, c, k);
    WatchRuns(first, d, k);
    MoreThanOne(both.watched[k], c);
    assert d in both.watched[k] && LockFailed(both, c);
    EmptyExec(both, c);
  }
}
