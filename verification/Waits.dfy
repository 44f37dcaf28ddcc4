/**
 What WAIT counts, and what it is answered (`src/main.rs:234-248`, `448-466`, `1086-1097`, `1277-1292`, `1313-1320`).
 */
module AcknowledgedWaits {
  import opened Types
  import opened Orders
  import opened RespCodec
  import opened Commands
  import opened StoreModel
  import opened StoreFrames
  import opened BlockedWaiters
  import opened Requests
  import opened Replication

  // -------------------------------------------------------------------- what is counted

  /** How many clients have acknowledged `target` bytes or more; of 0 bytes, how many replicas there are. */
  function Reached(s: State, target: nat): nat {
    if target > 0 then |set c | c in s.replicaAcks && target <= s.replicaAcks[c]|
    else |set c | c in s.clients && s.clients[c]|
  }

  lemma CountIs(s: State, target: nat)
    ensures CountAcked(s, target) == Reached(s, target)
  {
    assert (set c | c in s.replicaAcks && target <= s.replicaAcks[c]) == AckedBy(s, target);
    assert (set c | c in s.clients && s.clients[c]) == Replicas(s);
  }

  lemma SameReached(s: State, t: State, target: nat)
    requires t.replicaAcks == s.replicaAcks && t.clients == s.clients
    ensures Reached(t, target) == Reached(s, target)
  {
    assert (set c | c in t.replicaAcks && target <= t.replicaAcks[c])
        == (set c | c in s.replicaAcks && target <= s.replicaAcks[c]);
    assert (set c | c in t.clients && t.clients[c]) == (set c | c in s.clients && s.clients[c]);
  }

  /** In every reachable state, fewer clients than it asks for have acknowledged what a pending WAIT waits for. */
  lemma PendingIsShort(states: seq<State>, envelopes: seq<Envelope>, i: nat, w: WaiterId)
    requires Run(states, envelopes) && i < |states|
    requires w in states[i].waitWaiters && states[i].waitWaiters[w].target > 0
    ensures
      var s, x := states[i], states[i].waitWaiters[w];
      |set c | c in s.replicaAcks && s.replicaAcks[c] >= x.target| < x.numReplicas
  {
    hide Run, CaughtUp;
    NobodyWaitsForWhatIsThere(states, envelopes, i);
    var s, x := states[i], states[i].waitWaiters[w];
    assert (set c | c in s.replicaAcks && s.replicaAcks[c] >= x.target) == AckedBy(s, x.target);
  }

  // ------------------------------------------------------------------------- the request

  /** WAIT is done at once iff enough clients have acknowledged everything so far, and then replies how many; otherwise
      it blocks under a new waiter id. */
  lemma WaitGives(s: State, c: ClientId, cmd: Command, r: Result, t: State)
    requires cmd.Wait? && Executes(s, c, cmd, r, t)
    ensures
      var n := Reached(s, s.masterAck);
      if n >= cmd.numReplicas then r == Done(Integer(WrapI64(n))) && t == s
      else r == BlockWait(s.waiterId + 1, cmd.numReplicas, cmd.timeout) && t == s.(waiterId := s.waiterId + 1)
  {
    hide CountAcked, Reached, SetCommand, WatchKeys, Cleanup, IncrCommand, XaddCommand, XreadCommand, PushCommand,
      LpopCommand, BlpopCommand, AckCommand, IsOrder, Ascii;
    assert Touch(s, c, []) == s;
    CountIs(s, s.masterAck);
  }

  lemma SettleWait(s: State, channel: Channel, cmd: Command, r: Result, order: seq<ClientId>)
    requires cmd.Wait? && (r.Done? || r.BlockWait?)
    ensures
      var t := Settle(s, channel, cmd, r, order);
      && (r.Done? ==> t.out == s.out + [Reply(channel, r.reply)] && t.waitWaiters == s.waitWaiters)
      && (r.BlockWait? ==>
            && t.out == s.out + (if s.pendingWrites then PushTo(order, GetAck) else [])
            && t.waitWaiters == s.waitWaiters[r.waitId := WaitWaiter(channel, r.numReplicas, s.masterAck)]
            && !t.pendingWrites)
  {
    hide PushTo;
  }

  lemma WaitCountsNothing(s: State, cmd: Command)
    requires cmd.Wait?
    ensures !ToRespPanics(cmd) && Account(s, cmd) == s
  {
  }

  /** A WAIT request: answered at once with the number that have acknowledged everything so far, if that is enough. If
      not, it is registered for that many bytes, and if there were writes since the last time, every replica is asked
      for an acknowledgement, once. */
  lemma AskWait(s: State, c: ClientId, cmd: Command, channel: Channel, t: State)
    requires Accounted(s) && Step(s, WithReply(c, cmd, channel), t) && cmd.Wait?
    ensures
      var n := Reached(s, s.masterAck);
      if n >= cmd.numReplicas then RepliesOn(t.out, channel) == [Integer(WrapI64(n))] && t.waitWaiters == s.waitWaiters
      else
        && RepliesOn(t.out, channel) == [] && !t.pendingWrites
        && t.waitWaiters == s.waitWaiters[s.waiterId + 1 := WaitWaiter(channel, cmd.numReplicas, s.masterAck)]
        && forall d :: PushedTo(t.out, d)
                    == PushedTo(s.out, d) + if s.pendingWrites && IsReplica(s, d) then [GetAck] else []
  {
    hide Step, Executes, Accounted, IsOrder, Settle, Reached, PushTo, PushedTo, Account;
    WaitCountsNothing(s, cmd);
    var r, mid, order := RequestParts(s, c, cmd, channel, t);
    WaitGives(s, c, cmd, r, mid);
    SettleWait(mid, channel, cmd, r, order);
    NotYetAnswered(s, channel);
    if r.Done? {
      OneReply(s.out, channel, r.reply);
    } else {
      RepliesConcat(s.out, if s.pendingWrites then PushTo(order, GetAck) else [], channel);
      PushesReplyNothing(order, GetAck, channel);
      forall d ensures PushedTo(t.out, d)
                    == PushedTo(s.out, d) + if s.pendingWrites && IsReplica(s, d) then [GetAck] else []
      {
        SettlePushes(mid, channel, cmd, r, order, d);
      }
    }
  }

  // -------------------------------------------------------------------- an acknowledgement

  lemma ReleaseOneSends(s: State, w: WaiterId)
    requires w in s.waitWaiters
    ensures
      var x := s.waitWaiters[w];
      Reply(x.channel, Integer(WrapI64(Reached(s, x.target)))) in ReleaseOne(s, w).out
  {
    hide CountAcked, Reached;
    CountIs(s, s.waitWaiters[w].target);
  }

  /** Everybody who is released is sent the number it waited for. */
  lemma {:induction false} ReleaseSends(s: State, order: seq<WaiterId>, w: WaiterId)
    requires w in order && w in s.waitWaiters
    ensures
      var x := s.waitWaiters[w];
      Reply(x.channel, Integer(WrapI64(Reached(s, x.target)))) in Release(s, order).out
    decreases |order|
  {
    hide Reached, ReleaseOne;
    var u := ReleaseOne(s, order[0]);
    if order[0] == w {
      ReleaseOneSends(s, w);
      ReleaseOnlySends(u, order[1..]);
    } else {
      ReleaseOneLeaves(s, order[0], w);
      ReleaseSends(u, order[1..], w);
    }
  }

  lemma ReleaseOneLeaves(s: State, v: WaiterId, w: WaiterId)
    requires w in s.waitWaiters && v != w
    ensures
      var u := ReleaseOne(s, v);
      && w in u.waitWaiters && u.waitWaiters[w] == s.waitWaiters[w]
      && Reached(u, s.waitWaiters[w].target) == Reached(s, s.waitWaiters[w].target)
  {
    hide CountAcked, Reached;
    SameReached(s, ReleaseOne(s, v), s.waitWaiters[w].target);
  }

  lemma ReleaseOnlySends(s: State, order: seq<WaiterId>)
    ensures s.out <= Release(s, order).out
  {
    hide Release;
    ReleaseReplies(s, order);
  }

  /** An acknowledgement of `n` bytes is recorded as the last of its client, and completes exactly the WAITs that now
      have enough. */
  lemma AckRecords(s: State, c: ClientId, n: nat, r: Result, t: State)
    requires n < U64_LIMIT && Executes(s, c, Ack(n), r, t)
    ensures r == NoReply && t.replicaAcks == s.replicaAcks[c := n] && t.clients == s.clients
    ensures forall w :: w in t.waitWaiters ==> w in s.waitWaiters && t.waitWaiters[w] == s.waitWaiters[w]
    ensures forall w :: w in s.waitWaiters ==>
      var x := s.waitWaiters[w];
      if Reached(t, x.target) >= x.numReplicas
      then w !in t.waitWaiters && Reply(x.channel, Integer(WrapI64(Reached(t, x.target)))) in t.out
      else w in t.waitWaiters
  {
    hide CountAcked, Reached, Release, ExecFrame;
    assert Touch(s, c, []) == s;
    var ch :| Allowed(s, c, Ack(n), ch) && Prim(s, c, Ack(n), ch) == Outcome(t, r);
    AckFrame(s, c, n, ch.order);
    var recorded := RecordAck(s, c, n);
    ReleaseFrame(recorded, ch.order);
    ReleaseRemoves(recorded, ch.order);
    forall w | w in s.waitWaiters ensures
        var x := s.waitWaiters[w];
        if Reached(t, x.target) >= x.numReplicas
        then w !in t.waitWaiters && Reply(x.channel, Integer(WrapI64(Reached(t, x.target)))) in t.out
        else w in t.waitWaiters
    {
      var x := s.waitWaiters[w];
      CountIs(recorded, x.target);
      SameReached(recorded, t, x.target);
      assert w in Satisfied(recorded) <==> Reached(t, x.target) >= x.numReplicas;
      if w in ch.order {
        ReleaseSends(recorded, ch.order, w);
      }
    }
  }

  lemma SettleAck(s: State, channel: Channel, cmd: Command, order: seq<ClientId>)
    ensures Settle(s, channel, cmd, NoReply, order) == s.(requests := s.requests[channel := false])
  {
  }

  lemma AckCountsNothing(s: State, n: u64)
    ensures !ToRespPanics(Ack(n)) && Account(s, Ack(n)) == s
  {
  }

  /** The step of an acknowledgement: a pending WAIT that now has enough leaves the table, and the one reply on its
      channel is the number; every other stays as it is, unanswered. */
  lemma AckAnswers(s: State, c: ClientId, n: u64, channel: Channel, t: State, w: WaiterId)
    requires Accounted(s) && Step(s, WithReply(c, Ack(n), channel), t) && w in s.waitWaiters
    ensures t.replicaAcks == s.replicaAcks[c := n]
    ensures
      var x := s.waitWaiters[w];
      var m := Reached(t, x.target);
      if m >= x.numReplicas then w !in t.waitWaiters && RepliesOn(t.out, x.channel) == [Integer(WrapI64(m))]
      else w in t.waitWaiters && t.waitWaiters[w] == x && RepliesOn(t.out, x.channel) == []
  {
    hide Step, Executes, Accounted, IsOrder, Settle, Reached, Account;
    var x := s.waitWaiters[w];
    StepKeepsAccounts(s, WithReply(c, Ack(n), channel), t);
    AckCountsNothing(s, n);
    var r, mid, order := RequestParts(s, c, Ack(n), channel, t);
    AckRecords(s, c, n, r, mid);
    SettleAck(mid, channel, Ack(n), order);
    SameReached(mid, t, x.target);
    if Reached(mid, x.target) >= x.numReplicas {
      OnlyReply(t, x.channel, Integer(WrapI64(Reached(mid, x.target))));
    } else {
      UnansweredWait(t, w);
    }
  }

  lemma UnansweredWait(s: State, w: WaiterId)
    requires Accounted(s) && w in s.waitWaiters
    ensures RepliesOn(s.out, s.waitWaiters[w].channel) == []
  {
    RepliesAreCounted(s.out, s.waitWaiters[w].channel);
    assert Holds(s, w, s.waitWaiters[w].channel);
  }

  /** When the time is up, a pending WAIT is sent the number reached by then. */
  lemma TimeUpAnswers(s: State, w: WaiterId, t: State)
    requires Accounted(s) && Step(s, TimeoutWait(w), t) && w in s.waitWaiters
    ensures t.waitWaiters == s.waitWaiters - {w}
    ensures
      var x := s.waitWaiters[w];
      RepliesOn(t.out, x.channel) == [Integer(WrapI64(Reached(s, x.target)))]
  {
    hide TimeOutXread, TimeOutBlpop, TimeOutWait, CountAcked, Reached, Accounted, Executes;
    var x := s.waitWaiters[w];
    TimeOutFrames(s, w);
    UnansweredWait(s, w);
    CountIs(s, x.target);
    OneReply(s.out, x.channel, Integer(WrapI64(Reached(s, x.target))));
  }

  // ------------------------------------------------------------------------- over runs

  /** Nobody's acknowledgement is touched by the commands of another client. */
  lemma {:induction false} AcksOfOthers(s: State, c: ClientId, cmd: Command, r: Result, t: State, d: ClientId)
    requires Executes(s, c, cmd, r, t) && (d != c || (!cmd.Ack? && !cmd.ExecuteTx?))
    ensures SameAck(s, t, d)
    decreases cmd, 1
  {
    hide Prim, Allowed, Touch, Cleanup, ExecFrame;
    var marked := Touch(s, c, ModifiedKeys(cmd));
    TouchFrame(s, c, ModifiedKeys(cmd));
    if cmd.ExecuteTx? {
      CleanupFrame(marked, c);
      if !LockFailed(marked, c) {
        var replies, mid :|
          ExecutesAll(marked, c, cmd.commands, replies, mid) && r == Done(Array(replies)) && t == Cleanup(mid, c);
        CleanupFrame(mid, c);
        AcksOfOthersAll(marked, c, cmd.commands, replies, mid, d);
      }
    } else {
      var ch :| Allowed(marked, c, cmd, ch) && Prim(marked, c, cmd, ch) == Outcome(t, r);
      PrimTouches(marked, c, cmd, ch);
      if cmd.Ack? {
        AckOfAnother(marked, c, cmd, ch, d);
      }
    }
  }

  lemma AckOfAnother(s: State, c: ClientId, cmd: Command, ch: Choice, d: ClientId)
    requires cmd.Ack? && d != c
    ensures SameAck(s, Prim(s, c, cmd, ch).state, d)
  {
    hide Release;
    ReleaseFrame(RecordAck(s, c, cmd.ackBytes), ch.order);
  }

  lemma {:induction false} AcksOfOthersAll(s: State, c: ClientId, cmds: seq<Command>, replies: seq<Resp>, t: State,
                                           d: ClientId)
    requires ExecutesAll(s, c, cmds, replies, t) && d != c
    ensures SameAck(s, t, d)
    decreases cmds, 0
  {
    hide Prim, Allowed, Touch, Cleanup;
    if cmds != [] {
      var n := |cmds| - 1;
      var mid, r :|
        ExecutesAll(s, c, cmds[..n], replies[..n], mid) && Executes(mid, c, cmds[n], r, t) && replies[n] == TxReply(r);
      AcksOfOthersAll(s, c, cmds[..n], replies[..n], mid, d);
      AcksOfOthers(mid, c, cmds[n], r, t, d);
    }
  }

  ghost predicate SameAck(s: State, t: State, d: ClientId) {
    (d in t.replicaAcks <==> d in s.replicaAcks) && (d in s.replicaAcks ==> t.replicaAcks[d] == s.replicaAcks[d])
  }

  /** The envelopes that may change what client `d` has acknowledged: its own acknowledgements, alone or in a batch, and
      its leaving. */
  predicate MayAck(e: Envelope, d: ClientId) {
    match e
    case WithReply(c, cmd, _) => c == d && (cmd.Ack? || cmd.ExecuteTx?)
    case Replicate(cmd) => d == 0 && (cmd.Ack? || cmd.ExecuteTx?)
    case UnregisterClient(c) => c == d
    case _ => false
  }

  lemma OthersLeaveAck(s: State, e: Envelope, t: State, d: ClientId)
    requires Step(s, e, t) && !MayAck(e, d)
    ensures SameAck(s, t, d)
  {
    hide Executes, Account, Settle, IsOrder, TimeOutXread, TimeOutBlpop, TimeOutWait, JoinReplica;
    match e {
      case WithReply(c, cmd, channel) =>
        var r, mid, order := RequestParts(s, c, cmd, channel, t);
        AccountFrame(s, cmd);
        SettleFrame(mid, channel, cmd, r, order);
        AcksOfOthers(Account(s, cmd), c, cmd, r, mid, d);
      case Replicate(cmd) =>
        var r := ReplicatePart(s, cmd, t);
        AcksOfOthers(s, 0, cmd, r, t, d);
      case AddReplica(c, channel) => JoinFrame(s, c, channel, t);
      case TimeoutXread(w) => TimeOutFrames(s, w);
      case TimeoutBlpop(w) => TimeOutFrames(s, w);
      case TimeoutWait(w) => TimeOutFrames(s, w);
      case _ =>
    }
  }

  lemma {:induction false} OthersLeaveAckOverRuns(states: seq<State>, envelopes: seq<Envelope>, i: nat, j: nat, d: ClientId)
    requires Run(states, envelopes) && i <= j < |states| == |envelopes| + 1
    requires forall m :: i <= m < j ==> !MayAck(envelopes[m], d)
    ensures SameAck(states[i], states[j], d)
    decreases j
  {
    hide Run, Step, MayAck;
    if i < j {
      StepAt(states, envelopes, j);
      OthersLeaveAckOverRuns(states, envelopes, i, j - 1, d);
      OthersLeaveAck(states[j - 1], envelopes[j - 1], states[j], d);
    }
  }

  /** What is counted is the last acknowledgement of each client that is still there: it stays until the client sends
      another one or leaves. */
  lemma LastAckCounts(states: seq<State>, envelopes: seq<Envelope>, i: nat, j: nat, c: ClientId, n: u64, channel: Channel)
    requires Run(states, envelopes) && i < j < |states| == |envelopes| + 1
    requires envelopes[i] == WithReply(c, Ack(n), channel)
    requires forall m :: i < m < j ==> !MayAck(envelopes[m], c)
    ensures c in states[j].replicaAcks && states[j].replicaAcks[c] == n
  {
    hide Run, Step, MayAck, Executes, Account, Settle, Reached;
    StepAt(states, envelopes, i + 1);
    AckCountsNothing(states[i], n);
    var r, mid, order := RequestParts(states[i], c, Ack(n), channel, states[i + 1]);
    AckRecords(states[i], c, n, r, mid);
    SettleAck(mid, channel, Ack(n), order);
    OthersLeaveAckOverRuns(states, envelopes, i + 1, j, c);
  }

  lemma Leaves(s: State, c: ClientId, t: State)
    requires Step(s, UnregisterClient(c), t)
    ensures c !in t.replicaAcks
  {
    hide Executes, Account, Settle, IsOrder, JoinReplica;
  }

  /** A client that has left counts no more. */
  lemma LeaverCountsNot(states: seq<State>, envelopes: seq<Envelope>, i: nat, j: nat, c: ClientId)
    requires Run(states, envelopes) && i < j < |states| == |envelopes| + 1
    requires envelopes[i] == UnregisterClient(c)
    requires forall m :: i < m < j ==> !MayAck(envelopes[m], c)
    ensures c !in states[j].replicaAcks
  {
    hide Run, Step, MayAck;
    StepAt(states, envelopes, i + 1);
    Leaves(states[i], c, states[i + 1]);
    OthersLeaveAckOverRuns(states, envelopes, i + 1, j, c);
  }

  // ------------------------------------------------------------ when replicas are asked

  /** Step `m` is a WAIT that blocks. */
  ghost predicate Blocks(states: seq<State>, envelopes: seq<Envelope>, m: nat)
    requires m < |envelopes| == |states| - 1
  {
    envelopes[m].WithReply? && envelopes[m].command.Wait? && states[m].waiterId < states[m + 1].waiterId
  }

  /** Step `i` is a write that goes to the replicas, or a GETACK sent by a client, which goes there too. */
  predicate GoesToReplicas(e: Envelope) {
    e.WithReply? && (e.command.Set? || e.command.GetAck?)
  }

  ghost predicate WroteSince(states: seq<State>, envelopes: seq<Envelope>, i: nat, j: nat)
    requires i < j < |states| == |envelopes| + 1
  {
    GoesToReplicas(envelopes[i]) && forall m :: i < m < j ==> !Blocks(states, envelopes, m)
  }

  lemma StepPends(s: State, e: Envelope, t: State)
    requires Step(s, e, t)
    ensures
      t.pendingWrites <==>
      if GoesToReplicas(e) then true
      else if e.WithReply? && e.command.Wait? && s.waiterId < t.waiterId then false
      else s.pendingWrites
  {
    hide Step, Executes, Account, Settle, IsOrder, ToResp, Reached;
    if e.WithReply? {
      var r, mid, order := RequestParts(s, e.client, e.command, e.channel, t);
      AccountFrame(s, e.command);
      AccountPends(s, e.command);
      ExecKeepsFrame(Account(s, e.command), e.client, e.command, r, mid);
      ResultKind(Account(s, e.command), e.client, e.command, r, mid);
      SettlePends(mid, e.channel, e.command, r, order);
      if e.command.Wait? {
        WaitGives(Account(s, e.command), e.client, e.command, r, mid);
      }
    } else if e.Replicate? {
      var r := ReplicatePart(s, e.command, t);
      ExecKeepsFrame(s, 0, e.command, r, t);
    } else {
      QuietSteps(s, e, t);
    }
  }

  lemma AccountPends(s: State, cmd: Command)
    requires !ToRespPanics(cmd)
    ensures Account(s, cmd).pendingWrites <==> cmd.Set? || cmd.GetAck? || s.pendingWrites
  {
    hide ToResp, RespCodec.Encode, RespCodec.Len;
  }

  lemma SettlePends(s: State, channel: Channel, cmd: Command, r: Result, order: seq<ClientId>)
    ensures
      var t := Settle(s, channel, cmd, r, order);
      t.waiterId == s.waiterId && t.pendingWrites == (s.pendingWrites && !r.BlockWait?)
  {
    hide PushTo;
  }

  lemma BootPends(s: State)
    requires Booted(s)
    ensures !s.pendingWrites
  {
    hide Prim, Touch, Cleanup, Allowed, ExecutesAll, ExecFrame;
    var r: RdbCodec.Rdb, cmds, replies :| ExecutesAll(Fresh(FromRdb(r)), 0, cmds, replies, s);
    var initial := Fresh(FromRdb(r));
    FramePrinciple(initial);
    ExecFrameRefl(initial);
    ExecSeqKeeps(u => ExecFrame(initial, u), initial, 0, cmds, replies, s);
    PendsAlike(initial, s);
  }

  lemma PendsAlike(s: State, t: State)
    requires ExecFrame(s, t)
    ensures t.pendingWrites == s.pendingWrites
  {
  }

  /** In every reachable state: a WAIT that blocks now asks the replicas for acknowledgements (`AskWait`) exactly if
      something was sent to them since the last WAIT that blocked. */
  lemma {:induction false} PendingIffWroteSince(states: seq<State>, envelopes: seq<Envelope>, j: nat)
    requires Run(states, envelopes) && j < |states| == |envelopes| + 1
    ensures states[j].pendingWrites <==> exists i: nat :: i < j && WroteSince(states, envelopes, i, j)
  {
    hide Step, Booted, GoesToReplicas;
    if j == 0 {
      BootPends(states[0]);
    } else {
      PendingIffWroteSince(states, envelopes, j - 1);
      StepPends(states[j - 1], envelopes[j - 1], states[j]);
      if GoesToReplicas(envelopes[j - 1]) {
        assert WroteSince(states, envelopes, j - 1, j);
      } else if states[j].pendingWrites {
        var i: nat :| i < j - 1 && WroteSince(states, envelopes, i, j - 1);
        assert WroteSince(states, envelopes, i, j);
      }
      if i: nat :| i < j && WroteSince(states, envelopes, i, j) {
        assert i < j - 1 ==> WroteSince(states, envelopes, i, j - 1) && !Blocks(states, envelopes, j - 1);
      }
    }
  }
}
