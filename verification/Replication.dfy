/**
 The replication byte ledger on the master (`src/main.rs:1221-1252`, `1277-1292`, `1321-1333`).
 */
module Replication {
  import opened Types
  import opened Orders
  import opened RespCodec
  import opened Commands
  import opened StoreModel
  import opened StoreFrames

  /** The commands pushed to client `c`, in order. */
  function PushedTo(out: seq<Output>, c: ClientId): seq<Command> {
    if out == [] then []
    else
      var last := out[|out| - 1];
      PushedTo(out[..|out| - 1], c) + if last.Push? && last.client == c then [last.command] else []
  }

  /** What `write_command_to_stream` sends for a command. */
  function Wire(cmd: Command): Bytes {
    if ToRespPanics(cmd) || ToResp(cmd) == None then [] else Encode(ToResp(cmd).value)
  }

  function WireAll(cmds: seq<Command>): Bytes {
    if cmds == [] then [] else WireAll(cmds[..|cmds| - 1]) + Wire(cmds[|cmds| - 1])
  }

  /** How many bytes client `c` has been sent as a replica. */
  function BytesPushed(s: State, c: ClientId): nat {
    |WireAll(PushedTo(s.out, c))|
  }

  lemma {:induction false} PushedConcat(a: seq<Output>, b: seq<Output>, c: ClientId)
    ensures PushedTo(a + b, c) == PushedTo(a, c) + PushedTo(b, c)
  {
    if b == [] {
      assert a + b == a;
    } else {
      assert (a + b)[..|a + b| - 1] == a + b[..|b| - 1];
      PushedConcat(a, b[..|b| - 1], c);
    }
  }

  lemma {:induction false} WireConcat(a: seq<Command>, b: seq<Command>)
    ensures WireAll(a + b) == WireAll(a) + WireAll(b)
  {
    hide Wire;
    if b == [] {
      assert a + b == a;
      assert WireAll(a) + [] == WireAll(a);
    } else {
      var n := |b| - 1;
      assert (a + b)[..|a + b| - 1] == a + b[..n];
      WireConcat(a, b[..n]);
      assert WireAll(a) + WireAll(b[..n]) + Wire(b[n]) == WireAll(a) + (WireAll(b[..n]) + Wire(b[n]));
    }
  }

  lemma {:induction false} RepliesPushNothing(out: seq<Output>, c: ClientId)
    requires forall i :: 0 <= i < |out| ==> out[i].Reply?
    ensures PushedTo(out, c) == []
  {
    if out != [] {
      RepliesPushNothing(out[..|out| - 1], c);
    }
  }

  /** Whatever the order in which the clients are visited, each replica is pushed the command once. */
  lemma {:induction false} PushReachesEach(order: seq<ClientId>, cmd: Command, c: ClientId)
    requires Distinct(order)
    ensures PushedTo(PushTo(order, cmd), c) == if c in order then [cmd] else []
  {
    hide PushTo, PushedTo;
    PushedToSnoc(order, cmd, c);
    if order != [] {
      var n := |order| - 1;
      PushReachesEach(order[..n], cmd, c);
      assert order == order[..n] + [order[n]];
    }
  }

  lemma PushedToSnoc(order: seq<ClientId>, cmd: Command, c: ClientId)
    ensures order == [] ==> PushedTo(PushTo(order, cmd), c) == []
    ensures order != [] ==>
      var n := |order| - 1;
      PushedTo(PushTo(order, cmd), c)
      == PushedTo(PushTo(order[..n], cmd), c) + if order[n] == c then [cmd] else []
  {
    if order != [] {
      var n := |order| - 1;
      assert PushTo(order, cmd)[..n] == PushTo(order[..n], cmd);
      assert PushTo(order, cmd)[n] == Push(order[n], cmd);
    }
  }

  lemma WireOfOne(cmd: Command)
    ensures WireAll([cmd]) == Wire(cmd)
  {
    assert [cmd][..0] == [];
    assert WireAll([]) + Wire(cmd) == Wire(cmd);
  }

  lemma WireLength(cmd: Command)
    requires IsReplicatable(cmd) && !ToRespPanics(cmd)
    ensures |Wire(cmd)| == Len(ToResp(cmd).value)
  {
    LenIsEncodedLength(ToResp(cmd).value);
  }

  /** What is owed to a replica: the change of the offset, and 37 bytes per broadcast GETACK. */
  ghost predicate Ledger(s: State, t: State, c: ClientId) {
    BytesPushed(t, c) - BytesPushed(s, c) == t.masterAck - s.masterAck + 37 * (t.broadcasts - s.broadcasts)
  }

  ghost predicate IsReplica(s: State, c: ClientId) {
    c in s.clients && s.clients[c]
  }

  lemma OutputsAdd(s: State, t: State, more: seq<Output>, c: ClientId)
    requires t.out == s.out + more
    ensures PushedTo(t.out, c) == PushedTo(s.out, c) + PushedTo(more, c)
    ensures BytesPushed(t, c) == BytesPushed(s, c) + |WireAll(PushedTo(more, c))|
  {
    PushedConcat(s.out, more, c);
    WireConcat(PushedTo(s.out, c), PushedTo(more, c));
  }

  lemma ExecPushesNothing(s: State, t: State, c: ClientId)
    requires ExecFrame(s, t)
    ensures PushedTo(t.out, c) == PushedTo(s.out, c)
  {
    var more := t.out[|s.out|..];
    assert t.out == s.out + more;
    OutputsAdd(s, t, more, c);
    RepliesPushNothing(more, c);
  }

  lemma QuietPushesNothing(s: State, t: State, c: ClientId)
    requires Quiet(s, t)
    ensures PushedTo(t.out, c) == PushedTo(s.out, c)
  {
    var more := t.out[|s.out|..];
    assert t.out == s.out + more;
    OutputsAdd(s, t, more, c);
    RepliesPushNothing(more, c);
  }

  /** What settling pushes: the replicated command, or a GETACK for a WAIT after writes, or nothing. */
  lemma SettlePushes(s: State, channel: Channel, cmd: Command, r: Result, order: seq<ClientId>, c: ClientId)
    requires IsOrder(order, Replicas(s))
    ensures
      var t := Settle(s, channel, cmd, r, order);
      PushedTo(t.out, c) == PushedTo(s.out, c) +
        (if !IsReplica(s, c) then []
         else if r.Done? && IsReplicatable(cmd) then [cmd]
         else if r.BlockWait? && s.pendingWrites then [GetAck]
         else [])
    ensures Settle(s, channel, cmd, r, order).broadcasts == s.broadcasts + if r.BlockWait? && s.pendingWrites then 1 else 0
    ensures Settle(s, channel, cmd, r, order).masterAck == s.masterAck
  {
    hide PushTo, PushedTo;
    var t := Settle(s, channel, cmd, r, order);
    assert c in order <==> c in Replicas(s);
    assert PushedTo(s.out, c) + [] == PushedTo(s.out, c);
    match r {
      case Done(reply) => DonePushes(s.out, channel, reply, cmd, order, c);
      case BlockWait(_, _, _) => WaitPushes(s.out, s.pendingWrites, order, c);
      case _ =>
    }
  }

  lemma DonePushes(out: seq<Output>, channel: Channel, reply: Resp, cmd: Command, order: seq<ClientId>, c: ClientId)
    requires Distinct(order)
    ensures PushedTo(out + [Reply(channel, reply)] + if IsReplicatable(cmd) then PushTo(order, cmd) else [], c)
         == PushedTo(out, c) + if IsReplicatable(cmd) && c in order then [cmd] else []
  {
    hide PushTo, PushedTo;
    var answered := out + [Reply(channel, reply)];
    PushedConcat(out, [Reply(channel, reply)], c);
    RepliesPushNothing([Reply(channel, reply)], c);
    assert PushedTo(out, c) + [] == PushedTo(out, c);
    PushReachesEach(order, cmd, c);
    PushedConcat(answered, PushTo(order, cmd), c);
    assert answered + [] == answered;
  }

  lemma WaitPushes(out: seq<Output>, pending: bool, order: seq<ClientId>, c: ClientId)
    requires Distinct(order)
    ensures PushedTo(out + if pending then PushTo(order, GetAck) else [], c)
         == PushedTo(out, c) + if pending && c in order then [GetAck] else []
  {
    hide PushTo, PushedTo;
    PushReachesEach(order, GetAck, c);
    PushedConcat(out, PushTo(order, GetAck), c);
    assert out + [] == out && PushedTo(out, c) + [] == PushedTo(out, c);
  }

  lemma RequestLedger(s: State, client: ClientId, cmd: Command, channel: Channel, t: State, c: ClientId)
    requires Step(s, WithReply(client, cmd, channel), t) && IsReplica(s, c)
    ensures Ledger(s, t, c)
  {
    hide Step, Executes, Account, Settle, IsOrder, PushedTo, WireAll;
    var r, mid, order := RequestParts(s, client, cmd, channel, t);
    var counted := Account(s, cmd);
    AccountFrame(s, cmd);
    AccountOffset(s, cmd);
    ExecKeepsFrame(counted, client, cmd, r, mid);
    ExecPushesNothing(counted, mid, c);
    SettlePushes(mid, channel, cmd, r, order, c);
    ResultKind(counted, client, cmd, r, mid);
    WireConcat(PushedTo(mid.out, c), [cmd]);
    WireConcat(PushedTo(mid.out, c), [GetAck]);
    WireOfOne(cmd);
    WireOfOne(GetAck);
    WireLength(GetAck);
    GetAckLength();
    if IsReplicatable(cmd) {
      WireLength(cmd);
    }
    hide ToResp, Wire;
    assert PushedTo(mid.out, c) + [] == PushedTo(mid.out, c);
  }

  lemma AccountOffset(s: State, cmd: Command)
    requires !ToRespPanics(cmd)
    ensures Account(s, cmd).masterAck == s.masterAck + if IsReplicatable(cmd) then Len(ToResp(cmd).value) else 0
  {
    LogFrame(Count(s, cmd), cmd);
    hide Log;
  }

  lemma StepLedger(s: State, e: Envelope, t: State, c: ClientId)
    requires Step(s, e, t) && IsReplica(s, c)
    ensures Ledger(s, t, c)
  {
    hide Step, Executes, PushedTo, WireAll;
    if e.WithReply? {
      RequestLedger(s, e.client, e.command, e.channel, t, c);
    } else if e.Replicate? {
      var r := ReplicatePart(s, e.command, t);
      ExecKeepsFrame(s, 0, e.command, r, t);
      ExecPushesNothing(s, t, c);
    } else {
      QuietSteps(s, e, t);
      QuietPushesNothing(s, t, c);
    }
  }

  /** Between any two moments of a run at which, and between which, `c` is a replica, the bytes pushed to
      it are the growth of the replication offset plus 37 for every GETACK broadcast by a WAIT. */
  lemma {:induction false} BytesMatchOffset(states: seq<State>, envelopes: seq<Envelope>, c: ClientId, i: nat, j: nat)
    requires Run(states, envelopes) && i <= j < |states|
    requires forall m :: i <= m < j ==> IsReplica(states[m], c)
    ensures Ledger(states[i], states[j], c)
    decreases j
  {
    hide Step, Booted, BytesPushed;
    if i < j {
      BytesMatchOffset(states, envelopes, c, i, j - 1);
      StepLedger(states[j - 1], envelopes[j - 1], states[j], c);
    }
  }

  /** Nothing is pushed to a client that is not a replica. */
  lemma StepPushesOnlyToReplicas(s: State, e: Envelope, t: State, c: ClientId)
    requires Step(s, e, t) && !IsReplica(s, c)
    ensures PushedTo(t.out, c) == PushedTo(s.out, c)
  {
    hide Step, Executes, PushedTo, WireAll, Account, Settle, IsOrder;
    if e.WithReply? {
      var r, mid, order := RequestParts(s, e.client, e.command, e.channel, t);
      AccountFrame(s, e.command);
      ExecKeepsFrame(Account(s, e.command), e.client, e.command, r, mid);
      ExecPushesNothing(Account(s, e.command), mid, c);
      SettlePushes(mid, e.channel, e.command, r, order, c);
    } else if e.Replicate? {
      var r := ReplicatePart(s, e.command, t);
      ExecKeepsFrame(s, 0, e.command, r, t);
      ExecPushesNothing(s, t, c);
    } else {
      QuietSteps(s, e, t);
      QuietPushesNothing(s, t, c);
    }
  }

  lemma BootPushesNothing(s: State, c: ClientId)
    requires Booted(s)
    ensures PushedTo(s.out, c) == []
  {
    hide Prim, Touch, Cleanup, Allowed, ExecutesAll;
    var r: RdbCodec.Rdb, cmds, replies :| ExecutesAll(Fresh(FromRdb(r)), 0, cmds, replies, s);
    var start := Fresh(FromRdb(r));
    FramePrinciple(start);
    ExecFrameRefl(start);
    hide ExecFrame;
    ExecSeqKeeps(u => ExecFrame(start, u), start, 0, cmds, replies, s);
    ExecPushesNothing(start, s, c);
  }

  /** Before it joins, a client has been pushed nothing, so from then on the ledger counts everything it was
      ever sent: with a fresh client id, all pushed bytes are accounted for. */
  lemma {:induction false} NothingBeforeJoining(states: seq<State>, envelopes: seq<Envelope>, c: ClientId, i: nat)
    requires Run(states, envelopes) && i < |states|
    requires forall m :: 0 <= m < i ==> !IsReplica(states[m], c)
    ensures PushedTo(states[i].out, c) == [] && BytesPushed(states[i], c) == 0
  {
    hide Step, Booted, PushedTo;
    if i == 0 {
      BootPushesNothing(states[0], c);
    } else {
      NothingBeforeJoining(states, envelopes, c, i - 1);
      StepPushesOnlyToReplicas(states[i - 1], envelopes[i - 1], states[i], c);
    }
  }

  /** The ledger since joining: a replica that joined at moment `i` and is still connected at moment `j`
      has been pushed the growth of the offset since, plus 37 bytes per broadcast since. */
  lemma LedgerSinceJoining(states: seq<State>, envelopes: seq<Envelope>, c: ClientId, i: nat, j: nat)
    requires Run(states, envelopes) && i <= j < |states|
    requires forall m :: 0 <= m < i ==> !IsReplica(states[m], c)
    requires forall m :: i <= m < j ==> IsReplica(states[m], c)
    ensures BytesPushed(states[j], c) ==
            states[j].masterAck - states[i].masterAck + 37 * (states[j].broadcasts - states[i].broadcasts)
  {
    hide Run, BytesPushed;
    NothingBeforeJoining(states, envelopes, c, i);
    BytesMatchOffset(states, envelopes, c, i, j);
  }

  // ------------------------------------------------------------------ who is a replica

  lemma StepClients(s: State, e: Envelope, t: State)
    requires Step(s, e, t)
    ensures
      t.clients ==
      match e
      case RegisterClient(c) => s.clients[c := false]
      case UnregisterClient(c) => s.clients - {c}
      case AddReplica(c, _) => if c in s.clients then s.clients[c := true] else s.clients
      case _ => s.clients
  {
    hide Executes, Account, Settle, IsOrder, TimeOutXread, TimeOutBlpop, TimeOutWait, JoinReplica;
    match e {
      case WithReply(c, cmd, channel) =>
        var r, mid, order := RequestParts(s, c, cmd, channel, t);
        AccountFrame(s, cmd);
        ExecKeepsFrame(Account(s, cmd), c, cmd, r, mid);
        SettleFrame(mid, channel, cmd, r, order);
      case Replicate(cmd) =>
        var r := ReplicatePart(s, cmd, t);
        ExecKeepsFrame(s, 0, cmd, r, t);
      case AddReplica(c, channel) => JoinFrame(s, c, channel, t);
      case TimeoutXread(w) => TimeOutFrames(s, w);
      case TimeoutBlpop(w) => TimeOutFrames(s, w);
      case TimeoutWait(w) => TimeOutFrames(s, w);
      case _ =>
    }
  }

  /** The client registered at step `i` and has not left since. */
  ghost predicate Registered(envelopes: seq<Envelope>, c: ClientId, i: nat, j: nat)
    requires i < j <= |envelopes|
  {
    envelopes[i] == RegisterClient(c) && forall m :: i < m < j ==> envelopes[m] != UnregisterClient(c)
  }

  /** The client asked at step `i` to be a replica, being registered, and neither left nor registered anew since. */
  ghost predicate Joined(states: seq<State>, envelopes: seq<Envelope>, c: ClientId, i: nat, j: nat)
    requires i < j <= |envelopes| == |states| - 1
  {
    && envelopes[i].AddReplica? && envelopes[i].client == c && c in states[i].clients
    && forall m :: i < m < j ==> envelopes[m] != UnregisterClient(c) && envelopes[m] != RegisterClient(c)
  }

  lemma NoClientsAtBoot(s: State)
    requires Booted(s)
    ensures s.clients == map[]
  {
    hide Prim, Touch, Cleanup, Allowed, ExecutesAll, ExecFrame;
    var r: RdbCodec.Rdb, cmds, replies :| ExecutesAll(Fresh(FromRdb(r)), 0, cmds, replies, s);
    var initial := Fresh(FromRdb(r));
    FramePrinciple(initial);
    ExecFrameRefl(initial);
    ExecSeqKeeps(u => ExecFrame(initial, u), initial, 0, cmds, replies, s);
    SameClients(initial, s);
  }

  lemma SameClients(s: State, t: State)
    requires ExecFrame(s, t)
    ensures t.clients == s.clients
  {
  }

  /** In every reachable state the clients are those that have registered and not left. */
  lemma {:induction false} ClientIffRegistered(states: seq<State>, envelopes: seq<Envelope>, j: nat, c: ClientId)
    requires Run(states, envelopes) && j < |states| == |envelopes| + 1
    ensures c in states[j].clients <==> exists i: nat :: i < j && Registered(envelopes, c, i, j)
  {
    hide Run, Step, Booted;
    if j == 0 {
      BootOfRun(states, envelopes);
      NoClientsAtBoot(states[0]);
    } else {
      ClientIffRegistered(states, envelopes, j - 1, c);
      StepAt(states, envelopes, j);
      StepClients(states[j - 1], envelopes[j - 1], states[j]);
      var before := j - 1;
      if i: nat :| i < before && Registered(envelopes, c, i, before) {
        assert envelopes[j - 1] != UnregisterClient(c) ==> Registered(envelopes, c, i, j);
      }
      if i: nat :| i < j && Registered(envelopes, c, i, j) {
        assert i < j - 1 ==> Registered(envelopes, c, i, j - 1);
      }
      assert envelopes[j - 1] == RegisterClient(c) ==> Registered(envelopes, c, j - 1, j);
    }
  }

  lemma BootOfRun(states: seq<State>, envelopes: seq<Envelope>)
    requires Run(states, envelopes)
    ensures Booted(states[0])
  {
    hide Step, Booted;
  }

  /** And the replicas are those that have also asked to be one. */
  lemma {:induction false} ReplicaIffJoined(states: seq<State>, envelopes: seq<Envelope>, j: nat, c: ClientId)
    requires Run(states, envelopes) && j < |states| == |envelopes| + 1
    ensures IsReplica(states[j], c) <==> exists i: nat :: i < j && Joined(states, envelopes, c, i, j)
  {
    hide Run, Step, Booted;
    if j == 0 {
      BootOfRun(states, envelopes);
      NoClientsAtBoot(states[0]);
    } else {
      ReplicaIffJoined(states, envelopes, j - 1, c);
      StepAt(states, envelopes, j);
      StepClients(states[j - 1], envelopes[j - 1], states[j]);
      var before := j - 1;
      if i: nat :| i < before && Joined(states, envelopes, c, i, before) {
        assert envelopes[j - 1] != UnregisterClient(c) && envelopes[j - 1] != RegisterClient(c) ==>
          Joined(states, envelopes, c, i, j);
      }
      if i: nat :| i < j && Joined(states, envelopes, c, i, j) {
        assert i < j - 1 ==> Joined(states, envelopes, c, i, j - 1);
      }
      assert envelopes[j - 1].AddReplica? && envelopes[j - 1].client == c && c in states[j - 1].clients ==>
        Joined(states, envelopes, c, j - 1, j);
    }
  }
}
