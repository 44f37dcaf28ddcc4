/**
 The replica process: what it does with the master's stream, and the offsets it reports
 (`src/main.rs:1499-1606`), joined with the master's ledger.
 */
module ReplicaServer {
  import opened Types
  import opened RespCodec
  import opened Commands
  import opened StoreModel
  import opened Replication
  import opened Replay

  /** The reply to a GETACK. */
  function AckReply(ackBytes: nat): Resp {
    Array([Word("REPLCONF"), Word("ACK"), Number(ackBytes)])
  }

  /** What a replica has done so far: the replies sent to the master, the commands sent to its own store,
      the bytes counted, and whether a message it cannot decode has stopped it. */
  datatype Replica = Replica(replies: seq<Resp>, applied: seq<Command>, ackBytes: nat, alive: bool)

  /** `process_replica_message`, then the count: a message is counted after it was processed. A command
      whose branch this model does not open goes to the store like the others and is not followed further. */
  function Receive(r: Replica, input: Resp): Replica {
    if !r.alive then r
    else
      var counted := r.(ackBytes := r.ackBytes + Len(input));
      match FromResp(input)
      case Decoded(cmd) =>
        if cmd.GetAck? then counted.(replies := r.replies + [AckReply(r.ackBytes)])
        else counted.(applied := r.applied + [cmd])
      case Unknown => counted
      case Unmodelled => counted
      case Crash => r.(alive := false)
  }

  function ReceiveAll(inputs: seq<Resp>): Replica {
    if inputs == [] then Replica([], [], 0, true)
    else Receive(ReceiveAll(inputs[..|inputs| - 1]), inputs[|inputs| - 1])
  }

  /** All the frames of successive packets, or nothing if one of them does not parse. */
  function ParseReads(packets: seq<Bytes>): Option<seq<Resp>> {
    if packets == [] then Some([])
    else
      match (ParseReads(packets[..|packets| - 1]), ParseResp(packets[|packets| - 1]))
      case (Some(queue), Ok(frames, _)) => Some(queue + frames)
      case _ => None
  }

  /** The end of the handshake: packets are read until the answer to PSYNC and the RDB file are in. */
  method AwaitSnapshot(packets: seq<Bytes>) returns (queue: seq<Resp>, next: nat)
    requires ParseReads(packets).Some?
    ensures next <= |packets| && ParseReads(packets[..next]) == Some(queue)
    ensures |queue| >= 2 || next == |packets|
  {
    hide ParseResp;
    queue, next := [], 0;
    while next < |packets| && |queue| < 2
      invariant next <= |packets| && ParseReads(packets[..next]) == Some(queue)
      decreases |packets| - next
    {
      var frames := ReadPacket(packets, next);
      queue, next := queue + frames, next + 1;
    }
  }

  /** `read_resp_from_stream`. */
  method ReadPacket(packets: seq<Bytes>, next: nat) returns (frames: seq<Resp>)
    requires next < |packets| && ParseReads(packets).Some?
    ensures ParseReads(packets[..next]).Some?
    ensures ParseReads(packets[..next + 1]) == Some(ParseReads(packets[..next]).value + frames)
  {
    ReadsGrow(packets, next + 1);
    assert packets[..next + 1][..next] == packets[..next];
    var parsed := ParseRespRun(packets[next]);
    frames := parsed.value;
  }

  /** `run_replica_server` after PSYNC was sent, over the packets so far: the handshake waits for two frames
      and drops them, then every queued frame is processed and counted in turn. */
  method RunReplica(packets: seq<Bytes>) returns (replica: Replica, ready: bool)
    requires ParseReads(packets).Some?
    ensures ready <==> |ParseReads(packets).value| >= 2
    ensures ready ==> replica == ReceiveAll(ParseReads(packets).value[2..])
  {
    hide ParseReads, Receive, ReceiveAll;
    var queue, next := AwaitSnapshot(packets);
    ReadsGrow(packets, next);
    assert packets[..|packets|] == packets;
    ready := |queue| >= 2;
    replica := Start();
    if ready {
      ghost var all := queue;
      var inputs := queue[2..];
      ghost var done: seq<Resp> := [];
      while true
        invariant next <= |packets| && ParseReads(packets[..next]) == Some(all)
        invariant |all| >= 2 && done + inputs == all[2..]
        invariant replica == ReceiveAll(done)
        decreases |packets| - next
      {
        replica := Process(replica, done, inputs);
        done := done + inputs;
        if next == |packets| {
          break;
        }
        inputs := ReadPacket(packets, next);
        all, next := all + inputs, next + 1;
      }
    }
  }

  method Start() returns (replica: Replica)
    ensures replica == ReceiveAll([])
  {
    replica := Replica([], [], 0, true);
  }

  /** The queue is emptied, each message processed and then counted. */
  method Process(before: Replica, ghost done: seq<Resp>, inputs: seq<Resp>) returns (replica: Replica)
    requires before == ReceiveAll(done)
    ensures replica == ReceiveAll(done + inputs)
  {
    replica := before;
    assert done + inputs[..0] == done;
    for i := 0 to |inputs|
      invariant replica == ReceiveAll(done + inputs[..i])
    {
      ghost var longer := done + inputs[..i + 1];
      assert longer[..|longer| - 1] == done + inputs[..i];
      replica := Receive(replica, inputs[i]);
    }
    assert inputs[..|inputs|] == inputs;
  }

  /** If all packets parse, so does every beginning of them, to a beginning of the frames. */
  lemma {:induction false} ReadsGrow(packets: seq<Bytes>, n: nat)
    requires n <= |packets| && ParseReads(packets).Some?
    ensures ParseReads(packets[..n]).Some? && ParseReads(packets[..n]).value <= ParseReads(packets).value
  {
    hide ParseResp;
    if n < |packets| {
      var m := |packets| - 1;
      assert ParseReads(packets[..m]).Some?;
      ReadsGrow(packets[..m], n);
      assert packets[..m][..n] == packets[..n];
    } else {
      assert packets[..n] == packets;
    }
  }

  // ---------------------------------------------------------------- the stream as received

  function Concat(parts: seq<seq<Resp>>): seq<Resp> {
    if parts == [] then [] else Concat(parts[..|parts| - 1]) + parts[|parts| - 1]
  }

  /** Reads that end on frame boundaries give back the frames that were sent, the RDB file included. */
  lemma {:induction false} FramesArrive(parts: seq<seq<Resp>>, packets: seq<Bytes>)
    requires |packets| == |parts|
    requires forall i :: 0 <= i < |parts| ==> AllWellFormed(parts[i]) && packets[i] == EncodeAll(parts[i])
    ensures ParseReads(packets) == Some(Concat(parts))
  {
    hide AllWellFormed, EncodeAll, ParseResp;
    if parts != [] {
      var n := |parts| - 1;
      FramesArrive(parts[..n], packets[..n]);
      StreamRoundTrip(parts[n]);
    }
  }

  // -------------------------------------------------------------------- reported offsets

  /** The replies due for a stream of pushed commands: each GETACK is answered with the number of bytes
      pushed before it. */
  function DueReplies(pushes: seq<Command>): seq<Resp> {
    if pushes == [] then []
    else
      var before := pushes[..|pushes| - 1];
      DueReplies(before) + if pushes[|pushes| - 1].GetAck? then [AckReply(|WireAll(before)|)] else []
  }

  function WithoutGetAcks(pushes: seq<Command>): seq<Command> {
    if pushes == [] then []
    else
      var last := pushes[|pushes| - 1];
      WithoutGetAcks(pushes[..|pushes| - 1]) + if last.GetAck? then [] else [last]
  }

  ghost predicate Pushable(c: Command) {
    IsReplicatable(c) && Sendable(c)
  }

  /** A replica counts exactly the bytes pushed to it, answers every GETACK with the bytes pushed before it,
      and applies the other commands in order. */
  lemma {:induction false} ReplicaFollows(pushes: seq<Command>)
    requires forall i :: 0 <= i < |pushes| ==> !ToRespPanics(pushes[i]) && ToResp(pushes[i]).Some? && Pushable(pushes[i])
    ensures ReceiveAll(Frames(pushes)) ==
            Replica(DueReplies(pushes), WithoutGetAcks(pushes), |WireAll(pushes)|, true)
  {
    hide FromResp, ToResp, AckReply, Wire;
    if pushes != [] {
      var n := |pushes| - 1;
      var last := pushes[n];
      assert Frames(pushes)[..n] == Frames(pushes[..n]);
      ReplicaFollows(pushes[..n]);
      LoggedRoundTripIff(last);
      WireLength(last);
      assert FromResp(Frames(pushes)[n]) == Decoded(last);
    }
  }

  /** From bytes to replies: whatever the packets the master's answer, its snapshot and the pushed commands
      arrive in, the replica ends up where those commands take it. */
  lemma ReplicaOverTheWire(answer: Resp, rdb: Bytes, pushes: seq<Command>, parts: seq<seq<Resp>>, packets: seq<Bytes>)
    requires forall i :: 0 <= i < |pushes| ==> !ToRespPanics(pushes[i]) && ToResp(pushes[i]).Some? && Pushable(pushes[i])
    requires |packets| == |parts|
    requires forall i :: 0 <= i < |parts| ==> AllWellFormed(parts[i]) && packets[i] == EncodeAll(parts[i])
    requires Concat(parts) == [answer, File(rdb)] + Frames(pushes)
    ensures ParseReads(packets).Some? && |ParseReads(packets).value| >= 2
    ensures ReceiveAll(ParseReads(packets).value[2..]) ==
            Replica(DueReplies(pushes), WithoutGetAcks(pushes), |WireAll(pushes)|, true)
  {
    hide AllWellFormed, EncodeAll, ParseReads, Pushable, ReceiveAll;
    FramesArrive(parts, packets);
    ReplicaFollows(pushes);
    assert ([answer, File(rdb)] + Frames(pushes))[2..] == Frames(pushes);
  }

  /** After `before`, a GETACK is answered with `offset`, and nothing else is sent. */
  ghost predicate AnswersGetAck(before: seq<Command>, offset: nat) {
    && AllEncodable(before)
    && AllEncodable(before + [GetAck])
    && ReceiveAll(Frames(before + [GetAck])).replies == ReceiveAll(Frames(before)).replies + [AckReply(offset)]
  }

  /** The GETACK a WAIT broadcasts is answered by a replica with the bytes pushed to it before, and that is
      what the replication offset grew since it joined plus 37 per earlier broadcast. */
  lemma WaitReceivesOffset(states: seq<State>, envelopes: seq<Envelope>, c: ClientId, i: nat, j: nat)
    requires Run(states, envelopes) && i <= j < |envelopes|
    requires forall m :: 0 <= m < i ==> !IsReplica(states[m], c)
    requires forall m :: i <= m <= j ==> IsReplica(states[m], c)
    requires states[j + 1].broadcasts > states[j].broadcasts
    requires forall n :: 0 <= n < |envelopes| && envelopes[n].WithReply? ==> Sendable(envelopes[n].command)
    ensures
      var before := PushedTo(states[j].out, c);
      var offset := states[j].masterAck - states[i].masterAck + 37 * (states[j].broadcasts - states[i].broadcasts);
      && PushedTo(states[j + 1].out, c) == before + [GetAck]
      && offset == BytesPushed(states[j], c)
      && AnswersGetAck(before, offset)
  {
    hide Step, PushedTo, BytesPushed, Run, Booted, IsReplica, ReceiveAll, Sendable, ToResp, WireAll, Frames;
    OneMoreState(states, envelopes);
    StepAt(states, envelopes, j + 1);
    LedgerSinceJoining(states, envelopes, c, i, j);
    var more := StepPushes(states[j], envelopes[j], states[j + 1], c);
    var before := PushedTo(states[j].out, c);
    PushedArePushable(states, envelopes, c, i, j);
    GetAckPushable();
    var pushes := before + [GetAck];
    ReplicaFollows(before);
    ReplicaFollows(pushes);
    assert pushes[..|pushes| - 1] == before;
    UnfoldBytes(states[j], c);
  }

  lemma UnfoldBytes(s: State, c: ClientId)
    ensures BytesPushed(s, c) == |WireAll(PushedTo(s.out, c))|
  {
  }

  predicate AllEncodable(cmds: seq<Command>) {
    forall i :: 0 <= i < |cmds| ==> !ToRespPanics(cmds[i]) && ToResp(cmds[i]).Some?
  }

  lemma GetAckPushable()
    ensures Pushable(GetAck) && ToResp(GetAck).Some? && !ToRespPanics(GetAck)
  {
    SentIsWellFormed(GetAck);
  }

  /** Everything a replica is ever pushed can be sent. */
  lemma {:induction false} PushedArePushable(states: seq<State>, envelopes: seq<Envelope>, c: ClientId, i: nat, j: nat)
    requires Run(states, envelopes) && i <= j < |states|
    requires forall m :: 0 <= m < i ==> !IsReplica(states[m], c)
    requires forall m :: i <= m < j ==> IsReplica(states[m], c)
    requires forall n :: 0 <= n < |envelopes| && envelopes[n].WithReply? ==> Sendable(envelopes[n].command)
    ensures forall n :: 0 <= n < |PushedTo(states[j].out, c)| ==>
      var cmd := PushedTo(states[j].out, c)[n]; Pushable(cmd) && !ToRespPanics(cmd) && ToResp(cmd).Some?
    decreases j
  {
    hide Step, PushedTo, Run, IsReplica, Sendable;
    OneMoreState(states, envelopes);
    if i == j {
      NothingBeforeJoining(states, envelopes, c, i);
    } else {
      PushedArePushable(states, envelopes, c, i, j - 1);
      StepAt(states, envelopes, j);
      var more := StepPushes(states[j - 1], envelopes[j - 1], states[j], c);
      GetAckPushable();
    }
  }

  /** The master decodes the replica's reply as that acknowledgement. */
  lemma AckReplyDecodes(n: u64)
    ensures FromResp(AckReply(n)) == Decoded(Ack(n))
  {
    hide FromResp, Ascii, Upper, DecodeCapa, NumberAt;
    var els := [Word("REPLCONF"), Word("ACK"), Number(n)];
    ReplconfDispatch(els);
    AsciiWord("ACK");
    AckWord();
    Distinguish();
    NumberReads(els, 2, n, 0, U64_LIMIT);
  }

  lemma AckWord()
    ensures Upper(Ascii("ACK")) == Ascii("ACK")
    ensures Ascii("ACK") != Ascii("LISTENING-PORT") && Ascii("ACK") != Ascii("CAPA") && Ascii("ACK") != Ascii("GETACK")
  {
    assert |Ascii("ACK")| == 3 && |Ascii("LISTENING-PORT")| == 14 && |Ascii("CAPA")| == 4 && |Ascii("GETACK")| == 6;
  }
}
