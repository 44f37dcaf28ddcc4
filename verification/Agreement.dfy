/**
 Master and replica together: from the bytes the master writes on the connection to the
 value the replica's store holds (`src/main.rs:1234-1252`, `1335-1337`, `1548-1606`).
 */
module ReplicaAgreement {
  import opened Types
  import opened RespCodec
  import opened Commands
  import opened StoreModel
  import opened StoreFrames
  import opened Replication
  import opened Replay
  import opened ReplicaServer

  /** The commands a store is sent by its own replication link, in order. */
  function ReplicatedBy(envelopes: seq<Envelope>): seq<Command> {
    if envelopes == [] then []
    else
      var last := envelopes[|envelopes| - 1];
      ReplicatedBy(envelopes[..|envelopes| - 1]) + if last.Replicate? then [last.command] else []
  }

  /** A GETACK is no SET, so leaving them out does not change the last one. */
  lemma {:induction false} LastSetWithoutGetAcks(pushes: seq<Command>, k: Key)
    ensures LastSet(WithoutGetAcks(pushes), k) == LastSet(pushes, k)
  {
    if pushes != [] {
      var n := |pushes| - 1;
      LastSetWithoutGetAcks(pushes[..n], k);
      var tail: seq<Command> := if pushes[n].GetAck? then [] else [pushes[n]];
      LastSetConcat(WithoutGetAcks(pushes[..n]), tail, k);
      assert [pushes[n]][..0] == [];
    }
  }

  ghost predicate SameEntry(s: State, t: State, k: Key) {
    (k in t.data <==> k in s.data) && (k in s.data ==> t.data[k] == s.data[k])
  }

  /** What was replicated decides: as long as nothing else touches `k`, a store holds the value of the last SET of
      `k` it was sent by its replication link. */
  lemma {:induction false} LinkDecides(states: seq<State>, envelopes: seq<Envelope>, n: nat, k: Key, v: Bytes)
    requires Run(states, envelopes) && n < |states|
    requires forall i :: 0 <= i < |envelopes| && !envelopes[i].Replicate? ==> SameEntry(states[i], states[i + 1], k)
    requires forall i :: 0 <= i < |envelopes| && envelopes[i].Replicate? ==>
      !ToRespPanics(envelopes[i].command) && ToResp(envelopes[i].command).Some?
    requires LastSet(ReplicatedBy(envelopes[..n]), k) == Some(v)
    ensures ValueIs(states[n], k, v)
  {
    hide Run, Step, ToResp, LastSet;
    OneMoreState(states, envelopes);
    if n == 0 {
      NothingReplicated(k);
    } else {
      StepAt(states, envelopes, n);
      var s, e, t := states[n - 1], envelopes[n - 1], states[n];
      assert envelopes[..n][..n - 1] == envelopes[..n - 1];
      if e.Replicate? {
        LastSetConcat(ReplicatedBy(envelopes[..n - 1]), [e.command], k);
        LastSetOfOne(e.command, k);
        var r := ReplicatePart(s, e.command, t);
        LoggedCommandEffect(s, 0, e.command, r, t, k);
        if !(e.command.Set? && e.command.key == k) {
          LinkDecides(states, envelopes, n - 1, k, v);
        }
      } else {
        assert ReplicatedBy(envelopes[..n - 1]) + [] == ReplicatedBy(envelopes[..n - 1]);
        LinkDecides(states, envelopes, n - 1, k, v);
        assert SameEntry(states[n - 1], states[n - 1 + 1], k);
      }
    }
  }

  lemma NothingReplicated(k: Key)
    ensures LastSet(ReplicatedBy([]), k) == None
  {
  }

  lemma LastSetOfOne(cmd: Command, k: Key)
    ensures LastSet([cmd], k) == if cmd.Set? && cmd.key == k then Some(cmd.value) else None
  {
    assert [cmd][..0] == [];
  }

  /** What the replica passes to its store can all be executed as a replicated command. */
  lemma {:induction false} AppliedAreEncodable(pushes: seq<Command>)
    requires forall i :: 0 <= i < |pushes| ==> !ToRespPanics(pushes[i]) && ToResp(pushes[i]).Some?
    ensures forall c :: c in WithoutGetAcks(pushes) ==> !ToRespPanics(c) && ToResp(c).Some?
  {
    hide ToResp;
    if pushes != [] {
      AppliedAreEncodable(pushes[..|pushes| - 1]);
    }
  }

  lemma {:induction false} ReplicatedIn(envelopes: seq<Envelope>, i: nat)
    requires i < |envelopes| && envelopes[i].Replicate?
    ensures envelopes[i].command in ReplicatedBy(envelopes)
  {
    if i < |envelopes| - 1 {
      ReplicatedIn(envelopes[..|envelopes| - 1], i);
    }
  }

  /** The master: what it has pushed to a replica since it joined ends, as far as `k` is concerned, with the SET that
      still decides the value of `k`. */
  lemma PushedDecides(states: seq<State>, envelopes: seq<Envelope>, c: ClientId, i: nat, m: nat, j: nat, k: Key, v: Bytes)
    requires Run(states, envelopes) && i <= m < j < |states|
    requires forall n :: 0 <= n < i ==> !IsReplica(states[n], c)
    requires forall n :: i <= n < j ==> IsReplica(states[n], c)
    requires envelopes[m].WithReply? && envelopes[m].command.Set?
    requires envelopes[m].command.key == k && envelopes[m].command.value == v
    requires forall n :: m < n <= j ==> ValueIs(states[n], k, v)
    ensures LastSet(PushedTo(states[j].out, c), k) == Some(v)
  {
    hide Run, Step, PushedTo, LastSet, ValueIs, IsReplica, BytesPushed;
    NothingBeforeJoining(states, envelopes, c, i);
    var pushes := LastPushed(states, envelopes, c, i, m, j, k, v);
    assert [] + pushes == pushes;
  }

  /** Both processes: the master's answer, its snapshot and everything it pushed to a replica arrive in whatever
      packets; the replica's store is sent what `process_replica_message` makes of them, and may do anything else
      that leaves `k` alone. Then for every key whose latest write on the master was a top-level SET since the replica
      joined, the replica's store holds the master's value. */
  lemma ReplicaAgrees(states: seq<State>, envelopes: seq<Envelope>, c: ClientId, i: nat, m: nat, j: nat, k: Key, v: Bytes,
                      answer: Resp, rdb: Bytes, parts: seq<seq<Resp>>, packets: seq<Bytes>,
                      replicaStates: seq<State>, replicaEnvelopes: seq<Envelope>)
    requires Run(states, envelopes) && i <= m < j < |states|
    requires forall n :: 0 <= n < i ==> !IsReplica(states[n], c)
    requires forall n :: i <= n < j ==> IsReplica(states[n], c)
    requires forall n :: 0 <= n < |envelopes| && envelopes[n].WithReply? ==> Sendable(envelopes[n].command)
    requires envelopes[m].WithReply? && envelopes[m].command.Set?
    requires envelopes[m].command.key == k && envelopes[m].command.value == v
    requires forall n :: m < n <= j ==> ValueIs(states[n], k, v)
    requires |packets| == |parts|
    requires forall n :: 0 <= n < |parts| ==> AllWellFormed(parts[n]) && packets[n] == EncodeAll(parts[n])
    requires AllEncodable(PushedTo(states[j].out, c))
    requires Concat(parts) == [answer, File(rdb)] + Frames(PushedTo(states[j].out, c))
    requires Run(replicaStates, replicaEnvelopes)
    requires ParseReads(packets).Some? && |ParseReads(packets).value| >= 2 ==>
      ReplicatedBy(replicaEnvelopes) == ReceiveAll(ParseReads(packets).value[2..]).applied
    requires forall n :: 0 <= n < |replicaEnvelopes| && !replicaEnvelopes[n].Replicate? ==>
      SameEntry(replicaStates[n], replicaStates[n + 1], k)
    ensures replicaStates != [] && SameValue(states[j], replicaStates[|replicaStates| - 1], k)
  {
    hide Run, Step, PushedTo, LastSet, IsReplica, Sendable, ReceiveAll, ParseReads, AllWellFormed, EncodeAll,
      Pushable, SameEntry, ToResp;
    var pushes := PushedTo(states[j].out, c);
    PushedArePushable(states, envelopes, c, i, j);
    ReplicaOverTheWire(answer, rdb, pushes, parts, packets);
    PushedDecides(states, envelopes, c, i, m, j, k, v);
    LastSetWithoutGetAcks(pushes, k);
    AppliedAreEncodable(pushes);
    OneMoreState(replicaStates, replicaEnvelopes);
    var n := |replicaEnvelopes|;
    assert replicaEnvelopes[..n] == replicaEnvelopes;
    forall a | 0 <= a < n && replicaEnvelopes[a].Replicate?
      ensures !ToRespPanics(replicaEnvelopes[a].command) && ToResp(replicaEnvelopes[a].command).Some?
    {
      ReplicatedIn(replicaEnvelopes, a);
    }
    LinkDecides(replicaStates, replicaEnvelopes, n, k, v);
  }

  /** The SETs the master was sent while a client was its replica. */
  ghost function WritesSeen(states: seq<State>, envelopes: seq<Envelope>, c: ClientId, j: nat): seq<Command>
    requires j < |states| == |envelopes| + 1
  {
    if j == 0 then []
    else
      var e := envelopes[j - 1];
      WritesSeen(states, envelopes, c, j - 1)
      + if IsReplica(states[j - 1], c) && e.WithReply? && e.command.Set? then [e.command] else []
  }

  lemma OneMorePush(pushes: seq<Command>, cmd: Command)
    ensures WithoutGetAcks(pushes + [cmd]) == WithoutGetAcks(pushes) + if cmd.GetAck? then [] else [cmd]
  {
    assert (pushes + [cmd])[..|pushes|] == pushes;
  }

  /** What a replica is pushed to apply is exactly the SETs of all requests while it is one, in order; the rest are
      GETACKs. */
  lemma {:induction false} PushesAreWrites(states: seq<State>, envelopes: seq<Envelope>, c: ClientId, j: nat)
    requires Run(states, envelopes) && j < |states| == |envelopes| + 1
    ensures WithoutGetAcks(PushedTo(states[j].out, c)) == WritesSeen(states, envelopes, c, j)
  {
    hide Run, Step, PushedTo, IsReplica, WithoutGetAcks, Booted;
    if j == 0 {
      BootOfRun(states, envelopes);
      BootPushesNothing(states[0], c);
      NoPushes();
    } else {
      PushesAreWrites(states, envelopes, c, j - 1);
      StepAt(states, envelopes, j);
      var s, e, t := states[j - 1], envelopes[j - 1], states[j];
      if IsReplica(s, c) {
        var more := StepPushes(s, e, t, c);
        if more == [] {
          assert PushedTo(s.out, c) + [] == PushedTo(s.out, c);
        } else {
          OneMorePush(PushedTo(s.out, c), more[0]);
        }
      } else {
        StepPushesOnlyToReplicas(s, e, t, c);
      }
    }
  }

  lemma NoPushes()
    ensures WithoutGetAcks([]) == []
  {
  }
}
