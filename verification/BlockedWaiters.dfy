/**
 Blocked XREAD and WAIT clients: none of them is waiting for something that is already
 there (`src/main.rs:234-248`, `305-320`, `448-466`, `833`, `870-881`, `1086-1097`, `1288-1290`).
 */
module BlockedWaiters {
  import opened Types
  import opened Orders
  import opened RespCodec
  import opened Streams
  import opened Commands
  import opened StoreModel
  import opened StoreFrames
  import opened StreamLogs

  // ------------------------------------------------------------------------------ XREAD

  /** No blocked reader has an entry above its id in any of its streams. */
  ghost predicate CaughtUp(s: State) {
    forall w :: w in s.xreadWaiters ==> NothingAbove(s, s.xreadWaiters[w].keys, s.xreadWaiters[w].ids)
  }

  /** Fewer readers, and the same streams or none: everybody is still caught up. */
  lemma StillCaughtUp(s: State, t: State)
    requires CaughtUp(s)
    requires forall w :: w in t.xreadWaiters ==> w in s.xreadWaiters && t.xreadWaiters[w] == s.xreadWaiters[w]
    requires forall k :: StreamOf(t, k) == StreamOf(s, k) || StreamOf(t, k) == []
    ensures CaughtUp(t)
  {
    forall w | w in t.xreadWaiters ensures NothingAbove(t, t.xreadWaiters[w].keys, t.xreadWaiters[w].ids) {
      var waiter := s.xreadWaiters[w];
      assert NothingAbove(s, waiter.keys, waiter.ids);
      forall i | 0 <= i < |waiter.keys| ensures Above(StreamOf(t, waiter.keys[i]), waiter.ids[i]) == [] {
      }
    }
  }

  lemma NoNewStreamsStillCaughtUp(s: State, t: State)
    requires CaughtUp(s) && NoNewStreams(s, t) && t.xreadWaiters == s.xreadWaiters
    ensures CaughtUp(t)
  {
    forall k ensures StreamOf(t, k) == StreamOf(s, k) || StreamOf(t, k) == [] {
    }
    StillCaughtUp(s, t);
  }

  function Woken(s: State, order: seq<WaiterId>): State
    requires forall w :: w in order ==> w in s.xreadWaiters && |s.xreadWaiters[w].keys| == |s.xreadWaiters[w].ids|
  {
    s.(xreadWaiters := s.xreadWaiters - (set w | w in order),
       out := s.out + seq(|order|, i requires 0 <= i < |order| =>
         Reply(s.xreadWaiters[order[i]].channel,
               Array(XreadRows(s, s.xreadWaiters[order[i]].keys, s.xreadWaiters[order[i]].ids)))))
  }

  lemma {:induction false} SameRows(s: State, t: State, keys: seq<Key>, ids: seq<StreamId>)
    requires |keys| == |ids| && s.data == t.data
    ensures XreadRows(s, keys, ids) == XreadRows(t, keys, ids)
  {
    if keys != [] {
      SameRows(s, t, keys[1..], ids[1..]);
    }
  }

  /** Every reader interested in a stream that grew is answered with what is above its ids now, once,
      and leaves the table. */
  lemma {:induction false} WakeAnswersAll(s: State, order: seq<WaiterId>)
    requires Distinct(order)
    requires forall w :: w in order ==> w in s.xreadWaiters && |s.xreadWaiters[w].keys| == |s.xreadWaiters[w].ids|
    ensures Wake(s, order) == Woken(s, order)
    decreases |order|
  {
    if order == [] {
      assert s.xreadWaiters - (set w | w in order) == s.xreadWaiters;
      assert s.out + [] == s.out;
    } else {
      hide XreadRows;
      var u := WakeOne(s, order[0]);
      assert forall w :: w in order[1..] ==> w in u.xreadWaiters && u.xreadWaiters[w] == s.xreadWaiters[w];
      WakeAnswersAll(u, order[1..]);
      WokenStep(s, u, order);
    }
  }

  lemma WokenStep(s: State, u: State, order: seq<WaiterId>)
    requires order != [] && Distinct(order) && u == WakeOne(s, order[0])
    requires forall w :: w in order ==> w in s.xreadWaiters && |s.xreadWaiters[w].keys| == |s.xreadWaiters[w].ids|
    requires forall w :: w in order[1..] ==> w in u.xreadWaiters && u.xreadWaiters[w] == s.xreadWaiters[w]
    ensures Woken(u, order[1..]) == Woken(s, order)
  {
    hide XreadRows;
    var t := Woken(s, order);
    var v := Woken(u, order[1..]);
    assert u.xreadWaiters - (set w | w in order[1..]) == s.xreadWaiters - (set w | w in order);
    forall w | w in order[1..]
      ensures XreadRows(u, s.xreadWaiters[w].keys, s.xreadWaiters[w].ids)
           == XreadRows(s, s.xreadWaiters[w].keys, s.xreadWaiters[w].ids)
    {
      SameRows(u, s, s.xreadWaiters[w].keys, s.xreadWaiters[w].ids);
    }
    assert v.out == t.out;
  }

  lemma XaddKeepsCaughtUp(s: State, key: Key, input: XaddId, fields: seq<Bytes>, now: u64, order: seq<WaiterId>)
    requires CaughtUp(s) && StreamsOrdered(s) && IsOrder(order, InterestedXread(s, key))
    ensures CaughtUp(XaddCommand(s, key, input, fields, now, order).state)
  {
    hide Wake, Judge, EnsureStream, AppendEntry, StreamsOrdered, XaddCommand, StreamOf;
    var ready := EnsureStream(s, key);
    ReadyFrame(s, key);
    EnsureKeeps(s, key);
    XaddShape(s, key, input, fields, now, order);
    StillCaughtUp(s, ready);
    if ready.data[key].value.Stream? && Judge(input, StreamOf(ready, key), now).Accepted? {
      AppendKeepsCaughtUp(ready, key, Judge(input, StreamOf(ready, key), now).id, fields, order);
    }
  }

  /** The readers of the stream that grew leave the table; the others do not read it. */
  lemma AppendKeepsCaughtUp(s: State, key: Key, id: StreamId, fields: seq<Bytes>, order: seq<WaiterId>)
    requires CaughtUp(s) && key in s.data && s.data[key].value.Stream? && IsOrder(order, InterestedXread(s, key))
    ensures CaughtUp(Wake(AppendEntry(s, key, id, fields), order))
  {
    hide Insert;
    var appended := AppendEntry(s, key, id, fields);
    forall w | w in order ensures w in s.xreadWaiters && |s.xreadWaiters[w].keys| == |s.xreadWaiters[w].ids| {
      assert w in InterestedXread(s, key);
      assert NothingAbove(s, s.xreadWaiters[w].keys, s.xreadWaiters[w].ids);
    }
    WakeAnswersAll(appended, order);
    hide XreadRows;
    var t := Woken(appended, order);
    forall w | w in t.xreadWaiters ensures NothingAbove(t, t.xreadWaiters[w].keys, t.xreadWaiters[w].ids) {
      var waiter := s.xreadWaiters[w];
      assert NothingAbove(s, waiter.keys, waiter.ids);
      assert w !in InterestedXread(s, key);
      forall i | 0 <= i < |waiter.keys| ensures Above(StreamOf(t, waiter.keys[i]), waiter.ids[i]) == [] {
        assert waiter.keys[i] in waiter.keys;
      }
    }
  }

  lemma PrimKeepsCaughtUp(s: State, c: ClientId, cmd: Command, ch: Choice)
    requires CaughtUp(s) && StreamsOrdered(s) && Allowed(s, c, cmd, ch)
    ensures CaughtUp(Prim(s, c, cmd, ch).state)
  {
    hide StreamsOrdered, CaughtUp, ExecFrame;
    if cmd.Xadd? {
      hide XaddCommand;
      XaddKeepsCaughtUp(s, cmd.key, cmd.id, cmd.fieldValues, ch.now, ch.order);
    } else {
      hide Prim;
      PrimTouches(s, c, cmd, ch);
      OtherCommandsMakeNoStream(s, c, cmd, ch);
      NoNewStreamsStillCaughtUp(s, Prim(s, c, cmd, ch).state);
    }
  }

  // ------------------------------------------------------------------------------- WAIT

  /** Every pending WAIT with something to wait for is still short of acknowledgements. */
  ghost predicate StillShort(s: State) {
    forall w :: w in s.waitWaiters && s.waitWaiters[w].target > 0 ==>
      CountAcked(s, s.waitWaiters[w].target) < s.waitWaiters[w].numReplicas
  }

  lemma FewerAcks(s: State, t: State, target: nat)
    requires target > 0
    requires forall c :: c in t.replicaAcks ==> c in s.replicaAcks && t.replicaAcks[c] == s.replicaAcks[c]
    ensures CountAcked(t, target) <= CountAcked(s, target)
  {
    SubsetSize(AckedBy(t, target), AckedBy(s, target));
  }

  lemma {:induction false} SubsetSize<T>(a: set<T>, b: set<T>)
    requires a <= b
    ensures |a| <= |b|
  {
    assert b == a + (b - a);
  }

  lemma StillShortAfter(s: State, t: State)
    requires StillShort(s)
    requires forall w :: w in t.waitWaiters ==> w in s.waitWaiters && t.waitWaiters[w] == s.waitWaiters[w]
    requires forall c :: c in t.replicaAcks ==> c in s.replicaAcks && t.replicaAcks[c] == s.replicaAcks[c]
    ensures StillShort(t)
  {
    forall w | w in t.waitWaiters && t.waitWaiters[w].target > 0
      ensures CountAcked(t, t.waitWaiters[w].target) < t.waitWaiters[w].numReplicas
    {
      FewerAcks(s, t, t.waitWaiters[w].target);
    }
  }

  lemma {:induction false} ReleaseRemoves(s: State, order: seq<WaiterId>)
    ensures Release(s, order).waitWaiters == s.waitWaiters - set w | w in order
    decreases |order|
  {
    if order == [] {
      assert s.waitWaiters - (set w | w in order) == s.waitWaiters;
    } else {
      hide CountAcked;
      var u := ReleaseOne(s, order[0]);
      ReleaseRemoves(u, order[1..]);
      assert u.waitWaiters - (set w | w in order[1..]) == s.waitWaiters - set w | w in order;
    }
  }

  /** An acknowledgement completes every WAIT it satisfies, so those that remain are still short. */
  lemma AckKeepsShort(s: State, c: ClientId, n: nat, order: seq<WaiterId>)
    requires IsOrder(order, Satisfied(RecordAck(s, c, n)))
    ensures StillShort(AckCommand(s, c, n, order).state)
  {
    hide CountAcked, Release;
    var recorded := RecordAck(s, c, n);
    var t := Release(recorded, order);
    ReleaseRemoves(recorded, order);
    ReleaseFrame(recorded, order);
    forall w | w in t.waitWaiters && t.waitWaiters[w].target > 0
      ensures CountAcked(t, t.waitWaiters[w].target) < t.waitWaiters[w].numReplicas
    {
      assert w !in Satisfied(recorded);
      SameAcks(recorded, t, t.waitWaiters[w].target);
    }
  }

  lemma SameAcks(s: State, t: State, target: nat)
    requires t.replicaAcks == s.replicaAcks && t.clients == s.clients
    ensures CountAcked(t, target) == CountAcked(s, target)
  {
    assert AckedBy(t, target) == AckedBy(s, target) && Replicas(t) == Replicas(s);
  }

  lemma PrimKeepsShort(s: State, c: ClientId, cmd: Command, ch: Choice)
    requires StillShort(s) && Allowed(s, c, cmd, ch)
    ensures StillShort(Prim(s, c, cmd, ch).state)
  {
    hide StillShort, ExecFrame, IsOrder;
    if cmd.Ack? {
      hide AckCommand;
      AckKeepsShort(s, c, cmd.ackBytes, ch.order);
    } else {
      hide Prim;
      PrimTouches(s, c, cmd, ch);
      StillShortAfter(s, Prim(s, c, cmd, ch).state);
    }
  }

  // ----------------------------------------------------------------------- over all runs

  ghost predicate Waiting(s: State) {
    CaughtUp(s) && StillShort(s) && StreamsOrdered(s)
  }

  lemma WaitingPrinciple()
    ensures forall u, d, ks :: Waiting(u) ==> Waiting(Touch(u, d, ks))
    ensures forall u, d :: Waiting(u) ==> Waiting(Cleanup(u, d))
    ensures forall u, d, p, ch :: Waiting(u) && Allowed(u, d, p, ch) ==> Waiting(Prim(u, d, p, ch).state)
  {
    hide Prim, Touch, Cleanup, Allowed, CaughtUp, StillShort, StreamsOrdered;
    forall u, d, ks | Waiting(u) ensures Waiting(Touch(u, d, ks)) {
      TouchFrame(u, d, ks);
      WaitingFrame(u, Touch(u, d, ks));
    }
    forall u, d | Waiting(u) ensures Waiting(Cleanup(u, d)) {
      CleanupFrame(u, d);
      WaitingFrame(u, Cleanup(u, d));
    }
    forall u, d, p, ch | Waiting(u) && Allowed(u, d, p, ch) ensures Waiting(Prim(u, d, p, ch).state) {
      PrimKeepsCaughtUp(u, d, p, ch);
      PrimKeepsShort(u, d, p, ch);
      PrimGrows(u, d, p, ch);
    }
  }

  lemma WaitingFrame(s: State, t: State)
    requires Waiting(s) && t.data == s.data
    requires forall w :: w in t.xreadWaiters ==> w in s.xreadWaiters && t.xreadWaiters[w] == s.xreadWaiters[w]
    requires forall w :: w in t.waitWaiters ==> w in s.waitWaiters && t.waitWaiters[w] == s.waitWaiters[w]
    requires forall c :: c in t.replicaAcks ==> c in s.replicaAcks && t.replicaAcks[c] == s.replicaAcks[c]
    ensures Waiting(t)
  {
    hide CaughtUp, StillShort, StreamsOrdered;
    SelfGood(s);
    SameStreams(s, s, t);
    StillCaughtUp(s, t);
    StillShortAfter(s, t);
  }

  lemma SettleKeepsWaiting(s: State, c: ClientId, cmd: Command, r: Result, mid: State, channel: Channel,
                           order: seq<ClientId>)
    requires Executes(s, c, cmd, r, mid) && Waiting(mid)
    ensures Waiting(Settle(mid, channel, cmd, r, order))
  {
    hide Executes, PushTo;
    var t := Settle(mid, channel, cmd, r, order);
    SettleFrame(mid, channel, cmd, r, order);
    SelfGood(mid);
    SameStreams(mid, mid, t);
    if r.BlockXread? {
      BlockingMeans(s, c, cmd, r, mid);
      StillShortAfter(mid, t);
    } else if r.BlockWait? {
      BlockingMeans(s, c, cmd, r, mid);
      StillCaughtUp(mid, t);
    } else {
      WaitingFrame(mid, t);
    }
  }

  lemma StepKeepsWaiting(s: State, e: Envelope, t: State)
    requires Waiting(s) && Step(s, e, t)
    ensures Waiting(t)
  {
    hide Step, Executes, Account, Settle, Waiting, IsOrder, Prim, Touch, Cleanup, Allowed;
    WaitingPrinciple();
    if e.WithReply? {
      var r, mid, order := RequestParts(s, e.client, e.command, e.channel, t);
      AccountFrame(s, e.command);
      WaitingFrame(s, Account(s, e.command));
      ExecKeeps(Waiting, Account(s, e.command), e.client, e.command, r, mid);
      SettleKeepsWaiting(Account(s, e.command), e.client, e.command, r, mid, e.channel, order);
    } else if e.Replicate? {
      var r := ReplicatePart(s, e.command, t);
      ExecKeeps(Waiting, s, 0, e.command, r, t);
    } else {
      QuietSteps(s, e, t);
      WaitingFrame(s, t);
    }
  }

  lemma BootWaiting(s: State)
    requires Booted(s)
    ensures Waiting(s)
  {
    hide Prim, Touch, Cleanup, Allowed, ExecutesAll, StreamsOrdered;
    var r: RdbCodec.Rdb, cmds, replies :| ExecutesAll(Fresh(FromRdb(r)), 0, cmds, replies, s);
    NoStreamsAtStart(r);
    hide Waiting;
    WaitingPrinciple();
    ExecSeqKeeps(Waiting, Fresh(FromRdb(r)), 0, cmds, replies, s);
  }

  lemma NoStreamsAtStart(r: RdbCodec.Rdb)
    ensures StreamsOrdered(Fresh(FromRdb(r)))
  {
    forall k ensures StreamOf(Fresh(FromRdb(r)), k) == [] {
    }
  }

  /** In every reachable state no blocked reader has anything to read, and no pending WAIT with a
      target has enough acknowledgements. */
  lemma {:induction false} NobodyWaitsForWhatIsThere(states: seq<State>, envelopes: seq<Envelope>, i: nat)
    requires Run(states, envelopes) && i < |states|
    ensures CaughtUp(states[i]) && StillShort(states[i]) && StreamsOrdered(states[i])
  {
    hide Step, Booted, CaughtUp, StillShort, StreamsOrdered;
    if i == 0 {
      BootWaiting(states[0]);
    } else {
      NobodyWaitsForWhatIsThere(states, envelopes, i - 1);
      StepKeepsWaiting(states[i - 1], envelopes[i - 1], states[i]);
    }
  }
}
