/**
 List elements are delivered exactly once: what was handed out and what is still there is
 what was pushed, in order when all pushes were at the back (`src/main.rs:322-361`,
 `929-1017`, `1058-1066`).
 */
module ListDelivery {
  import opened Types
  import opened Orders
  import opened RespCodec
  import opened Commands
  import opened StoreModel
  import opened StoreFrames
  import opened BlockingLists

  // ---------------------------------------------------------------- histories of one key

  function AfterPush(before: seq<Bytes>, e: ListEvent, k: Key): seq<Bytes> {
    if e.key != k || e.Took? then before
    else if e.Overwrote? then []
    else before + e.elems
  }

  function AfterTake(before: seq<Bytes>, e: ListEvent, k: Key): seq<Bytes> {
    if e.key != k then before
    else if e.Overwrote? then []
    else if e.Took? then before + [e.elem]
    else before
  }

  predicate StillAtBack(before: bool, e: ListEvent, k: Key) {
    if e.key != k then before else e.Overwrote? || (before && !e.PushedFront?)
  }

  /** Everything pushed to `k` since it was last overwritten by a string, in the order of arrival. */
  function PushedTo(log: seq<ListEvent>, k: Key): seq<Bytes> {
    if log == [] then [] else AfterPush(PushedTo(log[..|log| - 1], k), log[|log| - 1], k)
  }

  /** Everything handed out from `k` since it was last overwritten, in the order of removal. */
  function TakenFrom(log: seq<ListEvent>, k: Key): seq<Bytes> {
    if log == [] then [] else AfterTake(TakenFrom(log[..|log| - 1], k), log[|log| - 1], k)
  }

  /** Nothing was pushed to the front of `k` since it was last overwritten. */
  predicate OnlyAtBack(log: seq<ListEvent>, k: Key) {
    log == [] || StillAtBack(OnlyAtBack(log[..|log| - 1], k), log[|log| - 1], k)
  }

  ghost predicate DeliveredAt(s: State, k: Key) {
    && multiset(PushedTo(s.listLog, k)) == multiset(TakenFrom(s.listLog, k)) + multiset(ListOf(s, k))
    && (OnlyAtBack(s.listLog, k) ==> PushedTo(s.listLog, k) == TakenFrom(s.listLog, k) + ListOf(s, k))
  }

  /** Exactly once, and in order for a queue. */
  ghost predicate ExactlyOnce(s: State) {
    forall k :: DeliveredAt(s, k)
  }

  // ------------------------------------------------------------------------- one event

  lemma AfterEvent(log: seq<ListEvent>, e: ListEvent, k: Key)
    ensures PushedTo(log + [e], k) == AfterPush(PushedTo(log, k), e, k)
    ensures TakenFrom(log + [e], k) == AfterTake(TakenFrom(log, k), e, k)
    ensures OnlyAtBack(log + [e], k) == StillAtBack(OnlyAtBack(log, k), e, k)
  {
    assert (log + [e])[..|log + [e]| - 1] == log;
  }

  lemma PopDelivers(s: State, j: Key)
    requires ExactlyOnce(s) && ListOf(s, j) != []
    ensures ExactlyOnce(PopFront(s, j))
  {
    hide PopFront, DeliveredAt, ListOf;
    forall k ensures DeliveredAt(PopFront(s, j), k) {
      PopDeliversAt(s, j, k);
    }
  }

  lemma PopDeliversAt(s: State, j: Key, k: Key)
    requires DeliveredAt(s, k) && ListOf(s, j) != []
    ensures DeliveredAt(PopFront(s, j), k)
  {
    hide PopFront, PushedTo, TakenFrom, OnlyAtBack, ListOf;
    var head := ListOf(s, j)[0];
    PopFrontLog(s, j);
    PopFrontLists(s, j, k);
    AfterEvent(s.listLog, Took(j, head), k);
    if k == j {
      assert ListOf(s, j) == [head] + ListOf(s, j)[1..];
      assert TakenFrom(s.listLog, k) + [head] + ListOf(s, j)[1..] == TakenFrom(s.listLog, k) + ListOf(s, j);
    }
  }

  lemma {:induction false} ReversedSameElements(xs: seq<Bytes>)
    ensures multiset(Reversed(xs)) == multiset(xs)
  {
    if xs != [] {
      ReversedSameElements(xs[1..]);
      assert xs == [xs[0]] + xs[1..];
    }
  }

  lemma PushDelivers(s: State, j: Key, elems: seq<Bytes>, front: bool)
    requires ExactlyOnce(s)
    ensures ExactlyOnce(PushElements(s, j, elems, front))
  {
    hide PushElements, PushedTo, TakenFrom, OnlyAtBack, ListOf, Reversed;
    forall k ensures DeliveredAt(PushElements(s, j, elems, front), k) {
      PushDeliversAt(s, j, elems, front, k);
    }
  }

  lemma PushDeliversAt(s: State, j: Key, elems: seq<Bytes>, front: bool, k: Key)
    requires DeliveredAt(s, k)
    ensures DeliveredAt(PushElements(s, j, elems, front), k)
  {
    hide PushElements, PushedTo, TakenFrom, OnlyAtBack, ListOf, Reversed;
    var e := if front then PushedFront(j, elems) else PushedBack(j, elems);
    PushLog(s, j, elems, front);
    AfterEvent(s.listLog, e, k);
    PushLists(s, j, elems, front, k);
    ReversedSameElements(elems);
  }

  lemma PushLog(s: State, j: Key, elems: seq<Bytes>, front: bool)
    ensures PushElements(s, j, elems, front).listLog ==
            s.listLog + [if front then PushedFront(j, elems) else PushedBack(j, elems)]
  {
    hide ListOf, Reversed;
  }

  /** A key set to a string starts anew. */
  lemma OverwriteDelivers(s: State, t: State, j: Key)
    requires ExactlyOnce(s) && t.listLog == s.listLog + [Overwrote(j)]
    requires forall k :: ListOf(t, k) == if k == j then [] else ListOf(s, k)
    ensures ExactlyOnce(t)
  {
    forall k ensures DeliveredAt(t, k) {
      assert DeliveredAt(s, k);
      AfterEvent(s.listLog, Overwrote(j), k);
    }
  }

  lemma SameLists(s: State, t: State)
    requires ExactlyOnce(s) && t.listLog == s.listLog && forall k :: ListOf(t, k) == ListOf(s, k)
    ensures ExactlyOnce(t)
  {
    forall k ensures DeliveredAt(t, k) {
      assert DeliveredAt(s, k);
    }
  }

  // ------------------------------------------------------------------------- execution

  lemma ServeOneDelivers(s: State, w: WaiterId)
    requires ExactlyOnce(s)
    ensures ExactlyOnce(ServeOne(s, w))
  {
    hide FirstReady, ExactlyOnce, PopFront;
    if w in s.blpopWaiters && FirstReady(s, s.blpopWaiters[w].keys).Some? {
      var popped := PopFront(s, FirstReady(s, s.blpopWaiters[w].keys).value);
      PopDelivers(s, FirstReady(s, s.blpopWaiters[w].keys).value);
      SameLists(popped, ServeOne(s, w));
    }
  }

  lemma PushCommandDelivers(s: State, k: Key, elems: seq<Bytes>, front: bool, order: seq<WaiterId>)
    requires ExactlyOnce(s)
    ensures ExactlyOnce(PushCommand(s, k, elems, front, order).state)
  {
    hide ExactlyOnce, PushElements, ServeOne, Serve, ListOf;
    PushDelivers(s, k, elems, front);
    forall u, w | ExactlyOnce(u) ensures ExactlyOnce(ServeOne(u, w)) {
      ServeOneDelivers(u, w);
    }
    ServeKeeps(ExactlyOnce, PushElements(s, k, elems, front), order);
  }

  lemma LpopCommandDelivers(s: State, k: Key, count: Option<u32>)
    requires ExactlyOnce(s)
    ensures ExactlyOnce(LpopCommand(s, k, count).state)
  {
    hide ExactlyOnce, PopFront, PopMany;
    if ListOf(s, k) != [] {
      PopDelivers(s, k);
      if count.Some? {
        forall u | ExactlyOnce(u) && ListOf(u, k) != [] ensures ExactlyOnce(PopFront(u, k)) {
          PopDelivers(u, k);
        }
        PopManyKeeps(ExactlyOnce, s, k, count.value);
      }
    }
  }

  lemma BlpopCommandDelivers(s: State, keys: seq<Key>)
    requires ExactlyOnce(s)
    ensures ExactlyOnce(BlpopCommand(s, keys).state)
  {
    hide ExactlyOnce, PopFront, FirstReady;
    if FirstReady(s, keys).Some? {
      PopDelivers(s, FirstReady(s, keys).value);
    } else {
      SameLists(s, BlpopCommand(s, keys).state);
    }
  }

  lemma StringCommandsDeliver(s: State, key: Key, value: Bytes, ex: Option<u64>, px: Option<u64>, now: u64)
    requires ExactlyOnce(s)
    ensures ExactlyOnce(SetCommand(s, key, value, ex, px, now).state)
  {
    hide ExactlyOnce, ListOf, Deadline;
    var t := SetCommand(s, key, value, ex, px, now).state;
    forall k ensures ListOf(t, k) == if k == key then [] else ListOf(s, k) {
      SetLists(s, key, value, ex, px, now, k);
    }
    OverwriteDelivers(s, t, key);
  }

  lemma IncrDelivers(s: State, key: Key)
    requires ExactlyOnce(s)
    ensures ExactlyOnce(IncrCommand(s, key).state)
  {
    hide ExactlyOnce, IncrCommand;
    var t := IncrCommand(s, key).state;
    forall k ensures ListOf(t, k) == if k == key then [] else ListOf(s, k) {
      IncrLists(s, key, k);
    }
    IncrLog(s, key);
    if t.listLog == s.listLog {
      SameLists(s, t);
    } else {
      OverwriteDelivers(s, t, key);
    }
  }

  lemma IncrLog(s: State, key: Key)
    ensures
      var t := IncrCommand(s, key).state;
      if HoldsString(s, key) then t.listLog == s.listLog && ListOf(s, key) == []
      else t.listLog == s.listLog + [Overwrote(key)]
  {
    hide Incremented, Decimal.IntText, Ascii;
    if HoldsString(s, key) {
      assert IncrResult(s, key) == Incremented(s.data[key].value.s);
    } else {
      assert IncrResult(s, key) == Some(1);
    }
  }

  lemma PrimDelivers(s: State, c: ClientId, cmd: Command, ch: Choice)
    requires ExactlyOnce(s)
    ensures ExactlyOnce(Prim(s, c, cmd, ch).state)
  {
    hide SetCommand, WatchKeys, Cleanup, IncrCommand, XaddCommand, XreadCommand, PushCommand, LpopCommand;
    hide AckCommand, WaitCommand, BlpopCommand, ExecFrame, ExactlyOnce;
    var t := Prim(s, c, cmd, ch).state;
    if cmd.Rpush? {
      PushCommandDelivers(s, cmd.key, cmd.elements, false, ch.order);
    } else if cmd.Lpush? {
      PushCommandDelivers(s, cmd.key, cmd.elements, true, ch.order);
    } else if cmd.Lpop? {
      LpopCommandDelivers(s, cmd.key, cmd.count);
    } else if cmd.Blpop? {
      BlpopCommandDelivers(s, cmd.keys);
    } else if cmd.Set? {
      StringCommandsDeliver(s, cmd.key, cmd.value, cmd.ex, cmd.px, ch.now);
    } else if cmd.Incr? {
      IncrDelivers(s, cmd.key);
    } else {
      OtherCommandsKeepLists(s, c, cmd, ch);
      SameLists(s, t);
    }
  }

  lemma OtherCommandsKeepLists(s: State, c: ClientId, cmd: Command, ch: Choice)
    requires !cmd.Rpush? && !cmd.Lpush? && !cmd.Lpop? && !cmd.Blpop? && !cmd.Set? && !cmd.Incr?
    ensures
      var t := Prim(s, c, cmd, ch).state;
      t.listLog == s.listLog && forall k :: ListOf(t, k) == ListOf(s, k)
  {
    PrimTouches(s, c, cmd, ch);
    hide ExecFrame, XaddCommand, ListOf;
    if cmd.Xadd? {
      forall k ensures ListOf(Prim(s, c, cmd, ch).state, k) == ListOf(s, k) {
        XaddLists(s, cmd.key, cmd.id, cmd.fieldValues, ch.now, ch.order, k);
      }
    } else {
      hide Prim;
      forall k ensures ListOf(Prim(s, c, cmd, ch).state, k) == ListOf(s, k) {
        SameDataSameLists(s, Prim(s, c, cmd, ch).state, k);
      }
    }
  }

  lemma DeliveryPrinciple()
    ensures forall u, d, ks :: ExactlyOnce(u) ==> ExactlyOnce(Touch(u, d, ks))
    ensures forall u, d :: ExactlyOnce(u) ==> ExactlyOnce(Cleanup(u, d))
    ensures forall u, d, p, ch :: ExactlyOnce(u) && Allowed(u, d, p, ch) ==> ExactlyOnce(Prim(u, d, p, ch).state)
  {
    hide Prim, Touch, Cleanup, Allowed, ExactlyOnce, ListOf;
    forall u, d, ks | ExactlyOnce(u) ensures ExactlyOnce(Touch(u, d, ks)) {
      TouchFrame(u, d, ks);
      SameData(u, Touch(u, d, ks));
    }
    forall u, d | ExactlyOnce(u) ensures ExactlyOnce(Cleanup(u, d)) {
      CleanupFrame(u, d);
      SameData(u, Cleanup(u, d));
    }
    forall u, d, p, ch | ExactlyOnce(u) && Allowed(u, d, p, ch) ensures ExactlyOnce(Prim(u, d, p, ch).state) {
      PrimDelivers(u, d, p, ch);
    }
  }

  lemma SameData(s: State, t: State)
    requires ExactlyOnce(s) && t.data == s.data && t.listLog == s.listLog
    ensures ExactlyOnce(t)
  {
    forall k ensures ListOf(t, k) == ListOf(s, k) {
    }
    SameLists(s, t);
  }

  lemma StepDelivers(s: State, e: Envelope, t: State)
    requires ExactlyOnce(s) && Step(s, e, t)
    ensures ExactlyOnce(t)
  {
    hide Step, Executes, Account, Settle, ExactlyOnce, IsOrder, Prim, Touch, Cleanup, Allowed;
    DeliveryPrinciple();
    if e.WithReply? {
      var r, mid, order := RequestParts(s, e.client, e.command, e.channel, t);
      AccountFrame(s, e.command);
      SameData(s, Account(s, e.command));
      ExecKeeps(ExactlyOnce, Account(s, e.command), e.client, e.command, r, mid);
      SettleFrame(mid, e.channel, e.command, r, order);
      SameData(mid, t);
    } else if e.Replicate? {
      var r := ReplicatePart(s, e.command, t);
      ExecKeeps(ExactlyOnce, s, 0, e.command, r, t);
    } else {
      QuietSteps(s, e, t);
      SameData(s, t);
    }
  }

  lemma BootDelivers(s: State)
    requires Booted(s)
    ensures ExactlyOnce(s)
  {
    hide Prim, Touch, Cleanup, Allowed, ExecutesAll;
    var r: RdbCodec.Rdb, cmds, replies :| ExecutesAll(Fresh(FromRdb(r)), 0, cmds, replies, s);
    forall k ensures DeliveredAt(Fresh(FromRdb(r)), k) {
      assert ListOf(Fresh(FromRdb(r)), k) == [];
    }
    hide ExactlyOnce;
    DeliveryPrinciple();
    ExecSeqKeeps(ExactlyOnce, Fresh(FromRdb(r)), 0, cmds, replies, s);
  }

  /** In every reachable state, for every key: handed out plus still there is what was pushed, as bags,
      and as sequences as long as nothing was pushed to the front. */
  lemma {:induction false} EveryElementOnce(states: seq<State>, envelopes: seq<Envelope>, i: nat)
    requires Run(states, envelopes) && i < |states|
    ensures ExactlyOnce(states[i])
  {
    hide Step, Booted, ExactlyOnce;
    if i == 0 {
      BootDelivers(states[0]);
    } else {
      EveryElementOnce(states, envelopes, i - 1);
      StepDelivers(states[i - 1], envelopes[i - 1], states[i]);
    }
  }

  // ------------------------------------------------------- handed out means sent to a client

  lemma PopFrontLog(s: State, k: Key)
    requires ListOf(s, k) != []
    ensures PopFront(s, k).listLog == s.listLog + [Took(k, ListOf(s, k)[0])]
  {
  }

  lemma {:induction false} PopManyTakes(s: State, k: Key, count: nat)
    ensures PopMany(s, k, count).listLog == s.listLog + TakenEvents(s, k, Min(count, |ListOf(s, k)|))
    ensures ListOf(PopMany(s, k, count), k) == ListOf(s, k)[Min(count, |ListOf(s, k)|)..]
    decreases count
  {
    hide PopFront, PopMany, ListOf;
    var m := Min(count, |ListOf(s, k)|);
    if count == 0 || ListOf(s, k) == [] {
      PopNoMore(s, k, count);
      assert s.listLog + [] == s.listLog;
    } else {
      var u := PopFront(s, k);
      PopOneMore(s, k, count);
      PopFrontLists(s, k, k);
      PopFrontLog(s, k);
      PopManyTakes(u, k, count - 1);
      assert TakenEvents(s, k, m) == [Took(k, ListOf(s, k)[0])] + TakenEvents(u, k, m - 1);
    }
  }

  /** The elements LPOP replies with are exactly those recorded as taken, in that order. */
  lemma LpopRepliesWhatItTakes(s: State, k: Key, count: Option<u32>)
    ensures
      var m := if count == None then Min(1, |ListOf(s, k)|) else Min(count.value, |ListOf(s, k)|);
      var o := LpopCommand(s, k, count);
      && o.state.listLog == s.listLog + TakenEvents(s, k, m)
      && o.result.Done?
      && o.result.reply ==
         if ListOf(s, k) == [] then NullBulkString
         else if count == None then BulkString(ListOf(s, k)[0])
         else Array(BulkStrings(ListOf(s, k)[..m]))
  {
    if ListOf(s, k) == [] {
      assert s.listLog + [] == s.listLog;
    } else if count == None {
      assert TakenEvents(s, k, 1) == [Took(k, ListOf(s, k)[0])];
    } else {
      PopManyTakes(s, k, count.value);
    }
  }

  /** BLPOP replies with the element it takes, from the first of its keys that has one. */
  lemma BlpopRepliesWhatItTakes(s: State, keys: seq<Key>)
    ensures
      var o := BlpopCommand(s, keys);
      if exists i :: 0 <= i < |keys| && ListOf(s, keys[i]) != [] then
        exists i :: 0 <= i < |keys| && ListOf(s, keys[i]) != [] && (forall j :: 0 <= j < i ==> ListOf(s, keys[j]) == [])
          && o.result == Done(PoppedReply(keys[i], ListOf(s, keys[i])[0]))
          && o.state.listLog == s.listLog + [Took(keys[i], ListOf(s, keys[i])[0])]
      else o.result.BlockBlpop? && o.state.listLog == s.listLog
  {
    if FirstReady(s, keys).Some? {
      var i := FirstReadyIsFirst(s, keys);
    } else {
      forall i | 0 <= i < |keys| ensures ListOf(s, keys[i]) == [] {
        assert keys[i] in keys;
      }
    }
  }

  lemma {:induction false} FirstReadyIsFirst(s: State, keys: seq<Key>) returns (i: nat)
    requires FirstReady(s, keys).Some?
    ensures i < |keys| && keys[i] == FirstReady(s, keys).value && ListOf(s, keys[i]) != []
    ensures forall j :: 0 <= j < i ==> ListOf(s, keys[j]) == []
  {
    if ListOf(s, keys[0]) != [] {
      i := 0;
    } else {
      var j := FirstReadyIsFirst(s, keys[1..]);
      i := j + 1;
    }
  }
}
