/**
 No lost wakeup for BLPOP: between store steps no blocked client names a key with elements
 (`src/main.rs:322-361`, `929-986`, `1058-1066`, `1265-1276`).
 */
module BlockingLists {
  import opened Types
  import opened Orders
  import opened Commands
  import opened StoreModel
  import opened StoreFrames

  ghost predicate NoLostWakeup(s: State) {
    forall w, k :: w in s.blpopWaiters && k in s.blpopWaiters[w].keys ==> ListOf(s, k) == []
  }

  /** The same, except for the key that was just pushed to. */
  ghost predicate NoLostWakeupBut(s: State, key: Key) {
    forall w, k :: w in s.blpopWaiters && k in s.blpopWaiters[w].keys && k != key ==> ListOf(s, k) == []
  }

  // ------------------------------------------------------------ what a notification does

  function FirstOf(order: seq<WaiterId>, m: nat): set<WaiterId>
    requires m <= |order|
  {
    set i | 0 <= i < m :: order[i]
  }

  function ServedData(s: State, k: Key, m: nat): map<Key, Value>
    requires m <= |ListOf(s, k)|
  {
    if m == 0 then s.data else s.data[k := s.data[k].(value := List(ListOf(s, k)[m..]))]
  }

  function ServedReplies(s: State, k: Key, order: seq<WaiterId>, m: nat): seq<Output>
    requires m <= |ListOf(s, k)| && m <= |order| && forall w :: w in order ==> w in s.blpopWaiters
  {
    seq(m, i requires 0 <= i < m => Reply(s.blpopWaiters[order[i]].channel, PoppedReply(k, ListOf(s, k)[i])))
  }

  function TakenEvents(s: State, k: Key, m: nat): seq<ListEvent>
    requires m <= |ListOf(s, k)|
  {
    seq(m, i requires 0 <= i < m => Took(k, ListOf(s, k)[i]))
  }

  /** The first `m` waiters of `order` have each received, in order, the first `m` elements at `k`. */
  function Served(s: State, k: Key, order: seq<WaiterId>, m: nat): State
    requires m <= |ListOf(s, k)| && m <= |order| && forall w :: w in order ==> w in s.blpopWaiters
  {
    s.(data := ServedData(s, k, m),
       blpopWaiters := s.blpopWaiters - FirstOf(order, m),
       out := s.out + ServedReplies(s, k, order, m),
       listLog := s.listLog + TakenEvents(s, k, m))
  }

  lemma ServedList(s: State, k: Key, order: seq<WaiterId>, m: nat, j: Key)
    requires m <= |ListOf(s, k)| && m <= |order| && forall w :: w in order ==> w in s.blpopWaiters
    ensures ListOf(Served(s, k, order, m), j) == if j == k then ListOf(s, k)[m..] else ListOf(s, j)
  {
  }

  /** Whoever is next gets the next element, and nothing else. */
  lemma ServeNext(s: State, k: Key, order: seq<WaiterId>, m: nat)
    requires NoLostWakeupBut(s, k) && IsOrder(order, InterestedBlpop(s, k))
    requires m < |ListOf(s, k)| && m < |order|
    ensures ServeOne(Served(s, k, order, m), order[m]) == Served(s, k, order, m + 1)
  {
    var u := Served(s, k, order, m);
    var w := order[m];
    assert w in InterestedBlpop(s, k);
    assert w in u.blpopWaiters && u.blpopWaiters[w] == s.blpopWaiters[w];
    forall j ensures ListOf(u, j) == if j == k then ListOf(s, k)[m..] else ListOf(s, j) {
      ServedList(s, k, order, m, j);
    }
    assert FirstReady(u, s.blpopWaiters[w].keys) == Some(k);
    ServedGrows(s, k, order, m);
    hide FirstReady, Served, ListOf;
    assert ListOf(u, k) == ListOf(s, k)[m..];
  }

  /** Serving one more: its element leaves the list, its waiter the table. */
  lemma ServedGrows(s: State, k: Key, order: seq<WaiterId>, m: nat)
    requires m < |ListOf(s, k)| && m < |order| && Distinct(order) && forall w :: w in order ==> w in s.blpopWaiters
    requires ListOf(Served(s, k, order, m), k) == ListOf(s, k)[m..]
    ensures
      var u := Served(s, k, order, m);
      Served(s, k, order, m + 1) ==
      Answer(PopFront(u, k).(blpopWaiters := u.blpopWaiters - {order[m]}),
             s.blpopWaiters[order[m]].channel, PoppedReply(k, ListOf(u, k)[0]))
  {
    var u := Served(s, k, order, m);
    var t := Served(s, k, order, m + 1);
    var w := order[m];
    var head := ListOf(s, k)[m];
    assert ListOf(u, k)[0] == head && ListOf(u, k)[1..] == ListOf(s, k)[m + 1..];
    assert PopFront(u, k).data == t.data;
    assert FirstOf(order, m + 1) == FirstOf(order, m) + {w};
    assert u.blpopWaiters - {w} == t.blpopWaiters;
    assert ServedReplies(s, k, order, m + 1)
        == ServedReplies(s, k, order, m) + [Reply(s.blpopWaiters[w].channel, PoppedReply(k, head))];
    assert TakenEvents(s, k, m + 1) == TakenEvents(s, k, m) + [Took(k, head)];
  }

  /** Once the list is empty the remaining waiters are put back unchanged. */
  lemma ServeNobody(s: State, k: Key, order: seq<WaiterId>, i: nat)
    requires NoLostWakeupBut(s, k) && IsOrder(order, InterestedBlpop(s, k))
    requires |ListOf(s, k)| <= i < |order|
    ensures ServeOne(Served(s, k, order, |ListOf(s, k)|), order[i]) == Served(s, k, order, |ListOf(s, k)|)
  {
    var m := |ListOf(s, k)|;
    var u := Served(s, k, order, m);
    var w := order[i];
    assert w in InterestedBlpop(s, k);
    forall j ensures ListOf(u, j) == if j == k then [] else ListOf(s, j) {
      ServedList(s, k, order, m, j);
    }
    if w in u.blpopWaiters {
      assert u.blpopWaiters[w] == s.blpopWaiters[w];
    }
  }

  lemma {:induction false} ServeFrom(s: State, k: Key, order: seq<WaiterId>, i: nat)
    requires NoLostWakeupBut(s, k) && IsOrder(order, InterestedBlpop(s, k)) && i <= |order|
    ensures Serve(Served(s, k, order, Min(i, |ListOf(s, k)|)), order[i..])
         == Served(s, k, order, Min(|order|, |ListOf(s, k)|))
    decreases |order| - i
  {
    hide ServeOne, Served;
    if i < |order| {
      assert order[i..][0] == order[i] && order[i..][1..] == order[i + 1..];
      if i < |ListOf(s, k)| {
        ServeNext(s, k, order, i);
      } else {
        ServeNobody(s, k, order, i);
      }
      ServeFrom(s, k, order, i + 1);
    }
  }

  /** After a push to `k`, whatever the iteration order: as many waiters as there are elements are
      woken, the i-th of them with the i-th element of `k` and of no other key; the rest stay. */
  lemma PushServesInOrder(s: State, k: Key, order: seq<WaiterId>)
    requires NoLostWakeupBut(s, k) && IsOrder(order, InterestedBlpop(s, k))
    ensures Serve(s, order) == Served(s, k, order, Min(|order|, |ListOf(s, k)|))
  {
    ServeFrom(s, k, order, 0);
    assert order[0..] == order;
    assert Served(s, k, order, 0) == s by {
      assert s.out + [] == s.out && s.listLog + [] == s.listLog;
      assert s.blpopWaiters - FirstOf(order, 0) == s.blpopWaiters;
    }
  }

  /** The waiter taken out for its turn is always still registered: the `unwrap` does not fail. */
  lemma WaiterStillThere(s: State, k: Key, order: seq<WaiterId>, i: nat)
    requires NoLostWakeupBut(s, k) && IsOrder(order, InterestedBlpop(s, k)) && i < |order|
    ensures order[i] in Serve(s, order[..i]).blpopWaiters
  {
    ServePrefix(s, k, order, i);
    assert order[i] in InterestedBlpop(s, k);
  }

  lemma {:induction false} ServePrefix(s: State, k: Key, order: seq<WaiterId>, i: nat)
    requires NoLostWakeupBut(s, k) && IsOrder(order, InterestedBlpop(s, k)) && i <= |order|
    ensures Serve(s, order[..i]) == Served(s, k, order, Min(i, |ListOf(s, k)|))
  {
    if i == 0 {
      assert s.out + [] == s.out && s.listLog + [] == s.listLog;
      assert s.blpopWaiters - FirstOf(order, 0) == s.blpopWaiters;
    } else {
      hide ServeOne, Served;
      ServePrefix(s, k, order, i - 1);
      assert order[..i] == order[..i - 1] + [order[i - 1]];
      ServeSnoc(s, order[..i - 1], order[i - 1]);
      if i - 1 < |ListOf(s, k)| {
        ServeNext(s, k, order, i - 1);
      } else {
        ServeNobody(s, k, order, i - 1);
      }
    }
  }

  lemma {:induction false} ServeSnoc(s: State, order: seq<WaiterId>, w: WaiterId)
    ensures Serve(s, order + [w]) == ServeOne(Serve(s, order), w)
    decreases |order|
  {
    hide ServeOne;
    if order == [] {
      assert ([] + [w])[1..] == [];
    } else {
      assert (order + [w])[1..] == order[1..] + [w];
      ServeSnoc(ServeOne(s, order[0]), order[1..], w);
    }
  }

  // --------------------------------------------------------------------- the invariant

  /** Fewer waiters and no new elements cannot lose a wakeup. */
  lemma Shrinking(s: State, t: State)
    requires NoLostWakeup(s)
    requires forall w :: w in t.blpopWaiters ==> w in s.blpopWaiters && t.blpopWaiters[w] == s.blpopWaiters[w]
    requires forall k :: ListOf(s, k) == [] ==> ListOf(t, k) == []
    ensures NoLostWakeup(t)
  {
  }

  lemma PushKeepsWakeups(s: State, k: Key, elems: seq<Bytes>, front: bool, order: seq<WaiterId>)
    requires NoLostWakeup(s) && IsOrder(order, InterestedBlpop(s, k))
    ensures NoLostWakeup(PushCommand(s, k, elems, front, order).state)
  {
    hide PushElements;
    var pushed := PushElements(s, k, elems, front);
    PushElementsFrame(s, k, elems, front);
    forall j | j != k ensures ListOf(pushed, j) == ListOf(s, j) {
      PushLists(s, k, elems, front, j);
    }
    assert NoLostWakeupBut(pushed, k);
    assert InterestedBlpop(pushed, k) == InterestedBlpop(s, k);
    PushServesInOrder(pushed, k, order);
    var m := Min(|order|, |ListOf(pushed, k)|);
    var t := Served(pushed, k, order, m);
    if m == |order| {
      forall w | w in InterestedBlpop(s, k) ensures w in FirstOf(order, m) {
        assert w in order;
      }
    }
    forall w, j | w in t.blpopWaiters && j in t.blpopWaiters[w].keys ensures ListOf(t, j) == [] {
      ServedList(pushed, k, order, m, j);
      assert j == k ==> w in InterestedBlpop(s, k);
    }
  }

  lemma {:induction false} PopsKeepWakeups(s: State, k: Key, count: nat)
    ensures forall j :: ListOf(s, j) == [] ==> ListOf(PopMany(s, k, count), j) == []
    decreases count
  {
    if count > 0 && ListOf(s, k) != [] {
      PopsKeepWakeups(PopFront(s, k), k, count - 1);
    }
  }

  /** Commands that put no element into any list. */
  lemma OtherCommandsShrink(s: State, c: ClientId, cmd: Command, ch: Choice, k: Key)
    requires !cmd.Rpush? && !cmd.Lpush? && ListOf(s, k) == []
    ensures ListOf(Prim(s, c, cmd, ch).state, k) == []
  {
    hide SetCommand, WatchKeys, Cleanup, IncrCommand, XaddCommand, XreadCommand, PushCommand, LpopCommand;
    hide AckCommand, WaitCommand, PopMany, BlpopCommand, ExecFrame;
    PrimTouches(s, c, cmd, ch);
    match cmd {
      case Lpop(key, count) => LpopShrinks(s, key, count, k);
      case Blpop(keys, _) => BlpopShrinks(s, keys, k);
      case Set(key, value, ex, px) => SetLists(s, key, value, ex, px, ch.now, k);
      case Incr(key) => IncrLists(s, key, k);
      case Xadd(key, id, fields) => XaddLists(s, key, id, fields, ch.now, ch.order, k);
      case _ =>
    }
  }

  lemma LpopShrinks(s: State, key: Key, count: Option<u32>, k: Key)
    requires ListOf(s, k) == []
    ensures ListOf(LpopCommand(s, key, count).state, k) == []
  {
    hide PopMany;
    if count.Some? {
      PopsKeepWakeups(s, key, count.value);
    }
  }

  lemma BlpopShrinks(s: State, keys: seq<Key>, k: Key)
    requires ListOf(s, k) == []
    ensures ListOf(BlpopCommand(s, keys).state, k) == []
  {
    hide FirstReady, PopFront;
    if FirstReady(s, keys).Some? {
      PopFrontLists(s, FirstReady(s, keys).value, k);
    }
  }

  lemma PrimKeepsWakeups(s: State, c: ClientId, cmd: Command, ch: Choice)
    requires NoLostWakeup(s) && Allowed(s, c, cmd, ch)
    ensures NoLostWakeup(Prim(s, c, cmd, ch).state)
  {
    hide PushCommand, NoLostWakeup, IsOrder;
    if cmd.Rpush? {
      PushKeepsWakeups(s, cmd.key, cmd.elements, false, ch.order);
    } else if cmd.Lpush? {
      PushKeepsWakeups(s, cmd.key, cmd.elements, true, ch.order);
    } else {
      hide Prim;
      var t := Prim(s, c, cmd, ch).state;
      PrimTouches(s, c, cmd, ch);
      forall k | ListOf(s, k) == [] ensures ListOf(t, k) == [] {
        OtherCommandsShrink(s, c, cmd, ch, k);
      }
      Shrinking(s, t);
    }
  }

  /** Every command, transactions included, keeps the invariant for every iteration order. */
  lemma ExecKeepsWakeups(s: State, c: ClientId, cmd: Command, r: Result, t: State)
    requires NoLostWakeup(s) && Executes(s, c, cmd, r, t)
    ensures NoLostWakeup(t)
  {
    hide Prim, Executes, Touch, Cleanup, Allowed;
    forall u, d, ks | NoLostWakeup(u) ensures NoLostWakeup(Touch(u, d, ks)) {
      TouchFrame(u, d, ks);
      Shrinking(u, Touch(u, d, ks));
    }
    forall u, d | NoLostWakeup(u) ensures NoLostWakeup(Cleanup(u, d)) {
      CleanupFrame(u, d);
      Shrinking(u, Cleanup(u, d));
    }
    forall u, d, p, ch | NoLostWakeup(u) && Allowed(u, d, p, ch) ensures NoLostWakeup(Prim(u, d, p, ch).state) {
      PrimKeepsWakeups(u, d, p, ch);
    }
    ExecKeeps(NoLostWakeup, s, c, cmd, r, t);
  }

  lemma StepKeepsWakeups(s: State, e: Envelope, t: State)
    requires NoLostWakeup(s) && Step(s, e, t)
    ensures NoLostWakeup(t)
  {
    hide Step;
    if e.WithReply? {
      RequestKeepsWakeups(s, e.client, e.command, e.channel, t);
    } else if e.Replicate? {
      var r := ReplicatePart(s, e.command, t);
      ExecKeepsWakeups(s, 0, e.command, r, t);
    } else {
      QuietSteps(s, e, t);
      Shrinking(s, t);
    }
  }

  lemma RequestKeepsWakeups(s: State, c: ClientId, cmd: Command, channel: Channel, t: State)
    requires NoLostWakeup(s) && Step(s, WithReply(c, cmd, channel), t)
    ensures NoLostWakeup(t)
  {
    hide Step, Executes, IsOrder, Account, Settle;
    var r, mid, order := RequestParts(s, c, cmd, channel, t);
    AccountKeeps(s, cmd);
    ExecKeepsWakeups(Account(s, cmd), c, cmd, r, mid);
    SettleKeeps(Account(s, cmd), c, cmd, r, mid, channel, order);
  }

  lemma AccountKeeps(s: State, cmd: Command)
    requires NoLostWakeup(s) && !ToRespPanics(cmd)
    ensures NoLostWakeup(Account(s, cmd))
  {
    hide Account;
    AccountFrame(s, cmd);
    Shrinking(s, Account(s, cmd));
  }

  lemma SettleKeeps(s: State, c: ClientId, cmd: Command, r: Result, mid: State, channel: Channel, order: seq<ClientId>)
    requires Executes(s, c, cmd, r, mid) && NoLostWakeup(mid)
    ensures NoLostWakeup(Settle(mid, channel, cmd, r, order))
  {
    hide Executes, PushTo;
    var t := Settle(mid, channel, cmd, r, order);
    SettleFrame(mid, channel, cmd, r, order);
    if r.BlockBlpop? {
      BlockingMeans(s, c, cmd, r, mid);
      forall w, k | w in t.blpopWaiters && k in t.blpopWaiters[w].keys ensures ListOf(t, k) == [] {
        assert ListOf(t, k) == ListOf(mid, k);
      }
    } else {
      Shrinking(mid, t);
    }
  }

  lemma BootKeepsWakeups(s: State)
    requires Booted(s)
    ensures NoLostWakeup(s)
  {
    hide Prim, Touch, Cleanup, Allowed, ExecutesAll;
    var r: RdbCodec.Rdb, cmds, replies :| ExecutesAll(Fresh(FromRdb(r)), 0, cmds, replies, s);
    forall u, d, ks | NoLostWakeup(u) ensures NoLostWakeup(Touch(u, d, ks)) {
      TouchFrame(u, d, ks);
      Shrinking(u, Touch(u, d, ks));
    }
    forall u, d | NoLostWakeup(u) ensures NoLostWakeup(Cleanup(u, d)) {
      CleanupFrame(u, d);
      Shrinking(u, Cleanup(u, d));
    }
    forall u, d, p, ch | NoLostWakeup(u) && Allowed(u, d, p, ch) ensures NoLostWakeup(Prim(u, d, p, ch).state) {
      PrimKeepsWakeups(u, d, p, ch);
    }
    ExecSeqKeeps(NoLostWakeup, Fresh(FromRdb(r)), 0, cmds, replies, s);
  }

  /** In every reachable state no blocked client could be served. */
  lemma {:induction false} NoWakeupIsLost(states: seq<State>, envelopes: seq<Envelope>, i: nat)
    requires Run(states, envelopes) && i < |states|
    ensures NoLostWakeup(states[i])
  {
    hide Step, Booted;
    if i == 0 {
      BootKeepsWakeups(states[0]);
    } else {
      NoWakeupIsLost(states, envelopes, i - 1);
      StepKeepsWakeups(states[i - 1], envelopes[i - 1], states[i]);
    }
  }
}
