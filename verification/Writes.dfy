/**
 Which commands count as writes of a watched key. Marks are made from the name of a command before it runs
 (`src/command.rs:712-730`, `src/main.rs:678-682`); here they are tied to what a command does to the data, and to the
 answer a later EXEC gets.
 */
module WatchedWrites {
  import opened Types
  import opened Orders
  import opened RespCodec
  import opened Streams
  import opened Commands
  import opened StoreModel
  import opened StoreFrames
  import opened BlockingLists
  import opened Watching

  // ------------------------------------------------------------------- what is recorded

  /** The commands that count as writes, each of its one key. */
  predicate Writes(cmd: Command) {
    cmd.Set? || cmd.Rpush? || cmd.Lpush? || cmd.Incr? || cmd.Xadd?
  }

  /** What a command other than EXEC adds to the history of watches. */
  function EventsOf(c: ClientId, cmd: Command): seq<WatchEvent> {
    if Writes(cmd) then [Wrote(c, cmd.key)]
    else if cmd.Watch? then seq(|cmd.keys|, i requires 0 <= i < |cmd.keys| => Watched(c, cmd.keys[i]))
    else if cmd.Unwatch? || cmd.Discard? then [Cleared(c)]
    else []
  }

  lemma TouchOfOne(s: State, c: ClientId, k: Key)
    ensures Touch(s, c, [k]) == TouchKey(s, c, k)
  {
    assert [k][1..] == [];
    assert Touch(TouchKey(s, c, k), c, []) == TouchKey(s, c, k);
  }

  /** The marking that precedes a command. */
  lemma MarkedFirst(s: State, c: ClientId, cmd: Command)
    ensures
      var marked := Touch(s, c, ModifiedKeys(cmd));
      && (Writes(cmd) ==> marked == TouchKey(s, c, cmd.key))
      && (!Writes(cmd) ==> marked == s)
  {
    if Writes(cmd) {
      assert ModifiedKeys(cmd) == [cmd.key];
      TouchOfOne(s, c, cmd.key);
    }
  }

  lemma {:induction false} WatchKeysLog(s: State, c: ClientId, keys: seq<Key>)
    ensures WatchKeys(s, c, keys).watchLog
         == s.watchLog + seq(|keys|, i requires 0 <= i < |keys| => Watched(c, keys[i]))
    decreases |keys|
  {
    if keys != [] {
      WatchKeysLog(WatchKey(s, c, keys[0]), c, keys[1..]);
    }
  }

  /** The history holds exactly this of every command, whatever else it does and whether or not it succeeds: a refused
      INCR or XADD counts as a write, LPOP and BLPOP do not. */
  lemma EventsAre(s: State, c: ClientId, cmd: Command, r: Result, t: State)
    requires Executes(s, c, cmd, r, t) && !cmd.ExecuteTx?
    ensures t.watchLog == s.watchLog + EventsOf(c, cmd)
    ensures Writes(cmd) ==>
      t.watched == if cmd.key in s.watched then s.watched[cmd.key := s.watched[cmd.key] + {c}] else s.watched
  {
    hide Prim, Allowed, Touch, ExecFrame;
    MarkedFirst(s, c, cmd);
    var marked := Touch(s, c, ModifiedKeys(cmd));
    var ch :| Allowed(marked, c, cmd, ch) && Prim(marked, c, cmd, ch) == Outcome(t, r);
    PrimTouches(marked, c, cmd, ch);
    if cmd.Watch? || cmd.Unwatch? || cmd.Discard? {
      WatchCommandLogs(s, c, cmd, ch);
    }
  }

  lemma WatchCommandLogs(s: State, c: ClientId, cmd: Command, ch: Choice)
    requires cmd.Watch? || cmd.Unwatch? || cmd.Discard?
    ensures Prim(s, c, cmd, ch).state.watchLog == s.watchLog + EventsOf(c, cmd)
  {
    hide WatchKeys;
    if cmd.Watch? {
      WatchKeysLog(s, c, cmd.keys);
    }
  }

  // --------------------------------------------------------------------- what changes data

  /** The entry at `k` is new, or not what it was. */
  ghost predicate Changed(s: State, t: State, k: Key) {
    k in t.data && (k !in s.data || t.data[k] != s.data[k])
  }

  lemma PushChanges(s: State, key: Key, elems: seq<Bytes>, front: bool, order: seq<WaiterId>, k: Key)
    requires NoLostWakeup(s) && IsOrder(order, InterestedBlpop(s, key))
    requires Changed(s, PushCommand(s, key, elems, front, order).state, k)
    ensures k == key
  {
    hide Serve;
    var pushed := PushElements(s, key, elems, front);
    forall j | j != key ensures ListOf(pushed, j) == ListOf(s, j) {
      PushLists(s, key, elems, front, j);
    }
    PushElementsFrame(s, key, elems, front);
    assert NoLostWakeupBut(pushed, key);
    assert InterestedBlpop(pushed, key) == InterestedBlpop(s, key);
    PushServesInOrder(pushed, key, order);
    if k != key {
      ServedElsewhere(pushed, key, order, Min(|order|, |ListOf(pushed, key)|), k);
      PushedElsewhere(s, key, elems, front, k);
    }
  }

  lemma ServedElsewhere(s: State, key: Key, order: seq<WaiterId>, m: nat, k: Key)
    requires m <= |ListOf(s, key)| && m <= |order| && forall w :: w in order ==> w in s.blpopWaiters
    requires k != key
    ensures k in Served(s, key, order, m).data <==> k in s.data
    ensures k in s.data ==> Served(s, key, order, m).data[k] == s.data[k]
  {
  }

  lemma PushedElsewhere(s: State, key: Key, elems: seq<Bytes>, front: bool, k: Key)
    requires k != key
    ensures k in PushElements(s, key, elems, front).data <==> k in s.data
    ensures k in s.data ==> PushElements(s, key, elems, front).data[k] == s.data[k]
  {
    hide Reversed, ListOf;
  }

  lemma XaddChanges(s: State, key: Key, id: XaddId, fields: seq<Bytes>, now: u64, order: seq<WaiterId>, k: Key)
    requires Changed(s, XaddCommand(s, key, id, fields, now, order).state, k)
    ensures k == key
  {
    hide XaddCommand, Judge, StreamOf, EnsureStream, AppendEntry;
    XaddData(s, key, id, fields, now, order);
    if k != key {
      var ready := EnsureStream(s, key);
      ReadyFrame(s, key);
      StreamElsewhere(s, key, k);
      if ready.data[key].value.Stream? && Judge(id, StreamOf(ready, key), now).Accepted? {
        EntryElsewhere(ready, key, Judge(id, StreamOf(ready, key), now).id, fields, k);
      }
    }
  }

  lemma StreamElsewhere(s: State, key: Key, k: Key)
    requires k != key
    ensures k in EnsureStream(s, key).data <==> k in s.data
    ensures k in s.data ==> EnsureStream(s, key).data[k] == s.data[k]
  {
    if key !in s.data {
      assert EnsureStream(s, key).data == s.data[key := Value(Stream([]), None)];
    }
  }

  lemma EntryElsewhere(s: State, key: Key, id: StreamId, fields: seq<Bytes>, k: Key)
    requires key in s.data && s.data[key].value.Stream? && k != key
    ensures k in AppendEntry(s, key, id, fields).data <==> k in s.data
    ensures k in s.data ==> AppendEntry(s, key, id, fields).data[k] == s.data[k]
  {
    hide Insert;
  }

  lemma StringChanges(s: State, key: Key, value: Bytes, ex: Option<u64>, px: Option<u64>, now: u64, k: Key)
    ensures Changed(s, SetCommand(s, key, value, ex, px, now).state, k) ==> k == key
    ensures Changed(s, IncrCommand(s, key).state, k) ==> k == key
  {
    hide Deadline, IncrCommand;
    IncrData(s, key);
  }

  /** Apart from pops and EXEC, only a write changes data, and only at its key. */
  lemma OnlyWritesChange(s: State, c: ClientId, cmd: Command, r: Result, t: State, k: Key)
    requires NoLostWakeup(s) && Executes(s, c, cmd, r, t)
    requires !cmd.ExecuteTx? && !cmd.Lpop? && !cmd.Blpop? && Changed(s, t, k)
    ensures Writes(cmd) && cmd.key == k
  {
    hide Prim, Allowed, Touch, NoLostWakeup;
    var marked := Touch(s, c, ModifiedKeys(cmd));
    TouchFrame(s, c, ModifiedKeys(cmd));
    MarkingLosesNoWakeup(s, marked);
    var ch :| Allowed(marked, c, cmd, ch) && Prim(marked, c, cmd, ch) == Outcome(t, r);
    PrimChanges(marked, c, cmd, ch, k);
  }

  lemma MarkingLosesNoWakeup(s: State, marked: State)
    requires NoLostWakeup(s) && OnlyWatches(s, marked)
    ensures NoLostWakeup(marked)
  {
    forall k ensures ListOf(marked, k) == ListOf(s, k) {
    }
  }

  lemma PrimChanges(s: State, c: ClientId, cmd: Command, ch: Choice, k: Key)
    requires NoLostWakeup(s) && Allowed(s, c, cmd, ch)
    requires !cmd.Lpop? && !cmd.Blpop? && Changed(s, Prim(s, c, cmd, ch).state, k)
    ensures Writes(cmd) && cmd.key == k
  {
    hide SetCommand, WatchKeys, Cleanup, IncrCommand, XaddCommand, XreadCommand, PushCommand, LpopCommand;
    hide BlpopCommand, AckCommand, WaitCommand, NoLostWakeup, ExecFrame, IsOrder;
    match cmd {
      case Set(key, value, ex, px) => StringChanges(s, key, value, ex, px, ch.now, k);
      case Incr(key) => StringChanges(s, key, [], None, None, 0, k);
      case Xadd(key, id, fields) => XaddChanges(s, key, id, fields, ch.now, ch.order, k);
      case Rpush(key, elements) => PushChanges(s, key, elements, false, ch.order, k);
      case Lpush(key, elements) => PushChanges(s, key, elements, true, ch.order, k);
      case _ => PrimTouches(s, c, cmd, ch);
    }
  }

  /** Seen from the data: whoever changes a watched key by anything but a pop or an EXEC joins its watchers. */
  lemma ChangeMarks(s: State, d: ClientId, cmd: Command, r: Result, t: State, k: Key)
    requires NoLostWakeup(s) && Executes(s, d, cmd, r, t)
    requires !cmd.ExecuteTx? && !cmd.Lpop? && !cmd.Blpop? && k in s.watched && Changed(s, t, k)
    ensures k in t.watched && t.watched[k] == s.watched[k] + {d}
    ensures t.watchLog == s.watchLog + [Wrote(d, k)]
  {
    hide Executes, NoLostWakeup, Changed;
    OnlyWritesChange(s, d, cmd, r, t, k);
    EventsAre(s, d, cmd, r, t);
  }

  // ------------------------------------------------------------------------- over runs

  ghost predicate LogGrew(s: State, t: State) {
    s.watchLog <= t.watchLog
  }

  lemma LogPrinciple(s: State)
    ensures forall u, d, ks :: LogGrew(s, u) ==> LogGrew(s, Touch(u, d, ks))
    ensures forall u, d :: LogGrew(s, u) ==> LogGrew(s, Cleanup(u, d))
    ensures forall u, d, p, ch :: LogGrew(s, u) && Allowed(u, d, p, ch) ==> LogGrew(s, Prim(u, d, p, ch).state)
  {
    hide Prim, Touch, Allowed, ExecFrame;
    forall u, d, ks | LogGrew(s, u) ensures LogGrew(s, Touch(u, d, ks)) {
      TouchKeeps(v => LogGrew(s, v), u, d, ks);
    }
    forall u, d, p, ch | LogGrew(s, u) && Allowed(u, d, p, ch) ensures LogGrew(s, Prim(u, d, p, ch).state) {
      PrimTouches(u, d, p, ch);
      if p.Watch? || p.Unwatch? || p.Discard? {
        WatchCommandLogs(u, d, p, ch);
      }
    }
  }

  lemma ExecLogGrows(s: State, c: ClientId, cmd: Command, r: Result, t: State)
    requires Executes(s, c, cmd, r, t)
    ensures s.watchLog <= t.watchLog
  {
    hide Prim, Executes, Touch, Cleanup, Allowed;
    LogPrinciple(s);
    ExecKeeps(u => LogGrew(s, u), s, c, cmd, r, t);
  }

  lemma StepLogGrows(s: State, e: Envelope, t: State)
    requires Step(s, e, t)
    ensures s.watchLog <= t.watchLog
  {
    hide Step, Executes, Account, Settle, IsOrder;
    if e.WithReply? {
      var r, mid, order := RequestParts(s, e.client, e.command, e.channel, t);
      AccountFrame(s, e.command);
      ExecLogGrows(Account(s, e.command), e.client, e.command, r, mid);
      SettleFrame(mid, e.channel, e.command, r, order);
    } else if e.Replicate? {
      var r := ReplicatePart(s, e.command, t);
      ExecLogGrows(s, 0, e.command, r, t);
    } else {
      QuietSteps(s, e, t);
    }
  }

  lemma {:induction false} LogOnlyGrows(states: seq<State>, envelopes: seq<Envelope>, i: nat, j: nat)
    requires Run(states, envelopes) && i <= j < |states|
    ensures states[i].watchLog <= states[j].watchLog
    decreases j
  {
    hide Run, Step;
    if i < j {
      LogOnlyGrows(states, envelopes, i, j - 1);
      StepAt(states, envelopes, j);
      StepLogGrows(states[j - 1], envelopes[j - 1], states[j]);
    }
  }

  /** A mark lasts until its client is cleared. */
  lemma MarkLasts(h: seq<WatchEvent>, more: seq<WatchEvent>, c: ClientId, k: Key)
    requires h <= more && c in MarkedOn(h, k)
    requires forall m :: |h| <= m < |more| ==> more[m] != Cleared(c)
    ensures c in MarkedOn(more, k)
  {
    hide MarkedOn;
    MarkedMeans(h, c, k);
    MarkedMeans(more, c, k);
    var i: nat :| MarkingEvent(h, i, c, k) && NotClearedAfter(h, i, c);
    assert more[..i] == h[..i];
    assert MarkingEvent(more, i, c, k) && NotClearedAfter(more, i, c);
  }

  /** One step of another client changes a watched key: both are marked on it after the step. */
  lemma ChangeMarksBoth(s: State, c: ClientId, d: ClientId, cmd: Command, channel: Channel, t: State, k: Key)
    requires NoLostWakeup(s) && Step(s, WithReply(d, cmd, channel), t)
    requires !cmd.ExecuteTx? && !cmd.Lpop? && !cmd.Blpop?
    requires k in s.watched && c in s.watched[k] && Changed(s, t, k)
    ensures k in t.watched && {c, d} <= t.watched[k]
  {
    hide Step, Executes, Account, Settle, IsOrder, NoLostWakeup;
    var r, mid, order := RequestParts(s, d, cmd, channel, t);
    AccountFrame(s, cmd);
    MarkingLosesNoWakeupSame(s, Account(s, cmd));
    SettleFrame(mid, channel, cmd, r, order);
    ChangeMarks(Account(s, cmd), d, cmd, r, mid, k);
  }

  lemma MarkingLosesNoWakeupSame(s: State, t: State)
    requires NoLostWakeup(s) && t.data == s.data && t.blpopWaiters == s.blpopWaiters
    ensures NoLostWakeup(t)
  {
    forall k ensures ListOf(t, k) == ListOf(s, k) {
    }
  }

  /** In a run: client `c` watches `k`, another client changes the entry at `k` by anything but a pop or an EXEC, and
      neither ends a transaction or unwatches before `c` sends EXEC. Then the EXEC is answered with null and runs
      nothing. */
  lemma ChangeFailsExec(states: seq<State>, envelopes: seq<Envelope>, i: nat, j: nat, c: ClientId, d: ClientId,
                        cmd: Command, write: Channel, cmds: seq<Command>, channel: Channel, k: Key)
    requires Run(states, envelopes) && i < j < |envelopes| == |states| - 1 && d != c
    requires envelopes[i] == WithReply(d, cmd, write) && envelopes[j] == WithReply(c, ExecuteTx(cmds), channel)
    requires !cmd.ExecuteTx? && !cmd.Lpop? && !cmd.Blpop?
    requires k in states[i].watched && c in states[i].watched[k] && Changed(states[i], states[i + 1], k)
    requires forall m :: |states[i + 1].watchLog| <= m < |states[j].watchLog| ==>
      states[j].watchLog[m] != Cleared(c) && states[j].watchLog[m] != Cleared(d)
    ensures states[j + 1].data == states[j].data
    ensures states[j + 1].out != [] && states[j + 1].out[|states[j + 1].out| - 1] == Reply(channel, NullArray)
  {
    hide Run, Step, Changed, NoLostWakeup, MarkedOn, Conflict;
    StepAt(states, envelopes, i + 1);
    NoWakeupIsLost(states, envelopes, i);
    ChangeMarksBoth(states[i], c, d, cmd, write, states[i + 1], k);
    WatchersAreHistory(states, envelopes, i + 1);
    var h, later := states[i + 1].watchLog, states[j].watchLog;
    assert WatchersOf(states[i + 1], k) == MarkedOn(h, k);
    LogOnlyGrows(states, envelopes, i + 1, j);
    MarkLasts(h, later, c, k);
    MarkLasts(h, later, d, k);
    assert SharesKey(later, c, d, k);
    ConflictIffShared(later, c, d, k);
    ExecSendsNullIff(states, envelopes, j, c, cmds, channel);
  }

  /** Pops are not writes: `c` watches `k`, `d` takes an element from the list at `k`, and the EXEC of `c` succeeds. From
      any store without watchers that holds a list there. */
  lemma PopGoesUnnoticed(s: State, c: ClientId, d: ClientId, k: Key)
    returns (watching: State, popped: State, t: State)
    requires c != d && s.watched == map[] && ListOf(s, k) != []
    ensures Executes(s, c, Watch([k]), Done(OK()), watching)
    ensures Executes(watching, d, Lpop(k, None), Done(BulkString(ListOf(s, k)[0])), popped)
    ensures Changed(watching, popped, k)
    ensures Executes(popped, c, ExecuteTx([]), Done(Array([])), t)
  {
    hide Executes;
    watching := WatchKey(s, c, k);
    WatchRuns(s, c, k);
    popped := PopFront(watching, k);
    assert Touch(watching, d, []) == watching;
    RunsAs(watching, d, Lpop(k, None), Done(BulkString(ListOf(s, k)[0])), popped, Choice(0, [], NullArray));
    t := Cleanup(popped, c);
    assert popped.watched == map[k := {} + {c}];
    AloneFails(popped, c, k);
    EmptyExec(popped, c);
  }

  lemma AloneFails(s: State, c: ClientId, k: Key)
    requires s.watched == map[k := {} + {c}]
    ensures !LockFailed(s, c)
  {
    assert {} + {c} == {c};
  }
}
