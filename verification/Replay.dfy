/**
 The append-only file and the replicated stream as logs: what they contain, and what
 replaying them gives (`src/main.rs:363-393`, `1209-1252`, `1335-1337`; `src/aof.rs:109-136`).
 */
module Replay {
  import opened Types
  import opened Orders
  import opened RespCodec
  import opened Commands
  import opened StoreModel
  import opened StoreFrames
  import opened Replication

  /** A command that survives being written and read back: text key, at most one expiry option, and
      lengths a machine can hold. Decoded commands are of this kind. */
  ghost predicate Sendable(c: Command) {
    && !ToRespPanics(c)
    && (c.Set? ==> (c.ex == None || c.px == None))
    && (ToResp(c).Some? ==> WellFormed(ToResp(c).value))
  }

  lemma {:induction false} ElementFits(els: seq<Resp>, i: nat)
    requires i < |els|
    ensures Len(els[i]) <= LenSum(els) && |els| <= LenSum(els)
    decreases |els|
  {
    hide Len;
    FrameIsLong(els[0]);
    if |els| == 1 {
      assert LenSum(els[1..]) == 0;
    } else if i == 0 {
      ElementFits(els[1..], 0);
    } else {
      ElementFits(els[1..], i - 1);
    }
  }

  lemma FrameIsLong(r: Resp)
    ensures Len(r) >= 1
    ensures GetBytes(r).Some? ==> |GetBytes(r).value| < Len(r)
    ensures GetStr(r).Some? ==> GetBytes(r) == GetStr(r)
  {
  }

  lemma PartFits(els: seq<Resp>, i: nat)
    ensures BytesAt(els, i).Some? ==> |BytesAt(els, i).value| < LenSum(els)
    ensures StrAt(els, i).Some? ==> |StrAt(els, i).value| < LenSum(els)
  {
    hide Len, LenSum, GetBytes, GetStr;
    if i < |els| {
      ElementFits(els, i);
      FrameIsLong(els[i]);
    }
  }

  /** Every command decoded from a frame that fits in memory can be logged and replicated, unless its encoding
      panics. */
  lemma DecodedIsSendable(r: Resp)
    requires Len(r) < U64_LIMIT && FromResp(r).Decoded? && !ToRespPanics(FromResp(r).command)
    ensures Sendable(FromResp(r).command)
  {
    var c := FromResp(r).command;
    DecodedSetHasOneExpiry(r);
    if ToResp(c).Some? {
      DecodedParts(r);
      SentIsWellFormed(c);
    }
  }

  /** The parts of a decoded command are no longer than its frame. */
  lemma DecodedParts(r: Resp)
    requires Len(r) < U64_LIMIT && FromResp(r).Decoded?
    ensures
      var c := FromResp(r).command;
      && (c.Set? ==> |c.key| < U64_LIMIT && |c.value| < U64_LIMIT)
      && (c.Ping? && c.payload.Some? ==> |c.payload.value| < U64_LIMIT)
      && (c.Psync? ==> |c.replicationId| < U64_LIMIT)
      && (c.Capa? ==> |c.capabilities| < U64_LIMIT - 2)
      && (c.Capa? ==> forall i :: 0 <= i < |c.capabilities| ==> |c.capabilities[i]| < U64_LIMIT)
  {
    hide Len, LenSum, GetBytes, GetStr, Ascii, Upper, BytesAt, StrAt, DecodeSet, DecodePsync, DecodeReplconf, DecodeXread;
    assert LenSum(r.els) < U64_LIMIT by { ArrayIsLonger(r); }
    PartFits(r.els, 1);
    PartFits(r.els, 2);
    SetParts(r.els);
    PsyncParts(r.els);
    CapaParts(r.els);
    XreadParts(r.els);
  }

  lemma ArrayIsLonger(r: Resp)
    requires r.Array?
    ensures LenSum(r.els) < Len(r)
  {
  }

  lemma SetParts(els: seq<Resp>)
    ensures DecodeSet(els).Decoded? ==>
      var c := DecodeSet(els).command;
      c.Set? && BytesAt(els, 1) == Some(c.key) && BytesAt(els, 2) == Some(c.value)
  {
    hide BytesAt, NumberAt, StrAt, Upper, Ascii;
  }

  lemma PsyncParts(els: seq<Resp>)
    ensures DecodePsync(els).Decoded? ==>
      DecodePsync(els).command.Psync? && StrAt(els, 1) == Some(DecodePsync(els).command.replicationId)
  {
    hide NumberAt, StrAt;
  }

  lemma XreadParts(els: seq<Resp>)
    ensures DecodeXread(els).Decoded? ==> DecodeXread(els).command.Xread?
  {
    hide NumberAt, StrAt, Upper, Ascii;
  }

  lemma CapaParts(els: seq<Resp>)
    requires LenSum(els) < U64_LIMIT
    ensures DecodeReplconf(els).Decoded? ==>
      var c := DecodeReplconf(els).command;
      && (c.ListeningPort? || c.Capa? || c.GetAck? || c.Ack?)
      && (c.Capa? ==> |c.capabilities| < U64_LIMIT - 2)
      && (c.Capa? ==> forall i :: 0 <= i < |c.capabilities| ==> |c.capabilities[i]| < U64_LIMIT)
  {
    hide NumberAt, Upper, Ascii, LenSum;
    if |els| > 0 {
      ElementFits(els, 0);
    }
    forall i | 2 <= i < |els| ensures BytesAt(els, i).Some? ==> |BytesAt(els, i).value| < U64_LIMIT {
      PartFits(els, i);
    }
    if DecodeReplconf(els).Decoded? && DecodeReplconf(els).command.Capa? {
      var caps := DecodeReplconf(els).command.capabilities;
      forall i | 0 <= i < |caps| ensures |caps[i]| < U64_LIMIT {
        assert BytesAt(els, i + 2) == Some(caps[i]);
      }
    }
  }

  function Frames(cmds: seq<Command>): seq<Resp>
    requires forall i :: 0 <= i < |cmds| ==> !ToRespPanics(cmds[i]) && ToResp(cmds[i]).Some?
  {
    seq(|cmds|, i requires 0 <= i < |cmds| => ToResp(cmds[i]).value)
  }

  /** The file holds the encodings of the logged commands, one after the other. */
  ghost predicate FileIsLog(s: State) {
    && (forall i :: 0 <= i < |s.logged| ==> !ToRespPanics(s.logged[i]) && ToResp(s.logged[i]).Some?)
    && s.aof == EncodeAll(Frames(s.logged))
  }

  lemma LogKeepsFile(s: State, cmd: Command)
    requires FileIsLog(s) && !ToRespPanics(cmd)
    ensures FileIsLog(Account(s, cmd))
  {
    CountFrame(s, cmd);
    if ToResp(cmd).Some? {
      var resp := ToResp(cmd).value;
      hide ToResp, Count, Encode;
      assert Frames(s.logged + [cmd]) == Frames(s.logged) + [resp];
      EncodeAllConcat(Frames(s.logged), [resp]);
      assert EncodeAll([resp]) == Encode(resp) + [];
    }
  }

  lemma SameFile(s: State, t: State)
    requires FileIsLog(s) && t.aof == s.aof && t.logged == s.logged
    ensures FileIsLog(t)
  {
  }

  lemma StepKeepsFile(s: State, e: Envelope, t: State)
    requires FileIsLog(s) && Step(s, e, t)
    ensures FileIsLog(t)
    ensures t.logged == s.logged + LoggedBy(e)
  {
    hide Step, Executes, Account, Settle, IsOrder, FileIsLog;
    if e.WithReply? {
      var r, mid, order := RequestParts(s, e.client, e.command, e.channel, t);
      LogKeepsFile(s, e.command);
      AccountLogs(s, e.command);
      ExecKeepsFrame(Account(s, e.command), e.client, e.command, r, mid);
      SettleFrame(mid, e.channel, e.command, r, order);
      SameFile(Account(s, e.command), t);
    } else if e.Replicate? {
      var r := ReplicatePart(s, e.command, t);
      ExecKeepsFrame(s, 0, e.command, r, t);
      SameFile(s, t);
    } else {
      QuietSteps(s, e, t);
      SameFile(s, t);
    }
  }

  lemma AccountLogs(s: State, cmd: Command)
    requires !ToRespPanics(cmd)
    ensures Account(s, cmd).logged == s.logged + if ToResp(cmd).Some? then [cmd] else []
  {
    CountFrame(s, cmd);
    hide ToResp, Encode, Count;
  }

  /** What an envelope adds to the log. */
  function LoggedBy(e: Envelope): seq<Command> {
    if e.WithReply? && !ToRespPanics(e.command) && ToResp(e.command).Some? then [e.command] else []
  }

  function LoggedByAll(envelopes: seq<Envelope>): seq<Command> {
    if envelopes == [] then []
    else LoggedByAll(envelopes[..|envelopes| - 1]) + LoggedBy(envelopes[|envelopes| - 1])
  }

  lemma BootFile(s: State)
    requires Booted(s)
    ensures FileIsLog(s) && s.logged == []
  {
    hide Prim, Touch, Cleanup, Allowed, ExecutesAll, ExecFrame;
    var r: RdbCodec.Rdb, cmds, replies :| ExecutesAll(Fresh(FromRdb(r)), 0, cmds, replies, s);
    var start := Fresh(FromRdb(r));
    FramePrinciple(start);
    ExecFrameRefl(start);
    ExecSeqKeeps(u => ExecFrame(start, u), start, 0, cmds, replies, s);
    BootLog(start, s);
  }

  lemma BootLog(start: State, s: State)
    requires ExecFrame(start, s) && start.logged == [] && start.aof == []
    ensures FileIsLog(s) && s.logged == []
  {
    assert Frames([]) == [];
  }

  /** The log of a run is the encodable commands of its requests, in order, and the file encodes it. */
  lemma {:induction false} FileHoldsTheLog(states: seq<State>, envelopes: seq<Envelope>, i: nat)
    requires Run(states, envelopes) && i < |states|
    ensures FileIsLog(states[i]) && states[i].logged == LoggedByAll(envelopes[..i])
  {
    hide Step, Booted, FileIsLog;
    if i == 0 {
      BootFile(states[0]);
    } else {
      FileHoldsTheLog(states, envelopes, i - 1);
      StepKeepsFile(states[i - 1], envelopes[i - 1], states[i]);
      assert envelopes[..i][..i - 1] == envelopes[..i - 1];
    }
  }

  // -------------------------------------------------------------------- reading it back

  /** `get_initial_commands`: parse the file and decode every frame, or panic. */
  function InitialCommands(file: Bytes): Option<seq<Command>> {
    match ParseResp(file)
    case Ok(frames, _) => DecodeAll(frames)
    case _ => None
  }

  function DecodeAll(frames: seq<Resp>): Option<seq<Command>> {
    if frames == [] then Some([])
    else
      match (DecodeAll(frames[..|frames| - 1]), FromResp(frames[|frames| - 1]))
      case (Some(cmds), Decoded(cmd)) => Some(cmds + [cmd])
      case _ => None
  }

  /** The loop over the frames, as written. */
  method ReadInitialCommands(file: Bytes) returns (r: Option<seq<Command>>)
    ensures r == InitialCommands(file)
  {
    hide FromResp, ParseResp;
    var parsed := ParseRespRun(file);
    if parsed.IsFailure() {
      return None;
    }
    var frames := parsed.value;
    var commands: seq<Command> := [];
    for i := 0 to |frames|
      invariant DecodeAll(frames[..i]) == Some(commands)
    {
      assert frames[..i + 1][..i] == frames[..i];
      var decoded := FromResp(frames[i]);
      if !decoded.Decoded? {
        NoDecodingAfterFailure(frames, i + 1);
        return None;
      }
      commands := commands + [decoded.command];
    }
    assert frames[..|frames|] == frames;
    return Some(commands);
  }

  lemma {:induction false} NoDecodingAfterFailure(frames: seq<Resp>, i: nat)
    requires i <= |frames| && DecodeAll(frames[..i]) == None
    ensures DecodeAll(frames) == None
    decreases |frames| - i
  {
    if i == |frames| {
      assert frames[..i] == frames;
    } else {
      assert frames[..i + 1][..i] == frames[..i];
      NoDecodingAfterFailure(frames, i + 1);
    }
  }

  lemma {:induction false} DecodeFrames(cmds: seq<Command>)
    requires forall i :: 0 <= i < |cmds| ==> !ToRespPanics(cmds[i]) && Sendable(cmds[i]) && ToResp(cmds[i]).Some?
    ensures DecodeAll(Frames(cmds)) == Some(cmds)
  {
    hide FromResp;
    if cmds != [] {
      var n := |cmds| - 1;
      assert Frames(cmds)[..n] == Frames(cmds[..n]);
      DecodeFrames(cmds[..n]);
      LoggedRoundTripIff(cmds[n]);
      hide ToResp;
      assert cmds == cmds[..n] + [cmds[n]];
    }
  }

  lemma {:induction false} DecodeAllConcat(a: seq<Resp>, b: seq<Resp>, first: seq<Command>, second: seq<Command>)
    requires DecodeAll(a) == Some(first) && DecodeAll(b) == Some(second)
    ensures DecodeAll(a + b) == Some(first + second)
  {
    hide FromResp;
    if b == [] {
      assert a + b == a && first + second == first;
    } else {
      var n := |b| - 1;
      assert (a + b)[..|a + b| - 1] == a + b[..n];
      DecodeAllConcat(a, b[..n], first, second[..|second| - 1]);
      assert first + second == first + second[..|second| - 1] + [second[|second| - 1]];
    }
  }

  /** The file of any run reads back as what it held before the run, then exactly the logged commands, in order. */
  lemma LogReadsBack(states: seq<State>, envelopes: seq<Envelope>, i: nat, held: seq<Resp>, earlier: seq<Command>)
    requires Run(states, envelopes) && i < |states|
    requires forall n :: 0 <= n < |envelopes| && envelopes[n].WithReply? ==> Sendable(envelopes[n].command)
    requires AllWellFormed(held) && DecodeAll(held) == Some(earlier)
    ensures InitialCommands(EncodeAll(held) + states[i].aof) == Some(earlier + LoggedByAll(envelopes[..i]))
  {
    hide Run, Sendable, ToResp, FromResp, EncodeAll, DecodeAll, ParseResp, LoggedByAll, WellFormed;
    OneMoreState(states, envelopes);
    FileHoldsTheLog(states, envelopes, i);
    var s := states[i];
    LoggedAreSendable(envelopes[..i]);
    assert forall n :: 0 <= n < |s.logged| ==> Sendable(s.logged[n]);
    FramesAreWellFormed(s.logged);
    EncodeAllConcat(held, Frames(s.logged));
    StreamRoundTrip(held + Frames(s.logged));
    DecodeFrames(s.logged);
    DecodeAllConcat(held, Frames(s.logged), earlier, s.logged);
  }

  lemma FramesAreWellFormed(cmds: seq<Command>)
    requires forall i :: 0 <= i < |cmds| ==> !ToRespPanics(cmds[i]) && ToResp(cmds[i]).Some? && Sendable(cmds[i])
    ensures AllWellFormed(Frames(cmds))
  {
    hide ToResp, WellFormed;
  }

  lemma {:induction false} LoggedAreSendable(envelopes: seq<Envelope>)
    requires forall n :: 0 <= n < |envelopes| && envelopes[n].WithReply? ==> Sendable(envelopes[n].command)
    ensures forall n :: 0 <= n < |LoggedByAll(envelopes)| ==> Sendable(LoggedByAll(envelopes)[n])
  {
    hide Sendable, ToResp;
    if envelopes != [] {
      LoggedAreSendable(envelopes[..|envelopes| - 1]);
    }
  }

  // ------------------------------------------------------------------------- replaying

  /** The value of the last SET of `k`, if any. */
  function LastSet(cmds: seq<Command>, k: Key): Option<Bytes> {
    if cmds == [] then None
    else
      var last := cmds[|cmds| - 1];
      if last.Set? && last.key == k then Some(last.value) else LastSet(cmds[..|cmds| - 1], k)
  }

  ghost predicate ValueIs(s: State, k: Key, v: Bytes) {
    k in s.data && s.data[k].value == Str(v)
  }

  lemma {:induction false} LastSetConcat(a: seq<Command>, b: seq<Command>, k: Key)
    ensures LastSet(a + b, k) == if LastSet(b, k).Some? then LastSet(b, k) else LastSet(a, k)
  {
    if b == [] {
      assert a + b == a;
    } else {
      assert (a + b)[..|a + b| - 1] == a + b[..|b| - 1];
      LastSetConcat(a, b[..|b| - 1], k);
    }
  }

  /** A logged or replicated command writes its key if it is a SET, and nothing otherwise. */
  lemma LoggedCommandEffect(s: State, c: ClientId, cmd: Command, r: Result, t: State, k: Key)
    requires Executes(s, c, cmd, r, t) && !ToRespPanics(cmd) && ToResp(cmd).Some?
    ensures if cmd.Set? && cmd.key == k then ValueIs(t, k, cmd.value)
            else (k in t.data <==> k in s.data) && (k in s.data ==> t.data[k] == s.data[k])
  {
    hide Touch, Allowed, ModifiedKeys, Deadline, Ascii;
    var marked := Touch(s, c, ModifiedKeys(cmd));
    TouchFrame(s, c, ModifiedKeys(cmd));
    var ch :| Allowed(marked, c, cmd, ch) && Prim(marked, c, cmd, ch) == Outcome(t, r);
    if cmd.Set? {
      assert t.data == s.data[cmd.key := t.data[cmd.key]];
    } else {
      assert t == marked;
    }
  }

  /** Replaying: whatever came before, the last SET in the log decides. */
  lemma {:induction false} ReplayedValue(s: State, cmds: seq<Command>, replies: seq<Resp>, t: State, k: Key, v: Bytes)
    requires ExecutesAll(s, 0, cmds, replies, t)
    requires forall i :: 0 <= i < |cmds| ==> !ToRespPanics(cmds[i]) && ToResp(cmds[i]).Some?
    requires LastSet(cmds, k) == Some(v)
    ensures ValueIs(t, k, v)
  {
    hide Executes, ToResp;
    var n := |cmds| - 1;
    var mid, r :| ExecutesAll(s, 0, cmds[..n], replies[..n], mid) && Executes(mid, 0, cmds[n], r, t)
               && replies[n] == TxReply(r);
    LoggedCommandEffect(mid, 0, cmds[n], r, t, k);
    if !(cmds[n].Set? && cmds[n].key == k) {
      ReplayedValue(s, cmds[..n], replies[..n], mid, k, v);
    }
  }

  lemma {:induction false} ReplaySplits(s: State, a: seq<Command>, b: seq<Command>, replies: seq<Resp>, t: State)
    requires ExecutesAll(s, 0, a + b, replies, t)
    ensures exists mid, first, second :: ExecutesAll(s, 0, a, first, mid) && ExecutesAll(mid, 0, b, second, t)
    decreases |b|
  {
    hide Executes;
    if b == [] {
      assert a + b == a;
      assert ExecutesAll(t, 0, b, [], t);
    } else {
      var n := |a + b| - 1;
      var m := |b| - 1;
      var last, r :| ExecutesAll(s, 0, (a + b)[..n], replies[..n], last) && Executes(last, 0, (a + b)[n], r, t)
                  && replies[n] == TxReply(r);
      assert (a + b)[..n] == a + b[..m];
      ReplaySplits(s, a, b[..m], replies[..n], last);
      var mid, first, second :| ExecutesAll(s, 0, a, first, mid) && ExecutesAll(mid, 0, b[..m], second, last);
      ExecutesSnoc(mid, 0, b, second, last, r, t);
    }
  }

  // --------------------------------------------------------------------- over a run

  lemma SetStepValue(s: State, c: ClientId, cmd: Command, channel: Channel, t: State)
    requires Step(s, WithReply(c, cmd, channel), t) && cmd.Set?
    ensures ValueIs(t, cmd.key, cmd.value)
  {
    hide Step, Executes, Account, Settle, IsOrder;
    var r, mid, order := RequestParts(s, c, cmd, channel, t);
    assert ToResp(cmd).Some?;
    hide ToResp;
    LoggedCommandEffect(Account(s, cmd), c, cmd, r, mid, cmd.key);
    SettleFrame(mid, channel, cmd, r, order);
  }

  /** Since a top-level SET whose value the key has kept, the last logged SET of the key has that value. */
  lemma {:induction false} LastLogged(states: seq<State>, envelopes: seq<Envelope>, m: nat, j: nat, k: Key, v: Bytes)
    requires Run(states, envelopes) && m < j < |states|
    requires envelopes[m].WithReply? && envelopes[m].command.Set?
    requires envelopes[m].command.key == k && envelopes[m].command.value == v
    requires forall n :: m < n <= j ==> ValueIs(states[n], k, v)
    ensures LastSet(states[j].logged, k) == Some(v)
    decreases j
  {
    hide Run, Step, FileIsLog, ToResp, LastSet, LoggedBy, ValueIs;
    FileHoldsTheLog(states, envelopes, j - 1);
    StepAt(states, envelopes, j);
    var e := envelopes[j - 1];
    StepKeepsFile(states[j - 1], e, states[j]);
    LastSetConcat(states[j - 1].logged, LoggedBy(e), k);
    LoggedSetValue(states[j - 1], e, states[j], k, v);
    if j > m + 1 {
      LastLogged(states, envelopes, m, j - 1, k, v);
    }
  }

  /** A step that logs a SET of `k` and leaves it at `v` logged the value `v`. */
  lemma LoggedSetValue(s: State, e: Envelope, t: State, k: Key, v: Bytes)
    requires Step(s, e, t) && ValueIs(t, k, v)
    ensures LastSet(LoggedBy(e), k).Some? ==> LastSet(LoggedBy(e), k) == Some(v)
    ensures e.WithReply? && e.command.Set? && e.command.key == k ==> LastSet(LoggedBy(e), k) == Some(v)
  {
    if e.WithReply? && e.command.Set? {
      SetStepValue(s, e.client, e.command, e.channel, t);
      assert !ToRespPanics(e.command);
      hide Step, ToResp;
    } else {
      hide Step;
    }
  }

  /** Both states hold the same value for `k`. */
  ghost predicate SameValue(s: State, t: State, k: Key) {
    k in s.data && k in t.data && s.data[k].value == t.data[k].value
  }

  /** Restarting from the file: whatever it held before the run and whatever the restarted store starts from,
      executing what the file reads back as gives every key whose latest write was a top-level SET of the run the value
      it had. */
  lemma ReplayRestoresValue(states: seq<State>, envelopes: seq<Envelope>, m: nat, j: nat, k: Key, v: Bytes,
                            held: seq<Resp>, earlier: seq<Command>, cmds: seq<Command>,
                            start: State, replies: seq<Resp>, t: State)
    requires Run(states, envelopes) && m < j < |states|
    requires forall n :: 0 <= n < |envelopes| && envelopes[n].WithReply? ==> Sendable(envelopes[n].command)
    requires envelopes[m].WithReply? && envelopes[m].command.Set?
    requires envelopes[m].command.key == k && envelopes[m].command.value == v
    requires forall n :: m < n <= j ==> ValueIs(states[n], k, v)
    requires AllWellFormed(held) && DecodeAll(held) == Some(earlier)
    requires InitialCommands(EncodeAll(held) + states[j].aof) == Some(cmds)
    requires ExecutesAll(start, 0, cmds, replies, t)
    ensures SameValue(states[j], t, k)
  {
    hide Run, ExecutesAll, Executes, LastSet, Sendable, ToResp, EncodeAll, DecodeAll, InitialCommands, LoggedByAll,
      WellFormed;
    LogReadsBack(states, envelopes, j, held, earlier);
    LastLogged(states, envelopes, m, j, k, v);
    FileHoldsTheLog(states, envelopes, j);
    var logged := states[j].logged;
    ReplaySplits(start, earlier, logged, replies, t);
    var mid, first, second :|
      ExecutesAll(start, 0, earlier, first, mid) && ExecutesAll(mid, 0, logged, second, t);
    ReplayedValue(mid, logged, second, t, k, v);
  }

  // ------------------------------------------------------------------------- replicas

  /** A step pushes its replicatable command, or a GETACK, or nothing. */
  lemma StepPushes(s: State, e: Envelope, t: State, c: ClientId) returns (more: seq<Command>)
    requires Step(s, e, t) && IsReplica(s, c)
    ensures PushedTo(t.out, c) == PushedTo(s.out, c) + more
    ensures more == [] || more == [GetAck]
         || (e.WithReply? && IsReplicatable(e.command) && !ToRespPanics(e.command) && more == [e.command])
    ensures e.WithReply? && IsReplicatable(e.command) ==> more == [e.command]
    ensures t.broadcasts > s.broadcasts ==> more == [GetAck] && t.masterAck == s.masterAck
  {
    hide Step, Executes, PushedTo, WireAll, Account, Settle, IsOrder;
    more := [];
    assert PushedTo(s.out, c) + [] == PushedTo(s.out, c);
    if e.WithReply? {
      var r, mid, order := RequestParts(s, e.client, e.command, e.channel, t);
      AccountFrame(s, e.command);
      AccountOffset(s, e.command);
      ExecKeepsFrame(Account(s, e.command), e.client, e.command, r, mid);
      ExecPushesNothing(Account(s, e.command), mid, c);
      SettlePushes(mid, e.channel, e.command, r, order, c);
      ResultKind(Account(s, e.command), e.client, e.command, r, mid);
      more := if r.Done? && IsReplicatable(e.command) then [e.command]
      else if r.BlockWait? && mid.pendingWrites then [GetAck] else [];
    } else if e.Replicate? {
      var r := ReplicatePart(s, e.command, t);
      ExecKeepsFrame(s, 0, e.command, r, t);
      ExecPushesNothing(s, t, c);
    } else {
      QuietSteps(s, e, t);
      QuietPushesNothing(s, t, c);
    }
  }

  /** Everything pushed since moment `i` can be sent, and its last SET of a key is the last write, if that
      was a top-level SET since then. */
  lemma {:induction false} LastPushed(states: seq<State>, envelopes: seq<Envelope>, c: ClientId, i: nat, m: nat, j: nat,
                                      k: Key, v: Bytes) returns (pushes: seq<Command>)
    requires Run(states, envelopes) && i <= m < j < |states|
    requires forall n :: i <= n < j ==> IsReplica(states[n], c)
    requires envelopes[m].WithReply? && envelopes[m].command.Set?
    requires envelopes[m].command.key == k && envelopes[m].command.value == v
    requires forall n :: m < n <= j ==> ValueIs(states[n], k, v)
    ensures PushedTo(states[j].out, c) == PushedTo(states[i].out, c) + pushes
    ensures LastSet(pushes, k) == Some(v)
    ensures forall n :: 0 <= n < |pushes| ==> IsReplicatable(pushes[n]) && !ToRespPanics(pushes[n])
    decreases j
  {
    hide Run, Step, ToResp, PushedTo, LastSet, ValueIs, IsReplica;
    StepAt(states, envelopes, j);
    var e := envelopes[j - 1];
    var more := StepPushes(states[j - 1], e, states[j], c);
    PushedSetValue(states[j - 1], e, states[j], more, k, v);
    var before;
    if j - 1 > m {
      before := LastPushed(states, envelopes, c, i, m, j - 1, k, v);
    } else {
      before := PushedSince(states, envelopes, c, i, m);
    }
    LastSetConcat(before, more, k);
    pushes := before + more;
    assert PushedTo(states[i].out, c) + before + more == PushedTo(states[i].out, c) + pushes;
  }

  lemma PushedSetValue(s: State, e: Envelope, t: State, more: seq<Command>, k: Key, v: Bytes)
    requires Step(s, e, t) && ValueIs(t, k, v)
    requires more == [] || more == [GetAck] || (e.WithReply? && IsReplicatable(e.command) && more == [e.command])
    requires e.WithReply? && IsReplicatable(e.command) ==> more == [e.command]
    ensures LastSet(more, k).Some? ==> LastSet(more, k) == Some(v)
    ensures e.WithReply? && e.command.Set? && e.command.key == k ==> LastSet(more, k) == Some(v)
  {
    hide Step;
    if e.WithReply? {
      if e.command.Set? {
        SetStepValue(s, e.client, e.command, e.channel, t);
      }
    }
  }

  lemma {:induction false} PushedSince(states: seq<State>, envelopes: seq<Envelope>, c: ClientId, i: nat, j: nat)
    returns (pushes: seq<Command>)
    requires Run(states, envelopes) && i <= j < |states|
    requires forall n :: i <= n < j ==> IsReplica(states[n], c)
    ensures PushedTo(states[j].out, c) == PushedTo(states[i].out, c) + pushes
    ensures forall n :: 0 <= n < |pushes| ==> IsReplicatable(pushes[n]) && !ToRespPanics(pushes[n])
    decreases j
  {
    hide Booted, ToResp, PushedTo, Step;
    if i == j {
      pushes := [];
      assert PushedTo(states[i].out, c) + [] == PushedTo(states[i].out, c);
    } else {
      StepAt(states, envelopes, j);
      hide Run;
      var before := PushedSince(states, envelopes, c, i, j - 1);
      var more := StepPushes(states[j - 1], envelopes[j - 1], states[j], c);
      pushes := before + more;
      assert PushedTo(states[i].out, c) + before + more == PushedTo(states[i].out, c) + pushes;
    }
  }
}
