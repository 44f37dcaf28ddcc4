/**
 What a connection owes the store, read off the commands it receives as one reads a program: blocks from MULTI to EXEC
 or DISCARD, and plain commands between them. The mode machine passes on exactly this (`src/client.rs:34-105`,
 `src/main.rs:1377-1436`).
 */
module OwedCommands {
  import opened Types
  import opened RespCodec
  import opened Commands
  import opened Client

  // ------------------------------------------------------------------------ what is owed

  /** Commands the connection deals with itself outside a transaction; PSYNC makes it a replica, the others are answered
      on the spot. */
  predicate DealtWithHere(cmd: Command) {
    cmd.ListeningPort? || cmd.Capa? || cmd.Psync? || cmd.Echo? || cmd.Ping? || cmd.Exec? || cmd.Discard?
  }

  /** Where the transaction ends that is open at the start: at the first EXEC or DISCARD. */
  function TransactionEnd(cmds: seq<Command>): (n: nat)
    ensures n <= |cmds|
    ensures forall i :: 0 <= i < n ==> !cmds[i].Exec? && !cmds[i].Discard?
    ensures n < |cmds| ==> cmds[n].Exec? || cmds[n].Discard?
  {
    if cmds == [] || cmds[0].Exec? || cmds[0].Discard? then 0 else 1 + TransactionEnd(cmds[1..])
  }

  function WithoutWatch(cmds: seq<Command>): seq<Command> {
    if cmds == [] then [] else (if cmds[0].Watch? then [] else [cmds[0]]) + WithoutWatch(cmds[1..])
  }

  /** After SUBSCRIBE only three commands get through. */
  function OwedSubscribed(cmds: seq<Command>): seq<Command> {
    if cmds == [] then []
    else
      var first := cmds[0];
      (if first.Subscribe? || first.Publish? || first.Unsubscribe? then [first] else []) + OwedSubscribed(cmds[1..])
  }

  /** Outside a transaction: every command that is not dealt with here; for MULTI up to EXEC, one batch of everything
      between the two but WATCH, even if that is nothing; for MULTI up to DISCARD, the DISCARD alone. */
  function Owed(cmds: seq<Command>): seq<Command>
    decreases |cmds|
  {
    if cmds == [] then []
    else
      var first, rest := cmds[0], cmds[1..];
      if first.Multi? then
        var n := TransactionEnd(rest);
        if n == |rest| then []
        else (if rest[n].Exec? then [ExecuteTx(WithoutWatch(rest[..n]))] else [Discard]) + Owed(rest[n + 1..])
      else if first.Subscribe? then [first] + OwedSubscribed(rest)
      else (if DealtWithHere(first) then [] else [first]) + Owed(rest)
  }

  function CommandsOf(inputs: seq<Input>): seq<Command> {
    seq(|inputs|, i requires 0 <= i < |inputs| => inputs[i].command)
  }

  /** While authentication is needed, AUTH alone, until one of them is accepted. */
  function OwedFromStart(needAuth: bool, inputs: seq<Input>): seq<Command> {
    if !needAuth then Owed(CommandsOf(inputs))
    else if inputs == [] then []
    else if inputs[0].command.Auth? then
      [inputs[0].command] + OwedFromStart(!inputs[0].authReply.SimpleString?, inputs[1..])
    else OwedFromStart(true, inputs[1..])
  }

  // ------------------------------------------------------------------------ what is sent

  /** The command a dispatch sends to the store. */
  function Sent(d: Dispatch): seq<Command> {
    match d
    case Execute(cmd) => [cmd]
    case ExecuteNoReply(cmd) => [cmd]
    case MustAuth(username, password) => [Auth(username, password)]
    case ReplyNow(_) => []
    case StartReplica(_) => []
  }

  function SentBy(dispatches: seq<Dispatch>): seq<Command> {
    if dispatches == [] then [] else SentBy(dispatches[..|dispatches| - 1]) + Sent(dispatches[|dispatches| - 1])
  }

  /** What is sent from some moment on. */
  function SentFrom(c: Connection, inputs: seq<Input>): seq<Command>
    decreases |inputs|
  {
    if inputs == [] then []
    else Sent(Route(c.mode, c.needAuth, inputs[0].command).dispatch) + SentFrom(Handle(c, inputs[0]), inputs[1..])
  }

  function AfterFrom(c: Connection, inputs: seq<Input>): Connection
    decreases |inputs|
  {
    if inputs == [] then c else AfterFrom(Handle(c, inputs[0]), inputs[1..])
  }

  lemma {:induction false} OneMoreInput(c: Connection, inputs: seq<Input>, input: Input)
    ensures AfterFrom(c, inputs + [input]) == Handle(AfterFrom(c, inputs), input)
    ensures SentFrom(c, inputs + [input])
         == SentFrom(c, inputs)
            + Sent(Route(AfterFrom(c, inputs).mode, AfterFrom(c, inputs).needAuth, input.command).dispatch)
    decreases |inputs|
  {
    hide Route, Sent;
    var all := inputs + [input];
    if inputs == [] {
      assert all == [input] && [input][1..] == [];
      assert AfterFrom(c, [input]) == AfterFrom(Handle(c, input), []);
      assert SentFrom(c, [input])
          == Sent(Route(c.mode, c.needAuth, input.command).dispatch) + SentFrom(Handle(c, input), []);
    } else {
      assert all[1..] == inputs[1..] + [input] && all[0] == inputs[0];
      OneMoreInput(Handle(c, inputs[0]), inputs[1..], input);
    }
  }

  /** Counting from the front or from the back comes to the same. */
  lemma {:induction false} SentByAll(needAuth: bool, inputs: seq<Input>, dispatches: seq<Dispatch>)
    requires |dispatches| == |inputs|
    requires forall i :: 0 <= i < |inputs| ==> dispatches[i] == DispatchAt(needAuth, inputs, i)
    ensures SentBy(dispatches) == SentFrom(Connection(Normal, needAuth), inputs)
    ensures AfterFrom(Connection(Normal, needAuth), inputs) == After(needAuth, inputs)
  {
    hide Route, Sent;
    if inputs != [] {
      var n := |inputs| - 1;
      forall i | 0 <= i < n ensures dispatches[..n][i] == DispatchAt(needAuth, inputs[..n], i) {
        assert inputs[..n][..i] == inputs[..i];
      }
      SentByAll(needAuth, inputs[..n], dispatches[..n]);
      OneMoreInput(Connection(Normal, needAuth), inputs[..n], inputs[n]);
      assert inputs == inputs[..n] + [inputs[n]];
    }
  }

  // --------------------------------------------------------------------- they are the same

  lemma RouteSubscribed(cmd: Command)
    ensures
      var routed := Route(Subscription, false, cmd);
      && routed.mode == Subscription
      && Sent(routed.dispatch) == if cmd.Subscribe? || cmd.Publish? || cmd.Unsubscribe? then [cmd] else []
  {
    hide RouteSubscription;
    SubscriptionPasses(cmd);
  }

  lemma SubscriptionPasses(cmd: Command)
    ensures
      var routed := RouteSubscription(cmd);
      && routed.mode == Subscription
      && if cmd.Subscribe? || cmd.Publish? || cmd.Unsubscribe? then routed.dispatch == Execute(cmd)
         else routed.dispatch.ReplyNow?
  {
    hide Ascii, NameOf, NotWhenSubscribed;
  }

  lemma RouteOutside(cmd: Command)
    ensures
      var routed := Route(Normal, false, cmd);
      && routed.mode == (if cmd.Multi? then Transaction([]) else if cmd.Subscribe? then Subscription else Normal)
      && Sent(routed.dispatch) == if DealtWithHere(cmd) || cmd.Multi? then [] else [cmd]
  {
    hide Line, Complaint;
  }

  lemma RouteInside(queue: seq<Command>, cmd: Command)
    ensures
      var routed := Route(Transaction(queue), false, cmd);
      && routed.mode == (if cmd.Exec? || cmd.Discard? then Normal
                         else Transaction(queue + if cmd.Watch? then [] else [cmd]))
      && Sent(routed.dispatch) == if cmd.Exec? then [ExecuteTx(queue)] else if cmd.Discard? then [Discard] else []
  {
    hide Line, Complaint;
    assert queue + [] == queue;
  }

  lemma RouteBeforeAuth(mode: Mode, cmd: Command)
    ensures
      var routed := Route(mode, true, cmd);
      && routed.mode == Normal && (routed.dispatch.MustAuth? <==> cmd.Auth?)
      && Sent(routed.dispatch) == if cmd.Auth? then [cmd] else []
  {
    hide Complaint;
  }

  lemma HandledOnce(c: Connection, input: Input)
    requires !c.needAuth
    ensures Handle(c, input) == Connection(Route(c.mode, false, input.command).mode, false)
  {
    hide Route;
  }

  lemma {:induction false} SubscribedSends(inputs: seq<Input>)
    ensures SentFrom(Connection(Subscription, false), inputs) == OwedSubscribed(CommandsOf(inputs))
  {
    hide Route, Handle, Sent;
    if inputs != [] {
      RouteSubscribed(inputs[0].command);
      HandledOnce(Connection(Subscription, false), inputs[0]);
      SubscribedSends(inputs[1..]);
      assert CommandsOf(inputs)[1..] == CommandsOf(inputs[1..]);
    }
  }

  /** An open transaction sends nothing until it ends. */
  lemma {:induction false} TransactionSends(queue: seq<Command>, inputs: seq<Input>)
    ensures
      var cmds := CommandsOf(inputs);
      var n := TransactionEnd(cmds);
      SentFrom(Connection(Transaction(queue), false), inputs) ==
      if n == |cmds| then []
      else (if cmds[n].Exec? then [ExecuteTx(queue + WithoutWatch(cmds[..n]))] else [Discard])
           + SentFrom(Connection(Normal, false), inputs[n + 1..])
    decreases |inputs|
  {
    hide Route, Handle, Sent, WithoutWatch, SentFrom;
    var cmds := CommandsOf(inputs);
    SentStep(Connection(Transaction(queue), false), inputs);
    if inputs != [] {
      var first := inputs[0].command;
      var n := TransactionEnd(cmds);
      RouteInside(queue, first);
      HandledOnce(Connection(Transaction(queue), false), inputs[0]);
      if first.Exec? || first.Discard? {
        NothingQueued(queue);
      } else {
        var longer := queue + if first.Watch? then [] else [first];
        TransactionSends(longer, inputs[1..]);
        assert cmds[1..] == CommandsOf(inputs[1..]);
        if n < |cmds| {
          assert inputs[1..][n..] == inputs[n + 1..];
          LongerQueue(queue, cmds, n);
        }
      }
    }
  }

  lemma NothingQueued(queue: seq<Command>)
    ensures queue + WithoutWatch([]) == queue
  {
  }

  lemma LongerQueue(queue: seq<Command>, cmds: seq<Command>, n: nat)
    requires 0 < n <= |cmds|
    ensures queue + (if cmds[0].Watch? then [] else [cmds[0]]) + WithoutWatch(cmds[1..][..n - 1])
         == queue + WithoutWatch(cmds[..n])
  {
    assert cmds[..n][1..] == cmds[1..][..n - 1];
  }

  lemma {:induction false} OutsideSends(inputs: seq<Input>)
    ensures SentFrom(Connection(Normal, false), inputs) == Owed(CommandsOf(inputs))
    decreases |inputs|
  {
    hide Route, Handle, Sent, SentFrom, TransactionEnd, WithoutWatch, OwedSubscribed;
    var c := Connection(Normal, false);
    var cmds := CommandsOf(inputs);
    SentStep(c, inputs);
    if inputs != [] {
      var first, rest := inputs[0].command, inputs[1..];
      RouteOutside(first);
      HandledOnce(c, inputs[0]);
      assert cmds[1..] == CommandsOf(rest);
      if first.Multi? {
        TransactionSends([], rest);
        var n := TransactionEnd(cmds[1..]);
        assert [] + WithoutWatch(cmds[1..][..n]) == WithoutWatch(cmds[1..][..n]);
        if n < |rest| {
          OutsideSends(rest[n + 1..]);
          assert cmds[1..][n + 1..] == CommandsOf(rest[n + 1..]);
        }
      } else if first.Subscribe? {
        SubscribedSends(rest);
      } else {
        OutsideSends(rest);
      }
    }
  }

  lemma SentStep(c: Connection, inputs: seq<Input>)
    ensures SentFrom(c, inputs) ==
            if inputs == [] then []
            else Sent(Route(c.mode, c.needAuth, inputs[0].command).dispatch) + SentFrom(Handle(c, inputs[0]), inputs[1..])
  {
    hide Route, Handle, Sent;
  }

  lemma {:induction false} SendsWhatIsOwed(needAuth: bool, inputs: seq<Input>)
    ensures SentFrom(Connection(Normal, needAuth), inputs) == OwedFromStart(needAuth, inputs)
  {
    hide Route, Sent, Owed;
    if !needAuth {
      OutsideSends(inputs);
    } else if inputs != [] {
      RouteBeforeAuth(Normal, inputs[0].command);
      SendsWhatIsOwed(needAuth && !(inputs[0].command.Auth? && inputs[0].authReply.SimpleString?), inputs[1..]);
    }
  }

  /** For every stream of commands: what a connection has passed on to the store is exactly what it owes it, in order. */
  lemma PassesOnWhatIsOwed(needAuth: bool, inputs: seq<Input>, dispatches: seq<Dispatch>)
    requires |dispatches| == |inputs|
    requires forall i :: 0 <= i < |inputs| ==> dispatches[i] == DispatchAt(needAuth, inputs, i)
    ensures SentBy(dispatches) == OwedFromStart(needAuth, inputs)
  {
    hide Route, Sent, SentFrom, OwedFromStart, DispatchAt;
    SentByAll(needAuth, inputs, dispatches);
    SendsWhatIsOwed(needAuth, inputs);
  }

  // ------------------------------------------------------------------ and what is answered

  /** What a connection answers on the spot outside a transaction. */
  function AnswerHere(cmd: Command): string
    requires DealtWithHere(cmd) || cmd.Multi?
  {
    match cmd
    case Ping(None) => "PONG"
    case Exec => "ERR EXEC without MULTI"
    case Discard => "ERR DISCARD without MULTI"
    case _ => "OK"
  }

  lemma AnswersOutside(cmd: Command)
    requires DealtWithHere(cmd) || cmd.Multi?
    ensures
      Route(Normal, false, cmd).dispatch ==
      if cmd.Psync? then StartReplica(cmd)
      else if cmd.Echo? then ReplyNow(BulkString(cmd.message))
      else if cmd.Ping? && cmd.payload.Some? then ReplyNow(BulkString(cmd.payload.value))
      else if cmd.Exec? || cmd.Discard? then ReplyNow(SimpleError(Ascii(AnswerHere(cmd))))
      else ReplyNow(SimpleString(Ascii(AnswerHere(cmd))))
  {
    hide Ascii;
  }

  lemma AnswersInside(queue: seq<Command>, cmd: Command)
    requires !cmd.Exec? && !cmd.Discard?
    ensures
      Route(Transaction(queue), false, cmd).dispatch ==
      ReplyNow(if cmd.Watch? then SimpleError(Ascii("ERR WATCH inside MULTI is not allowed"))
               else SimpleString(Ascii("QUEUED")))
  {
    hide Ascii;
  }

  lemma AnswersSubscribed(cmd: Command)
    requires !cmd.Subscribe? && !cmd.Publish? && !cmd.Unsubscribe?
    ensures
      Route(Subscription, false, cmd).dispatch ==
      ReplyNow(if cmd.Ping? then Array([BulkString(Ascii("pong")), BulkString([])])
               else SimpleError(Ascii(NotWhenSubscribed(NameOf(cmd)))))
  {
    hide Ascii, NameOf, NotWhenSubscribed;
  }
}
