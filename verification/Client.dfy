/**
 One client connection: the mode machine of `src/client.rs:34-105`, the loop around it
 (`src/main.rs:1377-1436`), and what a transaction is once both processes are put together.
 */
module Client {
  import opened Types
  import opened RespCodec
  import opened Commands
  import opened StoreModel
  import opened StoreFrames
  import opened Orders

  datatype Mode = Normal | Transaction(queue: seq<Command>) | Subscription

  datatype Dispatch =
    | Execute(command: Command)
    | ExecuteNoReply(command: Command)
    | ReplyNow(reply: Resp)
    | StartReplica(command: Command)
    | MustAuth(username: Text, password: Text)

  datatype Routed = Routed(mode: Mode, dispatch: Dispatch)

  function Line(text: string): Resp {
    SimpleString(Ascii(text))
  }

  function Complaint(text: string): Resp {
    SimpleError(Ascii(text))
  }

  /** `name`. */
  function NameOf(c: Command): string {
    match c
    case Echo(_) => "echo"
    case Ping(_) => "ping"
    case Set(_, _, _, _) => "set"
    case Rpush(_, _) => "rpush"
    case Lpush(_, _) => "lpush"
    case Lpop(_, _) => "lpop"
    case Blpop(_, _) => "blpop"
    case Xadd(_, _, _) => "xadd"
    case Xread(_, _, _) => "xread"
    case Incr(_) => "incr"
    case Multi => "multi"
    case Exec => "exec"
    case Discard => "discard"
    case Watch(_) => "watch"
    case Unwatch => "unwatch"
    case ExecuteTx(_) => "exec"
    case ListeningPort(_) => "replconf"
    case Capa(_) => "replconf"
    case GetAck => "replconf"
    case Ack(_) => "replconf"
    case Psync(_, _) => "psync"
    case Wait(_, _) => "wait"
    case Subscribe(_) => "subscribe"
    case Publish(_, _) => "publish"
    case Unsubscribe(_) => "unsubscribe"
    case Auth(_, _) => "auth"
    case Query(name) => name
  }

  /** `ClientRunMode::run`. */
  function Route(mode: Mode, needAuth: bool, cmd: Command): Routed {
    if needAuth then
      if cmd.Auth? then Routed(Normal, MustAuth(cmd.username, cmd.password))
      else Routed(Normal, ReplyNow(Complaint("NOAUTH Authentication required.")))
    else
      match mode
      case Normal => RouteNormal(cmd)
      case Transaction(queue) => RouteTransaction(queue, cmd)
      case Subscription => RouteSubscription(cmd)
  }

  function RouteNormal(cmd: Command): Routed {
    match cmd
    case ListeningPort(_) => Routed(Normal, ReplyNow(Line("OK")))
    case Capa(_) => Routed(Normal, ReplyNow(Line("OK")))
    case Psync(_, _) => Routed(Normal, StartReplica(cmd))
    case Echo(message) => Routed(Normal, ReplyNow(BulkString(message)))
    case Ping(payload) => Routed(Normal, ReplyNow(if payload.Some? then BulkString(payload.value) else Line("PONG")))
    case Multi => Routed(Transaction([]), ReplyNow(Line("OK")))
    case Exec => Routed(Normal, ReplyNow(Complaint("ERR EXEC without MULTI")))
    case Discard => Routed(Normal, ReplyNow(Complaint("ERR DISCARD without MULTI")))
    case Ack(_) => Routed(Normal, ExecuteNoReply(cmd))
    case Subscribe(_) => Routed(Subscription, Execute(cmd))
    case _ => Routed(Normal, Execute(cmd))
  }

  function QueuedReply(): Dispatch {
    ReplyNow(Line("QUEUED"))
  }

  function RouteTransaction(queue: seq<Command>, cmd: Command): Routed {
    match cmd
    case Discard => Routed(Normal, Execute(cmd))
    case Watch(_) => Routed(Transaction(queue), ReplyNow(Complaint("ERR WATCH inside MULTI is not allowed")))
    case Exec => Routed(Normal, Execute(ExecuteTx(queue)))
    case _ => Routed(Transaction(queue + [cmd]), QueuedReply())
  }

  function NotWhenSubscribed(name: string): string {
    "ERR Can't execute '" + name
    + "': only (P|S)SUBSCRIBE / (P|S)UNSUBSCRIBE / PING / QUIT / RESET are allowed in this context"
  }

  function RouteSubscription(cmd: Command): Routed {
    match cmd
    case Ping(_) => Routed(Subscription, ReplyNow(Array([BulkString(Ascii("pong")), BulkString([])])))
    case Publish(_, _) => Routed(Subscription, Execute(cmd))
    case Subscribe(_) => Routed(Subscription, Execute(cmd))
    case Unsubscribe(_) => Routed(Subscription, Execute(cmd))
    case _ =>
      Routed(Subscription, ReplyNow(SimpleError(Ascii(NotWhenSubscribed(NameOf(cmd))))))
  }

  // ------------------------------------------------------------------- the connection

  /** A command read from the socket, and what the store would answer should it be an AUTH passed on. */
  datatype Input = Input(command: Command, authReply: Resp)

  datatype Connection = Connection(mode: Mode, needAuth: bool)

  function Handle(c: Connection, input: Input): Connection {
    var routed := Route(c.mode, c.needAuth, input.command);
    Connection(routed.mode, c.needAuth && !(routed.dispatch.MustAuth? && input.authReply.SimpleString?))
  }

  function After(needAuth: bool, inputs: seq<Input>): Connection {
    if inputs == [] then Connection(Normal, needAuth)
    else Handle(After(needAuth, inputs[..|inputs| - 1]), inputs[|inputs| - 1])
  }

  /** What is done about input `i`. */
  function DispatchAt(needAuth: bool, inputs: seq<Input>, i: nat): Dispatch
    requires i < |inputs|
  {
    var c := After(needAuth, inputs[..i]);
    Route(c.mode, c.needAuth, inputs[i].command).dispatch
  }

  /** The loop of `handle_client`. */
  method HandleClient(needAuthAtFirst: bool, inputs: seq<Input>)
    returns (dispatches: seq<Dispatch>, mode: Mode, needAuth: bool)
    ensures |dispatches| == |inputs|
    ensures forall i :: 0 <= i < |inputs| ==> dispatches[i] == DispatchAt(needAuthAtFirst, inputs, i)
    ensures Connection(mode, needAuth) == After(needAuthAtFirst, inputs)
  {
    hide Route;
    mode, needAuth := Normal, needAuthAtFirst;
    dispatches := [];
    for i := 0 to |inputs|
      invariant |dispatches| == i
      invariant forall j :: 0 <= j < i ==> dispatches[j] == DispatchAt(needAuthAtFirst, inputs, j)
      invariant Connection(mode, needAuth) == After(needAuthAtFirst, inputs[..i])
    {
      assert inputs[..i + 1][..i] == inputs[..i];
      var routed := Route(mode, needAuth, inputs[i].command);
      mode := routed.mode;
      if routed.dispatch.MustAuth? && inputs[i].authReply.SimpleString? {
        needAuth := false;
      }
      dispatches := dispatches + [routed.dispatch];
    }
    assert inputs[..|inputs|] == inputs;
  }

  // ------------------------------------------------------------------- authentication

  predicate BeforeAuth(d: Dispatch) {
    d.MustAuth? || d == ReplyNow(Complaint("NOAUTH Authentication required."))
  }

  lemma BeforeAuthRoute(mode: Mode, cmd: Command)
    ensures Route(mode, true, cmd).mode == Normal && BeforeAuth(Route(mode, true, cmd).dispatch)
  {
  }

  /** While authentication is needed the mode is normal, and so far only AUTH has reached the store. */
  lemma {:induction false} OnlyAuthPasses(needAuth: bool, inputs: seq<Input>)
    requires After(needAuth, inputs).needAuth
    ensures After(needAuth, inputs).mode == Normal
    ensures forall i :: 0 <= i < |inputs| ==> BeforeAuth(DispatchAt(needAuth, inputs, i))
  {
    hide Route, BeforeAuth;
    if inputs != [] {
      var n := |inputs| - 1;
      OnlyAuthPasses(needAuth, inputs[..n]);
      BeforeAuthRoute(After(needAuth, inputs[..n]).mode, inputs[n].command);
      forall i | 0 <= i < n ensures DispatchAt(needAuth, inputs, i) == DispatchAt(needAuth, inputs[..n], i) {
        assert inputs[..n][..i] == inputs[..i];
      }
    }
  }

  /** Once authenticated, a connection stays so. */
  lemma {:induction false} AuthLasts(needAuth: bool, inputs: seq<Input>, i: nat)
    requires i <= |inputs| && !After(needAuth, inputs[..i]).needAuth
    ensures !After(needAuth, inputs).needAuth
    decreases |inputs|
  {
    hide Route;
    if i == |inputs| {
      assert inputs[..i] == inputs;
    } else {
      var n := |inputs| - 1;
      assert inputs[..n][..i] == inputs[..i];
      AuthLasts(needAuth, inputs[..n], i);
    }
  }

  // ---------------------------------------------------------------------- transactions

  /** The commands from position `m` on that were answered QUEUED. */
  function QueuedFrom(needAuth: bool, inputs: seq<Input>, m: nat): seq<Command> {
    if |inputs| <= m then []
    else
      var n := |inputs| - 1;
      QueuedFrom(needAuth, inputs[..n], m)
      + if DispatchAt(needAuth, inputs, n) == QueuedReply() then [inputs[n].command] else []
  }

  /** The MULTI at `m` opened a transaction that is still open after all the inputs. */
  ghost predicate OpenSince(needAuth: bool, inputs: seq<Input>, m: nat) {
    && m < |inputs| && inputs[m].command.Multi?
    && After(needAuth, inputs[..m]) == Connection(Normal, false)
    && forall j :: m < j <= |inputs| ==> After(needAuth, inputs[..j]).mode.Transaction?
  }

  /** A command of a transaction's batch: none of those that end, refuse or nest a transaction. */
  predicate Batchable(c: Command) {
    !c.Exec? && !c.Discard? && !c.Watch?
  }

  /** How a transaction stays open, and how it opens. */
  lemma TransactionStays(mode: Mode, needAuth: bool, cmd: Command)
    requires Route(mode, needAuth, cmd).mode.Transaction?
    ensures !needAuth && Route(mode, needAuth, cmd).dispatch.ReplyNow?
    ensures mode.Transaction? ==>
      Route(mode, needAuth, cmd).mode.queue
      == mode.queue + if Route(mode, needAuth, cmd).dispatch == QueuedReply() then [cmd] else []
    ensures !mode.Transaction? ==> mode.Normal? && cmd.Multi? && Route(mode, needAuth, cmd).mode.queue == []
    ensures mode.Transaction? && Route(mode, needAuth, cmd).dispatch == QueuedReply() ==> Batchable(cmd)
  {
    hide Ascii, RouteSubscription;
    SubscriptionStays(cmd);
    if mode.Transaction? {
      assert cmd.Watch? ==> mode.queue + [] == mode.queue;
    }
  }

  /** How a batch is sent. */
  lemma ExecEnds(mode: Mode, needAuth: bool, cmd: Command, batch: seq<Command>)
    requires cmd.Exec? && Route(mode, needAuth, cmd).dispatch == Execute(ExecuteTx(batch))
    ensures !needAuth && mode == Transaction(batch)
  {
    hide Ascii, RouteSubscription;
    SubscriptionStays(cmd);
  }

  lemma SubscriptionStays(cmd: Command)
    ensures RouteSubscription(cmd).mode == Subscription
    ensures cmd.Exec? ==> RouteSubscription(cmd).dispatch.ReplyNow?
  {
    hide Ascii, NameOf, NotWhenSubscribed;
  }

  /** An open transaction was opened by a MULTI, has been open since, and its queue is the commands answered
      QUEUED since then, in order. */
  lemma {:induction false} QueueIsWhatWasQueued(needAuth: bool, inputs: seq<Input>) returns (m: nat)
    requires After(needAuth, inputs).mode.Transaction?
    ensures OpenSince(needAuth, inputs, m)
    ensures After(needAuth, inputs).mode.queue == QueuedFrom(needAuth, inputs, m + 1)
  {
    hide Route, Line;
    var n := |inputs| - 1;
    var before := After(needAuth, inputs[..n]);
    assert inputs[..|inputs|] == inputs;
    TransactionStays(before.mode, before.needAuth, inputs[n].command);
    if before.mode.Transaction? {
      m := QueueIsWhatWasQueued(needAuth, inputs[..n]);
      forall j | m < j <= |inputs| ensures After(needAuth, inputs[..j]).mode.Transaction? {
        if j <= n {
          assert inputs[..n][..j] == inputs[..j];
        }
      }
      assert inputs[..n][..m] == inputs[..m];
    } else {
      m := n;
    }
  }

  /** The batch an EXEC sends is exactly the commands answered QUEUED since the MULTI that opened the transaction,
      in order, and nothing between the two reached the store. */
  lemma BatchIsQueuedSinceMulti(needAuth: bool, inputs: seq<Input>, batch: seq<Command>) returns (m: nat)
    requires inputs != [] && inputs[|inputs| - 1].command.Exec?
    requires DispatchAt(needAuth, inputs, |inputs| - 1) == Execute(ExecuteTx(batch))
    ensures OpenSince(needAuth, inputs[..|inputs| - 1], m)
    ensures batch == QueuedFrom(needAuth, inputs[..|inputs| - 1], m + 1)
    ensures forall i :: m <= i < |inputs| - 1 ==> DispatchAt(needAuth, inputs, i).ReplyNow?
    ensures forall c :: c in batch ==> Batchable(c)
  {
    hide Route, Line;
    var n := |inputs| - 1;
    var before := After(needAuth, inputs[..n]);
    ExecEnds(before.mode, before.needAuth, inputs[n].command, batch);
    m := QueueIsWhatWasQueued(needAuth, inputs[..n]);
    forall i | m <= i < n ensures DispatchAt(needAuth, inputs, i).ReplyNow? {
      StaysOpen(needAuth, inputs, m, i);
    }
    QueuedAreBatchable(needAuth, inputs[..n], m);
  }

  lemma StaysOpen(needAuth: bool, inputs: seq<Input>, m: nat, i: nat)
    requires inputs != [] && OpenSince(needAuth, inputs[..|inputs| - 1], m) && m <= i < |inputs| - 1
    ensures DispatchAt(needAuth, inputs, i).ReplyNow?
  {
    hide Route, Line;
    var front := inputs[..|inputs| - 1];
    assert front[..i] == inputs[..i] && front[..i + 1] == inputs[..i + 1];
    assert inputs[..i + 1][..i] == inputs[..i];
    assert After(needAuth, front[..i + 1]).mode.Transaction?;
    var before := After(needAuth, inputs[..i]);
    TransactionStays(before.mode, before.needAuth, inputs[i].command);
  }

  lemma {:induction false} QueuedAreBatchable(needAuth: bool, inputs: seq<Input>, m: nat)
    requires OpenSince(needAuth, inputs, m)
    ensures forall c :: c in QueuedFrom(needAuth, inputs, m + 1) ==> Batchable(c)
    decreases |inputs|
  {
    hide Route, Line;
    var n := |inputs| - 1;
    if m < n {
      assert inputs[..n][..m] == inputs[..m] && inputs[..|inputs|] == inputs;
      forall j | m < j <= n ensures After(needAuth, inputs[..n][..j]).mode.Transaction? {
        assert inputs[..n][..j] == inputs[..j];
      }
      QueuedAreBatchable(needAuth, inputs[..n], m);
      var before := After(needAuth, inputs[..n]);
      assert before.mode.Transaction?;
      TransactionStays(before.mode, before.needAuth, inputs[n].command);
    }
  }

  // ---------------------------------------------------------------- client and store

  /** The client waits for a reply exactly when the store owes it one: everything sent with `Execute` or for
      AUTH is answered, everything sent with `ExecuteNoReply` is an acknowledgement. */
  lemma AwaitsIffAnswered(mode: Mode, needAuth: bool, cmd: Command)
    ensures
      var d := Route(mode, needAuth, cmd).dispatch;
      && (d.Execute? ==> !d.command.Ack?)
      && (d.ExecuteNoReply? ==> d.command.Ack?)
  {
    hide RouteNormal, RouteSubscription, Line, Complaint;
    if !needAuth && mode.Normal? {
      NormalAwaits(cmd);
    } else if !needAuth && mode.Subscription? {
      SubscriptionAwaits(cmd);
    }
  }

  lemma NormalAwaits(cmd: Command)
    ensures RouteNormal(cmd).dispatch.Execute? ==> !RouteNormal(cmd).dispatch.command.Ack?
    ensures RouteNormal(cmd).dispatch.ExecuteNoReply? ==> RouteNormal(cmd).dispatch.command.Ack?
  {
    hide Line, Complaint;
  }

  lemma SubscriptionAwaits(cmd: Command)
    ensures RouteSubscription(cmd).dispatch.Execute? ==> !RouteSubscription(cmd).dispatch.command.Ack?
    ensures !RouteSubscription(cmd).dispatch.ExecuteNoReply?
  {
    hide Ascii, NameOf, NotWhenSubscribed;
  }

  /** EXEC is one step of the store: either the lock failed and nothing changed but the caller's marks, or the whole batch
      ran with no other envelope in between, and every command has its reply, in order. */
  lemma TransactionInOneStep(s: State, c: ClientId, batch: seq<Command>, channel: Channel, t: State)
    returns (replies: seq<Resp>, mid: State)
    requires Step(s, WithReply(c, ExecuteTx(batch), channel), t)
    ensures LockFailed(s, c) ==> t.data == s.data && t.out == s.out + [Reply(channel, NullArray)]
    ensures !LockFailed(s, c) ==>
      && ExecutesAll(s, c, batch, replies, mid) && |replies| == |batch|
      && t.data == mid.data && t.out == mid.out + [Reply(channel, Array(replies))]
  {
    hide Step, Executes, ExecutesAll, LockFailed, IsOrder;
    var cmd := ExecuteTx(batch);
    var r, done, order := RequestParts(s, c, cmd, channel, t);
    assert Account(s, cmd) == s;
    replies, mid := BatchOutcome(s, c, batch, r, done);
    assert t.out == done.out + [Reply(channel, r.reply)] + [];
  }

  lemma BatchOutcome(s: State, c: ClientId, batch: seq<Command>, r: Result, t: State)
    returns (replies: seq<Resp>, mid: State)
    requires Executes(s, c, ExecuteTx(batch), r, t)
    ensures r.Done?
    ensures LockFailed(s, c) ==> r == Done(NullArray) && t == Cleanup(s, c)
    ensures !LockFailed(s, c) ==>
      && ExecutesAll(s, c, batch, replies, mid) && |replies| == |batch|
      && r == Done(Array(replies)) && t == Cleanup(mid, c)
  {
    var marked := Touch(s, c, []);
    assert marked == s;
    replies, mid := [], s;
    if !LockFailed(s, c) {
      replies, mid :| ExecutesAll(s, c, batch, replies, mid) && r == Done(Array(replies)) && t == Cleanup(mid, c);
    }
  }
}
