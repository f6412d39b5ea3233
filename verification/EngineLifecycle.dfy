/**
 The life of a command in the engine (`Execute`, `Cancel`, `OnCommandEvent`, `ResetOperation`, `Connect`,
 `ContinueConnect`, `OnTimer`, `Disconnect`, `DoCancel` in src/engine/engineprivate.cpp), with the queue of the
 events the engine sends itself.

 Clocks, options and the control socket are outside: whether a reconnect delay is left, what a handler
 answers, and which codes the socket reports back are arguments of each event.
 */
module EngineLifecycle {
  import opened Options
  import opened ReplyCodes

  /** `retry`: the command asks for reconnecting; `supported`: there is a socket class for its protocol. */
  datatype Command = Connect(retry: bool, supported: bool) | Disconnect | Other(id: nat)

  datatype Notification = Notification(code: Code, command: Command)

  datatype Queued = CommandQueued | CancelQueued

  /**
   `unhandled`: no command event has been handled since the last command was accepted, and `created` counts the
   control sockets made since then.
   */
  datatype Engine = Engine(
    command: Option<Command>,
    unhandled: bool,
    connected: bool,
    timer: bool,
    retries: nat,
    created: nat,
    queue: seq<Queued>,
    accepted: seq<Command>,
    delivered: seq<Notification>)

  const IDLE := Engine(None, false, false, false, 0, 0, [], [], [])

  /** Failures after which connecting is tried again. */
  const RETRYABLE: Code := ERROR | DISCONNECTED | TIMEOUT | CRITICALERROR | PASSWORDFAILED

  predicate WorthRetrying(code: Code) {
    code & !RETRYABLE == 0 && code & (ERROR | DISCONNECTED) != 0 && !Has(code, CRITICALERROR)
  }

  /** `limit` is the reconnect count option. */
  function ResetOperation(e: Engine, code: Code, limit: int): (Engine, Code) {
    if e.command == None then (e, code)
    else
      var c := e.command.value;
      if c.Connect? && e.timer then (e, WOULDBLOCK)
      else
        var e' := if c.Connect? && WorthRetrying(code) then e.(retries := e.retries + 1) else e;
        if c.Connect? && WorthRetrying(code) && e'.retries < limit && c.retry then (e'.(timer := true), WOULDBLOCK)
        else (e'.(command := None, delivered := e.delivered + [Notification(code, c)]), code)
  }

  function Reports(e: Engine, codes: seq<Code>, limit: int): Engine
    decreases |codes|
  {
    if codes == [] then e else Reports(ResetOperation(e, codes[0], limit).0, codes[1..], limit)
  }

  /** Each destructor in the class chain of a control socket closes it, and so reports to the engine. */
  function Closings(levels: nat): seq<Code> {
    seq(levels, _ => ERROR | DISCONNECTED)
  }

  /** `controlSocket_.reset()`: the pointer is cleared before the destructors run. */
  function DestroySocket(e: Engine, levels: nat, limit: int): Engine {
    if e.connected then Reports(e.(connected := false), Closings(levels), limit) else e
  }

  function ContinueConnect(e: Engine, delay: bool, limit: int): (Engine, Code) {
    if e.command == None || !e.command.value.Connect? then ResetOperation(e, INTERNALERROR, limit)
    else if delay then (e.(timer := true), WOULDBLOCK)
    else if !e.command.value.supported then (e, SYNTAXERROR | DISCONNECTED)
    else (e.(connected := true, created := e.created + 1), CONTINUE)
  }

  /** What the answer of a command handler leads to; `reports` come from the socket going on. */
  function Finish(e: Engine, code: Code, reports: seq<Code>, limit: int): Engine {
    if code == CONTINUE then
      if e.connected then Reports(e, reports, limit) else ResetOperation(e, INTERNALERROR, limit).0
    else if code != WOULDBLOCK then ResetOperation(e, code, limit).0
    else e
  }

  function Precondition(e: Engine, c: Command, checkBusy: bool): Code {
    if checkBusy && e.command != None then BUSY
    else if !c.Connect? && !c.Disconnect? && !e.connected then NOTCONNECTED
    else if c.Connect? && e.connected then ALREADYCONNECTED
    else OK
  }

  datatype Event =
    | Execute(c: Command, valid: bool)
    | Cancel
    | Dispatch(answer: Code, delay: bool, levels: nat, reports: seq<Code>)
    | TimerEvent(delay: bool, levels: nat, reports: seq<Code>)
    | SocketReport(code: Code)

  /** `valid` is what the command says of its own arguments. */
  function DoExecute(e: Engine, c: Command, valid: bool): (Engine, Code) {
    var res := if valid then Precondition(e, c, true) else SYNTAXERROR;
    if res != OK then (e, res)
    else
      (e.(command := Some(c), unhandled := true, created := 0,
          queue := e.queue + [CommandQueued], accepted := e.accepted + [c]), WOULDBLOCK)
  }

  /** A command is taken on exactly if it is valid, none is under way, and only a connect command finds no connection. */
  lemma ExecuteAnswers(e: Engine, c: Command, valid: bool)
    ensures
      var (e', code) := DoExecute(e, c, valid);
      if valid && e.command.None? && (c.Connect? ==> !e.connected) && (c.Other? ==> e.connected)
      then
        && code == 0x1 && e'.command == Some(c) && e'.unhandled
        && e'.queue == e.queue + [CommandQueued] && e'.accepted == e.accepted + [c]
      else
        e' == e && code == (if !valid then 0x12 else if e.command.Some? then 0x102 else if c.Other? then 0x22 else 0x202)
  {
  }

  function SendCancel(e: Engine): (Engine, Code) {
    if e.command == None then (e, OK) else (e.(queue := e.queue + [CancelQueued]), WOULDBLOCK)
  }

  /** Cancelling takes effect later, and only if there is a command to cancel. */
  lemma CancelAnswers(e: Engine)
    ensures SendCancel(e) == if e.command.None? then (e, 0x0) else (e.(queue := e.queue + [CancelQueued]), 0x1)
  {
  }

  /** The handler proper of the current command. */
  function Handle(e: Engine, c: Command, answer: Code, delay: bool, levels: nat, limit: int): (Engine, Code) {
    match c
    case Connect(_, _) =>
      if e.connected then (e, ALREADYCONNECTED) else ContinueConnect(e.(retries := 0), delay, limit)
    case Disconnect =>
      (if e.connected then DestroySocket(ResetOperation(e, ERROR | DISCONNECTED, limit).0, levels, limit) else e, OK)
    case Other(_) => (e, answer)
  }

  /** The event names no command: whichever is current is handled. */
  function OnCommandEvent(e: Engine, answer: Code, delay: bool, levels: nat, reports: seq<Code>, limit: int): Engine {
    if e.command == None then e
    else
      var c := e.command.value;
      var e0 := e.(unhandled := false);
      var pre := Precondition(e0, c, false);
      var (e', res) := if pre == OK then Handle(e0, c, answer, delay, levels, limit) else (e0, pre);
      Finish(e', if c.Disconnect? && res & DISCONNECTED != 0 then OK else res, reports, limit)
  }

  function OnTimer(e: Engine, delay: bool, levels: nat, reports: seq<Code>, limit: int): Engine {
    if !e.timer then e
    else if e.command == None || !e.command.value.Connect? then e.(timer := false)
    else
      var (e', res) := ContinueConnect(DestroySocket(e, levels, limit).(timer := false), delay, limit);
      Finish(e', res, reports, limit)
  }

  function DoCancel(e: Engine, levels: nat, reports: seq<Code>, limit: int): Engine {
    if e.command == None then e
    else if e.timer then
      var e' := DestroySocket(e, levels, limit);
      e'.(command := None, timer := false,
          delivered := e'.delivered + [Notification(DISCONNECTED | CANCELED, Connect(true, true))])
    else if e.connected then Reports(e, reports, limit)
    else ResetOperation(e, CANCELED, limit).0
  }

  /** The event loop hands over the oldest event. */
  function DispatchFront(e: Engine, answer: Code, delay: bool, levels: nat, reports: seq<Code>, limit: int): Engine {
    if e.queue == [] then e
    else
      var rest := e.(queue := e.queue[1..]);
      match e.queue[0]
      case CommandQueued => OnCommandEvent(rest, answer, delay, levels, reports, limit)
      case CancelQueued => DoCancel(rest, levels, reports, limit)
  }

  function Step(e: Engine, ev: Event, limit: int): Engine {
    match ev
    case Execute(c, valid) => DoExecute(e, c, valid).0
    case Cancel => SendCancel(e).0
    case Dispatch(answer, delay, levels, reports) => DispatchFront(e, answer, delay, levels, reports, limit)
    case TimerEvent(delay, levels, reports) => OnTimer(e, delay, levels, reports, limit)
    case SocketReport(code) => if e.connected then ResetOperation(e, code, limit).0 else e
  }

  function Run(e: Engine, events: seq<Event>, limit: int): Engine
    decreases |events|
  {
    if events == [] then e else Run(Step(e, events[0], limit), events[1..], limit)
  }

  // ---- What every run keeps ----

  datatype Kind = ConnectKind | DisconnectKind | OtherKind(id: nat)

  function KindOf(c: Command): Kind {
    match c
    case Connect(_, _) => ConnectKind
    case Disconnect => DisconnectKind
    case Other(id) => OtherKind(id)
  }

  function Kinds(commands: seq<Command>): seq<Kind> {
    seq(|commands|, i requires 0 <= i < |commands| => KindOf(commands[i]))
  }

  function AnsweredKinds(notifications: seq<Notification>): seq<Kind> {
    seq(|notifications|, i requires 0 <= i < |notifications| => KindOf(notifications[i].command))
  }

  function Current(e: Engine): seq<Kind> {
    if e.command == None then [] else [KindOf(e.command.value)]
  }

  predicate Connecting(e: Engine) {
    e.command.Some? && e.command.value.Connect?
  }

  /** Every accepted command was answered by one notification of its own, in order, but for the one under way. */
  predicate ExactlyOnce(e: Engine) {
    Kinds(e.accepted) == AnsweredKinds(e.delivered) + Current(e)
  }

  /** A pending retry belongs to a connect command. */
  predicate Consistent(e: Engine) {
    (e.timer ==> Connecting(e)) && ExactlyOnce(e)
  }

  /** The command under way has not been handled at all. */
  predicate Unhandled(e: Engine) {
    e.command.Some? && e.unhandled
  }

  function CommandEvents(e: Engine): nat {
    multiset(e.queue)[CommandQueued]
  }

  /** Somebody is left to answer the command: its own event, the retry timer or the control socket. */
  predicate Live(e: Engine) {
    if Unhandled(e) then CommandEvents(e) > 0 && !e.timer && !(Connecting(e) && e.connected)
    else e.command == None || e.timer || e.connected
  }

  function Max(a: int, b: int): int {
    if a < b then b else a
  }

  predicate MayTry(retries: nat, limit: int) {
    retries == 0 || retries < limit
  }

  /** Every socket of the connect command but the one at work has failed once, and all count as retries. */
  predicate SocketsBounded(e: Engine, limit: int) {
    && e.created <= Max(1, limit)
    && (Connecting(e) && e.timer ==> e.created == e.retries && MayTry(e.retries, limit))
    && (Connecting(e) && !e.timer && e.connected ==> e.created == e.retries + 1 && MayTry(e.retries, limit))
    && (Connecting(e) && !e.timer && !e.connected ==> e.created == 0)
  }

  /** Nothing but the answer to the command, the timer and the count of retries may differ. */
  predicate SameButAnswer(e: Engine, e': Engine) {
    && e' == e.(command := e'.command, timer := e'.timer, retries := e'.retries, delivered := e'.delivered)
    && (e'.command == None || e'.command == e.command)
  }

  /** What the parts of a step keep besides liveness. */
  predicate Keeps(e: Engine, e': Engine, limit: int) {
    Consistent(e') && SameButAnswer(e, e') && (SocketsBounded(e, limit) ==> SocketsBounded(e', limit))
  }

  /** A reset answers the command or leaves a retry pending. */
  lemma ResetKeeps(e: Engine, code: Code, limit: int)
    requires Consistent(e)
    requires Connecting(e) && !e.timer && WorthRetrying(code) ==> e.connected
    ensures var e' := ResetOperation(e, code, limit).0;
      && Keeps(e, e', limit)
      && (e'.command == None || e'.timer)
      && (e.timer || e.command == None ==> e' == e)
      && (e'.timer ==> e.timer || (Connecting(e) && e.connected))
      && (!e.timer && !WorthRetrying(code) ==> e'.command == None)
  {
    hide WorthRetrying;
  }

  /** Only the first report of a socket has any effect. */
  lemma {:induction false} FirstReportCounts(e: Engine, codes: seq<Code>, limit: int)
    requires e.timer ==> Connecting(e)
    ensures Reports(e, codes, limit) == if codes == [] then e else ResetOperation(e, codes[0], limit).0
    decreases |codes|
  {
    hide WorthRetrying;
    if codes != [] {
      FirstReportCounts(ResetOperation(e, codes[0], limit).0, codes[1..], limit);
    }
  }

  /** Destroying the socket of a command that is answered or to be retried re-enters the engine without any effect. */
  lemma DestroyingIsSilent(e: Engine, levels: nat, limit: int)
    requires e.command == None || (e.timer && Connecting(e))
    ensures DestroySocket(e, levels, limit) == e.(connected := false)
  {
    if e.connected {
      hide WorthRetrying;
      assert e.(connected := false).command == e.command;
      SettledReports(e.(connected := false), Closings(levels), limit);
    }
  }

  lemma {:induction false} SettledReports(e: Engine, codes: seq<Code>, limit: int)
    requires e.command == None || (e.timer && Connecting(e))
    ensures Reports(e, codes, limit) == e
    decreases |codes|
  {
    hide WorthRetrying;
    if codes != [] {
      SettledReports(e, codes[1..], limit);
    }
  }

  /** Whatever a handler answers, the command is answered or somebody is left to answer it. */
  lemma FinishKeeps(e: Engine, code: Code, reports: seq<Code>, limit: int)
    requires Consistent(e) && !e.unhandled
    requires Connecting(e) && !e.timer && !e.connected ==> !WorthRetrying(code)
    requires code == WOULDBLOCK ==> e.command == None || e.timer || e.connected
    ensures var e' := Finish(e, code, reports, limit);
      && Keeps(e, e', limit) && Live(e')
      && (e.timer ==> e' == e)
      && (!e.timer && code != CONTINUE && code != WOULDBLOCK && !WorthRetrying(code) ==> e'.command == None)
  {
    FirstReportCounts(e, reports, limit);
    assert !WorthRetrying(INTERNALERROR);
    ResetKeeps(e, INTERNALERROR, limit);
    ResetKeeps(e, code, limit);
    if e.connected && reports != [] {
      ResetKeeps(e, reports[0], limit);
    }
    hide ResetOperation, Reports, ExactlyOnce, WorthRetrying;
  }

  /** A command event that restarts connecting while a retry is pending: it forgets the failures, or connects at once. */
  predicate OvertakesRetry(e: Engine, delay: bool) {
    e.timer && !e.connected && Connecting(e) && (e.retries > 0 || (!delay && e.command.value.supported))
  }

  lemma ConnectKeeps(e: Engine, delay: bool, limit: int)
    requires Consistent(e) && Connecting(e) && !e.connected
    ensures
      var (e', res) := ContinueConnect(e, delay, limit);
      && Consistent(e')
      && e' == e.(timer := e'.timer, connected := e'.connected, created := e'.created)
      && (e.timer ==> e'.timer)
      && !WorthRetrying(res) && (res == WOULDBLOCK ==> e'.timer) && (res == CONTINUE ==> e'.connected)
      && (res == WOULDBLOCK || res == CONTINUE || (!e'.connected && e'.timer == e.timer))
      && e'.created == e.created + (if !delay && e.command.value.supported then 1 else 0)
      && (e'.connected <==> !delay && e.command.value.supported)
      && (!e.timer && e.created == e.retries && MayTry(e.retries, limit) && e.created <= Max(1, limit) ==>
            (e'.timer || e'.connected ==> SocketsBounded(e', limit)))
  {
  }

  /** The bound on sockets survives a command event exactly if it does not overtake a pending retry. */
  lemma CommandEventKeeps(e: Engine, answer: Code, delay: bool, levels: nat, reports: seq<Code>, limit: int)
    requires Consistent(e)
    ensures var e' := OnCommandEvent(e, answer, delay, levels, reports, limit);
      && Consistent(e') && Live(e') && !Unhandled(e') && e'.queue == e.queue
      && (SocketsBounded(e, limit) ==> (SocketsBounded(e', limit) <==> !OvertakesRetry(e, delay)))
  {
    hide ResetOperation, Reports, Finish, DestroySocket;
    if e.command != None {
      var c := e.command.value;
      var e0 := e.(unhandled := false);
      var pre := Precondition(e0, c, false);
      var (e', res) := if pre == OK then Handle(e0, c, answer, delay, levels, limit) else (e0, pre);
      assert Consistent(e0);
      if pre == OK && c.Connect? {
        ConnectKeeps(e0.(retries := 0), delay, limit);
      } else if pre == OK && c.Disconnect? && e.connected {
        ResetKeeps(e0, ERROR | DISCONNECTED, limit);
        DestroyingIsSilent(ResetOperation(e0, ERROR | DISCONNECTED, limit).0, levels, limit);
      }
      hide ContinueConnect;
      FinishKeeps(e', if c.Disconnect? && res & DISCONNECTED != 0 then OK else res, reports, limit);
    }
  }

  lemma TimerKeeps(e: Engine, delay: bool, levels: nat, reports: seq<Code>, limit: int)
    requires Consistent(e) && Live(e)
    ensures var e' := OnTimer(e, delay, levels, reports, limit);
      && Consistent(e') && Live(e') && e'.queue == e.queue && (Unhandled(e') <==> Unhandled(e))
      && (SocketsBounded(e, limit) ==> SocketsBounded(e', limit))
  {
    hide ResetOperation, Reports, Finish, ContinueConnect, DestroySocket;
    if e.timer {
      DestroyingIsSilent(e, levels, limit);
      var e1 := e.(connected := false, timer := false);
      ConnectKeeps(e1, delay, limit);
      var (e', res) := ContinueConnect(e1, delay, limit);
      FinishKeeps(e', res, reports, limit);
    }
  }

  lemma CancelKeeps(e: Engine, levels: nat, reports: seq<Code>, limit: int)
    requires Consistent(e) && Live(e)
    ensures var e' := DoCancel(e, levels, reports, limit);
      && Consistent(e') && Live(e') && e'.queue == e.queue && (Unhandled(e') ==> Unhandled(e))
      && (SocketsBounded(e, limit) ==> SocketsBounded(e', limit))
  {
    hide ResetOperation, Reports, DestroySocket;
    if e.command != None && e.timer {
      DestroyingIsSilent(e, levels, limit);
      var e' := DoCancel(e, levels, reports, limit);
      assert AnsweredKinds(e'.delivered) == AnsweredKinds(e.delivered) + [ConnectKind];
    } else if e.command != None {
      FirstReportCounts(e, reports, limit);
      assert !WorthRetrying(CANCELED);
      ResetKeeps(e, CANCELED, limit);
      if e.connected && reports != [] {
        ResetKeeps(e, reports[0], limit);
      }
    }
  }

  lemma PopCounts(queue: seq<Queued>)
    requires queue != []
    ensures multiset(queue)[CommandQueued] == multiset(queue[1..])[CommandQueued] + (if queue[0] == CommandQueued then 1 else 0)
  {
    assert queue == [queue[0]] + queue[1..];
  }

  predicate Overtakes(e: Engine, ev: Event) {
    ev.Dispatch? && e.queue != [] && e.queue[0] == CommandQueued && OvertakesRetry(e, ev.delay)
  }

  predicate Inv(e: Engine) {
    Consistent(e) && Live(e)
  }

  lemma DispatchKeeps(e: Engine, answer: Code, delay: bool, levels: nat, reports: seq<Code>, limit: int)
    requires Inv(e)
    ensures var e' := DispatchFront(e, answer, delay, levels, reports, limit);
      && Inv(e')
      && (SocketsBounded(e, limit) ==>
            (SocketsBounded(e', limit) <==> !Overtakes(e, Dispatch(answer, delay, levels, reports))))
      && (if e.queue == [] then e' == e
          else if e.queue[0] == CommandQueued then !Unhandled(e') && CommandEvents(e') == CommandEvents(e) - 1
          else (Unhandled(e') ==> Unhandled(e)) && CommandEvents(e') == CommandEvents(e))
  {
    hide OnCommandEvent, DoCancel, SocketsBounded, ExactlyOnce;
    if e.queue != [] {
      PopCounts(e.queue);
      var rest := e.(queue := e.queue[1..]);
      PoppingKeeps(e, limit);
      if e.queue[0] == CommandQueued {
        CommandEventKeeps(rest, answer, delay, levels, reports, limit);
      } else {
        CancelKeeps(rest, levels, reports, limit);
      }
    }
  }

  lemma PoppingKeeps(e: Engine, limit: int)
    requires e.queue != []
    ensures var rest := e.(queue := e.queue[1..]);
      && (SocketsBounded(rest, limit) <==> SocketsBounded(e, limit))
      && (ExactlyOnce(rest) <==> ExactlyOnce(e))
  {
  }

  lemma StepKeeps(e: Engine, ev: Event, limit: int)
    requires Inv(e)
    ensures var e' := Step(e, ev, limit);
      && Inv(e')
      && (SocketsBounded(e, limit) ==> (SocketsBounded(e', limit) <==> !Overtakes(e, ev)))
  {
    hide ResetOperation, DispatchFront, OnTimer;
    match ev
    case Execute(c, valid) =>
      var (e', res) := DoExecute(e, c, valid);
      if res == WOULDBLOCK {
        assert Kinds(e'.accepted) == Kinds(e.accepted) + [KindOf(c)];
      }
    case Cancel =>
    case Dispatch(answer, delay, levels, reports) => DispatchKeeps(e, answer, delay, levels, reports, limit);
    case TimerEvent(delay, levels, reports) => TimerKeeps(e, delay, levels, reports, limit);
    case SocketReport(code) =>
      if e.connected {
        ResetKeeps(e, code, limit);
      }
  }

  /** No event of the run is a command event overtaking a pending retry. */
  predicate NeverOvertakes(e: Engine, events: seq<Event>, limit: int)
    decreases |events|
  {
    events == [] || (!Overtakes(e, events[0]) && NeverOvertakes(Step(e, events[0], limit), events[1..], limit))
  }

  lemma {:induction false} RunKeeps(e: Engine, events: seq<Event>, limit: int)
    requires Inv(e)
    ensures Inv(Run(e, events, limit))
    ensures SocketsBounded(e, limit) && NeverOvertakes(e, events, limit) ==> SocketsBounded(Run(e, events, limit), limit)
    decreases |events|
  {
    hide Step, Inv, SocketsBounded, Overtakes;
    if events != [] {
      StepKeeps(e, events[0], limit);
      RunKeeps(Step(e, events[0], limit), events[1..], limit);
    }
  }

  lemma IdleIsFine(limit: int)
    ensures Inv(IDLE) && SocketsBounded(IDLE, limit)
  {
    assert Kinds(IDLE.accepted) == AnsweredKinds(IDLE.delivered) + Current(IDLE);
  }

  /**
   Exactly-once completion.  Under any sequence of events, with any re-entry from socket destructors and any
   stale command events, the notifications answer the accepted commands one for one and in order; only the
   command under way has none yet.
   */
  lemma CompletionsMatchCommands(events: seq<Event>, limit: int)
    ensures
      var e := Run(IDLE, events, limit);
      && |e.delivered| == |e.accepted| - (if e.command != None then 1 else 0)
      && (forall i :: 0 <= i < |e.delivered| ==> KindOf(e.delivered[i].command) == KindOf(e.accepted[i]))
      && (e.command != None ==> KindOf(e.accepted[|e.delivered|]) == KindOf(e.command.value))
  {
    IdleIsFine(limit);
    RunKeeps(IDLE, events, limit);
    var e := Run(IDLE, events, limit);
    assert |Kinds(e.accepted)| == |AnsweredKinds(e.delivered)| + |Current(e)|;
    forall i | 0 <= i < |e.accepted|
      ensures KindOf(e.accepted[i]) == (AnsweredKinds(e.delivered) + Current(e))[i]
    {
      assert Kinds(e.accepted)[i] == KindOf(e.accepted[i]);
    }
  }

  /** No command is left without anybody to answer it, and a retry is only ever pending for a connect command. */
  lemma NobodyIsForgotten(events: seq<Event>, limit: int)
    ensures
      var e := Run(IDLE, events, limit);
      && (e.timer ==> Connecting(e))
      && (e.command != None ==> CommandEvents(e) > 0 || e.timer || e.connected)
      && (Unhandled(e) ==> CommandEvents(e) > 0)
  {
    IdleIsFine(limit);
    RunKeeps(IDLE, events, limit);
  }

  /** A connect command makes at most as many sockets as the reconnect count allows, and at least one is allowed. */
  lemma SocketsAreBounded(events: seq<Event>, limit: int)
    requires NeverOvertakes(IDLE, events, limit)
    ensures Run(IDLE, events, limit).created <= Max(1, limit)
  {
    IdleIsFine(limit);
    RunKeeps(IDLE, events, limit);
  }

  // ---- Which code a notification carries ----

  function First(codes: seq<Code>): Option<Code> {
    if codes == [] then None else Some(codes[0])
  }

  /**
   The first thing that a step says about the command under way, if anything: the refusal of its preconditions, the
   answer of its handler, or what the socket reports first.
   */
  function FirstReport(e: Engine, ev: Event): Option<Code>
    requires e.command.Some?
  {
    match ev
    case Execute(_, _) => None
    case Cancel => None
    case SocketReport(code) => if e.connected then Some(code) else None
    case TimerEvent(delay, _, reports) => if e.timer then ConnectReport(e.command.value, delay, reports) else None
    case Dispatch(answer, delay, _, reports) =>
      if e.queue == [] then None
      else if e.queue[0] == CancelQueued then (if e.connected then First(reports) else Some(CANCELED))
      else
        match e.command.value
        case Connect(_, _) => if e.connected then Some(ALREADYCONNECTED) else ConnectReport(e.command.value, delay, reports)
        case Disconnect => if e.connected then Some(ERROR | DISCONNECTED) else Some(OK)
        case Other(_) =>
          if !e.connected then Some(NOTCONNECTED)
          else if answer == CONTINUE then First(reports)
          else if answer == WOULDBLOCK then None
          else Some(answer)
  }

  /** Connecting waits, fails at once, or is left to the new socket. */
  function ConnectReport(c: Command, delay: bool, reports: seq<Code>): Option<Code> {
    if delay then None
    else if c.Connect? && c.supported then First(reports)
    else Some(SYNTAXERROR | DISCONNECTED)
  }

  /** The failures counted before a step says something: a command event for connecting starts anew. */
  function FailuresBefore(e: Engine, ev: Event): nat {
    if Connecting(e) && ev.Dispatch? && e.queue != [] && e.queue[0] == CommandQueued && !e.connected then 0 else e.retries
  }

  /**
   Connecting is tried again after a code of no other bits than those of ERROR, DISCONNECTED, TIMEOUT, PASSWORDFAILED
   and CRITICALERROR, that has ERROR or DISCONNECTED and not all of CRITICALERROR, while the count allows.
   */
  predicate TriesAgain(c: Command, code: Code, failures: nat, limit: int) {
    && c.Connect? && c.retry && failures + 1 < limit
    && code & 0xFFFFF3B9 == 0 && code & 0x42 != 0 && code & 0x6 != 0x6
  }

  predicate CancelsRetry(e: Engine, ev: Event) {
    e.timer && ev.Dispatch? && e.queue != [] && e.queue[0] == CancelQueued
  }

  /** The notifications that a step makes. */
  function Expected(e: Engine, ev: Event, limit: int): seq<Notification> {
    if e.command == None then []
    else if CancelsRetry(e, ev) then [Notification(DISCONNECTED | CANCELED, Connect(true, true))]
    else if (e.timer && !ev.TimerEvent?) || FirstReport(e, ev) == None then []
    else if TriesAgain(e.command.value, FirstReport(e, ev).value, FailuresBefore(e, ev), limit) then []
    else [Notification(FirstReport(e, ev).value, e.command.value)]
  }

  lemma WorthRetryingIs(code: Code)
    ensures WorthRetrying(code) <==> code & 0xFFFFF3B9 == 0 && code & 0x42 != 0 && code & 0x6 != 0x6
  {
  }

  /** What a reset makes of a code while no retry is pending. */
  lemma ResetDelivers(e: Engine, code: Code, limit: int)
    requires e.command.Some? && !e.timer
    ensures
      var e', c := ResetOperation(e, code, limit).0, e.command.value;
      if TriesAgain(c, code, e.retries, limit)
      then e' == e.(retries := e.retries + 1, timer := true)
      else e'.delivered == e.delivered + [Notification(code, c)] && e'.command == None && !e'.timer
  {
    WorthRetryingIs(code);
    hide WorthRetrying;
  }

  lemma ReportsDeliver(e: Engine, codes: seq<Code>, limit: int)
    requires e.command.Some? && !e.timer
    ensures
      var e', c := Reports(e, codes, limit), e.command.value;
      e'.delivered == e.delivered +
        if codes == [] || TriesAgain(c, codes[0], e.retries, limit) then [] else [Notification(codes[0], c)]
  {
    FirstReportCounts(e, codes, limit);
    if codes != [] {
      ResetDelivers(e, codes[0], limit);
    }
    hide ResetOperation, TriesAgain;
  }

  lemma FinishDelivers(e: Engine, code: Code, reports: seq<Code>, limit: int)
    requires e.command.Some? && !e.timer && (code == CONTINUE ==> e.connected)
    ensures
      var e', c := Finish(e, code, reports, limit), e.command.value;
      var said := if code == CONTINUE then First(reports) else if code == WOULDBLOCK then None else Some(code);
      e'.delivered == e.delivered + if said == None || TriesAgain(c, said.value, e.retries, limit) then [] else [Notification(said.value, c)]
  {
    hide ResetOperation, Reports, TriesAgain;
    if code == CONTINUE {
      ReportsDeliver(e, reports, limit);
    } else if code != WOULDBLOCK {
      ResetDelivers(e, code, limit);
    }
  }

  /** Without a command nothing is delivered, and while a retry is pending nothing but its end. */
  lemma SettledFinish(e: Engine, code: Code, reports: seq<Code>, limit: int)
    requires e.command == None || (e.timer && Connecting(e))
    ensures Finish(e, code, reports, limit) == e
  {
    hide WorthRetrying;
    SettledReports(e, reports, limit);
  }

  lemma ConnectDelivers(e: Engine, delay: bool, reports: seq<Code>, limit: int)
    requires Connecting(e) && !e.connected && !e.timer
    ensures
      var (e', res) := ContinueConnect(e, delay, limit);
      var said := ConnectReport(e.command.value, delay, reports);
      Finish(e', res, reports, limit).delivered == e.delivered +
        if said == None || TriesAgain(e.command.value, said.value, e.retries, limit) then [] else [Notification(said.value, e.command.value)]
  {
    var (e', res) := ContinueConnect(e, delay, limit);
    assert SYNTAXERROR | DISCONNECTED != CONTINUE && SYNTAXERROR | DISCONNECTED != WOULDBLOCK;
    hide ResetOperation, Finish, TriesAgain;
    if delay {
      SettledFinish(e', res, reports, limit);
    } else {
      FinishDelivers(e', res, reports, limit);
    }
  }

  lemma CommandEventDelivers(e: Engine, answer: Code, delay: bool, levels: nat, reports: seq<Code>, limit: int, rest: seq<Queued>)
    requires Consistent(e) && e.command.Some?
    requires e.queue == [CommandQueued] + rest
    ensures
      var ev := Dispatch(answer, delay, levels, reports);
      OnCommandEvent(e.(queue := rest), answer, delay, levels, reports, limit).delivered == e.delivered + Expected(e, ev, limit)
  {
    var ev, c := Dispatch(answer, delay, levels, reports), e.command.value;
    var e0 := e.(queue := rest, unhandled := false);
    hide ResetOperation, Finish, TriesAgain, DestroySocket;
    match c
    case Connect(_, _) =>
      if e.timer {
        if !e.connected {
          ConnectWhileWaiting(e0, delay, limit);
        }
        SettledFinish(if e.connected then e0 else ContinueConnect(e0.(retries := 0), delay, limit).0,
                      if e.connected then ALREADYCONNECTED else ContinueConnect(e0.(retries := 0), delay, limit).1, reports, limit);
      } else if e.connected {
        FinishDelivers(e0, ALREADYCONNECTED, reports, limit);
      } else {
        ConnectDelivers(e0.(retries := 0), delay, reports, limit);
      }
    case Disconnect =>
      if e.connected {
        ResetDelivers(e0, ERROR | DISCONNECTED, limit);
        var e1 := ResetOperation(e0, ERROR | DISCONNECTED, limit).0;
        NeverTriesAgain(c, ERROR | DISCONNECTED, e0.retries, limit);
        DestroyingIsSilent(e1, levels, limit);
        SettledFinish(e1.(connected := false), OK, reports, limit);
      } else {
        FinishDelivers(e0, OK, reports, limit);
      }
    case Other(_) =>
      FinishDelivers(e0, if e.connected then answer else NOTCONNECTED, reports, limit);
  }

  lemma NeverTriesAgain(c: Command, code: Code, failures: nat, limit: int)
    requires !c.Connect?
    ensures !TriesAgain(c, code, failures, limit)
  {
  }

  lemma ConnectWhileWaiting(e: Engine, delay: bool, limit: int)
    requires Connecting(e) && e.timer && !e.connected
    ensures var e' := ContinueConnect(e.(retries := 0), delay, limit).0; e'.timer && Connecting(e') && e'.delivered == e.delivered
  {
    hide ResetOperation;
  }

  /** Every step makes exactly the notifications expected of it. */
  lemma StepDelivers(e: Engine, ev: Event, limit: int)
    requires Inv(e)
    ensures Step(e, ev, limit).delivered == e.delivered + Expected(e, ev, limit)
  {
    hide ResetOperation, OnCommandEvent, TriesAgain, Reports, DestroySocket;
    match ev
    case Execute(c, valid) =>
    case Cancel =>
    case Dispatch(answer, delay, levels, reports) =>
      if e.queue != [] {
        if e.command == None {
          NothingToHandle(e, answer, delay, levels, reports, limit);
        } else if e.queue[0] == CommandQueued {
          assert e.queue == [CommandQueued] + e.queue[1..];
          CommandEventDelivers(e, answer, delay, levels, reports, limit, e.queue[1..]);
        } else {
          CancelDelivers(e, answer, delay, levels, reports, limit);
        }
      }
    case TimerEvent(delay, levels, reports) =>
      if e.timer {
        DestroyingIsSilent(e, levels, limit);
        ConnectDelivers(e.(connected := false, timer := false), delay, reports, limit);
      }
    case SocketReport(code) =>
      if e.connected && e.command.Some? {
        if e.timer {
          SettledReset(e, code, limit);
        } else {
          ResetDelivers(e, code, limit);
        }
      } else if e.connected {
        SettledReset(e, code, limit);
      }
  }

  /** A Disconnect that closes a connection is answered by the closing, as an error; the OK that follows comes too late. */
  lemma DisconnectIsAnsweredByClosing(e: Engine, answer: Code, delay: bool, levels: nat, reports: seq<Code>, limit: int)
    requires Inv(e) && e.command == Some(Disconnect) && e.connected && !e.timer && e.queue != [] && e.queue[0] == CommandQueued
    ensures Step(e, Dispatch(answer, delay, levels, reports), limit).delivered == e.delivered + [Notification(0x42, Disconnect)]
  {
    StepDelivers(e, Dispatch(answer, delay, levels, reports), limit);
    hide Inv, Step;
  }

  lemma SettledReset(e: Engine, code: Code, limit: int)
    requires e.command == None || (e.timer && Connecting(e))
    ensures ResetOperation(e, code, limit).0 == e
  {
    hide WorthRetrying;
  }

  lemma NothingToHandle(e: Engine, answer: Code, delay: bool, levels: nat, reports: seq<Code>, limit: int)
    requires e.command == None && e.queue != []
    ensures DispatchFront(e, answer, delay, levels, reports, limit) == e.(queue := e.queue[1..])
  {
    hide ResetOperation, Reports;
  }

  lemma CancelDelivers(e: Engine, answer: Code, delay: bool, levels: nat, reports: seq<Code>, limit: int)
    requires Consistent(e) && e.command.Some? && e.queue != [] && e.queue[0] == CancelQueued
    ensures DoCancel(e.(queue := e.queue[1..]), levels, reports, limit).delivered ==
      e.delivered + Expected(e, Dispatch(answer, delay, levels, reports), limit)
  {
    var e0 := e.(queue := e.queue[1..]);
    hide ResetOperation, Reports, DestroySocket, TriesAgain;
    if e.timer {
      DestroyingIsSilent(e0, levels, limit);
    } else if e.connected {
      ReportsDeliver(e0, reports, limit);
    } else {
      ResetDelivers(e0, CANCELED, limit);
    }
  }

  function AllExpected(e: Engine, events: seq<Event>, limit: int): seq<Notification>
    decreases |events|
  {
    if events == [] then []
    else Expected(e, events[0], limit) + AllExpected(Step(e, events[0], limit), events[1..], limit)
  }

  lemma {:induction false} RunDeliversFrom(e: Engine, events: seq<Event>, limit: int)
    requires Inv(e)
    ensures Run(e, events, limit).delivered == e.delivered + AllExpected(e, events, limit)
    decreases |events|
  {
    hide Step, Inv, Expected;
    if events != [] {
      StepDelivers(e, events[0], limit);
      StepKeeps(e, events[0], limit);
      RunDeliversFrom(Step(e, events[0], limit), events[1..], limit);
    }
  }

  /**
   The codes of the notifications, over every run: a command is answered with the first thing said about it while no
   retry is pending, unless it is a connect command and that makes it try again; and a cancelled retry is answered
   with its own code.
   */
  lemma NotificationsSayWhatWasReported(events: seq<Event>, limit: int)
    ensures Run(IDLE, events, limit).delivered == AllExpected(IDLE, events, limit)
  {
    IdleIsFine(limit);
    RunDeliversFrom(IDLE, events, limit);
    assert [] + AllExpected(IDLE, events, limit) == AllExpected(IDLE, events, limit);
  }

  // ---- Where the stale command events come from ----

  /** Cancelling or a report of the socket may end a command whose own event is still queued. */
  predicate Interrupts(e: Engine, ev: Event) {
    Unhandled(e) && ((ev.SocketReport? && e.connected) || (ev.Dispatch? && e.queue != [] && e.queue[0] == CancelQueued))
  }

  /** The only command event queued is that of the command not handled yet. */
  predicate NoneIsStale(e: Engine) {
    CommandEvents(e) == if Unhandled(e) then 1 else 0
  }

  lemma StepStaysFresh(e: Engine, ev: Event, limit: int)
    requires Inv(e) && NoneIsStale(e) && !Interrupts(e, ev)
    ensures NoneIsStale(Step(e, ev, limit)) && !Overtakes(e, ev)
  {
    hide ResetOperation, DispatchFront, OnTimer, SocketsBounded, ExactlyOnce;
    match ev
    case Execute(c, valid) =>
    case Cancel =>
    case Dispatch(answer, delay, levels, reports) => DispatchKeeps(e, answer, delay, levels, reports, limit);
    case TimerEvent(delay, levels, reports) => TimerKeeps(e, delay, levels, reports, limit);
    case SocketReport(code) =>
      if e.connected {
        ResetKeeps(e, code, limit);
      }
  }

  predicate NeverInterrupts(e: Engine, events: seq<Event>, limit: int)
    decreases |events|
  {
    events == [] || (!Interrupts(e, events[0]) && NeverInterrupts(Step(e, events[0], limit), events[1..], limit))
  }

  lemma {:induction false} UninterruptedNeverOvertakes(e: Engine, events: seq<Event>, limit: int)
    requires Inv(e) && NoneIsStale(e) && NeverInterrupts(e, events, limit)
    ensures NeverOvertakes(e, events, limit)
    decreases |events|
  {
    hide Step, Inv, NoneIsStale, Overtakes, Interrupts;
    if events != [] {
      StepStaysFresh(e, events[0], limit);
      StepKeeps(e, events[0], limit);
      UninterruptedNeverOvertakes(Step(e, events[0], limit), events[1..], limit);
    }
  }

  /** If no command is ended before its event is handled, the bound holds. */
  lemma UninterruptedSocketsAreBounded(events: seq<Event>, limit: int)
    requires NeverInterrupts(IDLE, events, limit)
    ensures Run(IDLE, events, limit).created <= Max(1, limit)
  {
    IdleIsFine(limit);
    UninterruptedNeverOvertakes(IDLE, events, limit);
    SocketsAreBounded(events, limit);
  }

  // ---- What overtaking leads to ----

  /** The pending retry fires, there is nothing to wait for, and the new socket fails. */
  const FIRES := TimerEvent(false, 0, [ERROR])

  function Firings(n: nat): seq<Event> {
    if n == 0 then [] else [FIRES] + Firings(n - 1)
  }

  lemma FiringMakesSocket(e: Engine, limit: int)
    requires e.timer && Connecting(e) && e.command.value.supported
    ensures var e' := Step(e, FIRES, limit);
      && e'.created == e.created + 1
      && (e.command.value.retry && e.retries + 1 < limit ==>
            e'.timer && e'.command == e.command && e'.retries == e.retries + 1)
  {
    var e1 := e.(connected := false, timer := false);
    assert Closings(0) == [];
    assert DestroySocket(e, 0, limit) == e.(connected := false);
    var e2 := e1.(connected := true, created := e.created + 1);
    assert ContinueConnect(e1, false, limit) == (e2, CONTINUE);
    assert Reports(e2, [ERROR], limit) == ResetOperation(e2, ERROR, limit).0 by {
      assert [ERROR][1..] == [];
    }
    assert WorthRetrying(ERROR);
  }

  lemma {:induction false} FiringsMakeSockets(e: Engine, n: nat, limit: int)
    requires n > 0 && e.timer && Connecting(e) && e.command.value.supported
    requires n == 1 || (e.command.value.retry && e.retries + n <= limit)
    ensures Run(e, Firings(n), limit).created == e.created + n
    decreases n
  {
    hide Step;
    FiringMakesSocket(e, limit);
    var e' := Step(e, FIRES, limit);
    assert Firings(n)[0] == FIRES && Firings(n)[1..] == Firings(n - 1);
    if n > 1 {
      FiringsMakeSockets(e', n - 1, limit);
    }
  }

  /**
   Every overtaking, in whatever state, breaks the bound for good: the retry still pending may fire until there
   are more sockets than allowed.
   */
  lemma OvertakingExceedsTheBound(e: Engine, ev: Event, limit: int)
    requires Inv(e) && SocketsBounded(e, limit) && Overtakes(e, ev)
    requires e.command.value.supported && (e.command.value.retry || limit <= 1)
    ensures Run(Step(e, ev, limit), Firings(Max(1, limit)), limit).created > Max(1, limit)
  {
    var rest := e.(queue := e.queue[1..], unhandled := false, retries := 0);
    var (e', res) := ContinueConnect(rest, ev.delay, limit);
    assert Consistent(rest);
    FinishKeeps(e', res, ev.reports, limit);
    hide Finish;
    assert Step(e, ev, limit) == e';
    FiringsMakeSockets(e', Max(1, limit), limit);
  }

  lemma RunsOn(e: Engine, event: Event, rest: seq<Event>, limit: int)
    ensures Run(e, [event] + rest, limit) == Run(Step(e, event, limit), rest, limit)
  {
    assert ([event] + rest)[0] == event && ([event] + rest)[1..] == rest;
    hide Step;
  }

  lemma {:induction false} RunsThrough(e: Engine, first: seq<Event>, rest: seq<Event>, limit: int)
    ensures Run(e, first + rest, limit) == Run(Run(e, first, limit), rest, limit)
    decreases |first|
  {
    hide Step;
    if first == [] {
      assert first + rest == rest;
    } else {
      RunsThrough(Step(e, first[0], limit), first[1..], rest, limit);
      assert first + rest == [first[0]] + (first[1..] + rest);
      RunsOn(e, first[0], first[1..] + rest, limit);
    }
  }

  /** What the caller and the event loop did, up to where two command events are queued for one command. */
  const STALE_LEFT: seq<Event> :=
    [Execute(Disconnect, true), Cancel, Dispatch(OK, false, 0, []), Execute(Connect(true, true), true), Dispatch(OK, false, 0, []),
     Execute(Connect(true, true), true)]

  /** The cancel event of an answered command ends the next one before that is handled. */
  lemma StaleEventIsLeft(limit: int)
    ensures var e := Run(IDLE, STALE_LEFT, limit);
      && e.command == Some(Connect(true, true)) && e.queue == [CommandQueued, CommandQueued]
      && !e.timer && !e.connected && e.created == 0
  {
    var c, go := Connect(true, true), Dispatch(OK, false, 0, []);
    var e1 := Step(IDLE, Execute(Disconnect, true), limit);
    var e2 := Step(e1, Cancel, limit);
    assert e2.queue == [CommandQueued, CancelQueued];
    var e3 := Step(e2, go, limit);
    assert e3.queue == [CancelQueued] && e3.command == None && !e3.timer && !e3.connected;
    var e4 := Step(e3, Execute(c, true), limit);
    assert e4.queue == [CancelQueued, CommandQueued];
    var e5 := Step(e4, go, limit);
    assert e5.queue == [CommandQueued] && e5.command == None && !e5.timer && !e5.connected;
    var e6 := Step(e5, Execute(c, true), limit);
    assert e6.queue == [CommandQueued, CommandQueued];
    hide Step;
    RunsOn(IDLE, Execute(Disconnect, true), [Cancel, go, Execute(c, true), go, Execute(c, true)], limit);
    RunsOn(e1, Cancel, [go, Execute(c, true), go, Execute(c, true)], limit);
    RunsOn(e2, go, [Execute(c, true), go, Execute(c, true)], limit);
    RunsOn(e3, Execute(c, true), [go, Execute(c, true)], limit);
    RunsOn(e4, go, [Execute(c, true)], limit);
    RunsOn(e5, Execute(c, true), [], limit);
  }

  /**
   A run from the idle engine that breaks the bound, at any reconnect count.  The stale event is handled for a
   command that has to wait; the command's own event comes when the wait is just over, and makes a socket beside
   the pending retry; and the retries are all made as well.
   */
  lemma OvertakingHappens(limit: int)
    ensures
      var wait, go := Dispatch(OK, true, 0, []), Dispatch(OK, false, 0, []);
      Run(IDLE, STALE_LEFT + ([wait, go] + Firings(Max(1, limit))), limit).created > Max(1, limit)
  {
    var wait, go := Dispatch(OK, true, 0, []), Dispatch(OK, false, 0, []);
    var firings := Firings(Max(1, limit));
    var e6 := Run(IDLE, STALE_LEFT, limit);
    StaleEventIsLeft(limit);
    var e7 := Step(e6, wait, limit);
    assert e7.queue == [CommandQueued] && e7.timer && !e7.connected && e7.command == e6.command;
    hide Step;
    IdleIsFine(limit);
    RunKeeps(IDLE, STALE_LEFT, limit);
    StepKeeps(e6, wait, limit);
    OvertakingExceedsTheBound(e7, go, limit);
    RunsThrough(IDLE, STALE_LEFT, [wait, go] + firings, limit);
    assert [wait, go] + firings == [wait] + ([go] + firings);
    RunsOn(e6, wait, [go] + firings, limit);
    RunsOn(e7, go, firings, limit);
  }
}
