/** The single login in flight: callers that connect or fall back while others do the same, as steps
    between suspension points. */
module Login {
  import opened Text
  import opened Connection

  /** `Requested` remembers under which connection parameters the login request went out. */
  datatype Phase = Created | Requested(parameters: nat) | Finished

  datatype Task = Task(phase: Phase, cancelled: bool)

  datatype Caller = Awaiting(task: nat) | AwaitingOld(task: nat)

  /** `parameters` counts the changes of scheme and port; `openedUnder` is the count the session was
      opened under. */
  datatype System = System(tasks: map<nat, Task>, connectTask: Option<nat>, callers: map<nat, Caller>,
                           connected: bool, token: Option<string>, header: Option<Header>,
                           parameters: nat, openedUnder: nat)

  datatype Event =
    | Connect(caller: nat, id: nat)
    | FallBack(caller: nat, id: nat)
    | OldEnded(caller: nat, id: nat)
    | Leave(caller: nat)
    | Start(task: nat)
    | Reply(task: nat, token: string)
    | Fail(task: nat)
    | LoginFallBack(task: nat)
    | Reset

  predicate Done(s: System, t: nat) {
    t in s.tasks ==> s.tasks[t].phase.Finished?
  }

  /** Neither finished nor told to cancel. */
  predicate Live(s: System, t: nat) {
    t in s.tasks && !s.tasks[t].phase.Finished? && !s.tasks[t].cancelled
  }

  function ResetSession(s: System): System {
    if s.connected then s.(connected := false, token := None, header := None) else s
  }

  /** Join the login in flight, or start one. */
  function Joined(s: System, caller: nat, id: nat): System {
    if s.connected then s.(callers := s.callers - {caller})
    else if s.connectTask.Some? && !Done(s, s.connectTask.value) then
      s.(callers := s.callers[caller := Awaiting(s.connectTask.value)])
    else
      s.(tasks := s.tasks[id := Task(Created, false)], connectTask := Some(id),
         callers := s.callers[caller := Awaiting(id)])
  }

  /** New parameters; a login in flight is cancelled, and waited for before the session is reset. */
  function FellBack(s: System, caller: nat, id: nat): System {
    var s := s.(parameters := s.parameters + 1);
    if s.connectTask.Some? && s.connectTask.value in s.tasks && !Done(s, s.connectTask.value) then
      var t := s.connectTask.value;
      s.(tasks := s.tasks[t := s.tasks[t].(cancelled := true)], connectTask := None,
         callers := s.callers[caller := AwaitingOld(t)])
    else Joined(ResetSession(s), caller, id)
  }

  function End(s: System, t: nat): System
    requires t in s.tasks
  {
    s.(tasks := s.tasks[t := s.tasks[t].(phase := Finished)])
  }

  function Store(s: System, token: string): System {
    if token == "" || s.connected then s
    else s.(connected := true, token := Some(token), header := Some(CookieOf(token)), openedUnder := s.parameters)
  }

  predicate Enabled(s: System, e: Event) {
    match e
    case Connect(caller, id) => caller !in s.callers && id !in s.tasks
    case FallBack(caller, id) => caller !in s.callers && id !in s.tasks
    case OldEnded(caller, id) =>
      caller in s.callers && s.callers[caller].AwaitingOld? && Done(s, s.callers[caller].task) && id !in s.tasks
    case Leave(caller) => caller in s.callers && s.callers[caller].Awaiting?
    case Start(t) => t in s.tasks && s.tasks[t].phase.Created?
    case Reply(t, _) => t in s.tasks && s.tasks[t].phase.Requested?
    case Fail(t) => t in s.tasks && s.tasks[t].phase.Requested?
    case LoginFallBack(t) => t in s.tasks && s.tasks[t].phase.Requested?
    case Reset => true
  }

  /** A task told to cancel ends at its next step, whatever that step would have been. */
  function TaskStep(s: System, e: Event): System
    requires Enabled(s, e) && (e.Start? || e.Reply? || e.Fail? || e.LoginFallBack?)
  {
    var t := e.task;
    if s.tasks[t].cancelled then End(s, t)
    else match e
      case Start(_) =>
        if s.connected then End(s, t) else s.(tasks := s.tasks[t := Task(Requested(s.parameters), false)])
      case Reply(_, token) => End(Store(s, token), t)
      case Fail(_) => End(s, t)
      case LoginFallBack(_) =>
        // only the current login is retried; any other task would have to wait for that one
        if s.connectTask != Some(t) then s
        else
          ResetSession(s.(parameters := s.parameters + 1, tasks := s.tasks[t := Task(Requested(s.parameters + 1), false)]))
  }

  function Left(s: System, caller: nat): System
    requires caller in s.callers
  {
    var t := s.callers[caller].task;
    s.(callers := s.callers - {caller},
       connectTask := if s.connectTask == Some(t) && Done(s, t) then None else s.connectTask)
  }

  function Next(s: System, e: Event): System
    requires Enabled(s, e)
  {
    match e
    case Connect(caller, id) => Joined(s, caller, id)
    case FallBack(caller, id) => FellBack(s, caller, id)
    case OldEnded(caller, id) => Joined(ResetSession(s), caller, id)
    case Leave(caller) => Left(s, caller)
    case Reset => ResetSession(s)
    case _ => TaskStep(s, e)
  }

  ghost predicate Run(s: System, events: seq<Event>, s': System)
    decreases |events|
  {
    if events == [] then s == s' else Enabled(s, events[0]) && Run(Next(s, events[0]), events[1..], s')
  }

  const IDLE := System(map[], None, map[], false, None, None, 0, 0)

  // ---- what every run keeps --------------------------------------------------------------------

  ghost predicate SingleFlight(s: System) {
    forall t: nat | Live(s, t) :: s.connectTask == Some(t)
  }

  ghost predicate Coherent(s: System) {
    if s.connected then s.token.Some? && s.token.value != "" && s.header == Some(CookieOf(s.token.value))
    else s.token.None? && s.header.None?
  }

  /** A session, and a login in flight, belong to the parameters in use. */
  ghost predicate UpToDate(s: System) {
    && (s.connected ==> s.openedUnder == s.parameters)
    && (forall t: nat | Live(s, t) && s.tasks[t].phase.Requested? :: s.tasks[t].phase.parameters == s.parameters)
  }

  /** Nobody waits for a task that is unknown, and what a fallback waits for has been told to cancel. */
  ghost predicate WaitersServed(s: System) {
    && (forall c | c in s.callers :: s.callers[c].task in s.tasks)
    && (forall c | c in s.callers && s.callers[c].AwaitingOld? :: s.tasks[s.callers[c].task].cancelled)
  }

  ghost predicate Invariant(s: System) {
    && SingleFlight(s) && Coherent(s) && UpToDate(s) && WaitersServed(s)
    && (s.connectTask.Some? ==> s.connectTask.value in s.tasks && !s.tasks[s.connectTask.value].cancelled)
    && (s.connectTask.Some? && Live(s, s.connectTask.value) ==> !s.connected)
  }

  lemma JoinedKeeps(s: System, caller: nat, id: nat)
    requires Invariant(s) && id !in s.tasks
    ensures Invariant(Joined(s, caller, id))
  {
    var s' := Joined(s, caller, id);
    forall t: nat | Live(s', t) ensures s'.connectTask == Some(t) {
      assert Live(s, t) || t == id;
    }
  }

  lemma StepKeepsInvariant(s: System, e: Event)
    requires Invariant(s) && Enabled(s, e)
    ensures Invariant(Next(s, e))
    ensures s.connected && Next(s, e).connected ==> Next(s, e).token == s.token
  {
    match e
    case Connect(caller, id) => JoinedKeeps(s, caller, id);
    case OldEnded(caller, id) => JoinedKeeps(ResetSession(s), caller, id);
    case FallBack(caller, id) => FellBackKeeps(s, caller, id);
    case Leave(_) =>
    case Reset =>
    case _ => TaskStepKeeps(s, e);
  }

  lemma TaskStepKeeps(s: System, e: Event)
    requires Invariant(s) && Enabled(s, e) && (e.Start? || e.Reply? || e.Fail? || e.LoginFallBack?)
    ensures Invariant(TaskStep(s, e))
    ensures s.connected && TaskStep(s, e).connected ==> TaskStep(s, e).token == s.token
  {
    var s' := TaskStep(s, e);
    forall t: nat | Live(s', t) ensures Live(s, t) {
    }
    if Live(s, e.task) {
      forall t: nat | Live(s', t) ensures t == e.task {
      }
    }
  }

  lemma FellBackKeeps(s: System, caller: nat, id: nat)
    requires Invariant(s) && id !in s.tasks
    ensures Invariant(FellBack(s, caller, id)) && !FellBack(s, caller, id).connected
  {
    if s.connectTask.Some? && Live(s, s.connectTask.value) {
      forall t: nat | Live(FellBack(s, caller, id), t) ensures Live(s, t) {
      }
    } else {
      JoinedKeeps(ResetSession(s.(parameters := s.parameters + 1)), caller, id);
    }
  }

  lemma {:induction false} RunKeepsInvariant(s: System, events: seq<Event>, s': System)
    requires Invariant(s) && Run(s, events, s')
    ensures Invariant(s')
    decreases |events|
  {
    if events != [] {
      StepKeepsInvariant(s, events[0]);
      RunKeepsInvariant(Next(s, events[0]), events[1..], s');
    }
  }

  // ---- the guarantees, from an idle connection over every interleaving ---------------------------

  /** At most one login is neither finished nor told to cancel, and it is the one callers join; so the
      branch for a fallback in any other live login is never taken. */
  lemma SingleLogin(events: seq<Event>, s: System, t: nat, u: nat)
    requires Run(IDLE, events, s) && Live(s, t)
    ensures s.connectTask == Some(t) && (Live(s, u) ==> u == t)
  {
    RunKeepsInvariant(IDLE, events, s);
  }

  /** A login in flight means no session: both checks for a session made meanwhile by another task come
      out negative. */
  lemma RecheckNeverFires(events: seq<Event>, s: System, t: nat)
    requires Run(IDLE, events, s) && Live(s, t)
    ensures !s.connected
  {
    RunKeepsInvariant(IDLE, events, s);
    assert s.connectTask == Some(t);
  }

  /** Connected means a token and the header built from it, opened under the parameters in use: no
      request carries a token obtained over a scheme or port since given up. */
  lemma SessionIsCoherent(events: seq<Event>, s: System)
    requires Run(IDLE, events, s)
    ensures s.connected <==> s.token.Some?
    ensures s.header == if s.connected then Some(CookieOf(s.token.value)) else None
    ensures s.connected ==> s.token.value != "" && s.openedUnder == s.parameters
  {
    RunKeepsInvariant(IDLE, events, s);
  }

  /** A live session keeps its token until it is reset, whatever else happens, however late. */
  lemma {:induction false} TokenIsKept(events: seq<Event>, s: System, more: seq<Event>, s': System)
    requires Run(IDLE, events, s) && Run(s, more, s') && s.connected
    ensures s'.token == s.token || exists k, mid :: 0 < k <= |more| && Run(s, more[..k], mid) && !mid.connected
  {
    RunKeepsInvariant(IDLE, events, s);
    KeptOrReset(s, more, s');
  }

  lemma {:induction false} KeptOrReset(s: System, more: seq<Event>, s': System)
    requires Invariant(s) && Run(s, more, s') && s.connected
    ensures s'.token == s.token || exists k, mid :: 0 < k <= |more| && Run(s, more[..k], mid) && !mid.connected
    decreases |more|
  {
    if more != [] {
      var next := Next(s, more[0]);
      StepKeepsInvariant(s, more[0]);
      if !next.connected {
        assert more[..1][1..] == [] && Run(s, more[..1], next);
      } else {
        KeptOrReset(next, more[1..], s');
        if s'.token != s.token {
          var k, mid :| 0 < k <= |more| - 1 && Run(next, more[1..][..k], mid) && !mid.connected;
          assert more[..k + 1][1..] == more[1..][..k] && Run(s, more[..k + 1], mid);
        }
      }
    }
  }

  /** Whoever waits, waits for a task whose own next step is always possible, and a fallback waits for
      one that ends at that step. */
  lemma NobodyWaitsForNothing(events: seq<Event>, s: System, caller: nat)
    requires Run(IDLE, events, s) && caller in s.callers
    ensures var t := s.callers[caller].task;
            && t in s.tasks
            && (Done(s, t) || Enabled(s, Start(t)) || Enabled(s, Event.Fail(t)))
            && (s.callers[caller].AwaitingOld? && !Done(s, t) ==>
                  forall e | Enabled(s, e) && (e.Start? || e.Reply? || e.Fail? || e.LoginFallBack?) && e.task == t ::
                    Done(Next(s, e), t))
  {
    RunKeepsInvariant(IDLE, events, s);
  }

  // ---- what gets done --------------------------------------------------------------------------

  /** The answer to a login in flight: with a token the connection is connected with it, its header and the
      parameters in use, and the login is over; with an empty one it is over without a session. */
  lemma ReplyStores(events: seq<Event>, s: System, t: nat, token: string)
    requires Run(IDLE, events, s) && Live(s, t) && s.tasks[t].phase.Requested?
    ensures Enabled(s, Event.Reply(t, token))
    ensures var s' := Next(s, Event.Reply(t, token));
            && Done(s', t) && s'.parameters == s.parameters && s'.callers == s.callers && s'.connectTask == s.connectTask
            && (token != "" ==> s'.connected && s'.token == Some(token) && s'.header == Some(Header("asus_token=" + token))
                                && s'.openedUnder == s'.parameters)
            && (token == "" ==> !s'.connected && s'.token == None && s'.header == None)
  {
    RunKeepsInvariant(IDLE, events, s);
    assert s.connectTask == Some(t);
  }

  /** A login told to cancel does nothing but end, whatever it is told. */
  lemma CancelledStoresNothing(s: System, e: Event)
    requires Enabled(s, e) && (e.Start? || e.Reply? || e.Fail? || e.LoginFallBack?) && s.tasks[e.task].cancelled
    ensures Next(s, e) == s.(tasks := Next(s, e).tasks) && Done(Next(s, e), e.task)
    ensures forall u | u in s.tasks && u != e.task :: u in Next(s, e).tasks && Next(s, e).tasks[u] == s.tasks[u]
  {
  }

  /** A login that fails ends, and the connection stays as it was. */
  lemma FailureEnds(s: System, t: nat)
    requires Enabled(s, Event.Fail(t))
    ensures Next(s, Event.Fail(t)) == s.(tasks := Next(s, Event.Fail(t)).tasks) && Done(Next(s, Event.Fail(t)), t)
  {
  }

  /** A fallback inside the login in flight: new parameters, no session, and the request goes out again under them. */
  lemma LoginRetries(events: seq<Event>, s: System, t: nat)
    requires Run(IDLE, events, s) && Live(s, t) && s.tasks[t].phase.Requested?
    ensures Enabled(s, LoginFallBack(t))
    ensures var s' := Next(s, LoginFallBack(t));
            && s'.parameters == s.parameters + 1 && !s'.connected
            && t in s'.tasks && s'.tasks[t] == Task(Requested(s'.parameters), false) && s'.connectTask == Some(t)
  {
    RunKeepsInvariant(IDLE, events, s);
    assert s.connectTask == Some(t);
  }

  /** Whom a caller waits for: nobody while there is a session, else the login in flight, else a new one. */
  lemma ConnectJoins(events: seq<Event>, s: System, caller: nat, id: nat)
    requires Run(IDLE, events, s) && caller !in s.callers && id !in s.tasks
    ensures var s' := Next(s, Connect(caller, id));
            && s' == s.(tasks := s'.tasks, connectTask := s'.connectTask, callers := s'.callers)
            && (s.connected ==> s' == s)
            && (forall t: nat | Live(s, t) :: s' == s.(callers := s.callers[caller := Awaiting(t)]))
            && (!s.connected && (forall t: nat :: !Live(s, t)) ==>
                  s'.tasks == s.tasks[id := Task(Created, false)] && s'.connectTask == Some(id)
                  && s'.callers == s.callers[caller := Awaiting(id)])
  {
    RunKeepsInvariant(IDLE, events, s);
    if s.connectTask.Some? {
      OneInFlight(s);
    }
  }

  ghost predicate Quiet(s: System) {
    !s.connected && forall t: nat :: !Live(s, t)
  }

  lemma OneStep(s: System, e: Event, rest: seq<Event>, s': System)
    requires Enabled(s, e) && Run(Next(s, e), rest, s')
    ensures Run(s, [e] + rest, s')
  {
    assert ([e] + rest)[1..] == rest;
  }

  lemma FourSteps(s: System, a: Event, b: Event, c: Event, d: Event, s': System)
    requires Enabled(s, a) && Enabled(Next(s, a), b) && Enabled(Next(Next(s, a), b), c)
    requires Enabled(Next(Next(Next(s, a), b), c), d) && s' == Next(Next(Next(Next(s, a), b), c), d)
    ensures Run(s, [a, b, c, d], s')
  {
    OneStep(Next(Next(Next(s, a), b), c), d, [], s');
    OneStep(Next(Next(s, a), b), c, [d], s');
    OneStep(Next(s, a), b, [c, d], s');
    OneStep(s, a, [b, c, d], s');
    assert [a, b, c, d] == [a] + [b, c, d] && [b, c, d] == [b] + [c, d] && [c, d] == [c] + [d] && [d] == [d] + [];
  }

  lemma OneInFlight(s: System)
    requires Invariant(s) && s.connectTask.Some?
    ensures Done(s, s.connectTask.value) <==> forall t: nat :: !Live(s, t)
  {
    var u := s.connectTask.value;
    assert Done(s, u) <==> !Live(s, u);
  }

  /** Without a session and without a login in flight, a caller that is answered with a token ends up connected with
      it, and no login is left. */
  lemma LoginGoesThrough(events: seq<Event>, s: System, caller: nat, id: nat, token: string)
    requires Run(IDLE, events, s) && Quiet(s) && caller !in s.callers && id !in s.tasks && token != ""
    ensures exists s' :: Run(s, [Connect(caller, id), Start(id), Event.Reply(id, token), Leave(caller)], s')
                         && s'.connected && s'.token == Some(token) && s'.header == Some(Header("asus_token=" + token))
                         && s'.openedUnder == s.parameters == s'.parameters && s'.connectTask == None && s'.callers == s.callers
  {
    RunKeepsInvariant(IDLE, events, s);
    ConnectJoins(events, s, caller, id);
    var a := Next(s, Connect(caller, id));
    var b := Next(a, Start(id));
    var c := Next(b, Event.Reply(id, token));
    var d := Next(c, Leave(caller));
    assert d.callers == s.callers;
    FourSteps(s, Connect(caller, id), Start(id), Event.Reply(id, token), Leave(caller), d);
  }

  /** A fallback outside a login moves the parameters on. A login in flight is told to cancel, and waited for; once it
      has ended, and at once if there was none, there is no session and a fresh login under the new parameters. */
  lemma FallBackAsks(events: seq<Event>, s: System, caller: nat, id: nat)
    requires Run(IDLE, events, s) && caller !in s.callers && id !in s.tasks
    ensures var s' := Next(s, FallBack(caller, id));
            && s'.parameters == s.parameters + 1
            && (forall t: nat | Live(s, t) ::
                  && s'.callers == s.callers[caller := AwaitingOld(t)] && s'.connectTask == None
                  && s'.tasks == s.tasks[t := s.tasks[t].(cancelled := true)])
            && ((forall t: nat :: !Live(s, t)) ==> Asks(s', caller, id))
  {
    RunKeepsInvariant(IDLE, events, s);
    if s.connectTask.Some? {
      OneInFlight(s);
    }
  }

  /** No session, and the caller waits for a login that has just been made. */
  ghost predicate Asks(s: System, caller: nat, id: nat) {
    && !s.connected && s.token == None && s.connectTask == Some(id) && id in s.tasks && s.tasks[id] == Task(Created, false)
    && caller in s.callers && s.callers[caller] == Awaiting(id)
  }

  lemma OldEndedAsks(events: seq<Event>, s: System, caller: nat, id: nat)
    requires Run(IDLE, events, s) && Enabled(s, OldEnded(caller, id)) && forall t: nat :: !Live(s, t)
    ensures Asks(Next(s, OldEnded(caller, id)), caller, id)
    ensures Next(s, OldEnded(caller, id)).parameters == s.parameters
  {
    RunKeepsInvariant(IDLE, events, s);
    if s.connectTask.Some? {
      OneInFlight(s);
    }
  }

  /** Giving the session up: the connection is not connected, and has neither token nor header. */
  lemma ResetEnds(events: seq<Event>, s: System)
    requires Run(IDLE, events, s)
    ensures var s' := Next(s, Reset);
            !s'.connected && s'.token == None && s'.header == None
            && s'.tasks == s.tasks && s'.callers == s.callers && s'.connectTask == s.connectTask && s'.parameters == s.parameters
  {
    RunKeepsInvariant(IDLE, events, s);
  }
}
