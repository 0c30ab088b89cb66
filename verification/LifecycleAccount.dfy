/** What a run of the Session lifecycle makes of the events it is told, event by event: the published Workload result is the
    one that ended the active phase, every failure belongs to its event, and every stop request to its event and stage. */
module LifecycleAccount {
  import opened Wrappers
  import opened SessionLifecycle

  // ----- The Workload's result -----

  function EventsOf(turns: seq<Turn>): (events: seq<LifecycleEvent>)
    ensures |events| == |turns| && forall i :: 0 <= i < |turns| ==> events[i] == turns[i].event
  {
    if turns == [] then [] else [turns[0].event] + EventsOf(turns[1..])
  }

  /** What the events say of the Workload, before the Session is active. */
  function Told(events: seq<LifecycleEvent>): Option<WorkloadResult> {
    if events == [] then None
    else match events[0]
      case ControllerLost => Told(events[1..])
      case Activated => ToldWhileActive(events[1..])
      case ActivationFailed(code) => if code == 126 || code == 127 then Some(StartFailure(code)) else None
      case _ => None
  }

  /** Once it is active: the first end of the Workload that is reported. */
  function ToldWhileActive(events: seq<LifecycleEvent>): Option<WorkloadResult> {
    if events == [] then None
    else match events[0]
      case WorkloadExited(code) => Some(Exited(code))
      case WorkloadSignaled(signal) => Some(Signaled(signal))
      case _ => ToldWhileActive(events[1..])
  }

  /** How many events were waited for. */
  function Waits(calls: seq<Call>): nat {
    if calls == [] then 0 else (if calls[0].Wait? then 1 else 0) + Waits(calls[1..])
  }

  lemma {:induction false} WaitsOfBoth(a: seq<Call>, b: seq<Call>)
    ensures Waits(a + b) == Waits(a) + Waits(b)
  {
    if a == [] {
      assert a + b == b;
    } else {
      WaitsOfBoth(a[1..], b);
      assert (a + b)[1..] == a[1..] + b;
    }
  }

  lemma WaitsOfCall(call: Call, rest: seq<Call>)
    ensures Waits([call] + rest) == (if call.Wait? then 1 else 0) + Waits(rest)
  {
    assert ([call] + rest)[1..] == rest;
  }

  lemma OneWait(l: Life, turn: Turn)
    ensures Waits(TurnCalls(l, turn)) == 1
  {
    var request := React(l, turn.event, turn.accepted).1;
    hide React;
    var asked := if request.Some? then [Request(request.value)] else [];
    WaitsOfCall(Wait(l.Limited()), asked);
    if request.Some? {
      WaitsOfCall(Request(request.value), []);
      assert [Request(request.value)] + [] == asked;
    }
  }

  /** What the events still say, given the phase. */
  function ToldFrom(l: Life, events: seq<LifecycleEvent>): Option<WorkloadResult> {
    match l.phase
    case WaitingForActivation => Told(events)
    case Active => ToldWhileActive(events)
    case WaitingForCleanup => l.outcome.workload
  }

  lemma ToldFirst(event: LifecycleEvent, rest: seq<LifecycleEvent>)
    ensures Told([event] + rest)
            == match event
               case ControllerLost => Told(rest)
               case Activated => ToldWhileActive(rest)
               case ActivationFailed(code) => if code == 126 || code == 127 then Some(StartFailure(code)) else None
               case _ => None
    ensures ToldWhileActive([event] + rest)
            == match event
               case WorkloadExited(code) => Some(Exited(code))
               case WorkloadSignaled(signal) => Some(Signaled(signal))
               case _ => ToldWhileActive(rest)
  {
    assert ([event] + rest)[1..] == rest;
  }

  lemma ToldByOne(l: Life, turn: Turn, rest: seq<LifecycleEvent>)
    requires Sound(l) && !l.over
    ensures var next := React(l, turn.event, turn.accepted).0;
            && (!next.over ==> ToldFrom(next, rest) == ToldFrom(l, [turn.event] + rest))
            && (next.over ==> next.outcome.workload == ToldFrom(l, [turn.event]))
  {
    ToldFirst(turn.event, rest);
    ToldFirst(turn.event, []);
    assert [turn.event] + [] == [turn.event];
    assert Told([]) == None && ToldWhileActive([]) == None;
    hide Told, ToldWhileActive;
  }

  lemma {:induction false} LoopIsTold(l: Life, turns: seq<Turn>)
    requires Sound(l) && !l.over
    ensures var (last, calls) := Loop(l, turns);
            && Waits(calls) <= |turns|
            && (last.over ==> last.outcome.workload == ToldFrom(l, EventsOf(turns[..Waits(calls)])))
    decreases |turns|
  {
    if turns != [] {
      var next := React(l, turns[0].event, turns[0].accepted).0;
      var (last, calls) := Loop(next, turns[1..]);
      ReactStaysSound(l, turns[0]);
      OneWait(l, turns[0]);
      WaitsOfBoth(TurnCalls(l, turns[0]), calls);
      hide React, Told, ToldWhileActive, ToldFrom;
      if next.over {
        assert turns[..1] == [turns[0]] && EventsOf([turns[0]]) == [turns[0].event];
        ToldByOne(l, turns[0], []);
      } else {
        LoopIsTold(next, turns[1..]);
        var taken := turns[..1 + Waits(calls)];
        assert taken[1..] == turns[1..][..Waits(calls)];
        ToldByOne(l, turns[0], EventsOf(taken[1..]));
      }
    }
  }

  lemma NoWaitsAround(outcome: Outcome)
    ensures Waits([Begin]) == 0 && Waits([Reap, Finalize, Publish(outcome)]) == 0
  {
    WaitsOfCall(Begin, []);
    assert [Begin] + [] == [Begin];
    WaitsOfCall(Publish(outcome), []);
    WaitsOfCall(Finalize, [Publish(outcome)] + []);
    WaitsOfCall(Reap, [Finalize] + ([Publish(outcome)] + []));
    assert [Reap] + ([Finalize] + ([Publish(outcome)] + [])) == [Reap, Finalize, Publish(outcome)];
  }

  /** The published Workload result is told by the events that were waited for, and by nothing else: the exit or signal
      that ended the active phase with its own value, a start failure exactly when the activation failed with 126 or
      127, and otherwise none. */
  lemma ResultIsTold(script: Script)
    requires Published(script).Some?
    ensures Waits(Calls(script)) <= |script.turns|
    ensures Published(script).value.workload == Told(EventsOf(script.turns[..Waits(Calls(script))]))
  {
    var (last, calls) := LoopOf(script);
    var ending := [Reap, Finalize, Publish(Published(script).value)];
    WaitsOfBoth([Begin] + calls, ending);
    WaitsOfBoth([Begin], calls);
    NoWaitsAround(Published(script).value);
    if script.begins {
      LoopIsTold(LIFE_START, script.turns);
    }
  }

  // ----- Failures and stop requests, by event -----

  /** The stop request an event causes while the Session is active. */
  function Asks(stage: Stage, event: LifecycleEvent): Option<StopRequest> {
    match event
    case TerminalInterrupt => if stage.InterruptGrace? || stage.TerminateGrace? then Some(Kill) else None
    case StopRequested => if stage.NoStop? then Some(Terminate) else None
    case ProfileStateUnknown => if stage.NoStop? then Some(Terminate) else None
    case DeadlineExpired =>
      if stage.InterruptGrace? then Some(Terminate) else if stage.TerminateGrace? then Some(Kill) else None
    case _ => None
  }

  /** What has to be known of a run to account for its next event. */
  datatype Account = Account(phase: Phase, stage: Stage, failures: seq<Failure>, requests: seq<StopRequest>, over: bool)

  function Blame(a: Account, failure: Failure): Account {
    a.(failures := a.failures + [failure])
  }

  function Ended(a: Account, failure: Failure): Account {
    Blame(a, failure).(over := true)
  }

  /** A request is made whether or not it can be sent; if it cannot, that ends the run. */
  function AfterAsking(a: Account, request: Option<StopRequest>, accepted: bool): Account {
    match request
    case None => a
    case Some(stop) =>
      var asked := a.(requests := a.requests + [stop]);
      if !accepted then Ended(asked, StopRequestFailed)
      else asked.(stage := match stop case Terminate => TerminateGrace case Kill => KillRequested)
  }

  /** One event, by what it is. */
  function AccountFor(a: Account, event: LifecycleEvent, accepted: bool): Account {
    match event
    case ControllerLost => a
    case ConversationLost => Ended(a, Conversation)
    case CleanupFailed => Ended(a, CleanupFailure)
    case CleanupSucceeded => if a.phase.WaitingForCleanup? then a.(over := true) else Ended(a, InvalidEvent)
    case Activated => if a.phase.WaitingForActivation? then a.(phase := Active) else Ended(a, InvalidEvent)
    case ActivationFailed(code) =>
      if !a.phase.WaitingForActivation? then Ended(a, InvalidEvent)
      else (if code == 126 || code == 127 then a else Blame(a, StartFailed)).(phase := WaitingForCleanup)
    case WorkloadExited(_) =>
      if a.phase.Active? then a.(phase := WaitingForCleanup, stage := NoStop) else Ended(a, InvalidEvent)
    case WorkloadSignaled(_) =>
      if a.phase.Active? then a.(phase := WaitingForCleanup, stage := NoStop) else Ended(a, InvalidEvent)
    case ProfileStateUnknown =>
      if a.phase.Active? then AfterAsking(Blame(a, ProfileState), Asks(a.stage, event), accepted)
      else Ended(a, InvalidEvent)
    case TerminalInterrupt =>
      (match a.phase
       case WaitingForActivation => Ended(a, InvalidEvent)
       case WaitingForCleanup => a
       case Active =>
         if a.stage.NoStop? then a.(stage := InterruptGrace) else AfterAsking(a, Asks(a.stage, event), accepted))
    case StopRequested =>
      (match a.phase
       case WaitingForActivation => Ended(a, InvalidEvent)
       case WaitingForCleanup => a
       case Active => AfterAsking(a, Asks(a.stage, event), accepted))
    case DeadlineExpired =>
      if a.phase.Active? && Asks(a.stage, event).Some? then AfterAsking(a, Asks(a.stage, event), accepted)
      else Ended(a, InvalidEvent)
  }

  function AccountOf(a: Account, turns: seq<Turn>): Account
    decreases |turns|
  {
    if a.over || turns == [] then a else AccountOf(AccountFor(a, turns[0].event, turns[0].accepted), turns[1..])
  }

  const FIRST_ACCOUNT := Account(WaitingForActivation, NoStop, [], [], false)

  predicate Accounts(a: Account, l: Life) {
    a.phase == l.phase && a.stage == l.stage && a.failures == l.outcome.failures && a.over == l.over
  }

  /** The reaction, sorted by phase in the program, is the account of the event. */
  lemma ReactionIsAccounted(l: Life, a: Account, event: LifecycleEvent, accepted: bool)
    requires Sound(l) && !l.over && Accounts(a, l)
    ensures var (next, request) := React(l, event, accepted);
            var b := AccountFor(a, event, accepted);
            && Accounts(b, next)
            && b.requests == a.requests + if request.Some? then [request.value] else []
  {
    assert a.requests + [] == a.requests;
  }

  lemma RequestsInTurn(l: Life, turn: Turn)
    ensures var request := React(l, turn.event, turn.accepted).1;
            Requests(TurnCalls(l, turn)) == if request.Some? then [request.value] else []
  {
    var request := React(l, turn.event, turn.accepted).1;
    hide React;
    var asked := if request.Some? then [Request(request.value)] else [];
    RequestsOfCall(Wait(l.Limited()), asked);
    if request.Some? {
      RequestsOfCall(Request(request.value), []);
      assert [Request(request.value)] + [] == asked;
    }
  }

  lemma NoRequestsAround(outcome: Outcome)
    ensures Requests([Begin]) == [] && Requests([Reap, Finalize, Publish(outcome)]) == []
  {
    RequestsOfCall(Begin, []);
    assert [Begin] + [] == [Begin];
    RequestsOfCall(Publish(outcome), []);
    RequestsOfCall(Finalize, [Publish(outcome)] + []);
    RequestsOfCall(Reap, [Finalize] + ([Publish(outcome)] + []));
    assert [Reap] + ([Finalize] + ([Publish(outcome)] + [])) == [Reap, Finalize, Publish(outcome)];
  }

  lemma {:induction false} LoopIsAccounted(l: Life, a: Account, turns: seq<Turn>)
    requires Sound(l) && Accounts(a, l)
    ensures var (last, calls) := Loop(l, turns);
            Accounts(AccountOf(a, turns), last) && AccountOf(a, turns).requests == a.requests + Requests(calls)
    decreases |turns|
  {
    assert a.requests + [] == a.requests;
    if !l.over && turns != [] {
      var turn := turns[0];
      var next := React(l, turn.event, turn.accepted).0;
      var b := AccountFor(a, turn.event, turn.accepted);
      ReactionIsAccounted(l, a, turn.event, turn.accepted);
      ReactStaysSound(l, turn);
      LoopIsAccounted(next, b, turns[1..]);
      RequestsInTurn(l, turn);
      RequestsOfBoth(TurnCalls(l, turn), Loop(next, turns[1..]).1);
      hide React, AccountFor, Sound, TurnCalls, Requests;
      assert a.requests + (Requests(TurnCalls(l, turn)) + Requests(Loop(next, turns[1..]).1))
             == (a.requests + Requests(TurnCalls(l, turn))) + Requests(Loop(next, turns[1..]).1);
    }
  }

  /** A whole run is the account of its events: the published failures are those of the events in order, then one for a
      launcher that was not reaped and one for a failed finalization; the stop requests are those of the events. */
  lemma RunIsAccounted(script: Script)
    requires Published(script).Some?
    ensures var a := AccountOf(FIRST_ACCOUNT, script.turns);
            var o := Published(script).value;
            && o.failures == (if script.begins then a.failures else [StartFailed])
                             + (if script.reaped then [] else [LauncherReaping])
                             + (if script.finalized then [] else [SupervisorCleanup])
            && Requests(Calls(script)) == if script.begins then a.requests else []
  {
    var (last, calls) := LoopOf(script);
    var ending := [Reap, Finalize, Publish(Published(script).value)];
    RequestsOfBoth([Begin] + calls, ending);
    RequestsOfBoth([Begin], calls);
    NoRequestsAround(Published(script).value);
    assert Requests(Calls(script)) == Requests(calls);
    if script.begins {
      LoopIsAccounted(LIFE_START, FIRST_ACCOUNT, script.turns);
    } else {
      assert [] + [StartFailed] == [StartFailed];
    }
  }
}
