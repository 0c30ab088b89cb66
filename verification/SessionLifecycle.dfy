/** The Session lifecycle: reaction to events, escalation of stop requests, and finalization. */
module SessionLifecycle {
  import opened Wrappers

  datatype LifecycleEvent =
    | Activated
    | ActivationFailed(value: int)
    | WorkloadExited(value: int)
    | WorkloadSignaled(value: int)
    | CleanupSucceeded
    | CleanupFailed
    | ConversationLost
    | ProfileStateUnknown
    | ControllerLost
    | TerminalInterrupt
    | StopRequested
    | DeadlineExpired

  datatype WorkloadResult = StartFailure(value: int) | Exited(value: int) | Signaled(value: int)

  datatype Failure =
    | StartFailed | Conversation | ProfileState | StopRequestFailed
    | CleanupFailure | LauncherReaping | SupervisorCleanup | InvalidEvent

  datatype Outcome = Outcome(workload: Option<WorkloadResult>, failures: seq<Failure>)

  datatype StopRequest = Terminate | Kill
  datatype Phase = WaitingForActivation | Active | WaitingForCleanup
  datatype Stage = NoStop | InterruptGrace | TerminateGrace | KillRequested

  /** The locals of the event loop; `activated` remembers whether it was ever active, `over` that it was left. */
  datatype Life = Life(phase: Phase, stage: Stage, outcome: Outcome, activated: bool, over: bool) {
    function Fail(failure: Failure): Life {
      this.(outcome := outcome.(failures := outcome.failures + [failure]))
    }

    function Break(failure: Failure): Life {
      Fail(failure).(over := true)
    }

    /** Whether the next wait has a deadline. */
    predicate Limited() {
      stage.InterruptGrace? || stage.TerminateGrace?
    }
  }

  const LIFE_START := Life(WaitingForActivation, NoStop, Outcome(None, []), false, false)

  /** Sending a stop request and moving to the stage that follows it, unless the sending fails. */
  function Escalate(l: Life, request: StopRequest, accepted: bool): (Life, Option<StopRequest>) {
    (if accepted then l.(stage := if request.Terminate? then TerminateGrace else KillRequested)
     else l.Break(StopRequestFailed),
     Some(request))
  }

  function Finish(l: Life, result: WorkloadResult): (Life, Option<StopRequest>) {
    (l.(outcome := l.outcome.(workload := Some(result)), phase := WaitingForCleanup, stage := NoStop), None)
  }

  /** One turn of the event loop, in the order of the source's branches: the next locals and the stop request sent in
      this turn; `accepted` says whether such a request could be sent. */
  function React(l: Life, event: LifecycleEvent, accepted: bool): (Life, Option<StopRequest>) {
    if event.ControllerLost? then (l, None)
    else if l.phase.WaitingForCleanup? && (event.TerminalInterrupt? || event.StopRequested?) then (l, None)
    else if event.ConversationLost? then (l.Break(Conversation), None)
    else if event.CleanupFailed? then (l.Break(CleanupFailure), None)
    else match l.phase
      case WaitingForActivation =>
        if event.Activated? then (l.(phase := Active, activated := true), None)
        else if event.ActivationFailed? && (event.value == 126 || event.value == 127) then
          (l.(outcome := l.outcome.(workload := Some(StartFailure(event.value))), phase := WaitingForCleanup), None)
        else if event.ActivationFailed? then (l.Fail(StartFailed).(phase := WaitingForCleanup), None)
        else (l.Break(InvalidEvent), None)
      case Active =>
        if event.ProfileStateUnknown? then
          if l.stage.NoStop? then Escalate(l.Fail(ProfileState), Terminate, accepted)
          else (l.Fail(ProfileState), None)
        else if event.TerminalInterrupt? then
          if l.stage.NoStop? then (l.(stage := InterruptGrace), None)
          else if l.stage.KillRequested? then (l, None)
          else Escalate(l, Kill, accepted)
        else if event.StopRequested? then
          if l.stage.NoStop? then Escalate(l, Terminate, accepted) else (l, None)
        else if event.DeadlineExpired? && l.stage.InterruptGrace? then Escalate(l, Terminate, accepted)
        else if event.DeadlineExpired? && l.stage.TerminateGrace? then Escalate(l, Kill, accepted)
        else if event.WorkloadExited? then Finish(l, Exited(event.value))
        else if event.WorkloadSignaled? then Finish(l, Signaled(event.value))
        else (l.Break(InvalidEvent), None)
      case WaitingForCleanup =>
        if event.CleanupSucceeded? then (l.(over := true), None) else (l.Break(InvalidEvent), None)
  }

  // ----- Whole runs -----

  /** What the loop asks of its adapter. */
  datatype Call = Begin | Wait(limited: bool) | Request(stop: StopRequest) | Reap | Finalize | Publish(outcome: Outcome)

  /** An arbitrary behaviour of the adapter: the events it delivers, each with whether a stop request sent in reaction
      to it is accepted, and the results of the operations around the loop. */
  datatype Turn = Turn(event: LifecycleEvent, accepted: bool)
  datatype Script = Script(begins: bool, turns: seq<Turn>, reaped: bool, finalized: bool)

  function TurnCalls(l: Life, turn: Turn): seq<Call> {
    [Wait(l.Limited())] + match React(l, turn.event, turn.accepted).1
                          case None => []
                          case Some(request) => [Request(request)]
  }

  /** The loop over a script: the locals after it and the calls made. */
  function Loop(l: Life, turns: seq<Turn>): (Life, seq<Call>)
    decreases |turns|
  {
    if l.over || turns == [] then (l, [])
    else
      var (last, calls) := Loop(React(l, turns[0].event, turns[0].accepted).0, turns[1..]);
      (last, TurnCalls(l, turns[0]) + calls)
  }

  function Unless(ok: bool, failures: seq<Failure>, failure: Failure): seq<Failure> {
    if ok then failures else failures + [failure]
  }

  /** The outcome after reaping the launcher and finalizing. */
  function Close(outcome: Outcome, reaped: bool, finalized: bool): Outcome {
    outcome.(failures :=
      Unless(finalized, Unless(reaped, outcome.failures, LauncherReaping), SupervisorCleanup))
  }

  function LoopOf(script: Script): (Life, seq<Call>) {
    if script.begins then Loop(LIFE_START, script.turns) else (LIFE_START.Break(StartFailed), [])
  }

  /** The published outcome, if the script brings the run to an end. */
  function Published(script: Script): Option<Outcome> {
    var (last, _) := LoopOf(script);
    if last.over then Some(Close(last.outcome, script.reaped, script.finalized)) else None
  }

  function Calls(script: Script): seq<Call> {
    [Begin] + LoopOf(script).1
    + match Published(script)
      case None => []
      case Some(outcome) => [Reap, Finalize, Publish(outcome)]
  }

  class LifecycleAdapter {
    const script: Script
    var next: nat
    ghost var calls: seq<Call>

    constructor (script: Script)
      ensures this.script == script && next == 0 && calls == []
    {
      this.script := script;
      next, calls := 0, [];
    }

    method BeginSession() returns (ok: bool)
      modifies this
      ensures ok == script.begins && calls == old(calls) + [Begin] && next == old(next)
    {
      calls := calls + [Begin];
      return script.begins;
    }

    method WaitForEvent(limited: bool) returns (event: LifecycleEvent)
      requires next < |script.turns|
      modifies this
      ensures event == script.turns[old(next)].event && next == old(next) + 1
      ensures calls == old(calls) + [Wait(limited)]
    {
      calls := calls + [Wait(limited)];
      event := script.turns[next].event;
      next := next + 1;
    }

    method RequestStop(request: StopRequest) returns (ok: bool)
      requires 0 < next <= |script.turns|
      modifies this
      ensures ok == script.turns[old(next) - 1].accepted && next == old(next)
      ensures calls == old(calls) + [Request(request)]
    {
      calls := calls + [Request(request)];
      return script.turns[next - 1].accepted;
    }

    method FinishWith(call: Call, result: bool) returns (ok: bool)
      modifies this
      ensures ok == result && calls == old(calls) + [call] && next == old(next)
    {
      calls := calls + [call];
      return result;
    }
  }

  /** `run_session_lifecycle`. When the adapter has no further event the run is still waiting and nothing is
      published. */
  method RunSessionLifecycle(adapter: LifecycleAdapter) returns (outcome: Option<Outcome>)
    requires adapter.next == 0 && adapter.calls == []
    modifies adapter
    ensures outcome == Published(adapter.script)
    ensures adapter.calls == Calls(adapter.script)
  {
    var l := LIFE_START;
    var ok := adapter.BeginSession();
    if !ok {
      l := l.Break(StartFailed);
    } else {
      l := RunEventLoop(adapter);
    }
    assert adapter.calls == [Begin] + LoopOf(adapter.script).1 && l == LoopOf(adapter.script).0;
    if !l.over {
      return None;
    }
    var published := CloseSession(adapter, l.outcome);
    return Some(published);
  }

  method RunEventLoop(adapter: LifecycleAdapter) returns (l: Life)
    requires adapter.next == 0
    modifies adapter
    ensures l == Loop(LIFE_START, adapter.script.turns).0
    ensures adapter.calls == old(adapter.calls) + Loop(LIFE_START, adapter.script.turns).1
  {
    var turns := adapter.script.turns;
    l := LIFE_START;
    assert turns[0..] == turns;
    while !l.over && adapter.next < |turns|
      invariant adapter.next <= |turns|
      invariant Loop(LIFE_START, turns).0 == Loop(l, turns[adapter.next..]).0
      invariant old(adapter.calls) + Loop(LIFE_START, turns).1 == adapter.calls + Loop(l, turns[adapter.next..]).1
    {
      ghost var rest, before, was := turns[adapter.next..], adapter.calls, l;
      assert rest[1..] == turns[adapter.next + 1..];
      l := TakeTurn(adapter, l);
      assert before + (TurnCalls(was, rest[0]) + Loop(l, rest[1..]).1)
             == (before + TurnCalls(was, rest[0])) + Loop(l, rest[1..]).1;
    }
    assert adapter.calls + [] == adapter.calls;
  }

  /** What follows the event loop. */
  method CloseSession(adapter: LifecycleAdapter, outcome: Outcome) returns (published: Outcome)
    modifies adapter
    ensures published == Close(outcome, adapter.script.reaped, adapter.script.finalized)
    ensures adapter.calls == old(adapter.calls) + [Reap, Finalize, Publish(published)]
  {
    published := outcome;
    var ok := adapter.FinishWith(Reap, adapter.script.reaped);
    if !ok {
      published := published.(failures := published.failures + [LauncherReaping]);
    }
    ok := adapter.FinishWith(Finalize, adapter.script.finalized);
    if !ok {
      published := published.(failures := published.failures + [SupervisorCleanup]);
    }
    ok := adapter.FinishWith(Publish(published), true);
  }

  /** The loop body. */
  method TakeTurn(adapter: LifecycleAdapter, l: Life) returns (next: Life)
    requires adapter.next < |adapter.script.turns|
    modifies adapter
    ensures adapter.next == old(adapter.next) + 1
    ensures var turn := adapter.script.turns[old(adapter.next)];
            && next == React(l, turn.event, turn.accepted).0
            && adapter.calls == old(adapter.calls) + TurnCalls(l, turn)
  {
    var event := adapter.WaitForEvent(l.stage.InterruptGrace? || l.stage.TerminateGrace?);
    next := l;
    if event.ControllerLost? {
      return;
    }
    if l.phase.WaitingForCleanup? && (event.TerminalInterrupt? || event.StopRequested?) {
      return;
    }
    if event.ConversationLost? {
      return l.Break(Conversation);
    }
    if event.CleanupFailed? {
      return l.Break(CleanupFailure);
    }
    match l.phase
    case WaitingForActivation =>
      if event.Activated? {
        next := l.(phase := Active, activated := true);
      } else if event.ActivationFailed? {
        if event.value == 126 || event.value == 127 {
          next := next.(outcome := next.outcome.(workload := Some(StartFailure(event.value))));
        } else {
          next := next.(outcome := next.outcome.(failures := next.outcome.failures + [StartFailed]));
        }
        next := next.(phase := WaitingForCleanup);
      } else {
        next := l.Break(InvalidEvent);
      }
    case Active =>
      next := TakeActiveTurn(adapter, l, event);
    case WaitingForCleanup =>
      if event.CleanupSucceeded? {
        next := l.(over := true);
      } else {
        next := l.Break(InvalidEvent);
      }
  }

  /** The loop body while the Session is active. */
  method TakeActiveTurn(adapter: LifecycleAdapter, l: Life, event: LifecycleEvent) returns (next: Life)
    requires 0 < adapter.next <= |adapter.script.turns|
    requires l.phase.Active? && event == adapter.script.turns[adapter.next - 1].event
    requires !event.ControllerLost? && !event.ConversationLost? && !event.CleanupFailed?
    modifies adapter
    ensures adapter.next == old(adapter.next)
    ensures var (after, request) := React(l, event, adapter.script.turns[adapter.next - 1].accepted);
            && next == after
            && adapter.calls == old(adapter.calls) + if request.Some? then [Request(request.value)] else []
  {
    next := l;
    assert adapter.calls + [] == adapter.calls;
    if event.ProfileStateUnknown? {
      next := next.(outcome := next.outcome.(failures := next.outcome.failures + [ProfileState]));
      if l.stage.NoStop? {
        next := SendStopRequest(adapter, next, Terminate, TerminateGrace);
      }
    } else if event.TerminalInterrupt? {
      if l.stage.NoStop? {
        next := next.(stage := InterruptGrace);
      } else if !l.stage.KillRequested? {
        next := SendStopRequest(adapter, next, Kill, KillRequested);
      }
    } else if event.StopRequested? && l.stage.NoStop? {
      next := SendStopRequest(adapter, next, Terminate, TerminateGrace);
    } else if event.StopRequested? {
      return;
    } else if event.DeadlineExpired? && l.stage.InterruptGrace? {
      next := SendStopRequest(adapter, next, Terminate, TerminateGrace);
    } else if event.DeadlineExpired? && l.stage.TerminateGrace? {
      next := SendStopRequest(adapter, next, Kill, KillRequested);
    } else if event.WorkloadExited? {
      next := next.(outcome := next.outcome.(workload := Some(Exited(event.value))),
                    phase := WaitingForCleanup, stage := NoStop);
    } else if event.WorkloadSignaled? {
      next := next.(outcome := next.outcome.(workload := Some(Signaled(event.value))),
                    phase := WaitingForCleanup, stage := NoStop);
    } else {
      next := l.Break(InvalidEvent);
    }
  }

  /** A stop request and the stage behind it; if it cannot be sent the loop is left. */
  method SendStopRequest(adapter: LifecycleAdapter, l: Life, request: StopRequest, stage: Stage) returns (next: Life)
    requires 0 < adapter.next <= |adapter.script.turns|
    modifies adapter
    ensures adapter.next == old(adapter.next) && adapter.calls == old(adapter.calls) + [Request(request)]
    ensures next == if adapter.script.turns[adapter.next - 1].accepted then l.(stage := stage)
                    else l.Break(StopRequestFailed)
  {
    var ok := adapter.RequestStop(request);
    next := if ok then l.(stage := stage) else l.Break(StopRequestFailed);
  }

  // ----- What holds of every run -----

  /** The stop requests among some calls, in order. */
  function Requests(calls: seq<Call>): seq<StopRequest> {
    if calls == [] then []
    else (if calls[0].Request? then [calls[0].stop] else []) + Requests(calls[1..])
  }

  lemma {:induction false} RequestsOfBoth(a: seq<Call>, b: seq<Call>)
    ensures Requests(a + b) == Requests(a) + Requests(b)
  {
    if a == [] {
      assert a + b == b;
    } else {
      RequestsOfBoth(a[1..], b);
      assert (a + b)[1..] == a[1..] + b;
    }
  }

  /** Locals the loop can reach. */
  predicate Sound(l: Life) {
    && (!l.stage.NoStop? ==> l.phase.Active?)
    && (l.phase.Active? ==> l.activated)
    && (l.outcome.workload.Some? ==> l.phase.WaitingForCleanup?)
    && (l.activated ==> !l.phase.WaitingForActivation?)
    && (l.activated && l.outcome.workload.Some? ==> !l.outcome.workload.value.StartFailure?)
    && (l.phase.WaitingForCleanup? && l.outcome.failures == [] ==> l.outcome.workload.Some?)
    && (l.phase.WaitingForCleanup? && l.activated ==> l.outcome.workload.Some?)
    && (l.over && l.outcome.failures == [] ==> l.phase.WaitingForCleanup?)
  }

  lemma ReactStaysSound(l: Life, turn: Turn)
    requires Sound(l) && !l.over
    ensures Sound(React(l, turn.event, turn.accepted).0)
  {
  }

  lemma {:induction false} LoopStaysSound(l: Life, turns: seq<Turn>)
    requires Sound(l)
    ensures Sound(Loop(l, turns).0)
    decreases |turns|
  {
    if !l.over && turns != [] {
      ReactStaysSound(l, turns[0]);
      LoopStaysSound(React(l, turns[0].event, turns[0].accepted).0, turns[1..]);
    }
  }

  lemma {:induction false} LoopInTwo(l: Life, a: seq<Turn>, b: seq<Turn>)
    ensures var middle := Loop(l, a).0;
            Loop(l, a + b) == (Loop(middle, b).0, Loop(l, a).1 + Loop(middle, b).1)
    decreases |a|
  {
    if a == [] || l.over {
      assert a == [] ==> a + b == b;
      assert [] + Loop(l, b).1 == Loop(l, b).1;
    } else {
      var next := React(l, a[0].event, a[0].accepted).0;
      LoopInTwo(next, a[1..], b);
      assert (a + b)[1..] == a[1..] + b;
      var own, mid, rest := TurnCalls(l, a[0]), Loop(next, a[1..]).1, Loop(Loop(l, a).0, b).1;
      assert own + (mid + rest) == (own + mid) + rest;
    }
  }

  /** The requests that may still follow. */
  predicate Follows(l: Life, requests: seq<StopRequest>) {
    || requests == []
    || ((l.stage.NoStop? || l.stage.InterruptGrace?) && !l.phase.WaitingForCleanup?
        && (requests == [Terminate] || requests == [Kill] || requests == [Terminate, Kill]))
    || (l.stage.TerminateGrace? && requests == [Kill])
  }

  lemma {:induction false} RequestsFollow(l: Life, turns: seq<Turn>)
    requires Sound(l)
    ensures Follows(l, Requests(Loop(l, turns).1))
    decreases |turns|
  {
    if !l.over && turns != [] {
      var (next, request) := React(l, turns[0].event, turns[0].accepted);
      RequestsFollow(next, turns[1..]);
      assert next.over ==> Loop(next, turns[1..]).1 == [];
      RequestsOfTurn(l.Limited(), request, Loop(next, turns[1..]).1);
      ReactFollows(l, turns[0], Requests(Loop(next, turns[1..]).1));
    }
  }

  lemma RequestsOfCall(call: Call, rest: seq<Call>)
    ensures Requests([call] + rest) == if call.Request? then [call.stop] + Requests(rest) else Requests(rest)
  {
    assert ([call] + rest)[1..] == rest;
  }

  lemma RequestsOfTurn(limited: bool, request: Option<StopRequest>, rest: seq<Call>)
    ensures Requests([Wait(limited)] + (match request case None => [] case Some(r) => [Request(r)]) + rest)
            == match request case None => Requests(rest) case Some(r) => [r] + Requests(rest)
  {
    RequestsOfCall(Wait(limited), rest);
    if request.Some? {
      RequestsOfCall(Request(request.value), rest);
      RequestsOfCall(Wait(limited), [Request(request.value)] + rest);
      assert [Wait(limited)] + ([Request(request.value)] + rest) == [Wait(limited)] + [Request(request.value)] + rest;
    } else {
      assert [Wait(limited)] + [] + rest == [Wait(limited)] + rest;
    }
  }

  lemma ReactFollows(l: Life, turn: Turn, rest: seq<StopRequest>)
    requires Sound(l)
    requires var next := React(l, turn.event, turn.accepted).0;
             if next.over then rest == [] else Follows(next, rest)
    ensures match React(l, turn.event, turn.accepted).1
            case None => Follows(l, rest)
            case Some(request) => Follows(l, [request] + rest)
  {
    assert [Terminate] + [Kill] == [Terminate, Kill];
    assert [Terminate] + [] == [Terminate] && [Kill] + [] == [Kill];
  }

  lemma {:induction false} NothingRequested(calls: seq<Call>)
    requires forall i :: 0 <= i < |calls| ==> !calls[i].Request?
    ensures Requests(calls) == []
  {
    if calls != [] {
      NothingRequested(calls[1..]);
    }
  }

  /** For every behaviour of the adapter the stop requests of a run are at most one termination followed by at most one
      kill. */
  lemma StopEscalation(script: Script)
    ensures var requests := Requests(Calls(script));
            requests == [] || requests == [Terminate] || requests == [Kill] || requests == [Terminate, Kill]
  {
    RequestsFollow(LIFE_START, script.turns);
    var tail := match Published(script) case None => [] case Some(outcome) => [Reap, Finalize, Publish(outcome)];
    NothingRequested(tail);
    RequestsOfBoth([Begin] + LoopOf(script).1, tail);
    RequestsOfCall(Begin, LoopOf(script).1);
    assert Requests(LoopOf(script).1) + [] == Requests(LoopOf(script).1);
  }

  /** Wherever a run is interrupted: a limited wait happens only while active, and there the expiry of the deadline
      always escalates and is never an invalid event; after the Workload's result nothing is requested any more. */
  lemma DeadlinesAndResults(turns: seq<Turn>, k: nat, accepted: bool)
    requires k <= |turns|
    ensures var l := Loop(LIFE_START, turns[..k]).0;
            && Loop(LIFE_START, turns).1 == Loop(LIFE_START, turns[..k]).1 + Loop(l, turns[k..]).1
            && (l.Limited() ==> l.phase.Active? && Expires(l, accepted))
            && (l.outcome.workload.Some? ==> Requests(Loop(l, turns[k..]).1) == [])
  {
    var l := Loop(LIFE_START, turns[..k]).0;
    assert turns[..k] + turns[k..] == turns;
    LoopInTwo(LIFE_START, turns[..k], turns[k..]);
    LoopStaysSound(LIFE_START, turns[..k]);
    RequestsFollow(l, turns[k..]);
    if l.Limited() {
      Expiry(l, accepted);
    }
  }

  /** The expiry of the deadline sends the next request and records no failure but that of sending it. */
  predicate Expires(l: Life, accepted: bool) {
    var (next, request) := React(l, DeadlineExpired, accepted);
    && request == Some(if l.stage.InterruptGrace? then Terminate else Kill)
    && next.outcome.failures == Unless(accepted, l.outcome.failures, StopRequestFailed)
  }

  lemma Expiry(l: Life, accepted: bool)
    requires Sound(l) && l.Limited()
    ensures Expires(l, accepted)
  {
  }

  predicate Finishing(call: Call) {
    call.Reap? || call.Finalize? || call.Publish?
  }

  lemma {:induction false} LoopOnlyWaits(l: Life, turns: seq<Turn>)
    ensures forall c :: c in Loop(l, turns).1 ==> !Finishing(c) && !c.Begin?
    decreases |turns|
  {
    if !l.over && turns != [] {
      LoopOnlyWaits(React(l, turns[0].event, turns[0].accepted).0, turns[1..]);
    }
  }

  /** Every run that ends, on whatever path, begins once, then waits and requests, then reaps, finalizes and publishes,
      once each and in this order; what it publishes is what the run gives. */
  lemma FinishesInOrder(script: Script)
    requires Published(script).Some?
    ensures var calls, n := Calls(script), |Calls(script)|;
            && n >= 4 && calls[0] == Begin
            && (forall i :: 0 < i < n - 3 ==> !Finishing(calls[i]) && !calls[i].Begin?)
            && calls[n - 3..] == [Reap, Finalize, Publish(Published(script).value)]
  {
    LoopOnlyWaits(LIFE_START, script.turns);
    assert forall i :: 0 <= i < |LoopOf(script).1| ==> LoopOf(script).1[i] in LoopOf(script).1;
  }

  // ----- Failures -----

  /** How often a run was told that the profile state is unknown. */
  function Unknowns(turns: seq<Turn>): nat {
    if turns == [] then 0 else (if turns[0].event.ProfileStateUnknown? then 1 else 0) + Unknowns(turns[1..])
  }

  function Count(failures: seq<Failure>, failure: Failure): nat {
    multiset(failures)[failure]
  }

  /** A bound on how often a failure can be recorded when the state was unknown `unknowns` times; the failures that
      end the loop are recorded only by leaving it. */
  function Bound(l: Life, unknowns: nat, failure: Failure): nat {
    match failure
    case ProfileState => unknowns
    case StartFailed => if l.phase.WaitingForCleanup? && l.outcome.workload.None? then 1 else 0
    case LauncherReaping => 0
    case SupervisorCleanup => 0
    case _ => if l.over then 1 else 0
  }

  lemma CountOfAppend(failures: seq<Failure>, f: Failure, g: Failure)
    ensures Count(failures + [f], g) == Count(failures, g) + if f == g then 1 else 0
  {
  }

  /** What one turn appends to the failures. */
  lemma ReactAdds(l: Life, turn: Turn) returns (added: seq<Failure>)
    requires Sound(l) && !l.over
    ensures var next := React(l, turn.event, turn.accepted).0;
            && next.outcome.failures == l.outcome.failures + added
            && match |added|
               case 0 => true
               case 1 =>
                 || (added[0].ProfileState? && turn.event.ProfileStateUnknown?)
                 || (added[0].StartFailed? && l.phase.WaitingForActivation? && next.phase.WaitingForCleanup?
                     && next.outcome.workload.None?)
                 || (next.over && (added[0].Conversation? || added[0].CleanupFailure? || added[0].InvalidEvent?
                                   || added[0].StopRequestFailed?))
               case _ => added == [ProfileState, StopRequestFailed] && turn.event.ProfileStateUnknown? && next.over
  {
    var next := React(l, turn.event, turn.accepted).0;
    added := next.outcome.failures[|l.outcome.failures|..];
    if |added| == 2 {
      assert added == [added[0], added[1]];
    }
  }

  lemma CountOfBoth(a: seq<Failure>, b: seq<Failure>, f: Failure)
    ensures Count(a + b, f) == Count(a, f) + Count(b, f)
  {
  }

  lemma ReactStaysBounded(l: Life, turn: Turn, unknowns: nat, f: Failure)
    requires Sound(l) && Within(l, unknowns, f) && !l.over
    ensures Within(React(l, turn.event, turn.accepted).0,
                   unknowns + (if turn.event.ProfileStateUnknown? then 1 else 0), f)
  {
    var added := ReactAdds(l, turn);
    CountOfBoth(l.outcome.failures, added, f);
    if |added| == 1 {
      assert added == [added[0]];
    }
  }

  ghost predicate Within(l: Life, unknowns: nat, f: Failure) {
    Count(l.outcome.failures, f) <= Bound(l, unknowns, f)
  }

  lemma {:induction false} LoopStaysBounded(l: Life, turns: seq<Turn>, unknowns: nat, f: Failure)
    requires Sound(l) && Within(l, unknowns, f)
    ensures Within(Loop(l, turns).0, unknowns + Unknowns(turns), f)
    decreases |turns|
  {
    if l.over {
      assert Bound(l, unknowns, f) <= Bound(l, unknowns + Unknowns(turns), f);
    } else if turns != [] {
      var next := React(l, turns[0].event, turns[0].accepted).0;
      var more := if turns[0].event.ProfileStateUnknown? then 1 else 0;
      ReactStaysBounded(l, turns[0], unknowns, f);
      ReactStaysSound(l, turns[0]);
      LoopStaysBounded(next, turns[1..], unknowns + more, f);
      assert unknowns + more + Unknowns(turns[1..]) == unknowns + Unknowns(turns);
    }
  }

  predicate NoDuplicates(failures: seq<Failure>) {
    forall i, j :: 0 <= i < j < |failures| ==> failures[i] != failures[j]
  }

  lemma CountedOnce(failures: seq<Failure>)
    requires forall f :: Count(failures, f) <= 1
    ensures NoDuplicates(failures)
  {
    forall i, j | 0 <= i < j < |failures| ensures failures[i] != failures[j] {
      var f := failures[i];
      assert failures == failures[..i] + [f] + failures[i + 1..j] + [failures[j]] + failures[j + 1..];
      assert Count(failures, f) <= 1;
    }
  }

  /** What the events may carry: the ranges the conversation with the helper guarantees. */
  predicate InRange(event: LifecycleEvent) {
    && (event.WorkloadExited? ==> 0 <= event.value <= 255)
    && (event.WorkloadSignaled? ==> 1 <= event.value <= 127)
  }

  predicate ResultInRange(workload: Option<WorkloadResult>) {
    workload.None?
    || match workload.value
       case StartFailure(value) => value == 126 || value == 127
       case Exited(value) => 0 <= value <= 255
       case Signaled(value) => 1 <= value <= 127
  }

  lemma {:induction false} ResultsStayInRange(l: Life, turns: seq<Turn>)
    requires ResultInRange(l.outcome.workload)
    requires forall i :: 0 <= i < |turns| ==> InRange(turns[i].event)
    ensures ResultInRange(Loop(l, turns).0.outcome.workload)
    decreases |turns|
  {
    if !l.over && turns != [] {
      assert InRange(turns[0].event);
      ResultsStayInRange(React(l, turns[0].event, turns[0].accepted).0, turns[1..]);
    }
  }

  lemma PublishedFailures(script: Script, f: Failure)
    requires Published(script).Some?
    ensures Count(Published(script).value.failures, f)
            <= if f.ProfileState? then Unknowns(script.turns) else 1
  {
    var last := LoopOf(script).0;
    if script.begins {
      LoopStaysBounded(LIFE_START, script.turns, 0, f);
    } else {
      assert last.outcome.failures == [] + [StartFailed];
      CountOfAppend([], StartFailed, f);
    }
    CountOfAppend(last.outcome.failures, LauncherReaping, f);
    CountOfAppend(Unless(script.reaped, last.outcome.failures, LauncherReaping), SupervisorCleanup, f);
  }

  /** What a run publishes: no failure twice, unless the state was reported unknown twice; a Workload result whenever
      nothing failed; and a result that is not a failed start once the Session was active. */
  lemma OutcomesAreWellFormed(script: Script)
    requires Published(script).Some?
    ensures var o := Published(script).value;
            && (Unknowns(script.turns) <= 1 ==> NoDuplicates(o.failures))
            && (o.failures == [] ==> o.workload.Some?)
            && (LoopOf(script).0.activated && o.workload.Some? ==> !o.workload.value.StartFailure?)
            && ((forall i :: 0 <= i < |script.turns| ==> InRange(script.turns[i].event)) ==>
                  ResultInRange(o.workload))
  {
    LoopStaysSound(LIFE_START, script.turns);
    if forall i :: 0 <= i < |script.turns| ==> InRange(script.turns[i].event) {
      ResultsStayInRange(LIFE_START, script.turns);
    }
    if Unknowns(script.turns) <= 1 {
      forall f ensures Count(Published(script).value.failures, f) <= 1 {
        PublishedFailures(script, f);
      }
      CountedOnce(Published(script).value.failures);
    }
  }
}
