/** What the control plane and its executor raise towards the lifecycle over a whole Session, and what this means for the
    published outcome. */
module RaisedEvents {
  import opened Wrappers
  import opened NetworkProfile
  import opened ProfileWire
  import opened ControllerCommands
  import opened ControlPlane
  import opened ControlPlaneBatches
  import opened ActionExecutor
  import opened HelperConversations
  import opened ProfileProtocol
  import L = SessionLifecycle
  import O = SessionOutcome

  /** One control plane event with the results of the writes its batch makes. */
  datatype Input = Input(event: Event, oks: seq<bool>)

  /** The events that come from outside; a failed write is fed back by the executor itself. */
  predicate CanHandle(f: FloatText, e: Exec, input: Input) {
    && !input.event.WriteFailed? && (input.event.Attached? ==> !e.client)
    && |input.oks| == |Handle(f, e.plane, input.event).1|
  }

  /** Handling an event and executing its batch; a batch that was given up does not hold up the next one. */
  function HandleInput(f: FloatText, e: Exec, input: Input): Exec
    requires CanHandle(f, e, input)
  {
    if Executed(input.event) then HandleAndExecute(f, e.(broken := false), input.event, input.oks)
    else e.(plane := Handle(f, e.plane, input.event).0, client := e.client && !input.event.Disconnected?)
  }

  predicate CanHandleAll(f: FloatText, e: Exec, inputs: seq<Input>)
    decreases |inputs|
  {
    inputs == [] || (CanHandle(f, e, inputs[0]) && CanHandleAll(f, HandleInput(f, e, inputs[0]), inputs[1..]))
  }

  function HandleAll(f: FloatText, e: Exec, inputs: seq<Input>): Exec
    requires CanHandleAll(f, e, inputs)
    decreases |inputs|
  {
    if inputs == [] then e else HandleAll(f, HandleInput(f, e, inputs[0]), inputs[1..])
  }

  function Raised(events: seq<L.LifecycleEvent>, event: L.LifecycleEvent): nat {
    multiset(events)[event]
  }

  /** The executor's side of the control plane's invariant. */
  predicate InStep(f: FloatText, e: Exec) {
    Good(f, e.plane) && e.client == e.plane.attached
  }

  predicate RaisesAtMost(e: Exec, r: Exec) {
    && Raised(r.events, L.StopRequested) + (if e.plane.stopping then 1 else 0)
       <= Raised(e.events, L.StopRequested) + (if r.plane.stopping then 1 else 0)
    && Raised(r.events, L.ProfileStateUnknown) + (if e.plane.failed then 1 else 0)
       <= Raised(e.events, L.ProfileStateUnknown) + (if r.plane.failed then 1 else 0)
  }

  /** An event raises a stop, or a failure, only when it enters that state. */
  lemma InputRaises(f: FloatText, e: Exec, input: Input)
    requires InStep(f, e) && CanHandle(f, e, input) && RoundsInRange(f)
    ensures InStep(f, HandleInput(f, e, input)) && RaisesAtMost(e, HandleInput(f, e, input))
  {
    var start := e.(broken := false);
    HandleKeepsGood(f, e.plane, input.event);
    if Executed(input.event) {
      var r := HandleAndExecute(f, start, input.event, input.oks);
      BatchesKeepGood(f, start, input.event, input.oks);
      var b := WriteFailureIsExact(f, start, input.event, input.oks);
      var shape := BatchShape(f, e.plane, input.event);
      ActionsTell(b, shape);
      RaisedByBatch(f, start, Handle(f, e.plane, input.event).0, b, r);
    }
  }

  /** The actions determine whether a batch stops or fails the Session. */
  lemma ActionsTell(a: Batch, b: Batch)
    requires Actions(a) == Actions(b)
    ensures a.stop == b.stop && a.fail == b.fail
  {
    TellsOf(a);
    TellsOf(b);
  }

  lemma TellsOf(b: Batch)
    ensures b.stop <==> RequestStop in Actions(b)
    ensures b.fail <==> FailSession in Actions(b)
  {
    OnlySends(b.replies);
  }

  lemma {:induction false} OnlySends(replies: seq<Reply>)
    ensures forall a :: a in Sends(replies) ==> a.Send?
  {
    if replies != [] {
      OnlySends(replies[..|replies| - 1]);
    }
  }

  lemma RaisedByBatch(f: FloatText, e: Exec, handled: Plane, b: Batch, r: Exec)
    requires Exact(f, e, handled, b, r)
    requires b.stop ==> !e.plane.stopping
    requires b.fail ==> !e.plane.failed
    requires r.plane.stopping == handled.stopping && r.plane.failed == handled.failed
    requires e.plane.stopping ==> handled.stopping
    requires e.plane.failed ==> handled.failed
    ensures RaisesAtMost(e, r)
  {
  }

  /** Over any run the executor raises at most one stop and at most one unknown profile state. */
  lemma {:induction false} RaisedOnce(f: FloatText, e: Exec, inputs: seq<Input>)
    requires InStep(f, e) && CanHandleAll(f, e, inputs) && RoundsInRange(f)
    ensures InStep(f, HandleAll(f, e, inputs)) && RaisesAtMost(e, HandleAll(f, e, inputs))
    decreases |inputs|
  {
    if inputs != [] {
      hide InStep, CanHandle, HandleInput;
      InputRaises(f, e, inputs[0]);
      RaisedOnce(f, HandleInput(f, e, inputs[0]), inputs[1..]);
    }
  }

  /** The control plane of a Session that was just activated. */
  function Created(conversation: Supervisor): Exec {
    Exec(PLANE_START, false, conversation, [], [], [], false)
  }

  /** So whatever the Controllers, the helper and the sockets do: a run of the lifecycle that was active, with results in
      range, publishes an outcome that can be delivered, if it was told of an unknown profile state only by the executor. */
  lemma WhateverHappensIsDeliverable(f: FloatText, conversation: Supervisor, inputs: seq<Input>, script: L.Script)
    requires RoundsInRange(f) && CanHandleAll(f, Created(conversation), inputs)
    requires L.Unknowns(script.turns)
             <= Raised(HandleAll(f, Created(conversation), inputs).events, L.ProfileStateUnknown)
    requires L.Published(script).Some? && L.LoopOf(script).0.activated
    requires forall i :: 0 <= i < |script.turns| ==> L.InRange(script.turns[i].event)
    ensures O.Deliverable(L.Published(script).value) && O.Serialize(L.Published(script).value).Block?
  {
    RaisedOnce(f, Created(conversation), inputs);
    O.PublishedOutcomesAreDeliverable(script);
  }
}
