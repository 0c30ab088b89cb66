/** When the Profile Change protocol loses its conversation although every write succeeds. */
module ProfileLoss {
  import opened Wrappers
  import opened NetworkProfile
  import opened ProfileWire
  import opened ControllerCommands
  import opened ControlPlane
  import opened ControlPlaneBatches
  import opened ActionExecutor
  import opened HelperConversations
  import opened ProfileProtocol
  import opened ProfileAgreement
  import L = SessionLifecycle

  /** Whether a queued change is reached before a queued detach. */
  predicate EditComes(queue: seq<Queued>) {
    queue != [] && (queue[0].command.Edit? || (!queue[0].command.Detach? && EditComes(queue[1..])))
  }

  /** Draining dispatches exactly when a change is reached. */
  lemma {:induction false} DrainDispatches(f: FloatText, p: Plane, actions: seq<Action>)
    requires Draining(f, p) && p.inFlight.None? && !p.terminal && !p.failed
    ensures PendingDispatch(DrainQueue(p, actions).0).Some? <==> EditComes(p.queue)
    decreases |p.queue|
  {
    if p.attached && p.queue != [] {
      var next := p.(queue := p.queue[1..]);
      assert p.queue[0].generation == p.generation && !p.queue[0].command.Stop?;
      ProcessKeeps(f, next, p.queue[0].command, actions);
      var (processed, done) := Process(next, p.queue[0].command, actions);
      if processed.attached && processed.inFlight.None? {
        DrainDispatches(f, processed, done);
      }
    }
  }

  lemma ResultDispatches(f: FloatText, p: Plane, applied: bool, change: Change)
    requires Good(f, p) && p.inFlight.Some? && p.inFlight.value.change == change
    ensures PendingDispatch(Handle(f, p, ChangeResult(applied, change)).0).Some? <==> EditComes(p.queue)
  {
    var start := p.(inFlight := NotPending(p.inFlight));
    var idle := start.(inFlight := None);
    ConfirmKeeps(f, idle, applied, change);
    var updated := Confirm(idle, applied, change).value;
    if !p.terminal && !p.failed {
      assert Draining(f, updated);
      DrainDispatches(f, updated, HandleResult(start.(queue := []), applied, change).1);
    }
  }

  /** With every write succeeding, a batch loses the conversation exactly when it dispatches a change that the
      conversation cannot begin. */
  lemma PerformLoses(f: FloatText, c: Core, event: Event, oks: seq<bool>)
    requires PlaneOk(f, c) && !c.lost && Executed(event) && (event.Attached? ==> !c.client)
    requires Writes(f, c, event, oks) && AllTrue(oks)
    ensures var dispatch := PendingDispatch(Handle(f, c.plane, event).0);
            Perform(f, c, event, oks).0.lost
            <==> dispatch.Some? && Begin(c.supervisor, f, dispatch.value).1.None?
  {
    var e := Exec(c.plane, c.client, c.supervisor, [], [], [], false);
    var handled := Handle(f, c.plane, event).0;
    var b := BatchShape(f, c.plane, event);
    var start := e.(plane := handled, client := e.client || event.Attached?);
    var sent := ExecuteBatch(f, start, b, oks);
    BeforeLosesNothing(f, start, b);
    if b.dispatch.Some? {
      DispatchLoses(f, Before(f, start, b, sent), b.dispatch.value);
    }
  }

  lemma BeforeLosesNothing(f: FloatText, e: Exec, b: Batch)
    requires e.events == []
    ensures L.ConversationLost !in Before(f, e, b, b.replies).events
    ensures Before(f, e, b, b.replies).conversation == e.conversation
  {
  }

  lemma DispatchLoses(f: FloatText, e: Exec, change: Change)
    requires L.ConversationLost !in e.events
    ensures L.ConversationLost in Act(f, e, Dispatch(change), true).events
            <==> Begin(e.conversation, f, change).1.None?
  {
  }

  /** No failure of the environment: every write succeeds, the control socket can be created, the link holds. */
  predicate Reliable(step: Step) {
    match step
    case HandleHelperEvent(listening, oks) => listening && AllTrue(oks)
    case AcceptClient(oks) => AllTrue(oks)
    case ClientBytes(_, oks) => AllTrue(oks)
    case LinkFails => false
    case _ => true
  }

  /** The end of the Workload was read together with the answer to a change, and a queued change is due. */
  predicate LateDispatch(n: Net, step: Step) {
    && step.HandleHelperEvent? && n.core.inbox != [] && n.core.inbox[0].ProfileResult?
    && Over(n.core.supervisor.phase) && EditComes(n.core.plane.queue)
  }

  lemma ResultLoses(f: FloatText, n: Net, oks: seq<bool>)
    requires Invariant(f, n) && !n.core.lost && RoundsInRange(f) && Enabled(f, n, HandleHelperEvent(true, oks))
    requires AllTrue(oks) && n.core.inbox[0].ProfileResult?
    ensures Next(f, n, HandleHelperEvent(true, oks)).core.lost <==> LateDispatch(n, HandleHelperEvent(true, oks))
  {
    var p, event := Popped(n), EventOf(n.core.inbox[0]).value;
    PoppedOk(f, n);
    HandledAsBatch(f, n, true, oks);
    ResultDispatches(f, n.core.plane, event.applied, event.change);
    PerformLoses(f, p.core, event, oks);
    HandleKeepsGood(f, n.core.plane, event);
    var handled := Handle(f, n.core.plane, event).0;
    if PendingDispatch(handled).Some? {
      AcceptedIffValid(DEFAULT_PROFILE, handled.inFlight.value.change);
    }
  }

  lemma BytesDoNotLose(f: FloatText, n: Net, bytes: string, oks: seq<bool>)
    requires Invariant(f, n) && !n.core.lost && RoundsInRange(f) && Enabled(f, n, ClientBytes(bytes, oks))
    requires AllTrue(oks)
    ensures !Next(f, n, ClientBytes(bytes, oks)).core.lost
  {
    var event := BytesReceived(bytes);
    PerformLoses(f, n.core, event, oks);
    HandleKeepsGood(f, n.core.plane, event);
    OneInFlight(f, n.core.plane, event);
    var handled := Handle(f, n.core.plane, event).0;
    if PendingDispatch(handled).Some? {
      assert n.core.plane.inFlight.None?;
      assert n.core.supervisor.phase.Active? && n.core.supervisor.pending.None?;
      AcceptedIffValid(DEFAULT_PROFILE, handled.inFlight.value.change);
    }
  }

  lemma TalkDispatchesNothing(f: FloatText, p: Plane, event: Event)
    requires Good(f, p) && (event.Attached? || event.WorkloadTerminal? || event.ProfileStateUnknown?)
    ensures PendingDispatch(Handle(f, p, event).0).None?
  {
  }

  lemma EventsDoNotLose(f: FloatText, n: Net, oks: seq<bool>)
    requires Invariant(f, n) && !n.core.lost && RoundsInRange(f) && Enabled(f, n, HandleHelperEvent(true, oks))
    requires AllTrue(oks) && !n.core.inbox[0].ProfileResult?
    ensures !Next(f, n, HandleHelperEvent(true, oks)).core.lost
  {
    if EventOf(n.core.inbox[0]).Some? {
      var event := EventOf(n.core.inbox[0]).value;
      PoppedOk(f, n);
      PerformLoses(f, Popped(n).core, event, oks);
      TalkDispatchesNothing(f, n.core.plane, event);
    }
  }

  lemma AttachDoesNotLose(f: FloatText, n: Net, oks: seq<bool>)
    requires Invariant(f, n) && !n.core.lost && Enabled(f, n, AcceptClient(oks)) && AllTrue(oks)
    ensures !Next(f, n, AcceptClient(oks)).core.lost
  {
    if !n.core.client {
      PerformLoses(f, n.core, Attached, oks);
      TalkDispatchesNothing(f, n.core.plane, Attached);
    }
  }

  /** Without a failure of the environment the conversation is lost in exactly one situation: the Supervisor has read
      the end of the Workload together with the answer to a change, and the queue holds another change to be sent. */
  lemma LostExactlyWhen(f: FloatText, n: Net, step: Step)
    requires Invariant(f, n) && !n.core.lost && RoundsInRange(f) && Enabled(f, n, step) && Reliable(step)
    ensures Next(f, n, step).core.lost <==> LateDispatch(n, step)
  {
    if step.ClientBytes? {
      BytesDoNotLose(f, n, step.bytes, step.oks);
    } else if step.AcceptClient? {
      AttachDoesNotLose(f, n, step.oks);
    } else if step.HandleHelperEvent? {
      if n.core.inbox[0].ProfileResult? {
        ResultLoses(f, n, step.oks);
      } else {
        EventsDoNotLose(f, n, step.oks);
      }
    }
  }
}
