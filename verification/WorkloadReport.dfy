/** From the Workload to the published outcome: over every run of the protocol the result the lifecycle records is the
    one with which the Workload ended, whatever happens on the way. */
module WorkloadReport {
  import opened Wrappers
  import opened NetworkProfile
  import opened ProfileWire
  import opened ControllerCommands
  import opened ControlPlane
  import opened ActionExecutor
  import opened HelperConversations
  import opened ProfileProtocol
  import opened ProfileAgreement
  import L = SessionLifecycle

  // ----- What the run says about the Workload -----

  /** The result a step of the helper is the end with. */
  function EndOf(step: Step): Option<L.WorkloadResult> {
    match step
    case HelperFailsToStart(code) => Some(L.StartFailure(code))
    case WorkloadEnds(signaled, value) => Some(if signaled then L.Signaled(value) else L.Exited(value))
    case _ => None
  }

  /** How the Workload ended in some steps: as the last step that is an end says. */
  function EndIn(steps: seq<Step>): Option<L.WorkloadResult> {
    if steps == [] then None
    else if EndOf(steps[|steps| - 1]).Some? then EndOf(steps[|steps| - 1])
    else EndIn(steps[..|steps| - 1])
  }

  // ----- What is said about it on the way -----

  function SaidByMessage(m: Message): Option<L.WorkloadResult> {
    match m
    case StartFailedMessage(code) => Some(L.StartFailure(code))
    case ExitedMessage(value) => Some(L.Exited(value))
    case SignaledMessage(value) => Some(L.Signaled(value))
    case _ => None
  }

  function SaidByHelper(e: HelperEvent): Option<L.WorkloadResult> {
    match e
    case ActivationFailed(result) => Some(L.StartFailure(result))
    case WorkloadExited(result) => Some(L.Exited(result))
    case WorkloadSignaled(signal) => Some(L.Signaled(signal))
    case _ => None
  }

  function SaidByEvent(e: L.LifecycleEvent): Option<L.WorkloadResult> {
    match e
    case ActivationFailed(value) => Some(L.StartFailure(value))
    case WorkloadExited(value) => Some(L.Exited(value))
    case WorkloadSignaled(value) => Some(L.Signaled(value))
    case _ => None
  }

  /** Whatever says something says what is true. */
  predicate Agrees(said: Option<L.WorkloadResult>, told: Option<L.WorkloadResult>) {
    said.Some? ==> said == told
  }

  predicate Honest(n: Net, told: Option<L.WorkloadResult>) {
    && (n.core.stage.Starting? || n.core.stage.Running? ==> told.None?)
    && (forall i :: 0 <= i < |n.up| ==> Agrees(SaidByMessage(n.up[i]), told))
    && (forall i :: 0 <= i < |n.core.inbox| ==> Agrees(SaidByHelper(n.core.inbox[i]), told))
    && AllAgree(n.core.pending, told)
    && Agrees(n.core.life.outcome.workload, told)
  }

  predicate AllAgree(events: seq<L.LifecycleEvent>, told: Option<L.WorkloadResult>) {
    forall i :: 0 <= i < |events| ==> Agrees(SaidByEvent(events[i]), told)
  }

  /** The control plane raises events, but none about the Workload. */
  predicate TellsNothing(events: seq<L.LifecycleEvent>) {
    forall i :: 0 <= i < |events| ==> SaidByEvent(events[i]).None?
  }

  lemma {:induction false} ExecuteIsSilent(f: FloatText, actions: seq<Action>, ok: seq<bool>, e: Exec)
    requires |ok| == |actions| && TellsNothing(e.events)
    ensures TellsNothing(Execute(f, actions, ok, e).events)
    decreases |actions|
  {
    if !e.broken && actions != [] {
      ActIsSilent(f, e, actions[0], ok[0]);
      ExecuteIsSilent(f, actions[1..], ok[1..], Act(f, e, actions[0], ok[0]));
    }
  }

  lemma ActIsSilent(f: FloatText, e: Exec, action: Action, ok: bool)
    requires TellsNothing(e.events)
    ensures TellsNothing(Act(f, e, action, ok).events)
  {
    hide Handle, Begin;
  }

  lemma PerformIsHonest(f: FloatText, c: Core, event: Event, oks: seq<bool>, told: Option<L.WorkloadResult>)
    requires Writes(f, c, event, oks) && AllAgree(c.pending, told)
    ensures var d := Perform(f, c, event, oks).0;
            && AllAgree(d.pending, told) && d.inbox == c.inbox && d.life == c.life && d.stage == c.stage
  {
    var (handled, actions) := Handle(f, c.plane, event);
    var e := Exec(c.plane, c.client, c.supervisor, [], [], [], false);
    ExecuteIsSilent(f, actions, oks, e.(plane := handled, client := e.client || event.Attached?));
    hide Handle, Execute;
  }

  // ----- Every step -----

  lemma ActingIsHonest(n: Net, f: FloatText, step: Step, told: Option<L.WorkloadResult>)
    requires Honest(n, told) && Acting(step) && Enabled(f, n, step)
    ensures Honest(Next(f, n, step), if EndOf(step).Some? then EndOf(step) else told)
    ensures EndOf(step).Some? ==> told.None?
  {
    hide LocalEnabled, LocalStep, Obey;
  }

  lemma ReadingIsHonest(n: Net, f: FloatText, step: Step, told: Option<L.WorkloadResult>)
    requires Honest(n, told) && (step.HelperReads? || step.SupervisorReads?) && Enabled(f, n, step)
    ensures Honest(Next(f, n, step), told)
  {
    hide AdapterApply, LocalEnabled, LocalStep;
  }

  lemma HandledIsHonest(f: FloatText, c: Core, listening: bool, oks: seq<bool>, told: Option<L.WorkloadResult>)
    requires LocalEnabled(f, c, HandleHelperEvent(listening, oks)) && AllAgree(c.pending, told)
    requires Agrees(SaidByHelper(c.inbox[0]), told)
    ensures var d := HandleNext(f, c, listening, oks).0;
            AllAgree(d.pending, told) && d.inbox == c.inbox[1..] && d.life == c.life && d.stage == c.stage
  {
    if c.inbox[0].Activated? {
      ActivationIsHonest(f, c, listening, oks, told);
    } else {
      OtherIsHonest(f, c, listening, oks, told);
    }
    hide HandleNext, AllAgree, Agrees;
  }

  lemma ActivationIsHonest(f: FloatText, c: Core, listening: bool, oks: seq<bool>, told: Option<L.WorkloadResult>)
    requires LocalEnabled(f, c, HandleHelperEvent(listening, oks)) && AllAgree(c.pending, told) && c.inbox[0].Activated?
    ensures var d := HandleNext(f, c, listening, oks).0;
            AllAgree(d.pending, told) && d.inbox == c.inbox[1..] && d.life == c.life && d.stage == c.stage
  {
    hide AllAgree, Agrees, Perform, Handle, EventOf, LifecycleOf;
    NothingSaid(L.Activated, told);
    NothingSaid(L.ConversationLost, told);
    OneMore(c.pending, L.Activated, told);
    OneMore(c.pending, L.ConversationLost, told);
  }

  lemma OtherIsHonest(f: FloatText, c: Core, listening: bool, oks: seq<bool>, told: Option<L.WorkloadResult>)
    requires LocalEnabled(f, c, HandleHelperEvent(listening, oks)) && AllAgree(c.pending, told)
    requires Agrees(SaidByHelper(c.inbox[0]), told) && !c.inbox[0].Activated?
    ensures var d := HandleNext(f, c, listening, oks).0;
            AllAgree(d.pending, told) && d.inbox == c.inbox[1..] && d.life == c.life && d.stage == c.stage
  {
    hide Perform, Handle, AllAgree, Agrees, EventOf, LifecycleOf;
    var event := c.inbox[0];
    var rest := c.(inbox := c.inbox[1..]);
    if EventOf(event).Some? {
      PerformIsHonest(f, rest, EventOf(event).value, oks, told);
    }
    var done := if EventOf(event).Some? then Perform(f, rest, EventOf(event).value, oks).0 else rest;
    HandedOnTruly(event, done.pending, told);
  }

  lemma OneMore(events: seq<L.LifecycleEvent>, event: L.LifecycleEvent, told: Option<L.WorkloadResult>)
    requires AllAgree(events, told) && Agrees(SaidByEvent(event), told)
    ensures AllAgree(events + [event], told)
  {
  }

  /** An event of the helper is handed on with what it says. */
  lemma HandedOnTruly(event: HelperEvent, events: seq<L.LifecycleEvent>, told: Option<L.WorkloadResult>)
    requires AllAgree(events, told) && Agrees(SaidByHelper(event), told)
    ensures LifecycleOf(event).Some? ==>
              && SaidByEvent(LifecycleOf(event).value) == SaidByHelper(event)
              && AllAgree(events + [LifecycleOf(event).value], told)
  {
  }

  lemma LifeIsHonest(l: L.Life, event: L.LifecycleEvent, accepted: bool, told: Option<L.WorkloadResult>)
    requires Agrees(l.outcome.workload, told) && Agrees(SaidByEvent(event), told)
    ensures Agrees(L.React(l, event, accepted).0.outcome.workload, told)
  {
  }

  lemma LocalIsHonest(f: FloatText, n: Net, step: Step, told: Option<L.WorkloadResult>)
    requires Honest(n, told) && Local(step) && LocalEnabled(f, n.core, step)
    ensures Honest(Next(f, n, step), told)
  {
    var c := n.core;
    hide Handle, Perform, HandleNext, L.React, Agrees;
    match step
    case HandleHelperEvent(listening, oks) => HandledIsHonest(f, c, listening, oks, told);
    case AcceptClient(oks) =>
      if !c.client {
        PerformIsHonest(f, c, Attached, oks, told);
      }
    case ClientBytes(bytes, oks) => PerformIsHonest(f, c, BytesReceived(bytes), oks, told);
    case LifecycleTakes(accepted) => LifeIsHonest(c.life, c.pending[0], accepted, told);
    case DeadlineExpires(accepted) =>
      NothingSaid(L.DeadlineExpired, told);
      LifeIsHonest(c.life, L.DeadlineExpired, accepted, told);
    case _ =>
      NothingSaid(L.TerminalInterrupt, told);
      NothingSaid(L.ControllerLost, told);
      NothingSaid(L.ConversationLost, told);
  }

  lemma NothingSaid(event: L.LifecycleEvent, told: Option<L.WorkloadResult>)
    ensures SaidByEvent(event).None? ==> Agrees(SaidByEvent(event), told)
  {
  }

  lemma {:induction false} RunIsHonest(f: FloatText, n: Net, steps: seq<Step>, done: seq<Step>)
    requires CanRun(f, n, steps) && Honest(n, EndIn(done))
    ensures Honest(RunOf(f, n, steps), EndIn(done + steps))
    decreases |steps|
  {
    if steps == [] {
      assert done + steps == done;
    } else {
      var step, next := steps[0], Next(f, n, steps[0]);
      assert (done + [step])[..|done|] == done;
      assert done + [step] + steps[1..] == done + steps;
      if Local(step) {
        LocalIsHonest(f, n, step, EndIn(done));
      } else if Acting(step) {
        ActingIsHonest(n, f, step, EndIn(done));
      } else {
        ReadingIsHonest(n, f, step, EndIn(done));
      }
      RunIsHonest(f, next, steps[1..], done + [step]);
    }
    hide Next, Enabled, Honest;
  }

  /** In every run, in every interleaving and whatever fails: if the lifecycle has recorded a result, then that is how the
      Workload ended, with its own exit status or signal; and a start failure is recorded only with the helper's code. */
  lemma RecordedResultIsTrue(f: FloatText, steps: seq<Step>)
    requires CanRun(f, NET_START, steps)
    ensures var recorded := RunOf(f, NET_START, steps).core.life.outcome.workload;
            recorded.Some? ==> EndIn(steps) == recorded
  {
    RunIsHonest(f, NET_START, steps, []);
    assert [] + steps == steps;
  }
}
