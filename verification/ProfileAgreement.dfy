/** What every reachable state of the Profile Change protocol keeps: both sides agree on the confirmed profile, at most
    one change is outstanding from end to end, and neither conversation refuses what the other one legally sends. */
module ProfileAgreement {
  import opened Wrappers
  import opened NetworkProfile
  import opened ProfileWire
  import opened ControllerCommands
  import opened ControlPlane
  import opened ControlPlaneBatches
  import opened ActionExecutor
  import opened HelperConversations
  import opened ProfileProtocol
  import L = SessionLifecycle

  // ----- Order of the helper's messages -----

  /** The Supervisor's phase after a message it may see in the given phase. */
  function PhaseStep(phase: Phase, m: Message): Option<Phase> {
    match m
    case ReplyMessage(completion) =>
      if phase.Active? then Some(if completion.StateUnknown? then ProfileUnknown else Active) else None
    case ActiveMessage(_) => if phase.WaitingForActivation? then Some(Active) else None
    case StartFailedMessage(_) => if phase.WaitingForActivation? then Some(WaitingForCleanup) else None
    case ExitedMessage(_) => if phase.Active? || phase.ProfileUnknown? then Some(WaitingForCleanup) else None
    case SignaledMessage(_) => if phase.Active? || phase.ProfileUnknown? then Some(WaitingForCleanup) else None
    case CleanedMessage(_) => if phase.WaitingForCleanup? then Some(Finished) else None
  }

  function PhaseAfter(phase: Phase, up: seq<Message>): Option<Phase>
    decreases |up|
  {
    if up == [] then Some(phase)
    else match PhaseStep(phase, up[0])
      case None => None
      case Some(next) => PhaseAfter(next, up[1..])
  }

  lemma {:induction false} PhaseAfterOneMore(phase: Phase, up: seq<Message>, m: Message)
    ensures PhaseAfter(phase, up + [m])
            == match PhaseAfter(phase, up) case None => None case Some(last) => PhaseStep(last, m)
    decreases |up|
  {
    if up == [] {
      assert (up + [m])[1..] == [];
    } else {
      assert (up + [m])[1..] == up[1..] + [m];
      if PhaseStep(phase, up[0]).Some? {
        PhaseAfterOneMore(PhaseStep(phase, up[0]).value, up[1..], m);
      }
    }
  }

  /** The phase in which the Supervisor will be once it has read all the helper sent. */
  function PhaseOf(stage: Stage, unknown: bool): Phase {
    match stage
    case Starting => WaitingForActivation
    case Running => if unknown then ProfileUnknown else Active
    case Cleaning => WaitingForCleanup
    case Done => Finished
  }

  // ----- The invariant -----

  predicate IsReply(up: seq<Message>) {
    up != [] && up[0].ReplyMessage?
  }

  predicate IsFrame(down: seq<RuntimeCommand>) {
    down != [] && down[0].ChangeProfile?
  }

  /** The helper and its stream: in order, legal, with at most one reply and that in front. */
  predicate StreamOk(n: Net) {
    && PhaseAfter(n.core.supervisor.phase, n.up) == Some(PhaseOf(n.core.stage, n.core.runtime.profileStateUnknown))
    && (forall i :: 0 <= i < |n.up| ==> InRange(n.up[i]))
    && (forall i :: 0 < i < |n.up| ==> !n.up[i].ReplyMessage?)
    && n.core.runtime.valid && n.core.runtime.pending.None?
    && (n.core.stage.Starting? ==> n.core.runtime == RUNTIME_START && n.down == [])
    && (n.core.stage.Running? ==> !n.core.runtime.workloadFinished)
  }

  predicate LateEvent(e: HelperEvent) {
    e.WorkloadExited? || e.WorkloadSignaled? || e.CleanupSucceeded? || e.CleanupFailed?
  }

  predicate EndEvent(e: HelperEvent) {
    e.WorkloadExited? || e.WorkloadSignaled?
  }

  /** The end of the Workload is among the next two events. */
  predicate EndAhead(inbox: seq<HelperEvent>) {
    (|inbox| > 0 && EndEvent(inbox[0])) || (|inbox| > 1 && EndEvent(inbox[1]))
  }

  predicate Over(phase: Phase) {
    phase.WaitingForCleanup? || phase.Finished?
  }

  /** The events read and not handled yet. */
  predicate InboxOk(c: Core) {
    && (forall i :: 0 < i < |c.inbox| ==> LateEvent(c.inbox[i]))
    && (c.inbox != [] ==>
          && !c.inbox[0].Ready? && !c.inbox[0].ConversationLost?
          && (c.inbox[0].Activated? || c.inbox[0].ActivationFailed? ==> !c.created))
    && (forall i :: 0 <= i < |c.inbox| && EndEvent(c.inbox[i]) ==> c.created || c.inbox[0].Activated?)
    && (Over(c.supervisor.phase) && (c.created || (c.inbox != [] && c.inbox[0].Activated?)) ==>
          c.finished || EndAhead(c.inbox))
    && match c.supervisor.phase
       case WaitingForActivation => c.inbox == [] && !c.created
       case Active => if c.created then c.inbox == [] || (|c.inbox| == 1 && c.inbox[0].ProfileResult?)
                      else |c.inbox| == 1 && c.inbox[0].Activated?
       case ProfileUnknown => c.created && (c.inbox == [] || (|c.inbox| == 1 && c.inbox[0].ProfileStateUnknown?))
       case WaitingForCleanup => true
       case Finished => true
       case _ => false
  }

  predicate Ending(c: Core) {
    c.plane.stopping || c.plane.failed
  }

  /** A stop command anywhere means that no change will be dispatched any more; an interrupt noticed before the Session
      was active reaches the lifecycle before the activation does. */
  predicate StopsOk(n: Net) {
    var c := n.core;
    && (forall i :: 0 <= i < |n.down| && !n.down[i].ChangeProfile? ==> Ending(c))
    && (c.runtime.stopping || !c.life.stage.NoStop? ==> Ending(c))
    && (c.life.phase.Active? ==> c.created)
    && (forall i :: 0 <= i < |c.pending| ==>
          match c.pending[i]
          case Activated => c.created
          case StopRequested => Ending(c)
          case ProfileStateUnknown => Ending(c)
          case TerminalInterrupt =>
            Ending(c) || (!c.life.phase.Active? && forall j :: 0 <= j < i ==> !c.pending[j].Activated?)
          case _ => true)
  }

  /** The helper's profile is the Supervisor's, with the change in flight applied if that is being reported. */
  predicate ConfirmedWith(c: Core, change: Change, applied: bool) {
    if applied then Apply(c.plane.confirmed, change) == Accepted(c.confirmed)
    else c.confirmed == c.plane.confirmed
  }

  function FlyingChange(c: Core): Option<Change> {
    if c.plane.inFlight.Some? then Some(c.plane.inFlight.value.change) else None
  }

  /** Nothing outstanding anywhere. */
  predicate Idle(n: Net) {
    && FlyingChange(n.core) == None && n.core.supervisor.pending.None?
    && ConfirmedWith(n.core, SetDelay(Outbound, 0), false)
  }

  /** The frame is on its way; a Supervisor that saw the Workload end no longer waits for the answer. */
  predicate FrameUnderway(f: FloatText, n: Net)
    requires IsFrame(n.down)
  {
    var c := n.core;
    && FlyingChange(c) == Some(n.down[0].change) && Sendable(f, n.down[0].change)
    && !c.runtime.stopping
    && c.supervisor.pending == (if c.supervisor.phase.Active? then Some(n.down[0].change) else None)
    && ConfirmedWith(c, n.down[0].change, false)
  }

  /** The answer is on its way. */
  predicate AnswerUnderway(n: Net)
    requires IsReply(n.up)
  {
    var c := n.core;
    && !n.up[0].completion.StateUnknown?
    && FlyingChange(c).Some? && c.supervisor == Supervisor(Active, FlyingChange(c)) && c.inbox == []
    && ConfirmedWith(c, FlyingChange(c).value, n.up[0].completion.Applied?)
  }

  /** The answer was read and not handled yet. */
  predicate AnswerRead(n: Net)
    requires n.core.inbox != [] && n.core.inbox[0].ProfileResult?
  {
    var c := n.core;
    && FlyingChange(c) == Some(c.inbox[0].change) && c.supervisor.pending.None?
    && ConfirmedWith(c, c.inbox[0].change, c.inbox[0].applied)
  }

  /** The helper could not tell what the kernel has: no change will be started any more. */
  predicate Unsure(n: Net) {
    var c := n.core;
    && !IsFrame(n.down) && FlyingChange(c).Some?
    && if IsReply(n.up) then
         && n.up[0].completion.StateUnknown? && c.supervisor == Supervisor(Active, FlyingChange(c))
         && c.inbox == [] && !c.plane.failed
       else
         && c.supervisor.pending.None? && !c.supervisor.phase.Active?
         && c.plane.failed == !(c.inbox != [] && c.inbox[0].ProfileStateUnknown?)
         && (c.inbox != [] ==> !c.inbox[0].ProfileResult?)
  }

  predicate NothingRead(c: Core) {
    c.inbox != [] ==> !c.inbox[0].ProfileResult? && !c.inbox[0].ProfileStateUnknown?
  }

  /** Where the one outstanding change is. */
  predicate FlightOk(f: FloatText, n: Net) {
    && (forall i :: 0 < i < |n.down| ==> !n.down[i].ChangeProfile?)
    && if n.core.runtime.profileStateUnknown then Unsure(n)
       else
         && !n.core.plane.failed && !n.core.supervisor.phase.ProfileUnknown?
         && if IsFrame(n.down) then FrameUnderway(f, n) && !IsReply(n.up) && NothingRead(n.core)
            else if IsReply(n.up) then AnswerUnderway(n)
            else if n.core.inbox != [] && n.core.inbox[0].ProfileResult? then AnswerRead(n)
            else Idle(n) && NothingRead(n.core)
  }

  predicate Invariant(f: FloatText, n: Net) {
    n.core.lost || (PlaneOk(f, n.core) && StreamOk(n) && InboxOk(n.core) && StopsOk(n) && FlightOk(f, n))
  }

  lemma InitiallyOk(f: FloatText)
    ensures Invariant(f, NET_START)
  {
  }

  // ----- The helper's steps -----

  lemma ActingStream(f: FloatText, n: Net, step: Step)
    requires StreamOk(n) && FlightOk(f, n) && Acting(step) && Enabled(f, n, step)
    ensures StreamOk(Next(f, n, step))
  {
    var (_, m) := ActingStep(n.core, step);
    PhaseAfterOneMore(n.core.supervisor.phase, n.up, m);
  }

  /** What the place of the outstanding change depends on. */
  predicate SameFlight(n: Net, t: Net) {
    && t.down == n.down && t.core.plane == n.core.plane && t.core.supervisor == n.core.supervisor
    && t.core.inbox == n.core.inbox && t.core.confirmed == n.core.confirmed
    && t.core.runtime.profileStateUnknown == n.core.runtime.profileStateUnknown
    && t.core.runtime.stopping == n.core.runtime.stopping
    && (if IsReply(n.up) then IsReply(t.up) && t.up[0] == n.up[0] else !IsReply(t.up))
  }

  lemma FlightStays(f: FloatText, n: Net, t: Net)
    requires FlightOk(f, n) && SameFlight(n, t)
    ensures FlightOk(f, t)
  {
  }

  lemma ActingKeeps(f: FloatText, n: Net, step: Step)
    requires Invariant(f, n) && Acting(step) && Enabled(f, n, step)
    ensures Invariant(f, Next(f, n, step))
  {
    if !n.core.lost {
      ActingStream(f, n, step);
      FlightStays(f, n, Next(f, n, step));
      ActingLeaves(f, n, step);
    }
  }

  lemma ActingLeaves(f: FloatText, n: Net, step: Step)
    requires Acting(step) && Enabled(f, n, step)
    ensures PlaneOk(f, n.core) ==> PlaneOk(f, Next(f, n, step).core)
    ensures InboxOk(n.core) ==> InboxOk(Next(f, n, step).core)
    ensures StopsOk(n) ==> StopsOk(Next(f, n, step))
  {
  }

  /** What the helper makes of a frame. */
  function Answered(c: Core, change: Change, kernel: ShapingResult): Core {
    var (confirmed, completion) := AdapterApply(c.confirmed, change, kernel);
    c.(confirmed := confirmed,
       runtime := c.runtime.(profileStateUnknown := c.runtime.profileStateUnknown || completion.StateUnknown?))
  }

  /** The helper never refuses a command: a frame is followed by its answer, a stop by nothing. */
  lemma ObeyAccepts(f: FloatText, n: Net, kernel: ShapingResult)
    requires StreamOk(n) && FlightOk(f, n) && n.core.stage.Running? && n.down != []
    ensures Obey(n.core, n.down[0], kernel)
            == match n.down[0]
               case ChangeProfile(change) =>
                 (Answered(n.core, change, kernel), [ReplyMessage(AdapterApply(n.core.confirmed, change, kernel).1)])
               case _ => (n.core.(runtime := n.core.runtime.(stopping := true)), [])
  {
  }

  lemma FrameObeyed(f: FloatText, n: Net, kernel: ShapingResult)
    requires !n.core.lost && Invariant(f, n) && n.core.stage.Running? && IsFrame(n.down)
    ensures var reply := ReplyMessage(AdapterApply(n.core.confirmed, n.down[0].change, kernel).1);
            var t := Net(Answered(n.core, n.down[0].change, kernel), n.down[1..], n.up + [reply]);
            StreamOk(t) && FlightOk(f, t)
  {
    var c := n.core;
    var (confirmed, completion) := AdapterApply(c.confirmed, n.down[0].change, kernel);
    var t := Net(Answered(c, n.down[0].change, kernel), n.down[1..], n.up + [ReplyMessage(completion)]);
    NothingUnderway(f, n);
    PhaseAfterOneMore(c.supervisor.phase, n.up, ReplyMessage(completion));
    AdapterConfirmsWhatItReports(c.confirmed, n.down[0].change, kernel);
    assert !IsFrame(t.down);
  }

  /** While a frame waits for a running helper the Supervisor has read all the helper sent, up to the frame. */
  lemma NothingUnderway(f: FloatText, n: Net)
    requires !n.core.lost && Invariant(f, n) && n.core.stage.Running? && IsFrame(n.down)
    ensures n.up == [] && n.core.supervisor == Supervisor(Active, FlyingChange(n.core)) && n.core.inbox == []
  {
    var c := n.core;
    if n.up != [] {
      assert !n.up[0].ReplyMessage?;
      assert PhaseAfter(c.supervisor.phase, n.up) == Some(Active);
      NoWayBack(c.supervisor.phase, n.up);
    }
  }

  /** Without replies only the activation itself leads to the active phase. */
  lemma {:induction false} NoWayBack(phase: Phase, up: seq<Message>)
    requires up != [] && PhaseAfter(phase, up).Some? && forall i :: 0 <= i < |up| ==> !up[i].ReplyMessage?
    ensures PhaseAfter(phase, up).value.Active? ==> phase.WaitingForActivation?
    decreases |up|
  {
    if |up| > 1 {
      NoWayBack(PhaseStep(phase, up[0]).value, up[1..]);
    }
  }

  lemma StopObeyed(f: FloatText, n: Net)
    requires !n.core.lost && Invariant(f, n) && n.core.stage.Running? && n.down != [] && !IsFrame(n.down)
    ensures var t := Net(n.core.(runtime := n.core.runtime.(stopping := true)), n.down[1..], n.up);
            StreamOk(t) && FlightOk(f, t)
  {
    var t := Net(n.core.(runtime := n.core.runtime.(stopping := true)), n.down[1..], n.up);
    assert !IsFrame(t.down);
  }

  /** The Supervisor's side of the invariant does not look at the helper's. */
  lemma HelperLeaves(f: FloatText, n: Net, t: Net)
    requires !n.core.lost && Invariant(f, n)
    requires t.core == n.core.(confirmed := t.core.confirmed, runtime := t.core.runtime)
    requires t.core.runtime.stopping == n.core.runtime.stopping || (n.down != [] && !IsFrame(n.down))
    requires n.down != [] && t.down == n.down[1..]
    ensures PlaneOk(f, t.core) && InboxOk(t.core) && StopsOk(t)
  {
    if !IsFrame(n.down) {
      assert Ending(n.core);
    }
  }

  lemma HelperReadKeeps(f: FloatText, n: Net, kernel: ShapingResult)
    requires Invariant(f, n) && Enabled(f, n, HelperReads(kernel))
    ensures Invariant(f, Next(f, n, HelperReads(kernel)))
  {
    if !n.core.lost {
      ObeyAccepts(f, n, kernel);
      var t := Next(f, n, HelperReads(kernel));
      HelperLeaves(f, n, t);
      if IsFrame(n.down) {
        FrameObeyed(f, n, kernel);
      } else {
        StopObeyed(f, n);
        assert n.up + [] == n.up;
      }
    }
  }

  // ----- The Supervisor reads -----

  lemma TakeFollowsPhase(n: Net)
    requires StreamOk(n) && n.up != [] && (IsReply(n.up) ==> n.core.supervisor.pending.Some?)
    ensures var (s, event) := Take(n.core.supervisor, n.up[0]);
            && Some(s.phase) == PhaseStep(n.core.supervisor.phase, n.up[0])
            && !event.ConversationLost? && !event.Ready?
            && (event.ProfileResult? || event.ProfileStateUnknown? <==> IsReply(n.up))
  {
  }

  lemma ReceiveInbox(n: Net)
    requires StreamOk(n) && InboxOk(n.core) && n.up != []
    requires IsReply(n.up) ==> n.core.supervisor.pending.Some? && n.core.inbox == [] && n.core.created
    ensures InboxOk(Receive(n.core, n.up[0]))
  {
    TakeFollowsPhase(n);
  }

  lemma ReceiveFlight(f: FloatText, n: Net)
    requires !n.core.lost && Invariant(f, n) && n.up != []
    ensures FlightOk(f, Net(Receive(n.core, n.up[0]), n.down, n.up[1..]))
  {
    var t := Net(Receive(n.core, n.up[0]), n.down, n.up[1..]);
    TakeFollowsPhase(n);
    assert !IsReply(t.up);
    if n.core.inbox != [] {
      assert t.core.inbox[0] == n.core.inbox[0];
    }
  }

  lemma ReceiveKeeps(f: FloatText, n: Net)
    requires Invariant(f, n) && Enabled(f, n, SupervisorReads)
    ensures Invariant(f, Next(f, n, SupervisorReads))
    ensures !n.core.lost ==> !Take(n.core.supervisor, n.up[0]).1.ConversationLost?
  {
    if !n.core.lost {
      TakeFollowsPhase(n);
      ReceiveInbox(n);
      ReceiveFlight(f, n);
      ReceiveLeaves(f, n);
    }
  }

  lemma ReceiveLeaves(f: FloatText, n: Net)
    requires !n.core.lost && Invariant(f, n) && n.up != []
    ensures var t := Net(Receive(n.core, n.up[0]), n.down, n.up[1..]);
            PlaneOk(f, t.core) && StopsOk(t) && StreamOk(t)
  {
    TakeFollowsPhase(n);
  }

  // ----- Control plane events -----

  lemma {:induction false} NeverStartsAgain(phase: Phase, up: seq<Message>)
    requires PhaseAfter(phase, up) == Some(WaitingForActivation)
    ensures up == [] && phase.WaitingForActivation?
    decreases |up|
  {
    if up != [] {
      NeverStartsAgain(PhaseStep(phase, up[0]).value, up[1..]);
    }
  }

  /** The system after a batch on core `c`, with the same streams and whatever was written appended. */
  function After(n: Net, core: Core, frames: seq<string>): Net {
    n.(core := core, down := n.down + Sent(core, frames))
  }

  /** Nothing is underway and no frame was handed back: what a batch may assume when it dispatches. */
  predicate Quiet(n: Net) {
    && !IsFrame(n.down) && !IsReply(n.up) && NothingRead(n.core) && n.core.supervisor.pending.None?
    && !n.core.runtime.profileStateUnknown
    && (forall i :: 0 < i < |n.down| ==> !n.down[i].ChangeProfile?)
  }

  lemma NoStopsYet(n: Net)
    requires StopsOk(n) && !Ending(n.core) && !IsFrame(n.down)
    requires forall i :: 0 < i < |n.down| ==> !n.down[i].ChangeProfile?
    ensures n.down == [] && !n.core.runtime.stopping
  {
    assert forall i :: 0 <= i < |n.down| ==> !n.down[i].ChangeProfile?;
  }

  lemma DispatchKeeps(f: FloatText, n: Net, event: Event, d: Core, frames: seq<string>, raised: seq<L.LifecycleEvent>)
    requires StreamOk(n) && StopsOk(n) && Quiet(n)
    requires Performs(f, n.core, event, d, frames, raised) && !d.lost && frames != []
    requires n.core.inbox == [] && n.core.confirmed == d.plane.confirmed
    ensures StreamOk(After(n, d, frames)) && FlightOk(f, After(n, d, frames)) && InboxOk(d) == InboxOk(n.core)
    ensures StopsOk(After(n, d, frames))
  {
    NoStopsYet(n);
    if n.core.stage.Starting? {
      NeverStartsAgain(n.core.supervisor.phase, n.up);
    }
    assert After(n, d, frames).down == [ChangeProfile(d.plane.inFlight.value.change)];
  }

  lemma SilentLeaves(f: FloatText, n: Net, event: Event, d: Core, raised: seq<L.LifecycleEvent>)
    requires StreamOk(n) && StopsOk(n)
    requires Performs(f, n.core, event, d, [], raised) && !d.lost
    ensures After(n, d, []) == n.(core := d)
    ensures StreamOk(n.(core := d)) && StopsOk(n.(core := d)) && InboxOk(d) == InboxOk(n.core)
  {
    assert n.down + [] == n.down;
  }

  /** A batch that answers a Controller. */
  lemma PerformKeeps(f: FloatText, n: Net, event: Event, oks: seq<bool>)
    requires !n.core.lost && Invariant(f, n) && n.core.inbox == [] && n.core.created
    requires (event.BytesReceived? || event.Attached?) && (event.Attached? ==> !n.core.client)
    requires RoundsInRange(f) && Writes(f, n.core, event, oks)
    ensures var (d, frames) := Perform(f, n.core, event, oks);
            Invariant(f, After(n, d, frames))
  {
    var raised := PerformSummary(f, n.core, event, oks);
    var (d, frames) := Perform(f, n.core, event, oks);
    if !d.lost {
      if frames == [] {
        SilentLeaves(f, n, event, d, raised);
        QuietBatch(f, n, event, d, raised);
      } else {
        DispatchKeeps(f, n, event, d, frames, raised);
      }
    }
  }

  lemma QuietBatch(f: FloatText, n: Net, event: Event, d: Core, raised: seq<L.LifecycleEvent>)
    requires FlightOk(f, n) && !event.ChangeResult? && !event.ProfileStateUnknown?
    requires Performs(f, n.core, event, d, [], raised) && !d.lost
    ensures FlightOk(f, n.(core := d))
  {
  }

  // ----- Helper events -----

  /** The system when the first event was taken out of the inbox. */
  function Popped(n: Net): Net
    requires n.core.inbox != []
  {
    n.(core := n.core.(inbox := n.core.inbox[1..]))
  }

  lemma PoppedOk(f: FloatText, n: Net)
    requires !n.core.lost && Invariant(f, n) && n.core.inbox != [] && !n.core.inbox[0].Activated?
    ensures var p := Popped(n);
            && PlaneOk(f, p.core) && StreamOk(p) && StopsOk(p) && NothingRead(p.core)
            && InboxOk(p.core.(finished := n.core.finished || EndEvent(n.core.inbox[0])))
    ensures EventOf(n.core.inbox[0]).Some? ==> n.core.created
  {
    assert NothingRead(Popped(n).core) by {
      if |n.core.inbox| > 1 {
        assert LateEvent(n.core.inbox[1]);
      }
    }
  }

  /** Handling an event that becomes a control plane event only. */
  lemma HandledAsBatch(f: FloatText, n: Net, listening: bool, oks: seq<bool>)
    requires n.core.inbox != [] && (n.core.inbox[0].ProfileResult? || n.core.inbox[0].ProfileStateUnknown?)
    requires Enabled(f, n, HandleHelperEvent(listening, oks))
    ensures var (d, frames) := Perform(f, Popped(n).core, EventOf(n.core.inbox[0]).value, oks);
            Next(f, n, HandleHelperEvent(listening, oks)) == After(Popped(n), d, frames)
  {
    var (d, frames) := Perform(f, Popped(n).core, EventOf(n.core.inbox[0]).value, oks);
    assert n.down + Sent(d, frames) + [] == n.down + Sent(d, frames);
  }

  lemma ResultHandled(f: FloatText, n: Net, listening: bool, oks: seq<bool>)
    requires !n.core.lost && Invariant(f, n) && n.core.inbox != [] && n.core.inbox[0].ProfileResult?
    requires RoundsInRange(f) && Enabled(f, n, HandleHelperEvent(listening, oks))
    ensures Invariant(f, Next(f, n, HandleHelperEvent(listening, oks)))
  {
    PoppedOk(f, n);
    HandledAsBatch(f, n, listening, oks);
    ResultPerformed(f, n, EventOf(n.core.inbox[0]).value, oks);
  }

  lemma ResultPerformed(f: FloatText, n: Net, event: Event, oks: seq<bool>)
    requires !n.core.lost && Invariant(f, n) && n.core.inbox != [] && n.core.inbox[0].ProfileResult?
    requires event == ChangeResult(n.core.inbox[0].applied, n.core.inbox[0].change)
    requires RoundsInRange(f) && Writes(f, n.core, event, oks)
    ensures var (d, frames) := Perform(f, Popped(n).core, event, oks);
            Invariant(f, After(Popped(n), d, frames))
  {
    PoppedOk(f, n);
    var raised := PerformSummary(f, Popped(n).core, event, oks);
    var (d, frames) := Perform(f, Popped(n).core, event, oks);
    ResultBatch(f, n, event, d, frames, raised);
  }

  lemma ResultBatch(f: FloatText, n: Net, event: Event, d: Core, frames: seq<string>, raised: seq<L.LifecycleEvent>)
    requires !n.core.lost && Invariant(f, n) && n.core.inbox != [] && n.core.inbox[0].ProfileResult?
    requires event == ChangeResult(n.core.inbox[0].applied, n.core.inbox[0].change)
    requires Performs(f, Popped(n).core, event, d, frames, raised)
    ensures Invariant(f, After(Popped(n), d, frames))
  {
    PoppedOk(f, n);
    var p := Popped(n);
    if !d.lost {
      ResultRead(f, n);
      if frames == [] {
        SilentLeaves(f, p, event, d, raised);
        assert FlightOk(f, p.(core := d));
      } else {
        DispatchKeeps(f, p, event, d, frames, raised);
      }
    }
  }

  /** What is known once an answer was read and taken out. */
  lemma ResultRead(f: FloatText, n: Net)
    requires !n.core.lost && Invariant(f, n) && n.core.inbox != [] && n.core.inbox[0].ProfileResult?
    ensures Quiet(Popped(n)) && AnswerRead(n) && !n.core.plane.failed
    ensures n.core.supervisor.phase.Active? ==> Popped(n).core.inbox == []
  {
    PoppedOk(f, n);
  }

  lemma UnknownHandled(f: FloatText, n: Net, listening: bool, oks: seq<bool>)
    requires !n.core.lost && Invariant(f, n) && n.core.inbox != [] && n.core.inbox[0].ProfileStateUnknown?
    requires RoundsInRange(f) && Enabled(f, n, HandleHelperEvent(listening, oks))
    ensures Invariant(f, Next(f, n, HandleHelperEvent(listening, oks)))
  {
    PoppedOk(f, n);
    HandledAsBatch(f, n, listening, oks);
    var raised := PerformSummary(f, Popped(n).core, Event.ProfileStateUnknown, oks);
    var (d, frames) := Perform(f, Popped(n).core, Event.ProfileStateUnknown, oks);
    UnknownBatch(f, n, d, frames, raised);
  }

  lemma UnknownBatch(f: FloatText, n: Net, d: Core, frames: seq<string>, raised: seq<L.LifecycleEvent>)
    requires !n.core.lost && Invariant(f, n) && n.core.inbox != [] && n.core.inbox[0].ProfileStateUnknown?
    requires Performs(f, Popped(n).core, Event.ProfileStateUnknown, d, frames, raised)
    ensures Invariant(f, After(Popped(n), d, frames))
  {
    PoppedOk(f, n);
    if !d.lost {
      assert frames == [];
      SilentLeaves(f, Popped(n), Event.ProfileStateUnknown, d, raised);
    }
  }

  /** The lifecycle is told something harmless. */
  lemma QueueKeeps(f: FloatText, n: Net, event: L.LifecycleEvent, d: Core)
    requires Invariant(f, n)
    requires d == Queue(n.core, event).(finished := d.finished, accepting := d.accepting)
    requires (d.accepting ==> n.core.accepting || n.core.created) && (n.core.finished ==> d.finished)
    requires !event.TerminalInterrupt? && !event.StopRequested? && !event.ProfileStateUnknown?
    requires event.Activated? ==> n.core.created
    ensures Invariant(f, n.(core := d))
  {
    if !d.lost {
      FlightStays(f, n, n.(core := d));
    }
  }

  function Ended(c: Core): Core {
    c.(finished := true, accepting := false)
  }

  lemma EndPerformed(f: FloatText, n: Net, oks: seq<bool>)
    requires !n.core.lost && Invariant(f, n) && n.core.inbox != [] && EndEvent(n.core.inbox[0])
    requires RoundsInRange(f) && Writes(f, n.core, WorkloadTerminal, oks)
    ensures var (d, frames) := Perform(f, Popped(n).core, WorkloadTerminal, oks);
            Invariant(f, Popped(n).(core := Ended(d))) && (d.lost || frames == [])
  {
    PoppedOk(f, n);
    var raised := PerformSummary(f, Popped(n).core, WorkloadTerminal, oks);
    var (d, frames) := Perform(f, Popped(n).core, WorkloadTerminal, oks);
    EndBatch(f, n, d, frames, raised);
  }

  lemma EndPopped(f: FloatText, n: Net)
    requires !n.core.lost && Invariant(f, n) && n.core.inbox != [] && EndEvent(n.core.inbox[0])
    ensures FlightOk(f, Popped(n)) && !n.core.supervisor.phase.Active?
  {
    PoppedOk(f, n);
  }

  lemma EndBatch(f: FloatText, n: Net, d: Core, frames: seq<string>, raised: seq<L.LifecycleEvent>)
    requires !n.core.lost && Invariant(f, n) && n.core.inbox != [] && EndEvent(n.core.inbox[0])
    requires Performs(f, Popped(n).core, WorkloadTerminal, d, frames, raised)
    ensures Invariant(f, Popped(n).(core := Ended(d))) && (d.lost || frames == [])
  {
    EndPopped(f, n);
    PoppedOk(f, n);
    var p := Popped(n);
    if !d.lost {
      SilentLeaves(f, p, WorkloadTerminal, d, raised);
      QuietBatch(f, p, WorkloadTerminal, d, raised);
      FlightStays(f, p.(core := d), p.(core := Ended(d)));
    }
  }

  lemma EndHandled(f: FloatText, n: Net, listening: bool, oks: seq<bool>)
    requires !n.core.lost && Invariant(f, n) && n.core.inbox != [] && EndEvent(n.core.inbox[0])
    requires RoundsInRange(f) && Enabled(f, n, HandleHelperEvent(listening, oks))
    ensures Invariant(f, Next(f, n, HandleHelperEvent(listening, oks)))
  {
    EndPerformed(f, n, oks);
    var (d, frames) := Perform(f, Popped(n).core, WorkloadTerminal, oks);
    var t := Next(f, n, HandleHelperEvent(listening, oks));
    if !d.lost {
      QueueKeeps(f, Popped(n).(core := Ended(d)), LifecycleOf(n.core.inbox[0]).value, t.core);
      assert t == Popped(n).(core := t.core);
    }
  }

  lemma OtherHandled(f: FloatText, n: Net, listening: bool, oks: seq<bool>)
    requires !n.core.lost && Invariant(f, n) && n.core.inbox != []
    requires EventOf(n.core.inbox[0]).None? && !n.core.inbox[0].Activated?
    requires Enabled(f, n, HandleHelperEvent(listening, oks))
    ensures Invariant(f, Next(f, n, HandleHelperEvent(listening, oks)))
  {
    PoppedOk(f, n);
    var p, t := Popped(n), Next(f, n, HandleHelperEvent(listening, oks));
    assert FlightOk(f, p);
    QueueKeeps(f, p, LifecycleOf(n.core.inbox[0]).value, t.core);
    assert t == p.(core := t.core);
  }

  lemma CreatedOk(f: FloatText, n: Net)
    requires !n.core.lost && Invariant(f, n) && n.core.inbox != [] && n.core.inbox[0].Activated?
    ensures n.core.plane == PLANE_START
    ensures Invariant(f, Popped(n).(core := Popped(n).core.(created := true)))
  {
    var made := Popped(n).(core := Popped(n).core.(created := true));
    assert made.core.plane == PLANE_START;
    assert FlightOk(f, made);
  }

  lemma ActivationHandled(f: FloatText, n: Net, listening: bool, oks: seq<bool>)
    requires !n.core.lost && Invariant(f, n) && n.core.inbox != [] && n.core.inbox[0].Activated?
    requires Enabled(f, n, HandleHelperEvent(listening, oks))
    ensures Invariant(f, Next(f, n, HandleHelperEvent(listening, oks)))
  {
    var p, t := Popped(n), Next(f, n, HandleHelperEvent(listening, oks));
    var made := p.(core := p.core.(created := true));
    CreatedOk(f, n);
    QueueKeeps(f, made, if listening then L.Activated else L.ConversationLost, t.core);
    assert t == made.(core := t.core);
  }

  // ----- The other steps of the Supervisor -----

  /** A plane event without actions: the Controller is gone, or the Session is stopping. */
  lemma TellKeeps(f: FloatText, n: Net, event: Event)
    requires !n.core.lost && Invariant(f, n) && RoundsInRange(f) && n.core.created
    requires event.SessionStopping? || event.Disconnected?
    ensures var plane := Handle(f, n.core.plane, event).0;
            var client := n.core.client && !event.Disconnected?;
            && Invariant(f, n.(core := n.core.(plane := plane, client := client)))
            && (event.SessionStopping? ==> plane.stopping)
  {
    HandleKeepsGood(f, n.core.plane, event);
    OneInFlight(f, n.core.plane, event);
    var plane := Handle(f, n.core.plane, event).0;
    var t := n.(core := n.core.(plane := plane, client := n.core.client && !event.Disconnected?));
    assert FlyingChange(t.core) == FlyingChange(n.core);
    assert FlightOk(f, t);
  }

  lemma InterruptQueued(f: FloatText, n: Net)
    requires !n.core.lost && Invariant(f, n) && (n.core.created ==> n.core.plane.stopping)
    ensures Invariant(f, n.(core := Queue(n.core, L.TerminalInterrupt)))
  {
    var t := n.(core := Queue(n.core, L.TerminalInterrupt));
    FlightStays(f, n, t);
    if !n.core.created {
      assert !n.core.life.phase.Active? && forall j :: 0 <= j < |n.core.pending| ==> !n.core.pending[j].Activated?;
    }
  }

  lemma InterruptKeeps(f: FloatText, n: Net)
    requires Invariant(f, n) && RoundsInRange(f) && Enabled(f, n, Interrupt)
    ensures Invariant(f, Next(f, n, Interrupt))
  {
    assert n.down + [] + [] == n.down;
    if !n.core.lost {
      if n.core.created {
        TellKeeps(f, n, SessionStopping);
        InterruptQueued(f, n.(core := n.core.(plane := Handle(f, n.core.plane, SessionStopping).0)));
      } else {
        InterruptQueued(f, n);
      }
    }
  }

  lemma ClientGoneKeeps(f: FloatText, n: Net)
    requires Invariant(f, n) && RoundsInRange(f) && Enabled(f, n, ClientGone)
    ensures Invariant(f, Next(f, n, ClientGone))
  {
    var t := Next(f, n, ClientGone);
    assert n.down + [] + [] == n.down;
    if !n.core.lost {
      TellKeeps(f, n, Disconnected);
      var told := n.(core := n.core.(plane := Handle(f, n.core.plane, Disconnected).0, client := false));
      QueueKeeps(f, told, L.ControllerLost, t.core);
    }
  }

  lemma ClientKeeps(f: FloatText, n: Net, step: Step)
    requires Invariant(f, n) && RoundsInRange(f) && Enabled(f, n, step) && (step.AcceptClient? || step.ClientBytes?)
    ensures Invariant(f, Next(f, n, step))
  {
    var t := Next(f, n, step);
    var event := if step.AcceptClient? then Attached else BytesReceived(step.bytes);
    if step.AcceptClient? && n.core.client {
      assert n.down + [] + [] == n.down;
    } else if !n.core.lost {
      PerformKeeps(f, n, event, step.oks);
      var (d, frames) := Perform(f, n.core, event, step.oks);
      assert n.down + Sent(d, frames) + [] == n.down + Sent(d, frames);
    }
  }

  /** Events on which an active lifecycle may request a stop. */
  predicate Demands(event: L.LifecycleEvent) {
    event.StopRequested? || event.ProfileStateUnknown? || event.TerminalInterrupt?
  }

  /** A request of the lifecycle appends a stop command, and only when no change will be dispatched any more. */
  lemma LifeTurnKeeps(f: FloatText, n: Net, event: L.LifecycleEvent, accepted: bool)
    requires !n.core.lost && Invariant(f, n) && !n.core.life.over
    requires n.core.life.phase.Active? && Demands(event) ==> Ending(n.core)
    requires event.Activated? ==> n.core.created && NoEarlyInterrupt(n.core)
    ensures var (core, stops) := LifeTurn(n.core, event, accepted);
            Invariant(f, n.(core := core, down := n.down + stops))
  {
    var (core, stops) := LifeTurn(n.core, event, accepted);
    if n.core.stage.Starting? {
      NeverStartsAgain(n.core.supervisor.phase, n.up);
    }
    StopsAppended(f, n, core, stops);
    LifeTurnStops(n, event, accepted);
  }

  lemma LifeTurnStops(n: Net, event: L.LifecycleEvent, accepted: bool)
    requires StopsOk(n) && !n.core.life.over
    requires n.core.life.phase.Active? && Demands(event) ==> Ending(n.core)
    requires event.Activated? ==> n.core.created && NoEarlyInterrupt(n.core)
    ensures var (core, stops) := LifeTurn(n.core, event, accepted);
            && StopsOk(n.(core := core, down := n.down + stops))
            && (stops != [] ==> Ending(core) && n.core.life.phase.Active?)
            && (forall i :: 0 <= i < |stops| ==> !stops[i].ChangeProfile?)
  {
    var (core, stops) := LifeTurn(n.core, event, accepted);
    assert stops != [] ==> Ending(core) && n.core.life.phase.Active?;
  }

  predicate NoEarlyInterrupt(c: Core) {
    forall i :: 0 <= i < |c.pending| && c.pending[i].TerminalInterrupt? ==> Ending(c)
  }

  lemma StopsAppended(f: FloatText, n: Net, core: Core, stops: seq<RuntimeCommand>)
    requires FlightOk(f, n) && core == n.core.(life := core.life)
    requires forall i :: 0 <= i < |stops| ==> !stops[i].ChangeProfile?
    ensures FlightOk(f, n.(core := core, down := n.down + stops))
  {
    assert IsFrame(n.down + stops) == IsFrame(n.down);
  }

  lemma LifecycleTakesKeeps(f: FloatText, n: Net, accepted: bool)
    requires Invariant(f, n) && Enabled(f, n, LifecycleTakes(accepted))
    ensures Invariant(f, Next(f, n, LifecycleTakes(accepted)))
  {
    var event := n.core.pending[0];
    var p := n.(core := n.core.(pending := n.core.pending[1..]));
    var t := Next(f, n, LifecycleTakes(accepted));
    var (core, stops) := LifeTurn(p.core, event, accepted);
    assert n.down + [] + stops == n.down + stops;
    if !n.core.lost {
      TakenOk(f, n);
      LifeTurnKeeps(f, p, event, accepted);
    }
  }

  lemma TakenOk(f: FloatText, n: Net)
    requires !n.core.lost && Invariant(f, n) && n.core.pending != []
    ensures var event, p := n.core.pending[0], n.(core := n.core.(pending := n.core.pending[1..]));
            && Invariant(f, p)
            && (n.core.life.phase.Active? && Demands(event) ==> Ending(n.core))
            && (event.Activated? ==> n.core.created && NoEarlyInterrupt(p.core))
  {
    var event, p := n.core.pending[0], n.(core := n.core.(pending := n.core.pending[1..]));
    FlightStays(f, n, p);
    assert event.TerminalInterrupt? ==> Ending(n.core) || !n.core.life.phase.Active?;
    forall i | 0 <= i < |p.core.pending| && p.core.pending[i].TerminalInterrupt? && !Ending(n.core)
      ensures !event.Activated? && forall j :: 0 <= j < i ==> !p.core.pending[j].Activated?
    {
      assert n.core.pending[i + 1].TerminalInterrupt?;
      assert !n.core.pending[0].Activated?;
      assert forall j :: 0 <= j < i ==> p.core.pending[j] == n.core.pending[j + 1];
    }
    assert StopsOk(p);
  }

  lemma DeadlineKeeps(f: FloatText, n: Net, accepted: bool)
    requires Invariant(f, n) && Enabled(f, n, DeadlineExpires(accepted))
    ensures Invariant(f, Next(f, n, DeadlineExpires(accepted)))
  {
    var (core, stops) := LifeTurn(n.core, L.DeadlineExpired, accepted);
    assert n.down + [] + stops == n.down + stops;
    if !n.core.lost {
      LifeTurnKeeps(f, n, L.DeadlineExpired, accepted);
    }
  }

  // ----- Every step, every run -----

  lemma StepKeeps(f: FloatText, n: Net, step: Step)
    requires Invariant(f, n) && RoundsInRange(f) && Enabled(f, n, step)
    ensures Invariant(f, Next(f, n, step))
  {
    if n.core.lost {
      LostStays(f, n, step);
    } else {
      match step
      case HandleHelperEvent(listening, oks) => HandleKeeps(f, n, listening, oks);
      case Interrupt => InterruptKeeps(f, n);
      case AcceptClient(oks) => ClientKeeps(f, n, step);
      case ClientBytes(bytes, oks) => ClientKeeps(f, n, step);
      case ClientGone => ClientGoneKeeps(f, n);
      case LifecycleTakes(accepted) => LifecycleTakesKeeps(f, n, accepted);
      case DeadlineExpires(accepted) => DeadlineKeeps(f, n, accepted);
      case LinkFails =>
      case HelperReads(kernel) => HelperReadKeeps(f, n, kernel);
      case SupervisorReads => ReceiveKeeps(f, n);
      case _ => ActingKeeps(f, n, step);
    }
  }

  lemma LocalStaysLost(f: FloatText, c: Core, step: Step)
    requires c.lost && LocalEnabled(f, c, step)
    ensures LocalStep(f, c, step).0.lost
  {
  }

  lemma LostStays(f: FloatText, n: Net, step: Step)
    requires n.core.lost && Enabled(f, n, step)
    ensures Next(f, n, step).core.lost
  {
    if Local(step) {
      LocalStaysLost(f, n.core, step);
    }
  }

  lemma HandleKeeps(f: FloatText, n: Net, listening: bool, oks: seq<bool>)
    requires !n.core.lost && Invariant(f, n) && RoundsInRange(f) && Enabled(f, n, HandleHelperEvent(listening, oks))
    ensures Invariant(f, Next(f, n, HandleHelperEvent(listening, oks)))
  {
    match n.core.inbox[0]
    case ProfileResult(_, _) => ResultHandled(f, n, listening, oks);
    case ProfileStateUnknown => UnknownHandled(f, n, listening, oks);
    case WorkloadExited(_) => EndHandled(f, n, listening, oks);
    case WorkloadSignaled(_) => EndHandled(f, n, listening, oks);
    case Activated(_) => ActivationHandled(f, n, listening, oks);
    case _ => OtherHandled(f, n, listening, oks);
  }

  /** A run: steps each enabled where it happens. */
  predicate CanRun(f: FloatText, n: Net, steps: seq<Step>)
    decreases |steps|
  {
    steps == [] || (Enabled(f, n, steps[0]) && CanRun(f, Next(f, n, steps[0]), steps[1..]))
  }

  function RunOf(f: FloatText, n: Net, steps: seq<Step>): Net
    requires CanRun(f, n, steps)
    decreases |steps|
  {
    if steps == [] then n else RunOf(f, Next(f, n, steps[0]), steps[1..])
  }

  lemma {:induction false} RunKeeps(f: FloatText, n: Net, steps: seq<Step>)
    requires Invariant(f, n) && RoundsInRange(f) && CanRun(f, n, steps)
    ensures Invariant(f, RunOf(f, n, steps))
    decreases |steps|
  {
    if steps != [] {
      StepKeeps(f, n, steps[0]);
      RunKeeps(f, Next(f, n, steps[0]), steps[1..]);
    }
  }

  // ----- The main results -----

  /** How many changes are underway anywhere: frames, answers, and results not handled yet. */
  function FramesIn(down: seq<RuntimeCommand>): nat {
    if down == [] then 0 else (if down[0].ChangeProfile? then 1 else 0) + FramesIn(down[1..])
  }

  function RepliesIn(up: seq<Message>): nat {
    if up == [] then 0 else (if up[0].ReplyMessage? then 1 else 0) + RepliesIn(up[1..])
  }

  function ResultsIn(inbox: seq<HelperEvent>): nat {
    if inbox == [] then 0
    else (if inbox[0].ProfileResult? || inbox[0].ProfileStateUnknown? then 1 else 0) + ResultsIn(inbox[1..])
  }

  function Underway(n: Net): nat {
    FramesIn(n.down) + RepliesIn(n.up) + ResultsIn(n.core.inbox)
  }

  lemma {:induction false} NoFrames(down: seq<RuntimeCommand>)
    requires forall i :: 0 <= i < |down| ==> !down[i].ChangeProfile?
    ensures FramesIn(down) == 0
  {
    if down != [] {
      NoFrames(down[1..]);
    }
  }

  lemma {:induction false} NoReplies(up: seq<Message>)
    requires forall i :: 0 <= i < |up| ==> !up[i].ReplyMessage?
    ensures RepliesIn(up) == 0
  {
    if up != [] {
      NoReplies(up[1..]);
    }
  }

  lemma {:induction false} NoResults(inbox: seq<HelperEvent>)
    requires forall i :: 0 <= i < |inbox| ==> LateEvent(inbox[i])
    ensures ResultsIn(inbox) == 0
  {
    if inbox != [] {
      NoResults(inbox[1..]);
    }
  }

  lemma UnderwayInFront(n: Net)
    requires StreamOk(n) && InboxOk(n.core) && forall i :: 0 < i < |n.down| ==> !n.down[i].ChangeProfile?
    ensures Underway(n) == (if IsFrame(n.down) then 1 else 0) + (if IsReply(n.up) then 1 else 0)
                           + (if NothingRead(n.core) then 0 else 1)
  {
    if n.down != [] {
      NoFrames(n.down[1..]);
    }
    if n.up != [] {
      NoReplies(n.up[1..]);
    }
    if n.core.inbox != [] {
      NoResults(n.core.inbox[1..]);
    }
  }

  /** An answer that the change was applied is on its way to the control plane. */
  predicate AppliedUnderway(n: Net) {
    || (IsReply(n.up) && n.up[0].completion.Applied?)
    || (n.core.inbox != [] && n.core.inbox[0].ProfileResult? && n.core.inbox[0].applied)
  }

  /** The agreement of both sides while the state of the profile is known. */
  predicate Agree(n: Net) {
    || n.core.confirmed == n.core.plane.confirmed
    || (&& AppliedUnderway(n) && n.core.plane.inFlight.Some?
        && Apply(n.core.plane.confirmed, n.core.plane.inFlight.value.change) == Accepted(n.core.confirmed))
  }

  /** Agreement and order, in every reachable state in which the conversation was not reported lost: both sides have
      the same confirmed profile, or the Supervisor's with the change in flight applied while that is being reported;
      at most one change is underway end to end and it is the one in flight; behind a stop command no frame follows;
      the helper refused nothing and the Supervisor did not fail. */
  lemma ProfilesAgree(f: FloatText, steps: seq<Step>)
    requires RoundsInRange(f) && CanRun(f, NET_START, steps) && !RunOf(f, NET_START, steps).core.lost
    ensures var n := RunOf(f, NET_START, steps);
            && (n.core.runtime.profileStateUnknown || Agree(n))
            && Underway(n) <= 1 && (Underway(n) == 1 ==> n.core.plane.inFlight.Some?)
            && (forall i, j :: 0 <= i < j < |n.down| && n.down[j].ChangeProfile? ==> n.down[i].ChangeProfile?)
            && (n.core.runtime.stopping ==> FramesIn(n.down) == 0)
            && n.core.runtime.valid && !n.core.supervisor.phase.Failed?
  {
    InitiallyOk(f);
    RunKeeps(f, NET_START, steps);
    OneUnderway(f, RunOf(f, NET_START, steps));
  }

  /** At most one change is underway, nothing but stop commands is behind a stop command, and a stopping helper has no
      frame to read. */
  lemma OneUnderway(f: FloatText, n: Net)
    requires Invariant(f, n) && !n.core.lost
    ensures Underway(n) <= 1 && (Underway(n) == 1 ==> n.core.plane.inFlight.Some?)
    ensures forall i, j :: 0 <= i < j < |n.down| && n.down[j].ChangeProfile? ==> n.down[i].ChangeProfile?
    ensures n.core.runtime.stopping ==> FramesIn(n.down) == 0
  {
    UnderwayInFront(n);
    if !IsFrame(n.down) {
      NoFrames(n.down);
    }
  }
}
