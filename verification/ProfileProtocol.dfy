/** The Profile Change protocol from the Controller's command to the kernel and back: the Supervisor's control plane,
    executor, conversation and lifecycle on one side, the helper on the other, and between them two first-in first-out
    channels. Here a channel holds whole messages; ProfileChannels cuts them into bytes. */
module ProfileProtocol {
  import opened Wrappers
  import opened NetworkProfile
  import opened ProfileWire
  import opened ControllerCommands
  import opened ControlPlane
  import opened ControlPlaneBatches
  import opened ActionExecutor
  import opened HelperConversations
  import L = SessionLifecycle

  // ----- The helper -----

  datatype ShapingResult = ShapingApplied | ShapingRestored | ShapingUnknown

  /** `NetworkEnvironmentProfileChangeAdapter::apply`; `kernel` is what shaping the one changed direction reports. */
  function AdapterApply(confirmed: Profile, change: Change, kernel: ShapingResult): (Profile, Completion) {
    match Apply(confirmed, change)
    case Rejected(_) => (confirmed, RestoredAfterFailure)
    case Accepted(candidate) =>
      if change.Target().Bandwidth? || candidate.outbound.bandwidth.Some? || candidate.inbound.bandwidth.Some? then
        (confirmed, RestoredAfterFailure)
      else if candidate.outbound == confirmed.outbound && candidate.inbound == confirmed.inbound then
        (confirmed, Applied)
      else if candidate.outbound != confirmed.outbound && candidate.inbound != confirmed.inbound then
        (confirmed, StateUnknown)
      else match kernel
        case ShapingApplied => (candidate, Applied)
        case ShapingRestored => (confirmed, RestoredAfterFailure)
        case ShapingUnknown => (confirmed, StateUnknown)
  }

  /** A change is confirmed on both sides to the same profile: the adapter's profile is the old one with the change
      applied exactly when it reports so, and otherwise the old one. */
  lemma AdapterConfirmsWhatItReports(confirmed: Profile, change: Change, kernel: ShapingResult)
    ensures var (after, completion) := AdapterApply(confirmed, change, kernel);
            if completion.Applied? then Apply(confirmed, change) == Accepted(after) else after == confirmed
  {
  }

  /** Bandwidth is the one setting the kernel is never asked for. */
  predicate AboutBandwidth(change: Change) {
    change.SetBandwidth? || (change.Reset? && change.setting.Bandwidth?)
  }

  /** A valid profile without bandwidth, which is all the adapter ever confirms. */
  predicate Plain(profile: Profile) {
    ValidProfile(profile) && profile.outbound.bandwidth.None? && profile.inbound.bandwidth.None?
  }

  /** Exactly which changes are confirmed: a legal change of a setting other than bandwidth is, when it leaves the profile
      as it is or the kernel reports it applied, and the profile is then the changed one; when the kernel reports the
      old state restored, or nothing, the profile stays and that is the answer. Any other change is refused. */
  lemma AdapterDecides(confirmed: Profile, change: Change, kernel: ShapingResult)
    requires Plain(confirmed)
    ensures Plain(AdapterApply(confirmed, change, kernel).0)
    ensures !ValidChange(change) || AboutBandwidth(change) ==>
              AdapterApply(confirmed, change, kernel) == (confirmed, RestoredAfterFailure)
    ensures ValidChange(change) && !AboutBandwidth(change) ==>
              && Apply(confirmed, change).Accepted?
              && var wanted := Apply(confirmed, change).profile;
                 AdapterApply(confirmed, change, kernel)
                 == if wanted == confirmed || kernel.ShapingApplied? then (wanted, Applied)
                    else if kernel.ShapingRestored? then (confirmed, RestoredAfterFailure) else (confirmed, StateUnknown)
  {
    AcceptedIffValid(confirmed, change);
    if ValidChange(change) {
      AppliesToOneDirection(confirmed, change);
    }
  }

  /** Only a change about bandwidth moves a bandwidth, and a change moves one direction. */
  lemma AppliesToOneDirection(profile: Profile, change: Change)
    requires Apply(profile, change).Accepted?
    ensures var after := Apply(profile, change).profile;
            && (!AboutBandwidth(change) ==>
                  && after.outbound.bandwidth == profile.outbound.bandwidth
                  && after.inbound.bandwidth == profile.inbound.bandwidth)
            && (if change.direction.Outbound? then after.inbound == profile.inbound else after.outbound == profile.outbound)
  {
  }

  datatype Stage = Starting | Running | Cleaning | Done

  /** The messages of the helper after its greeting. */
  datatype Message =
    | ActiveMessage(pid: int)
    | StartFailedMessage(code: int)
    | ReplyMessage(completion: Completion)
    | ExitedMessage(value: int)
    | SignaledMessage(value: int)
    | CleanedMessage(ok: bool)

  predicate InRange(m: Message) {
    match m
    case ActiveMessage(pid) => 1 <= pid <= 1_000_000_000
    case StartFailedMessage(code) => 125 <= code <= 127
    case ReplyMessage(_) => true
    case ExitedMessage(value) => 0 <= value <= 255
    case SignaledMessage(value) => 1 <= value <= 127
    case CleanedMessage(_) => true
  }

  /** The helper's conversation on a command it could parse. */
  function AcceptCommand(r: Runtime, command: RuntimeCommand): (Runtime, bool) {
    if command.ChangeProfile? && r.profileStateUnknown then (r, false)
    else if r.workloadFinished || (command.ChangeProfile? && (r.pending.Some? || r.stopping)) then
      (r.(valid := false), false)
    else if command.ChangeProfile? then (r.(pending := Some(command.change)), true)
    else (r.(stopping := true), true)
  }

  /** The Supervisor's conversation on a message, `LOST` where it refuses it. */
  function Take(s: Supervisor, m: Message): (Supervisor, HelperEvent) {
    match m
    case ReplyMessage(completion) =>
      if !s.phase.Active? || s.pending.None? then (LOST.0, ConversationLost)
      else if completion.StateUnknown? then (Supervisor(ProfileUnknown, None), HelperEvent.ProfileStateUnknown)
      else (s.(pending := None), ProfileResult(completion.Applied?, s.pending.value))
    case ActiveMessage(pid) =>
      if s.phase.WaitingForActivation? then (s.(phase := Active), Activated(pid)) else (LOST.0, ConversationLost)
    case StartFailedMessage(code) =>
      if s.phase.WaitingForActivation? then (s.(phase := WaitingForCleanup), ActivationFailed(code))
      else (LOST.0, ConversationLost)
    case ExitedMessage(value) =>
      if s.phase.Active? || s.phase.ProfileUnknown? then (Supervisor(WaitingForCleanup, None), WorkloadExited(value))
      else (LOST.0, ConversationLost)
    case SignaledMessage(value) =>
      if s.phase.Active? || s.phase.ProfileUnknown? then (Supervisor(WaitingForCleanup, None), WorkloadSignaled(value))
      else (LOST.0, ConversationLost)
    case CleanedMessage(ok) =>
      if s.phase.WaitingForCleanup? then (s.(phase := Finished), if ok then CleanupSucceeded else CleanupFailed)
      else (LOST.0, ConversationLost)
  }

  // ----- The whole system -----

  /** Everything but the channels. `created`: the control plane exists; `accepting` and `finished`: the adapter's flags
      for an activated Session and a finished Workload; `inbox`: helper events not handled yet; `pending`: lifecycle
      events not taken yet; `lost`: the conversation was reported lost. */
  datatype Core = Core(
    plane: Plane, created: bool, accepting: bool, finished: bool, client: bool, supervisor: Supervisor,
    inbox: seq<HelperEvent>, pending: seq<L.LifecycleEvent>, life: L.Life,
    stage: Stage, runtime: Runtime, confirmed: Profile, lost: bool)

  const CORE_START := Core(
    PLANE_START, false, false, false, false, Supervisor(WaitingForActivation, None),
    [], [], L.LIFE_START, Starting, RUNTIME_START, DEFAULT_PROFILE, false)

  datatype Net = Net(core: Core, down: seq<RuntimeCommand>, up: seq<Message>)

  const NET_START := Net(CORE_START, [], [])

  /** Handling a control plane event and executing its batch: the new core and the frames written to the helper. */
  function Perform(f: FloatText, c: Core, event: Event, ok: seq<bool>): (Core, seq<string>)
    requires |ok| == |Handle(f, c.plane, event).1|
  {
    var r := HandleAndExecute(f, Exec(c.plane, c.client, c.supervisor, [], [], [], false), event, ok);
    (c.(plane := r.plane, client := r.client, supervisor := r.conversation, pending := c.pending + r.events,
        lost := c.lost || L.ConversationLost in r.events),
     r.frames)
  }

  /** What a step of the environment or of either process is, with everything the environment decides. */
  datatype Step =
    | HelperActivates(pid: int)
    | HelperFailsToStart(code: int)
    | HelperReads(kernel: ShapingResult)
    | WorkloadEnds(signaled: bool, value: int)
    | HelperCleans(ok: bool)
    | SupervisorReads
    | HandleHelperEvent(listening: bool, oks: seq<bool>)
    | Interrupt
    | AcceptClient(oks: seq<bool>)
    | ClientBytes(bytes: string, oks: seq<bool>)
    | ClientGone
    | LifecycleTakes(accepted: bool)
    | DeadlineExpires(accepted: bool)
    | LinkFails

  /** The control plane event a helper event becomes. */
  function EventOf(e: HelperEvent): Option<Event> {
    match e
    case ProfileResult(applied, change) => Some(ChangeResult(applied, change))
    case ProfileStateUnknown => Some(Event.ProfileStateUnknown)
    case WorkloadExited(_) => Some(WorkloadTerminal)
    case WorkloadSignaled(_) => Some(WorkloadTerminal)
    case _ => None
  }

  /** The lifecycle event a helper event becomes, if it becomes one directly. */
  function LifecycleOf(e: HelperEvent): Option<L.LifecycleEvent> {
    match e
    case ProfileResult(_, _) => None
    case ProfileStateUnknown => None
    case Activated(pid) => Some(L.Activated)
    case ActivationFailed(result) => Some(L.ActivationFailed(result))
    case WorkloadExited(result) => Some(L.WorkloadExited(result))
    case WorkloadSignaled(signal) => Some(L.WorkloadSignaled(signal))
    case CleanupSucceeded => Some(L.CleanupSucceeded)
    case CleanupFailed => Some(L.CleanupFailed)
    case _ => Some(L.ConversationLost)
  }

  predicate Writes(f: FloatText, c: Core, event: Event, oks: seq<bool>) {
    |oks| == |Handle(f, c.plane, event).1|
  }

  /** When a step of the Supervisor alone can happen: its loop has not ended and it is not busy with helper events. */
  predicate Listening(c: Core) {
    !c.life.over && c.inbox == []
  }

  /** Steps of the Supervisor that read no channel. */
  predicate Local(step: Step) {
    step.HandleHelperEvent? || step.Interrupt? || step.AcceptClient? || step.ClientBytes? || step.ClientGone?
    || step.LifecycleTakes? || step.DeadlineExpires? || step.LinkFails?
  }

  predicate LocalEnabled(f: FloatText, c: Core, step: Step) {
    match step
    case HandleHelperEvent(_, oks) =>
      && !c.life.over && c.inbox != []
      && (EventOf(c.inbox[0]).Some? ==> Writes(f, c, EventOf(c.inbox[0]).value, oks))
    case Interrupt => Listening(c) && !c.finished
    case AcceptClient(oks) => Listening(c) && c.accepting && (!c.client ==> Writes(f, c, Attached, oks))
    case ClientBytes(bytes, oks) => Listening(c) && !c.finished && c.client && Writes(f, c, BytesReceived(bytes), oks)
    case ClientGone => Listening(c) && c.client
    case LifecycleTakes(_) => Listening(c) && c.pending != []
    case DeadlineExpires(_) => Listening(c) && c.pending == [] && c.life.Limited()
    case LinkFails => Listening(c)
    case _ => false
  }

  function Queue(c: Core, event: L.LifecycleEvent): Core {
    c.(pending := c.pending + [event], lost := c.lost || event.ConversationLost?)
  }

  /** `read_helper_events` on one event. */
  function HandleNext(f: FloatText, c: Core, listening: bool, oks: seq<bool>): (Core, seq<string>)
    requires c.inbox != []
    requires EventOf(c.inbox[0]).Some? ==> Writes(f, c, EventOf(c.inbox[0]).value, oks)
  {
    var event := c.inbox[0];
    var rest := c.(inbox := c.inbox[1..]);
    if event.Activated? then
      var made := rest.(plane := PLANE_START, created := true);
      (if listening then Queue(made, L.Activated).(accepting := true) else Queue(made, L.ConversationLost), [])
    else
      var (done, frames) := if EventOf(event).Some? then Perform(f, rest, EventOf(event).value, oks) else (rest, []);
      var flagged := if event.WorkloadExited? || event.WorkloadSignaled?
                     then done.(finished := true, accepting := false) else done;
      (if LifecycleOf(event).Some? then Queue(flagged, LifecycleOf(event).value) else flagged, frames)
  }

  /** One reaction of the lifecycle; an accepted request is written to the helper. */
  function LifeTurn(c: Core, event: L.LifecycleEvent, accepted: bool): (Core, seq<RuntimeCommand>) {
    var (life, request) := L.React(c.life, event, accepted);
    (c.(life := life),
     match request
     case None => []
     case Some(stop) => if accepted then [if stop.Terminate? then StopTerminate else StopKill] else [])
  }

  /** A step of the Supervisor that reads no channel: the core after it, the frames of Profile Changes and the stop
      commands written to the helper. */
  function LocalStep(f: FloatText, c: Core, step: Step): (Core, seq<string>, seq<RuntimeCommand>)
    requires LocalEnabled(f, c, step)
  {
    match step
    case HandleHelperEvent(listening, oks) =>
      var (next, frames) := HandleNext(f, c, listening, oks);
      (next, frames, [])
    case Interrupt =>
      var told := if c.created then c.(plane := Handle(f, c.plane, SessionStopping).0) else c;
      (Queue(told, L.TerminalInterrupt), [], [])
    case AcceptClient(oks) =>
      if c.client then (c, [], [])
      else
        var (next, frames) := Perform(f, c, Attached, oks);
        (next, frames, [])
    case ClientBytes(bytes, oks) =>
      var (next, frames) := Perform(f, c, BytesReceived(bytes), oks);
      (next, frames, [])
    case ClientGone =>
      (Queue(c.(plane := Handle(f, c.plane, Disconnected).0, client := false), L.ControllerLost), [], [])
    case LifecycleTakes(accepted) =>
      var (next, stops) := LifeTurn(c.(pending := c.pending[1..]), c.pending[0], accepted);
      (next, [], stops)
    case DeadlineExpires(accepted) =>
      var (next, stops) := LifeTurn(c, L.DeadlineExpired, accepted);
      (next, [], stops)
    case LinkFails => (Queue(c, L.ConversationLost), [], [])
  }

  /** The Supervisor takes one message out of its stream. */
  function Receive(c: Core, m: Message): Core {
    var (next, event) := Take(c.supervisor, m);
    c.(supervisor := next, inbox := c.inbox + [event])
  }

  /** The helper takes one command out of its stream and carries it out. */
  function Obey(c: Core, command: RuntimeCommand, kernel: ShapingResult): (Core, seq<Message>) {
    var (runtime, accepted) := AcceptCommand(c.runtime, command);
    if !accepted || !command.ChangeProfile? then (c.(runtime := runtime), [])
    else
      var (confirmed, completion) := AdapterApply(c.confirmed, command.change, kernel);
      (c.(runtime := Complete(runtime, completion).0, confirmed := confirmed),
       if Complete(runtime, completion).1.Some? then [ReplyMessage(completion)] else [])
  }

  function EndMessage(signaled: bool, value: int): Message {
    if signaled then SignaledMessage(value) else ExitedMessage(value)
  }

  /** Steps of the helper that read no channel: the core and the message written to the Supervisor. */
  predicate Acting(step: Step) {
    step.HelperActivates? || step.HelperFailsToStart? || step.WorkloadEnds? || step.HelperCleans?
  }

  predicate ActingEnabled(c: Core, step: Step) {
    match step
    case HelperActivates(pid) => c.stage.Starting? && InRange(ActiveMessage(pid))
    case HelperFailsToStart(code) => c.stage.Starting? && InRange(StartFailedMessage(code))
    case WorkloadEnds(signaled, value) => c.stage.Running? && InRange(EndMessage(signaled, value))
    case HelperCleans(_) => c.stage.Cleaning?
    case _ => false
  }

  function ActingStep(c: Core, step: Step): (Core, Message)
    requires ActingEnabled(c, step)
  {
    match step
    case HelperActivates(pid) => (c.(stage := Running), ActiveMessage(pid))
    case HelperFailsToStart(code) => (c.(stage := Cleaning), StartFailedMessage(code))
    case WorkloadEnds(signaled, value) =>
      (c.(stage := Cleaning, runtime := c.runtime.(workloadFinished := true, pending := None)),
       EndMessage(signaled, value))
    case HelperCleans(ok) => (c.(stage := Done), CleanedMessage(ok))
  }

  predicate Enabled(f: FloatText, n: Net, step: Step) {
    if Local(step) then LocalEnabled(f, n.core, step)
    else if Acting(step) then ActingEnabled(n.core, step)
    else if step.HelperReads? then n.core.stage.Running? && n.core.runtime.valid && n.down != []
    else !n.core.life.over && !n.core.supervisor.phase.Failed? && n.up != []
  }

  /** The frame a dispatch wrote, as the command it is: the change the conversation is waiting for. */
  function Sent(c: Core, frames: seq<string>): seq<RuntimeCommand> {
    if frames == [] || c.supervisor.pending.None? then [] else [ChangeProfile(c.supervisor.pending.value)]
  }

  function Next(f: FloatText, n: Net, step: Step): Net
    requires Enabled(f, n, step)
  {
    if Local(step) then
      var (core, frames, stops) := LocalStep(f, n.core, step);
      n.(core := core, down := n.down + Sent(core, frames) + stops)
    else if Acting(step) then
      var (core, message) := ActingStep(n.core, step);
      n.(core := core, up := n.up + [message])
    else if step.HelperReads? then
      var (core, replies) := Obey(n.core, n.down[0], step.kernel);
      Net(core, n.down[1..], n.up + replies)
    else Net(Receive(n.core, n.up[0]), n.down, n.up[1..])
  }

  // ----- What one batch does to the core -----

  /** The control plane between two events. */
  predicate PlaneOk(f: FloatText, c: Core) {
    && Good(f, c.plane)
    && c.client == c.plane.attached
    && (!c.created ==> c.plane == PLANE_START && !c.accepting)
  }

  /** A batch that put nothing on the helper's socket. */
  predicate Silent(c: Core, d: Core, event: Event) {
    && d.supervisor == c.supervisor
    && if c.plane.inFlight.Some? && !event.ChangeResult? then
         d.plane.inFlight.Some? && d.plane.inFlight.value.change == c.plane.inFlight.value.change
       else d.plane.inFlight.None?
  }

  /** A batch that wrote one frame: the only change in flight is now the one in the frame. */
  predicate Dispatched(f: FloatText, c: Core, d: Core, event: Event, frames: seq<string>) {
    && (c.plane.inFlight.None? || event.ChangeResult?)
    && d.plane.inFlight.Some? && Sendable(f, d.plane.inFlight.value.change)
    && !d.plane.stopping && !d.plane.failed
    && c.supervisor.phase.Active? && c.supervisor.pending.None?
    && d.supervisor == c.supervisor.(pending := Some(d.plane.inFlight.value.change))
    && frames == [FrameLine(f, d.plane.inFlight.value.change) + "\n"]
  }

  /** What a batch does, however its writes end: the plane stays good, and unless the conversation is lost the batch is
      silent or writes the one frame of the change that is now in flight. */
  predicate Performs(f: FloatText, c: Core, event: Event, d: Core, frames: seq<string>, raised: seq<L.LifecycleEvent>) {
    && PlaneOk(f, d)
    && d == c.(plane := d.plane, client := d.client, supervisor := d.supervisor, pending := c.pending + raised,
               lost := c.lost || L.ConversationLost in raised)
    && (c.plane.stopping ==> d.plane.stopping)
    && d.plane.failed == (c.plane.failed || event.ProfileStateUnknown?)
    && (event.ChangeResult? ==>
          && Confirm(c.plane, event.applied, event.change).Some?
          && d.plane.confirmed == Confirm(c.plane, event.applied, event.change).value.confirmed)
    && (!event.ChangeResult? ==> d.plane.confirmed == c.plane.confirmed)
    && (!d.lost ==>
          && (frames == [] ==> Silent(c, d, event))
          && (frames != [] ==> Dispatched(f, c, d, event, frames))
          && (|| raised == []
              || (raised == [L.StopRequested] && d.plane.stopping)
              || (raised == [L.ProfileStateUnknown] && d.plane.failed)))
  }

  lemma FramesOfBatch(f: FloatText, c: Core, event: Event, e: Exec, handled: Plane, b: Batch, r: Exec, d: Core)
    requires e.plane == c.plane && e.conversation == c.supervisor && e.frames == [] && e.events == []
    requires FollowsFlight(c.plane, event, handled) && Exact(f, e, handled, b, r)
    requires b.dispatch == PendingDispatch(handled)
    requires handled.inFlight.Some? ==> Sendable(f, handled.inFlight.value.change)
    requires d.plane == r.plane && d.supervisor == r.conversation && L.ConversationLost !in r.events
    requires r.plane.stopping == handled.stopping && r.plane.failed == handled.failed
    ensures r.frames == [] ==> Silent(c, d, event)
    ensures r.frames != [] ==> Dispatched(f, c, d, event, r.frames)
    ensures r.events == [] || r.events == [L.StopRequested] || r.events == [L.ProfileStateUnknown]
    ensures r.events == [L.StopRequested] ==> r.plane.stopping
    ensures r.events == [L.ProfileStateUnknown] ==> r.plane.failed
  {
    assert [] + [L.StopRequested] == [L.StopRequested] && [] + [L.ProfileStateUnknown] == [L.ProfileStateUnknown];
    if b.dispatch.Some? && r.plane.inFlight.Some? {
      assert L.ConversationLost in [] + [L.ConversationLost];
      AcceptedIffValid(DEFAULT_PROFILE, b.dispatch.value);
    }
  }

  lemma PerformSummary(f: FloatText, c: Core, event: Event, ok: seq<bool>) returns (raised: seq<L.LifecycleEvent>)
    requires PlaneOk(f, c) && c.created && Executed(event) && RoundsInRange(f)
    requires |ok| == |Handle(f, c.plane, event).1| && (event.Attached? ==> !c.client)
    requires event.ChangeResult? ==> c.plane.inFlight.Some? && c.plane.inFlight.value.change == event.change
    ensures var (d, frames) := Perform(f, c, event, ok);
            Performs(f, c, event, d, frames, raised)
  {
    var e := Exec(c.plane, c.client, c.supervisor, [], [], [], false);
    var r := HandleAndExecute(f, e, event, ok);
    var handled := Handle(f, c.plane, event).0;
    HandleKeepsGood(f, c.plane, event);
    OneInFlight(f, c.plane, event);
    BatchesKeepGood(f, e, event, ok);
    var b := WriteFailureIsExact(f, e, event, ok);
    PerformsFrom(f, c, event, e, handled, b, r);
    raised := r.events;
  }

  lemma PerformsFrom(f: FloatText, c: Core, event: Event, e: Exec, handled: Plane, b: Batch, r: Exec)
    requires e.plane == c.plane && e.conversation == c.supervisor && e.frames == [] && e.events == []
    requires FollowsFlight(c.plane, event, handled) && Exact(f, e, handled, b, r)
    requires b.dispatch == PendingDispatch(handled) && c.created
    requires Good(f, handled) && Good(f, r.plane) && (c.plane.stopping ==> handled.stopping)
    requires r.plane.stopping == handled.stopping && r.plane.failed == handled.failed
    requires !event.ChangeResult? ==> handled.confirmed == c.plane.confirmed
    ensures var d := c.(plane := r.plane, client := r.client, supervisor := r.conversation,
                        pending := c.pending + r.events, lost := c.lost || L.ConversationLost in r.events);
            Performs(f, c, event, d, r.frames, r.events)
  {
    var d := c.(plane := r.plane, client := r.client, supervisor := r.conversation,
                pending := c.pending + r.events, lost := c.lost || L.ConversationLost in r.events);
    if !d.lost {
      FramesOfBatch(f, c, event, e, handled, b, r, d);
    }
  }

  /** Executing a batch changes nothing of the plane that `Good` does not allow. */
  lemma BatchesKeepGood(f: FloatText, e: Exec, event: Event, ok: seq<bool>)
    requires Good(f, Handle(f, e.plane, event).0) && |ok| == |Handle(f, e.plane, event).1|
    ensures var handled, r := Handle(f, e.plane, event).0, HandleAndExecute(f, e, event, ok);
            && Good(f, r.plane) && r.plane.confirmed == handled.confirmed && r.plane.failed == handled.failed
            && r.plane.stopping == handled.stopping && r.plane.terminal == handled.terminal
  {
    var (handled, actions) := Handle(f, e.plane, event);
    ExecuteKeepsGood(f, actions, ok, e.(plane := handled, client := e.client || event.Attached?));
  }

  lemma ActKeepsGood(f: FloatText, e: Exec, action: Action, ok: bool)
    requires Good(f, e.plane)
    ensures var r := Act(f, e, action, ok);
            && Good(f, r.plane) && r.plane.confirmed == e.plane.confirmed && r.plane.failed == e.plane.failed
            && r.plane.stopping == e.plane.stopping && r.plane.terminal == e.plane.terminal
  {
    OthersKeepGood(f, e.plane, WriteFailed);
  }

  lemma {:induction false} ExecuteKeepsGood(f: FloatText, actions: seq<Action>, ok: seq<bool>, e: Exec)
    requires Good(f, e.plane) && |ok| == |actions|
    ensures var r := Execute(f, actions, ok, e);
            && Good(f, r.plane) && r.plane.confirmed == e.plane.confirmed && r.plane.failed == e.plane.failed
            && r.plane.stopping == e.plane.stopping && r.plane.terminal == e.plane.terminal
    decreases |actions|
  {
    if !e.broken && actions != [] {
      ActKeepsGood(f, e, actions[0], ok[0]);
      ExecuteKeepsGood(f, actions[1..], ok[1..], Act(f, e, actions[0], ok[0]));
    }
  }
}
