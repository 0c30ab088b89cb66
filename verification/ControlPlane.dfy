/** The Controller control plane: one event in, one ordered batch of actions out. */
module ControlPlane {
  import opened Wrappers
  import opened Lines
  import opened NetworkProfile
  import opened ProfileWire
  import opened ControllerCommands

  /** What the control plane says to the Controller; the text of a reply is a function of it. */
  datatype Reply =
    | AttachedReply
    | HelpReply
    | StatusReply(profile: Profile, stopping: bool, shaped: bool)
    | ChangedReply
    | NotChangedReply
    | StoppingReply
    | SessionStoppingReply
    | TooManyReply
    | DetachedReply
    | ErrorReply(error: ParseError)

  datatype Action = RequestStop | Send(reply: Reply) | Disconnect | FailSession | Dispatch(change: Change)

  datatype Event =
    | Attached
    | BytesReceived(bytes: string)
    | Disconnected
    | WriteFailed
    | ChangeResult(applied: bool, change: Change)
    | ProfileStateUnknown
    | SessionStopping
    | WorkloadTerminal

  datatype Queued = Queued(command: Command, generation: nat)
  datatype InFlight = InFlight(change: Change, replyGeneration: Option<nat>, dispatchPending: bool)

  datatype Plane = Plane(
    buffer: string, queue: seq<Queued>, inFlight: Option<InFlight>, confirmed: Profile, generation: nat,
    attached: bool, shaped: bool, stopping: bool, terminal: bool, failed: bool)

  const PLANE_START := Plane("", [], None, DEFAULT_PROFILE, 0, false, false, false, false, false)

  const MAXIMUM_QUEUE: nat := 32

  // ----- Specification: the source's functions on values -----

  /** `append_before_dispatch`. */
  function InsertBeforeDispatch(actions: seq<Action>, action: Action): seq<Action> {
    if actions == [] || actions[0].Dispatch? then [action] + actions
    else [actions[0]] + InsertBeforeDispatch(actions[1..], action)
  }

  function WithoutDispatch(actions: seq<Action>): seq<Action> {
    if actions == [] then []
    else if actions[0].Dispatch? then WithoutDispatch(actions[1..])
    else [actions[0]] + WithoutDispatch(actions[1..])
  }

  function WithoutReply(inFlight: Option<InFlight>): Option<InFlight> {
    if inFlight.Some? then Some(inFlight.value.(replyGeneration := None)) else None
  }

  /** `disconnect_controller`. */
  function Drop(p: Plane): Plane {
    p.(attached := false, buffer := "", queue := [], inFlight := WithoutReply(p.inFlight))
  }

  /** `enter_stopping`. */
  function EnterStopping(p: Plane, actions: seq<Action>): (Plane, seq<Action>) {
    var requested := if p.stopping then actions else [RequestStop] + actions;
    var undispatched := p.inFlight.Some? && p.inFlight.value.dispatchPending;
    (p.(stopping := true, queue := [], inFlight := if undispatched then None else WithoutReply(p.inFlight)),
     InsertBeforeDispatch(if undispatched then WithoutDispatch(requested) else requested, Send(StoppingReply)))
  }

  /** `process_command`. */
  function Process(p: Plane, command: Command, actions: seq<Action>): (r: (Plane, seq<Action>))
    ensures r.0.buffer == p.buffer || r.0.buffer == ""
  {
    if command.Stop? then EnterStopping(p, actions)
    else if command.Edit? && p.stopping then (p, InsertBeforeDispatch(actions, Send(SessionStoppingReply)))
    else if p.inFlight.Some? && !p.stopping then
      if |p.queue| >= MAXIMUM_QUEUE then
        (Drop(p), InsertBeforeDispatch(InsertBeforeDispatch(actions, Send(TooManyReply)), Disconnect))
      else (p.(queue := p.queue + [Queued(command, p.generation)]), actions)
    else match command
      case Help => (p, InsertBeforeDispatch(actions, Send(HelpReply)))
      case Status => (p, InsertBeforeDispatch(actions, Send(StatusReply(p.confirmed, p.stopping, p.shaped))))
      case Edit(change) =>
        (p.(inFlight := Some(InFlight(change, Some(p.generation), true))), actions + [Dispatch(change)])
      case Detach => (Drop(p), InsertBeforeDispatch(InsertBeforeDispatch(actions, Send(DetachedReply)), Disconnect))
      case Stop => (p, actions)
  }

  /** `drain_queue`. */
  function DrainQueue(p: Plane, actions: seq<Action>): (Plane, seq<Action>)
    decreases |p.queue|
  {
    if !p.attached || p.inFlight.Some? || p.queue == [] then (p, actions)
    else
      var next := p.(queue := p.queue[1..]);
      if p.queue[0].generation != p.generation then DrainQueue(next, actions)
      else
        var (processed, done) := Process(next, p.queue[0].command, actions);
        DrainQueue(processed, done)
  }

  /** The answer to a line that is not a command. */
  function Refuse(p: Plane, error: ParseError, actions: seq<Action>): (Plane, seq<Action>) {
    var said := InsertBeforeDispatch(actions, Send(ErrorReply(error)));
    if error.CommandTooLong? then (Drop(p), InsertBeforeDispatch(said, Disconnect)) else (p, said)
  }

  /** One complete line. */
  function ReadLine(f: FloatText, p: Plane, line: string, actions: seq<Action>): (r: (Plane, seq<Action>))
    ensures r.0.buffer == p.buffer || r.0.buffer == ""
  {
    match ParseCommand(f, line)
    case Ignored => (p, actions)
    case Wrong(error) => Refuse(p, error, actions)
    case Parsed(command) => Process(p, command, actions)
  }

  /** The loop over complete lines. */
  function ReadCommands(f: FloatText, p: Plane, actions: seq<Action>): (Plane, seq<Action>)
    decreases |p.buffer|
  {
    if !p.attached then (p, actions)
    else match TakeNextLine(p.buffer)
      case None => (p, actions)
      case Some((line, rest)) =>
        var (read, done) := ReadLine(f, p.(buffer := rest), line, actions);
        ReadCommands(f, read, done)
  }

  /** `handle` for received bytes. */
  function HandleBytes(f: FloatText, p: Plane, bytes: string): (Plane, seq<Action>) {
    if !p.attached || p.terminal || p.failed then (p, [])
    else
      var (read, actions) := ReadCommands(f, p.(buffer := p.buffer + bytes), []);
      if read.attached && |read.buffer| > MAXIMUM_COMMAND_SIZE then Refuse(read, CommandTooLong, actions)
      else (read, actions)
  }

  /** The profile after a result, if the change can be confirmed. */
  function Confirm(p: Plane, applied: bool, change: Change): Option<Plane> {
    if !applied then Some(p)
    else match Apply(p.confirmed, change)
      case Rejected(_) => None
      case Accepted(profile) => Some(p.(confirmed := profile, shaped := true))
  }

  /** `handle` for the result of a Profile Change. */
  function HandleResult(p: Plane, applied: bool, change: Change): (Plane, seq<Action>) {
    if p.inFlight.None? || p.inFlight.value.change != change then
      if p.terminal || p.failed then (p, []) else (p.(failed := true, queue := []), [FailSession])
    else
      var idle := p.(inFlight := None);
      match Confirm(idle, applied, change)
      case None => (idle.(failed := true, queue := []), [FailSession])
      case Some(updated) =>
        var answered :=
          !p.terminal && !p.stopping && p.attached && p.inFlight.value.replyGeneration == Some(p.generation);
        var reply := if !answered then [] else [Send(if applied then ChangedReply else NotChangedReply)];
        if p.terminal || p.failed then (updated, reply) else DrainQueue(updated, reply)
  }

  function NotPending(inFlight: Option<InFlight>): Option<InFlight> {
    if inFlight.Some? then Some(inFlight.value.(dispatchPending := false)) else None
  }

  /** `handle`. */
  function Handle(f: FloatText, before: Plane, event: Event): (Plane, seq<Action>) {
    var p := if event.WriteFailed? then before else before.(inFlight := NotPending(before.inFlight));
    match event
    case Attached =>
      (p.(generation := p.generation + 1, attached := true, buffer := ""), [Send(AttachedReply)])
    case Disconnected => (Drop(p), [])
    case WriteFailed =>
      (Drop(if p.inFlight.Some? && p.inFlight.value.dispatchPending then p.(inFlight := None) else p), [])
    case SessionStopping => (p.(stopping := true, queue := [], inFlight := WithoutReply(p.inFlight)), [])
    case WorkloadTerminal => (p.(terminal := true, queue := [], inFlight := WithoutReply(p.inFlight)), [])
    case ProfileStateUnknown =>
      if p.failed then (p, [])
      else (p.(failed := true, queue := [], inFlight := WithoutReply(p.inFlight)), [FailSession])
    case ChangeResult(applied, change) => HandleResult(p, applied, change)
    case BytesReceived(bytes) => HandleBytes(f, p, bytes)
  }

  // ----- The object -----

  class ControllerControlPlane {
    const float: FloatText
    var buffer: string
    var queue: seq<Queued>
    var inFlight: Option<InFlight>
    var confirmed: Profile
    var generation: nat
    var attached: bool
    var shaped: bool
    var stopping: bool
    var terminal: bool
    var failed: bool

    constructor (float: FloatText)
      ensures this.float == float && State() == PLANE_START
    {
      this.float := float;
      buffer, queue, inFlight, confirmed, generation := "", [], None, DEFAULT_PROFILE, 0;
      attached, shaped, stopping, terminal, failed := false, false, false, false, false;
    }

    function State(): Plane
      reads this
    {
      Plane(buffer, queue, inFlight, confirmed, generation, attached, shaped, stopping, terminal, failed)
    }

    method DisconnectController()
      modifies this
      ensures State() == Drop(old(State()))
    {
      attached, buffer, queue := false, "", [];
      if inFlight.Some? {
        inFlight := Some(inFlight.value.(replyGeneration := None));
      }
    }

    method EnterStoppingState(before: seq<Action>) returns (actions: seq<Action>)
      modifies this
      ensures (State(), actions) == EnterStopping(old(State()), before)
    {
      actions := before;
      if !stopping {
        actions := [RequestStop] + actions;
        stopping := true;
      }
      queue := [];
      if inFlight.Some? {
        inFlight := Some(inFlight.value.(replyGeneration := None));
        if inFlight.value.dispatchPending {
          actions := WithoutDispatch(actions);
          inFlight := None;
        }
      }
      actions := InsertBeforeDispatch(actions, Send(StoppingReply));
    }

    method ProcessCommand(command: Command, before: seq<Action>) returns (actions: seq<Action>)
      modifies this
      ensures (State(), actions) == Process(old(State()), command, before)
    {
      actions := before;
      if command.Stop? {
        actions := EnterStoppingState(actions);
        return;
      }
      if command.Edit? && stopping {
        actions := InsertBeforeDispatch(actions, Send(SessionStoppingReply));
        return;
      }
      if inFlight.Some? && !stopping {
        if |queue| >= MAXIMUM_QUEUE {
          actions := InsertBeforeDispatch(actions, Send(TooManyReply));
          actions := InsertBeforeDispatch(actions, Disconnect);
          DisconnectController();
          return;
        }
        queue := queue + [Queued(command, generation)];
        return;
      }
      match command
      case Help => actions := InsertBeforeDispatch(actions, Send(HelpReply));
      case Status => actions := InsertBeforeDispatch(actions, Send(StatusReply(confirmed, stopping, shaped)));
      case Edit(change) =>
        inFlight := Some(InFlight(change, Some(generation), true));
        actions := actions + [Dispatch(change)];
      case Detach =>
        actions := InsertBeforeDispatch(actions, Send(DetachedReply));
        actions := InsertBeforeDispatch(actions, Disconnect);
        DisconnectController();
      case Stop =>
    }

    method RefuseCommand(error: ParseError, before: seq<Action>) returns (actions: seq<Action>)
      modifies this
      ensures (State(), actions) == Refuse(old(State()), error, before)
    {
      actions := InsertBeforeDispatch(before, Send(ErrorReply(error)));
      if error.CommandTooLong? {
        actions := InsertBeforeDispatch(actions, Disconnect);
        DisconnectController();
      }
    }

    method DrainQueuedCommands(before: seq<Action>) returns (actions: seq<Action>)
      modifies this
      ensures (State(), actions) == DrainQueue(old(State()), before)
    {
      actions := before;
      while attached && inFlight.None? && queue != []
        invariant DrainQueue(State(), actions) == DrainQueue(old(State()), before)
        decreases |queue|
      {
        var queued := queue[0];
        queue := queue[1..];
        if queued.generation != generation {
          continue;
        }
        label popped:
        actions := ProcessCommand(queued.command, actions);
        assert |queue| <= |old@popped(queue)|;
      }
    }

    method ReceiveLine(line: string, before: seq<Action>) returns (actions: seq<Action>)
      modifies this
      ensures (State(), actions) == ReadLine(float, old(State()), line, before)
    {
      actions := before;
      match ParseCommand(float, line)
      case Ignored =>
      case Wrong(error) => actions := RefuseCommand(error, actions);
      case Parsed(command) => actions := ProcessCommand(command, actions);
    }

    method ReceiveBytes(bytes: string) returns (actions: seq<Action>)
      modifies this
      ensures (State(), actions) == HandleBytes(float, old(State()), bytes)
    {
      actions := [];
      if !attached || terminal || failed {
        return;
      }
      buffer := buffer + bytes;
      ghost var start := State();
      while attached
        invariant ReadCommands(float, State(), actions) == ReadCommands(float, start, [])
        decreases attached, |buffer|
      {
        var taken := TakeNextLine(buffer);
        if taken.None? {
          break;
        }
        buffer := taken.value.1;
        actions := ReceiveLine(taken.value.0, actions);
      }
      if attached && |buffer| > MAXIMUM_COMMAND_SIZE {
        actions := RefuseCommand(CommandTooLong, actions);
      }
    }

    method ConfirmResult(applied: bool, change: Change) returns (confirmable: bool)
      modifies this
      ensures confirmable <==> Confirm(old(State()), applied, change).Some?
      ensures State() == if confirmable then Confirm(old(State()), applied, change).value else old(State())
    {
      if applied {
        var result := ApplyProfileChange(confirmed, change);
        if result.Rejected? {
          return false;
        }
        confirmed, shaped := result.profile, true;
      }
      return true;
    }

    method ReceiveResult(applied: bool, change: Change) returns (actions: seq<Action>)
      modifies this
      ensures (State(), actions) == HandleResult(old(State()), applied, change)
    {
      actions := [];
      if inFlight.None? || inFlight.value.change != change {
        if !terminal && !failed {
          failed, queue := true, [];
          actions := [FailSession];
        }
        return;
      }
      var replyGeneration := inFlight.value.replyGeneration;
      inFlight := None;
      var confirmable := ConfirmResult(applied, change);
      if !confirmable {
        failed, queue := true, [];
        return [FailSession];
      }
      if !terminal && !stopping && attached && replyGeneration == Some(generation) {
        actions := [Send(if applied then ChangedReply else NotChangedReply)];
      }
      if !terminal && !failed {
        actions := DrainQueuedCommands(actions);
      }
    }

    method HandleEvent(event: Event) returns (actions: seq<Action>)
      modifies this
      ensures (State(), actions) == Handle(float, old(State()), event)
    {
      if !event.WriteFailed? && inFlight.Some? {
        inFlight := Some(inFlight.value.(dispatchPending := false));
      }
      actions := [];
      match event
      case Attached =>
        generation, attached, buffer := generation + 1, true, "";
        actions := [Send(AttachedReply)];
      case Disconnected => DisconnectController();
      case WriteFailed =>
        if inFlight.Some? && inFlight.value.dispatchPending {
          inFlight := None;
        }
        DisconnectController();
      case SessionStopping =>
        stopping, queue := true, [];
        inFlight := WithoutReply(inFlight);
      case WorkloadTerminal =>
        terminal, queue := true, [];
        inFlight := WithoutReply(inFlight);
      case ProfileStateUnknown =>
        if !failed {
          failed, queue := true, [];
          inFlight := WithoutReply(inFlight);
          actions := [FailSession];
        }
      case ChangeResult(applied, change) => actions := ReceiveResult(applied, change);
      case BytesReceived(bytes) => actions := ReceiveBytes(bytes);
    }
  }
}
