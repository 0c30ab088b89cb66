/** The two ends of the Supervisor-helper conversation while a Session runs. */
module HelperConversations {
  import opened Wrappers
  import opened Lines
  import opened LineMachines
  import opened NetworkProfile
  import opened ProfileWire
  import Numerals

  // ----- The helper's messages -----

  /** The outcome of a Profile Change as the helper knows it. */
  datatype Completion = Applied | RestoredAfterFailure | StateUnknown

  datatype HelperEvent =
    | Ready
    | Activated(pid: int)
    | ActivationFailed(result: int)
    | WorkloadExited(result: int)
    | WorkloadSignaled(signal: int)
    | CleanupSucceeded
    | CleanupFailed
    | ConversationLost
    | ProfileResult(applied: bool, change: Change)
    | ProfileStateUnknown

  /** The line of a completion, without its newline. */
  function CompletionLine(completion: Completion): string {
    match completion
    case Applied => "PROFILE_OK"
    case RestoredAfterFailure => "PROFILE_FAILED APPLY_FAILED"
    case StateUnknown => "ERROR PROFILE_STATE_UNKNOWN"
  }

  /** `parse_value_after`. */
  function ParseValueAfter(line: string, prefix: string, minimum: int, maximum: int): Option<int> {
    if HasPrefix(prefix, line) then Numerals.ParseInteger(line[|prefix|..], minimum, maximum) else None
  }

  // ----- The Supervisor's end -----

  datatype Phase =
    WaitingForReady | WaitingForActivation | Active | ProfileUnknown | WaitingForCleanup | Finished | Failed

  datatype Supervisor = Supervisor(phase: Phase, pending: Option<Change>)

  const LOST := (Supervisor(Failed, None), [ConversationLost])

  /** One complete line, in the order of the source's branches. */
  function SupervisorStep(s: Supervisor, line: string): (Supervisor, seq<HelperEvent>) {
    if s.phase.Active? && s.pending.Some? && line == CompletionLine(Applied) then
      (s.(pending := None), [ProfileResult(true, s.pending.value)])
    else if s.phase.Active? && s.pending.Some? && line == CompletionLine(RestoredAfterFailure) then
      (s.(pending := None), [ProfileResult(false, s.pending.value)])
    else if s.phase.Active? && s.pending.Some? && line == CompletionLine(StateUnknown) then
      (Supervisor(ProfileUnknown, None), [ProfileStateUnknown])
    else if HasPrefix("ERROR ", line) then LOST
    else if s.phase.WaitingForReady? && line == "READY" then (s.(phase := WaitingForActivation), [Ready])
    else if s.phase.WaitingForActivation? then
      match ParseValueAfter(line, "ACTIVE ", 1, 1_000_000_000) {
        case Some(pid) => (s.(phase := Active), [Activated(pid)])
        case None =>
          match ParseValueAfter(line, "START_FAILED ", 125, 127)
          case Some(result) => (s.(phase := WaitingForCleanup), [ActivationFailed(result)])
          case None => LOST
      }
    else if s.phase.Active? || s.phase.ProfileUnknown? then
      match ParseValueAfter(line, "WORKLOAD_EXITED ", 0, 255) {
        case Some(result) => (Supervisor(WaitingForCleanup, None), [WorkloadExited(result)])
        case None =>
          match ParseValueAfter(line, "WORKLOAD_SIGNALED ", 1, 127)
          case Some(signal) => (Supervisor(WaitingForCleanup, None), [WorkloadSignaled(signal)])
          case None => LOST
      }
    else if s.phase.WaitingForCleanup? && line == "CLEANUP_OK" then (s.(phase := Finished), [CleanupSucceeded])
    else if s.phase.WaitingForCleanup? && line == "CLEANUP_FAILED" then (s.(phase := Finished), [CleanupFailed])
    else LOST
  }

  function SupervisorMachine(): Machine<Supervisor, HelperEvent> {
    Machine(MAXIMUM_HELPER_MESSAGE_SIZE, (s: Supervisor) => s.phase.Failed?,
            (s: Supervisor, line) => SupervisorStep(s, line), (s: Supervisor) => LOST)
  }

  class SupervisorHelperConversation {
    const float: FloatText
    var phase: Phase
    var pending: Option<Change>
    var buffer: string

    constructor (float: FloatText)
      ensures this.float == float && State() == Supervisor(WaitingForReady, None) && buffer == ""
    {
      this.float := float;
      phase, pending, buffer := WaitingForReady, None, "";
    }

    function State(): Supervisor
      reads this
    {
      Supervisor(phase, pending)
    }

    method BeginProfileChange(change: Change) returns (frame: Option<string>)
      modifies this
      ensures frame == Begin(old(State()), float, change).1
      ensures State() == Begin(old(State()), float, change).0 && buffer == old(buffer)
    {
      if phase != Active || pending.Some? {
        return None;
      }
      frame := Serialize(float, change);
      if frame.None? {
        return None;
      }
      pending := Some(change);
    }

    /** The receive loop computes the automaton's run over the appended bytes. */
    method ReceiveBytes(bytes: string) returns (events: seq<HelperEvent>)
      modifies this
      ensures Feed(State(), buffer, events) == Receive(SupervisorMachine(), old(State()), old(buffer), bytes)
    {
      events := [];
      if phase == Failed {
        return;
      }
      buffer := buffer + bytes;
      ghost var whole := Drain(SupervisorMachine(), State(), buffer);
      NothingMore(whole);
      while true
        invariant phase != Failed
        invariant whole == Drain(SupervisorMachine(), State(), buffer).After(events)
        decreases |buffer|
      {
        DrainTurn(SupervisorMachine(), State(), buffer);
        var newline := FirstNewline(buffer);
        if newline.None? {
          if |buffer| > MAXIMUM_HELPER_MESSAGE_SIZE {
            phase, pending, buffer := Failed, None, "";
            events := events + [ConversationLost];
          } else {
            assert events + [] == events;
          }
          return;
        }
        if newline.value > MAXIMUM_HELPER_MESSAGE_SIZE {
          phase, pending, buffer := Failed, None, "";
          events := events + [ConversationLost];
          return;
        }
        var line := buffer[..newline.value];
        var (next, out) := SupervisorStep(State(), line);
        AfterBoth(Drain(SupervisorMachine(), next, buffer[newline.value + 1..]), events, out);
        buffer := buffer[newline.value + 1..];
        phase, pending := next.phase, next.pending;
        events := events + out;
        if phase == Failed {
          buffer := "";
          assert events + [] == events;
          return;
        }
      }
    }

    method PeerClosed() returns (events: seq<HelperEvent>)
      modifies this
      ensures old(phase) == Failed || (old(phase) == Finished && old(buffer) == "") ==>
                events == [] && State() == old(State()) && buffer == old(buffer)
      ensures !(old(phase) == Failed || (old(phase) == Finished && old(buffer) == "")) ==>
                events == [ConversationLost] && State() == Supervisor(Failed, None) && buffer == ""
    {
      if phase == Failed || (phase == Finished && buffer == "") {
        return [];
      }
      phase, pending, buffer := Failed, None, "";
      return [ConversationLost];
    }
  }

  /** `begin_profile_change`: the new state and the frame to send, if the change may be sent. */
  function Begin(s: Supervisor, float: FloatText, change: Change): (Supervisor, Option<string>) {
    if !s.phase.Active? || s.pending.Some? || Serialize(float, change).None? then (s, None)
    else (s.(pending := Some(change)), Serialize(float, change))
  }

  // ----- The helper's end -----

  datatype Runtime = Runtime(
    pending: Option<Change>, valid: bool, workloadFinished: bool, stopping: bool, profileStateUnknown: bool)

  const RUNTIME_START := Runtime(None, true, false, false, false)

  /** One complete line: the next state and the commands accepted from it. */
  function RuntimeStep(float: FloatText, r: Runtime, line: string): (Runtime, seq<RuntimeCommand>) {
    match ParseRuntimeCommand(float, line)
    case None => (r.(valid := false), [])
    case Some(command) =>
      if command.ChangeProfile? && r.profileStateUnknown then (r, [])
      else if r.workloadFinished || (command.ChangeProfile? && (r.pending.Some? || r.stopping)) then
        (r.(valid := false), [])
      else if command.ChangeProfile? then (r.(pending := Some(command.change)), [command])
      else (r.(stopping := true), [command])
  }

  function RuntimeMachine(float: FloatText): Machine<Runtime, RuntimeCommand> {
    Machine(MAXIMUM_HELPER_MESSAGE_SIZE, (r: Runtime) => !r.valid,
            (r: Runtime, line) => RuntimeStep(float, r, line), (r: Runtime) => (r.(valid := false), []))
  }

  /** `complete_profile_change`: the next state and the completion line to report. */
  function Complete(r: Runtime, completion: Completion): (Runtime, Option<string>) {
    if !r.valid || r.workloadFinished || r.pending.None? then (r, None)
    else (r.(pending := None, profileStateUnknown := r.profileStateUnknown || completion.StateUnknown?),
          Some(CompletionLine(completion) + "\n"))
  }

  const INVALID_RUNTIME_COMMAND := "ERROR INVALID_RUNTIME_COMMAND\n"

  class HelperRuntimeConversation {
    const float: FloatText
    var buffer: string
    var pending: Option<Change>
    var valid: bool
    var workloadFinished: bool
    var stopping: bool
    var profileStateUnknown: bool

    constructor (float: FloatText)
      ensures this.float == float && State() == RUNTIME_START && buffer == ""
    {
      this.float := float;
      buffer, pending, valid := "", None, true;
      workloadFinished, stopping, profileStateUnknown := false, false, false;
    }

    function State(): Runtime
      reads this
    {
      Runtime(pending, valid, workloadFinished, stopping, profileStateUnknown)
    }

    /** The result carries the validity after the call; the error text is the answer of the call that broke it. */
    method ReceiveBytes(bytes: string)
        returns (ok: bool, commands: seq<RuntimeCommand>, response: Option<string>)
      modifies this
      ensures Feed(State(), buffer, commands) == Receive(RuntimeMachine(float), old(State()), old(buffer), bytes)
      ensures ok == valid
      ensures response == if old(valid) && !valid then Some(INVALID_RUNTIME_COMMAND) else None
    {
      if !valid {
        return false, [], None;
      }
      commands := ReadLines(bytes);
      ok := valid;
      response := if valid then None else Some(INVALID_RUNTIME_COMMAND);
    }

    method ReadLines(bytes: string) returns (commands: seq<RuntimeCommand>)
      requires valid
      modifies this
      ensures Feed(State(), buffer, commands) == Receive(RuntimeMachine(float), old(State()), old(buffer), bytes)
    {
      commands := [];
      buffer := buffer + bytes;
      ghost var whole := Drain(RuntimeMachine(float), State(), buffer);
      NothingMore(whole);
      while true
        invariant valid
        invariant whole == Drain(RuntimeMachine(float), State(), buffer).After(commands)
        decreases |buffer|
      {
        DrainTurn(RuntimeMachine(float), State(), buffer);
        NothingMore(Feed(State(), "", commands));
        var newline := FirstNewline(buffer);
        if newline.None? && |buffer| <= MAXIMUM_HELPER_MESSAGE_SIZE {
          return;
        }
        if newline.None? || newline.value > MAXIMUM_HELPER_MESSAGE_SIZE {
          valid, buffer := false, "";
          return;
        }
        var line := buffer[..newline.value];
        buffer := buffer[newline.value + 1..];
        ghost var (next, out) := RuntimeStep(float, State(), line);
        AfterBoth(Drain(RuntimeMachine(float), next, buffer), commands, out);
        var accepted := Accept(line);
        assert State() == next && accepted == out;
        commands := commands + accepted;
        if !valid {
          buffer := "";
          NothingMore(Feed(State(), "", commands));
          return;
        }
      }
    }

    /** The body of the loop after a line was taken: at most one command is accepted. */
    method Accept(line: string) returns (accepted: seq<RuntimeCommand>)
      requires valid
      modifies this
      ensures (State(), accepted) == RuntimeStep(float, old(State()), line) && buffer == old(buffer)
    {
      var command := ParseRuntimeCommand(float, line);
      if command.Some? && profileStateUnknown && command.value.ChangeProfile? {
        return [];
      }
      if command.None? || workloadFinished
         || (command.value.ChangeProfile? && (pending.Some? || stopping || profileStateUnknown)) {
        valid := false;
        return [];
      }
      if command.value.ChangeProfile? {
        pending := Some(command.value.change);
      } else {
        stopping := true;
      }
      return [command.value];
    }

    method CompleteProfileChange(completion: Completion) returns (reply: Option<string>)
      modifies this
      ensures State() == Complete(old(State()), completion).0 && buffer == old(buffer)
      ensures reply == Complete(old(State()), completion).1
    {
      if !valid || workloadFinished || pending.None? {
        return None;
      }
      pending := None;
      match completion
      case Applied => return Some("PROFILE_OK" + "\n");
      case RestoredAfterFailure => return Some("PROFILE_FAILED APPLY_FAILED" + "\n");
      case StateUnknown =>
        profileStateUnknown := true;
        return Some("ERROR PROFILE_STATE_UNKNOWN" + "\n");
    }

    method WorkloadFinished()
      modifies this
      ensures State() == old(State()).(workloadFinished := true, pending := None) && buffer == ""
    {
      workloadFinished, pending, buffer := true, None, "";
    }
  }

  // ----- Fragmentation -----

  /** However the helper's bytes are cut, the Supervisor sees the same events, fails on the same size limits and
      ends in the same state. */
  lemma SupervisorFragmentation(s: Supervisor, buffer: string, fragments: seq<string>)
    requires Settled(SupervisorMachine(), s, buffer)
    ensures ReceiveAll(SupervisorMachine(), s, buffer, fragments)
            == Receive(SupervisorMachine(), s, buffer, Concat(fragments))
  {
    ReceiveFragments(SupervisorMachine(), s, buffer, fragments);
  }

  /** The same for the commands the helper accepts. */
  lemma RuntimeFragmentation(float: FloatText, r: Runtime, buffer: string, fragments: seq<string>)
    requires Settled(RuntimeMachine(float), r, buffer)
    ensures ReceiveAll(RuntimeMachine(float), r, buffer, fragments)
            == Receive(RuntimeMachine(float), r, buffer, Concat(fragments))
  {
    ReceiveFragments(RuntimeMachine(float), r, buffer, fragments);
  }

  /** What a settled conversation is after any reading, so the two lemmas above apply to every reachable state. */
  lemma ConversationsStaySettled(float: FloatText, s: Supervisor, r: Runtime, buffer: string, bytes: string)
    ensures Settled(SupervisorMachine(), s, buffer) ==>
              var f := Receive(SupervisorMachine(), s, buffer, bytes);
              Settled(SupervisorMachine(), f.state, f.buffer)
    ensures Settled(RuntimeMachine(float), r, buffer) ==>
              var f := Receive(RuntimeMachine(float), r, buffer, bytes);
              Settled(RuntimeMachine(float), f.state, f.buffer)
  {
    if Settled(SupervisorMachine(), s, buffer) {
      ReceiveInTwo(SupervisorMachine(), s, buffer, bytes, "");
    }
    if Settled(RuntimeMachine(float), r, buffer) {
      ReceiveInTwo(RuntimeMachine(float), r, buffer, bytes, "");
    }
  }
}
