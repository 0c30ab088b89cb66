/** What the helper answers to every Profile Change that reaches it: over whole runs, on messages and on bytes, a legal
    change of anything but bandwidth is applied exactly when the kernel applies it. */
module ProfileAnswers {
  import opened Wrappers
  import opened Lines
  import opened LineMachines
  import opened NetworkProfile
  import opened ProfileWire
  import opened ControllerCommands
  import opened ControlPlane
  import opened ActionExecutor
  import opened HelperConversations
  import opened ProfileProtocol
  import opened ProfileAgreement
  import opened ProfileChannels
  import L = SessionLifecycle

  /** The profile a legal change asks for. */
  function Wanted(confirmed: Profile, change: Change): Profile {
    match Apply(confirmed, change) case Accepted(profile) => profile case Rejected(_) => confirmed
  }

  /** The line that must answer a change, by what the kernel did with it. */
  function DueAnswer(confirmed: Profile, change: Change, kernel: ShapingResult): string {
    if AboutBandwidth(change) then "PROFILE_FAILED APPLY_FAILED"
    else if Wanted(confirmed, change) == confirmed || kernel.ShapingApplied? then "PROFILE_OK"
    else if kernel.ShapingRestored? then "PROFILE_FAILED APPLY_FAILED" else "ERROR PROFILE_STATE_UNKNOWN"
  }

  /** The profile that must be confirmed afterwards. */
  function DueProfile(confirmed: Profile, change: Change, kernel: ShapingResult): Profile {
    if DueAnswer(confirmed, change, kernel) == "PROFILE_OK" then Wanted(confirmed, change) else confirmed
  }

  lemma AnswerIsDue(confirmed: Profile, change: Change, kernel: ShapingResult)
    requires Plain(confirmed) && ValidChange(change)
    ensures var (after, completion) := AdapterApply(confirmed, change, kernel);
            && CompletionLine(completion) == DueAnswer(confirmed, change, kernel)
            && after == DueProfile(confirmed, change, kernel)
  {
    AdapterDecides(confirmed, change, kernel);
    assert CompletionLine(RestoredAfterFailure)[8] == 'F' && CompletionLine(StateUnknown)[0] == 'E';
    hide AdapterApply, Apply, Plain, ValidChange;
  }

  // ----- The confirmed profile stays plain -----

  lemma PerformLeavesConfirmed(f: FloatText, c: Core, event: Event, oks: seq<bool>)
    requires Writes(f, c, event, oks)
    ensures Perform(f, c, event, oks).0.confirmed == c.confirmed
  {
    hide HandleAndExecute, Handle;
  }

  lemma HandleLeavesConfirmed(f: FloatText, c: Core, listening: bool, oks: seq<bool>)
    requires LocalEnabled(f, c, HandleHelperEvent(listening, oks))
    ensures HandleNext(f, c, listening, oks).0.confirmed == c.confirmed
  {
    var rest := c.(inbox := c.inbox[1..]);
    if EventOf(c.inbox[0]).Some? {
      PerformLeavesConfirmed(f, rest, EventOf(c.inbox[0]).value, oks);
    }
    hide Perform, Handle;
  }

  lemma LocalLeavesConfirmed(f: FloatText, c: Core, step: Step)
    requires LocalEnabled(f, c, step)
    ensures LocalStep(f, c, step).0.confirmed == c.confirmed
  {
    hide Handle, HandleNext, Perform, L.React;
    match step
    case HandleHelperEvent(listening, oks) => HandleLeavesConfirmed(f, c, listening, oks);
    case AcceptClient(oks) =>
      if !c.client {
        PerformLeavesConfirmed(f, c, Attached, oks);
      }
    case ClientBytes(bytes, oks) => PerformLeavesConfirmed(f, c, BytesReceived(bytes), oks);
    case _ =>
  }

  lemma {:induction false} CarryOutPlain(c: Core, commands: seq<RuntimeCommand>, kernel: ShapingResult)
    requires Plain(c.confirmed)
    ensures Plain(CarryOut(c, commands, kernel).0.confirmed)
    decreases |commands|
  {
    if commands != [] {
      match commands[0]
      case ChangeProfile(change) =>
        AdapterDecides(c.confirmed, change, kernel);
        var (confirmed, completion) := AdapterApply(c.confirmed, change, kernel);
        CarryOutPlain(c.(confirmed := confirmed, runtime := Complete(c.runtime, completion).0), commands[1..], kernel);
      case _ => CarryOutPlain(c, commands[1..], kernel);
    }
  }

  lemma WireStepPlain(f: FloatText, w: Wire, step: WireStep)
    requires WireEnabled(f, w, step) && Plain(w.core.confirmed)
    ensures Plain(WireNext(f, w, step).core.confirmed)
  {
    match step
    case Inner(inner) =>
      if Local(inner) {
        LocalLeavesConfirmed(f, w.core, inner);
      }
    case HelperReadsBytes(count, kernel) =>
      var feed := LineMachines.Receive(RuntimeMachine(f), w.core.runtime, w.helperBuffer, w.down[..count]);
      CarryOutPlain(w.core.(runtime := feed.state), feed.out, kernel);
    case _ =>
  }

  lemma {:induction false} WireRunPlain(f: FloatText, w: Wire, steps: seq<WireStep>)
    requires WireCanRun(f, w, steps) && Plain(w.core.confirmed)
    ensures Plain(WireRun(f, w, steps).core.confirmed)
    decreases |steps|
  {
    if steps != [] {
      WireStepPlain(f, w, steps[0]);
      WireRunPlain(f, WireNext(f, w, steps[0]), steps[1..]);
    }
  }

  lemma NextPlain(f: FloatText, n: Net, step: Step)
    requires Enabled(f, n, step) && Plain(n.core.confirmed)
    ensures Plain(Next(f, n, step).core.confirmed)
  {
    hide AdapterApply, Plain, LocalStep, LocalEnabled, Apply;
    if Local(step) {
      LocalLeavesConfirmed(f, n.core, step);
    } else if step.HelperReads? && n.down[0].ChangeProfile? {
      AdapterDecides(n.core.confirmed, n.down[0].change, step.kernel);
    }
  }

  lemma {:induction false} RunPlain(f: FloatText, n: Net, steps: seq<Step>)
    requires CanRun(f, n, steps) && Plain(n.core.confirmed)
    ensures Plain(RunOf(f, n, steps).core.confirmed)
    decreases |steps|
  {
    if steps != [] {
      NextPlain(f, n, steps[0]);
      RunPlain(f, Next(f, n, steps[0]), steps[1..]);
    }
  }

  // ----- On messages -----

  /** In every run in which the conversation was not reported lost, a frame the helper reads is answered, with the answer
      that is due; the confirmed profile moves exactly when the answer is PROFILE_OK. */
  lemma FrameIsAnswered(f: FloatText, steps: seq<Step>, kernel: ShapingResult)
    requires RoundsInRange(f) && CanRun(f, NET_START, steps)
    requires var n := RunOf(f, NET_START, steps);
             !n.core.lost && Enabled(f, n, HelperReads(kernel)) && IsFrame(n.down)
    ensures var n := RunOf(f, NET_START, steps);
            var t, change := Next(f, n, HelperReads(kernel)), n.down[0].change;
            && |t.up| == |n.up| + 1 && t.up[..|n.up|] == n.up && t.up[|n.up|].ReplyMessage?
            && CompletionLine(t.up[|n.up|].completion) == DueAnswer(n.core.confirmed, change, kernel)
            && t.core.confirmed == DueProfile(n.core.confirmed, change, kernel)
  {
    InitiallyOk(f);
    RunKeeps(f, NET_START, steps);
    RunPlain(f, NET_START, steps);
    FrameAnswer(f, RunOf(f, NET_START, steps), kernel);
  }

  lemma FrameAnswer(f: FloatText, n: Net, kernel: ShapingResult)
    requires Invariant(f, n) && !n.core.lost && Enabled(f, n, HelperReads(kernel)) && IsFrame(n.down)
    requires Plain(n.core.confirmed)
    ensures var t, change := Next(f, n, HelperReads(kernel)), n.down[0].change;
            && |t.up| == |n.up| + 1 && t.up[..|n.up|] == n.up && t.up[|n.up|].ReplyMessage?
            && CompletionLine(t.up[|n.up|].completion) == DueAnswer(n.core.confirmed, change, kernel)
            && t.core.confirmed == DueProfile(n.core.confirmed, change, kernel)
  {
    FrameIsSendable(f, n);
    ObeyAccepts(f, n, kernel);
    AnswerIsDue(n.core.confirmed, n.down[0].change, kernel);
    hide AdapterApply, DueAnswer, DueProfile, Obey, CompletionLine, Invariant;
  }

  lemma FrameIsSendable(f: FloatText, n: Net)
    requires Invariant(f, n) && !n.core.lost && n.core.stage.Running? && IsFrame(n.down)
    ensures Sendable(f, n.down[0].change)
    ensures var r := n.core.runtime;
            r.valid && !r.workloadFinished && r.pending.None? && !r.stopping && !r.profileStateUnknown
  {
  }

  // ----- On bytes -----

  /** A reading that completes the line of a legal change writes its answer, and nothing else. */
  lemma FrameOnTheWire(f: FloatText, w: Wire, n: Net, count: nat, kernel: ShapingResult)
    requires Faithful(f) && Carries(f, w, n) && Invariant(f, n) && !w.core.lost && Plain(w.core.confirmed)
    requires WireEnabled(f, w, HelperReadsBytes(count, kernel)) && IsFrame(n.down)
    requires var k := |Split(w.helperBuffer + w.down[..count]).0|; 0 < k <= |n.down| && OnlyStops(n.down[1..k])
    ensures var t := WireNext(f, w, HelperReadsBytes(count, kernel));
            && t.up == w.up + (DueAnswer(w.core.confirmed, n.down[0].change, kernel) + "\n")
            && t.core.confirmed == DueProfile(w.core.confirmed, n.down[0].change, kernel)
  {
    hide AdapterApply, DueAnswer, DueProfile, CompletionLine, WireNext, Split, CommandLine, Plain, Stream, Run;
    var change := n.down[0].change;
    var (first, partial) := Split(w.helperBuffer + w.down[..count]);
    var stops := n.down[1..|first|];
    FrameFirst(f, w, n.down, count);
    FrameIsSendable(f, n);
    RunFrame(f, w.core.runtime, change, stops, partial);
    CarryOutFrame(w.core, change, stops, kernel);
    var feed := Run(RuntimeMachine(f), w.core.runtime, first, partial);
    StopsLeaveValid(w.core.runtime.(pending := Some(change)), stops);
    HelperReading(f, w, count, kernel, feed);
    AnswerIsDue(w.core.confirmed, change, kernel);
  }

  lemma StopsLeaveValid(r: Runtime, stops: seq<RuntimeCommand>)
    ensures Stopped(r, stops).valid == r.valid
  {
  }

  /** The change a frame's line spells is the one the helper has next. */
  lemma FrameInFront(f: FloatText, w: Wire, n: Net, count: nat, change: Change)
    requires Faithful(f) && Carries(f, w, n) && Invariant(f, n) && !w.core.lost && w.core.stage.Running?
    requires count <= |w.down| && Sendable(f, change)
    requires var (first, _) := Split(w.helperBuffer + w.down[..count]); first != [] && first[0] == FrameLine(f, change)
    ensures n.down != [] && n.down[0] == ChangeProfile(change)
  {
    hide Split, CommandLine, FrameLine, Stream, Invariant;
    DownFragment(f, w.helperBuffer, w.down, n.down, count);
    CommandRead(f, n.down[0]);
    FrameRoundTrip(f, change);
  }

  /** In every interleaving and every fragmentation, as long as the conversation was not reported lost: when the helper
      reads the end of the frame of a legal change, it writes exactly the line that is due, and confirms the changed
      profile exactly when that line is PROFILE_OK. */
  lemma FrameIsAnsweredOverBytes(f: FloatText, steps: seq<WireStep>, count: nat, kernel: ShapingResult, change: Change)
    requires Faithful(f) && RoundsInRange(f) && WireCanRun(f, WIRE_START, steps) && Sendable(f, change)
    requires var w := WireRun(f, WIRE_START, steps);
             && !w.core.lost && WireEnabled(f, w, HelperReadsBytes(count, kernel))
             && NextLine(w.helperBuffer, w.down[..count]) == Some(FrameLine(f, change))
    ensures var w := WireRun(f, WIRE_START, steps);
            var t := WireNext(f, w, HelperReadsBytes(count, kernel));
            && t.up == w.up + (DueAnswer(w.core.confirmed, change, kernel) + "\n")
            && t.core.confirmed == DueProfile(w.core.confirmed, change, kernel)
  {
    hide WireRun, WireNext, DueAnswer, DueProfile, Invariant, FrameLine;
    var w := WireRun(f, WIRE_START, steps);
    InitiallyCarried(f);
    var n := WireRunKeeps(f, WIRE_START, NET_START, steps);
    WireRunPlain(f, WIRE_START, steps);
    FrameInFront(f, w, n, count, change);
    DownFragment(f, w.helperBuffer, w.down, n.down, count);
    OneFrameInFront(f, n, |Split(w.helperBuffer + w.down[..count]).0|);
    FrameOnTheWire(f, w, n, count, kernel);
  }

  // ----- Lines the Supervisor takes -----

  /** Once the helper has reported ready, the Supervisor takes from a line either nothing, and the conversation is lost, or
      exactly what it takes from one of the helper's messages, with values in their ranges. */
  lemma TakenLinesAreMessages(s: Supervisor, line: string) returns (m: Message)
    requires !s.phase.WaitingForReady?
    ensures SupervisorStep(s, line) == LOST
            || (InRange(m) && SupervisorStep(s, line) == (Take(s, m).0, [Take(s, m).1]))
  {
    hide CompletionLine, HasPrefix, ParseValueAfter, InRange;
    var pid := ParseValueAfter(line, "ACTIVE ", 1, 1_000_000_000);
    var code := ParseValueAfter(line, "START_FAILED ", 125, 127);
    var value := ParseValueAfter(line, "WORKLOAD_EXITED ", 0, 255);
    var signal := ParseValueAfter(line, "WORKLOAD_SIGNALED ", 1, 127);
    if s.phase.Active? && s.pending.Some? && IsAnswer(line) {
      m := ReplyMessage(if line == CompletionLine(Applied) then Applied
                        else if line == CompletionLine(RestoredAfterFailure) then RestoredAfterFailure else StateUnknown);
    } else if s.phase.WaitingForActivation? && pid.Some? {
      m := ActiveMessage(pid.value);
    } else if s.phase.WaitingForActivation? && code.Some? {
      m := StartFailedMessage(code.value);
    } else if (s.phase.Active? || s.phase.ProfileUnknown?) && value.Some? {
      m := ExitedMessage(value.value);
    } else if (s.phase.Active? || s.phase.ProfileUnknown?) && signal.Some? {
      m := SignaledMessage(signal.value);
    } else {
      m := CleanedMessage(line == "CLEANUP_OK");
    }
    ReadInRange(line, m);
  }

  lemma ReadInRange(line: string, m: Message)
    requires m.ActiveMessage? ==> ParseValueAfter(line, "ACTIVE ", 1, 1_000_000_000) == Some(m.pid)
    requires m.StartFailedMessage? ==> ParseValueAfter(line, "START_FAILED ", 125, 127) == Some(m.code)
    requires m.ExitedMessage? ==> ParseValueAfter(line, "WORKLOAD_EXITED ", 0, 255) == Some(m.value)
    requires m.SignaledMessage? ==> ParseValueAfter(line, "WORKLOAD_SIGNALED ", 1, 127) == Some(m.value)
    ensures InRange(m)
  {
  }

  /** A line the helper takes as a command is, byte for byte, that command's line. */
  lemma TakenCommandsAreCanonical(f: FloatText, line: string)
    requires ParseRuntimeCommand(f, line).Some?
    ensures match ParseRuntimeCommand(f, line).value
            case StopTerminate => line == "STOP TERM"
            case StopKill => line == "STOP KILL"
            case Shutdown => line == "SHUTDOWN"
            case ChangeProfile(change) => ValidChange(change) && Serialize(f, change) == Some(line + "\n")
  {
    if ParseRuntimeCommand(f, line).value.ChangeProfile? {
      FrameIsCanonical(f, line);
      OnlyLegalChangesAreSent(f, ParseRuntimeCommand(f, line).value.change);
    }
  }
}
