/** The Profile Change protocol over byte channels: frames and answers cut into arbitrary fragments. */
module ProfileChannels {
  import opened Wrappers
  import opened Lines
  import opened LineMachines
  import opened NetworkProfile
  import opened ProfileWire
  import opened ControlPlane
  import opened ControlPlaneBatches
  import opened ActionExecutor
  import opened HelperConversations
  import opened ProfileProtocol
  import opened ProfileAgreement
  import opened ControllerCommands
  import Numerals
  import L = SessionLifecycle

  // ----- Messages as lines -----

  function CommandLine(f: FloatText, command: RuntimeCommand): string
    requires command.ChangeProfile? ==> Sendable(f, command.change)
  {
    match command
    case StopTerminate => "STOP TERM"
    case StopKill => "STOP KILL"
    case Shutdown => "SHUTDOWN"
    case ChangeProfile(change) => FrameLine(f, change)
  }

  function MessageLine(m: Message): string
    requires InRange(m)
  {
    match m
    case ActiveMessage(pid) => "ACTIVE " + Numerals.Decimal(pid)
    case StartFailedMessage(code) => "START_FAILED " + Numerals.Decimal(code)
    case ReplyMessage(completion) => CompletionLine(completion)
    case ExitedMessage(value) => "WORKLOAD_EXITED " + Numerals.Decimal(value)
    case SignaledMessage(value) => "WORKLOAD_SIGNALED " + Numerals.Decimal(value)
    case CleanedMessage(ok) => if ok then "CLEANUP_OK" else "CLEANUP_FAILED"
  }

  predicate Short(line: string) {
    OneLine(line) && |line| <= MAXIMUM_HELPER_MESSAGE_SIZE
  }

  lemma NumberedLine(prefix: string, n: nat)
    requires OneLine(prefix) && |prefix| <= 40 && n <= 1_000_000_000
    ensures Short(prefix + Numerals.Decimal(n))
  {
    Numerals.Pow10Twenty();
    Numerals.DecimalLength(n, 20);
  }

  lemma RepliesAreShort(completion: Completion)
    ensures Short(CompletionLine(completion))
  {
    match completion case Applied => case RestoredAfterFailure => case StateUnknown =>
  }

  lemma MessagesAreShort(m: Message)
    requires InRange(m)
    ensures Short(MessageLine(m))
  {
    match m
    case ActiveMessage(pid) => NumberedLine("ACTIVE ", pid);
    case StartFailedMessage(code) => NumberedLine("START_FAILED ", code);
    case ReplyMessage(completion) => RepliesAreShort(completion);
    case ExitedMessage(value) => NumberedLine("WORKLOAD_EXITED ", value);
    case SignaledMessage(value) => NumberedLine("WORKLOAD_SIGNALED ", value);
    case CleanedMessage(ok) =>
  }

  lemma CommandsAreShort(f: FloatText, command: RuntimeCommand)
    requires Faithful(f) && (command.ChangeProfile? ==> Sendable(f, command.change))
    ensures Short(CommandLine(f, command))
  {
    if command.ChangeProfile? {
      FrameRoundTrip(f, command.change);
    }
  }

  lemma CommandRead(f: FloatText, command: RuntimeCommand)
    requires Faithful(f) && (command.ChangeProfile? ==> Sendable(f, command.change))
    ensures ParseRuntimeCommand(f, CommandLine(f, command)) == Some(command)
  {
    if command.ChangeProfile? {
      FrameRoundTrip(f, command.change);
    } else {
      assert "STOP TERM"[5] != "STOP KILL"[5] && "STOP TERM"[1] != "SHUTDOWN"[1] && "STOP KILL"[1] != "SHUTDOWN"[1];
    }
  }

  /** The helper accepts from a command's line what it accepts from the command. */
  lemma CommandStep(f: FloatText, r: Runtime, command: RuntimeCommand)
    requires Faithful(f) && (command.ChangeProfile? ==> Sendable(f, command.change))
    ensures RuntimeStep(f, r, CommandLine(f, command))
            == (AcceptCommand(r, command).0, if AcceptCommand(r, command).1 then [command] else [])
  {
    CommandRead(f, command);
  }

  lemma OtherPrefix(prefix: string, line: string, i: nat)
    requires i < |prefix| && i < |line| && prefix[i] != line[i]
    ensures !HasPrefix(prefix, line)
  {
  }

  lemma NumberAfter(prefix: string, n: nat, minimum: int, maximum: int)
    requires minimum <= n <= maximum
    ensures ParseValueAfter(prefix + Numerals.Decimal(n), prefix, minimum, maximum) == Some(n)
  {
    var line := prefix + Numerals.Decimal(n);
    assert line[..|prefix|] == prefix && line[|prefix|..] == Numerals.Decimal(n);
    Numerals.ParseIntegerDecimal(n, minimum, maximum);
  }

  predicate Reads(s: Supervisor, m: Message)
    requires InRange(m)
  {
    SupervisorStep(s, MessageLine(m)) == (Take(s, m).0, [Take(s, m).1])
  }

  lemma StartStep(s: Supervisor, m: Message)
    requires InRange(m) && s.phase.WaitingForActivation? && (m.ActiveMessage? || m.StartFailedMessage?)
    ensures Reads(s, m)
  {
    OtherPrefix("ERROR ", MessageLine(m), 0);
    if m.ActiveMessage? {
      NumberAfter("ACTIVE ", m.pid, 1, 1_000_000_000);
    } else {
      NumberAfter("START_FAILED ", m.code, 125, 127);
      OtherPrefix("ACTIVE ", MessageLine(m), 0);
    }
  }

  lemma ExitedStep(s: Supervisor, m: Message)
    requires InRange(m) && (s.phase.Active? || s.phase.ProfileUnknown?) && m.ExitedMessage?
    ensures Reads(s, m)
  {
    OtherPrefix("ERROR ", MessageLine(m), 0);
    EndsAreNoReplies(MessageLine(m));
    NumberAfter("WORKLOAD_EXITED ", m.value, 0, 255);
  }

  lemma SignaledStep(s: Supervisor, m: Message)
    requires InRange(m) && (s.phase.Active? || s.phase.ProfileUnknown?) && m.SignaledMessage?
    ensures Reads(s, m)
  {
    OtherPrefix("ERROR ", MessageLine(m), 0);
    EndsAreNoReplies(MessageLine(m));
    NumberAfter("WORKLOAD_SIGNALED ", m.value, 1, 127);
    OtherPrefix("WORKLOAD_EXITED ", MessageLine(m), 9);
  }

  /** The Supervisor takes from a message's line what it takes from the message, if it is in order. */
  lemma MessageStep(s: Supervisor, m: Message)
    requires InRange(m) && !Take(s, m).1.ConversationLost?
    ensures Reads(s, m)
  {
    match m
    case ReplyMessage(completion) => ReplyStep(s, completion);
    case CleanedMessage(ok) => OtherPrefix("ERROR ", MessageLine(m), 0);
    case ExitedMessage(_) => ExitedStep(s, m);
    case SignaledMessage(_) => SignaledStep(s, m);
    case _ => StartStep(s, m);
  }

  lemma EndsAreNoReplies(line: string)
    requires line != [] && line[0] == 'W'
    ensures forall c :: line != CompletionLine(c)
  {
    forall c ensures line != CompletionLine(c) {
      match c case Applied => case RestoredAfterFailure => case StateUnknown =>
    }
  }

  lemma ReplyStep(s: Supervisor, completion: Completion)
    requires s.phase.Active? && s.pending.Some?
    ensures Reads(s, ReplyMessage(completion))
  {
    assert |CompletionLine(Applied)| == 10 && |CompletionLine(RestoredAfterFailure)| == 27;
    assert CompletionLine(StateUnknown)[0] == 'E' && CompletionLine(Applied)[0] == 'P';
    assert CompletionLine(RestoredAfterFailure)[0] == 'P';
  }

  // ----- The system over bytes -----

  /** The core and both byte streams: what each conversation has buffered and what is still in its channel. */
  datatype Wire = Wire(core: Core, helperBuffer: string, down: string, supervisorBuffer: string, up: string)

  const WIRE_START := Wire(CORE_START, "", "", "", "")

  /** A step that reads no channel, or the reading of some bytes. */
  datatype WireStep =
    | Inner(step: Step)
    | HelperReadsBytes(count: nat, kernel: ShapingResult)
    | SupervisorReadsBytes(count: nat)

  function Stops(stops: seq<RuntimeCommand>): string
    requires forall i :: 0 <= i < |stops| ==> !stops[i].ChangeProfile?
  {
    if stops == [] then ""
    else (match stops[0] case StopTerminate => "STOP TERM\n" case StopKill => "STOP KILL\n" case _ => "SHUTDOWN\n")
         + Stops(stops[1..])
  }

  /** `supervise_workload` on the commands of one reading. */
  function CarryOut(c: Core, commands: seq<RuntimeCommand>, kernel: ShapingResult): (Core, string)
    decreases |commands|
  {
    if commands == [] then (c, "")
    else match commands[0]
      case ChangeProfile(change) =>
        var (confirmed, completion) := AdapterApply(c.confirmed, change, kernel);
        var (runtime, reply) := Complete(c.runtime, completion);
        var (last, rest) := CarryOut(c.(confirmed := confirmed, runtime := runtime), commands[1..], kernel);
        (last, (if reply.Some? then reply.value else "") + rest)
      case _ => CarryOut(c, commands[1..], kernel)
  }

  predicate WireEnabled(f: FloatText, w: Wire, step: WireStep) {
    match step
    case Inner(inner) => (Local(inner) && LocalEnabled(f, w.core, inner)) || (Acting(inner) && ActingEnabled(w.core, inner))
    case HelperReadsBytes(count, _) => w.core.stage.Running? && w.core.runtime.valid && 0 < count <= |w.down|
    case SupervisorReadsBytes(count) => Listening(w.core) && !w.core.supervisor.phase.Failed? && 0 < count <= |w.up|
  }

  function WireNext(f: FloatText, w: Wire, step: WireStep): Wire
    requires WireEnabled(f, w, step)
  {
    match step
    case Inner(inner) =>
      if Local(inner) then
        var (core, frames, stops) := LocalStep(f, w.core, inner);
        w.(core := core, down := w.down + Concat(frames) + Stops(stops))
      else
        var (core, m) := ActingStep(w.core, inner);
        w.(core := core, helperBuffer := if inner.WorkloadEnds? then "" else w.helperBuffer,
           up := w.up + (MessageLine(m) + "\n"))
    case HelperReadsBytes(count, kernel) =>
      var feed := LineMachines.Receive(RuntimeMachine(f), w.core.runtime, w.helperBuffer, w.down[..count]);
      var read := w.(core := w.core.(runtime := feed.state), helperBuffer := feed.buffer, down := w.down[count..]);
      if !feed.state.valid then
        read.(core := read.core.(stage := Cleaning), up := w.up + INVALID_RUNTIME_COMMAND)
      else
        var (core, replies) := CarryOut(read.core, feed.out, kernel);
        read.(core := core, up := w.up + replies)
    case SupervisorReadsBytes(count) =>
      var feed := LineMachines.Receive(SupervisorMachine(), w.core.supervisor, w.supervisorBuffer, w.up[..count]);
      w.(core := w.core.(supervisor := feed.state, inbox := feed.out), supervisorBuffer := feed.buffer,
         up := w.up[count..])
  }

  // ----- The streams carry the messages -----

  predicate AllSendable(f: FloatText, down: seq<RuntimeCommand>) {
    forall i :: 0 <= i < |down| ==> (down[i].ChangeProfile? ==> Sendable(f, down[i].change))
  }

  predicate AllInRange(up: seq<Message>) {
    forall i :: 0 <= i < |up| ==> InRange(up[i])
  }

  function CommandLines(f: FloatText, down: seq<RuntimeCommand>): (lines: seq<string>)
    requires AllSendable(f, down)
    ensures |lines| == |down|
    ensures forall i :: 0 <= i < |down| ==> lines[i] == CommandLine(f, down[i])
  {
    if down == [] then [] else [CommandLine(f, down[0])] + CommandLines(f, down[1..])
  }

  function MessageLines(up: seq<Message>): (lines: seq<string>)
    requires AllInRange(up)
    ensures |lines| == |up|
    ensures forall i :: 0 <= i < |up| ==> lines[i] == MessageLine(up[i])
  {
    Mapped(MessageLine, up)
  }

  function Mapped<T>(line: T --> string, items: seq<T>): (lines: seq<string>)
    requires forall i :: 0 <= i < |items| ==> line.requires(items[i])
    ensures |lines| == |items| && forall i :: 0 <= i < |items| ==> lines[i] == line(items[i])
  {
    if items == [] then [] else [line(items[0])] + Mapped(line, items[1..])
  }

  lemma MappedOfBoth<T>(line: T --> string, a: seq<T>, b: seq<T>)
    requires forall i :: 0 <= i < |a| ==> line.requires(a[i])
    requires forall i :: 0 <= i < |b| ==> line.requires(b[i])
    ensures forall i :: 0 <= i < |a + b| ==> line.requires((a + b)[i])
    ensures Mapped(line, a + b) == Mapped(line, a) + Mapped(line, b)
  {
  }

  predicate AllShort(lines: seq<string>) {
    forall i :: 0 <= i < |lines| ==> Short(lines[i])
  }

  /** A stream carries some lines: what is buffered is the beginning of the first. */
  predicate Stream(buffer: string, channel: string, lines: seq<string>) {
    AllShort(lines) && OneLine(buffer) && buffer + channel == Text(lines)
  }

  /** A fragment completes some lines and leaves a stream that carries the others. */
  lemma FragmentOf(buffer: string, channel: string, lines: seq<string>, count: nat)
    requires Stream(buffer, channel, lines) && count <= |channel|
    ensures var (first, partial) := Split(buffer + channel[..count]);
            && |first| <= |lines| && first == lines[..|first|]
            && Stream(partial, channel[count..], lines[|first|..])
            && |partial| <= MAXIMUM_HELPER_MESSAGE_SIZE
  {
    var (first, partial) := Split(buffer + channel[..count]);
    assert (buffer + channel[..count]) + channel[count..] == buffer + channel by {
      assert channel[..count] + channel[count..] == channel;
    }
    assert AllLines(lines) by {
      forall i | 0 <= i < |lines| ensures OneLine(lines[i]) {
        assert Short(lines[i]);
      }
    }
    PrefixOfText(lines, buffer + channel[..count], channel[count..]);
    PartialIsShort(partial, channel[count..], lines[|first|..]);
  }

  lemma PartialIsShort(partial: string, rest: string, lines: seq<string>)
    requires OneLine(partial) && AllShort(lines) && partial + rest == Text(lines)
    ensures |partial| <= MAXIMUM_HELPER_MESSAGE_SIZE
  {
    if lines != [] {
      assert Short(lines[0]) && Text(lines)[|lines[0]|] == '\n';
      assert forall i :: 0 <= i < |partial| ==> Text(lines)[i] == partial[i];
    }
  }

  /** Bytes of complete lines appended to a channel. */
  lemma StreamAppend(buffer: string, channel: string, lines: seq<string>, more: seq<string>)
    requires Stream(buffer, channel, lines) && AllShort(more)
    ensures Stream(buffer, channel + Text(more), lines + more)
  {
    hide Text, OneLine, Short;
    TextAppend(lines, more);
    Regroup(buffer, channel, Text(more));
  }

  predicate UpCarries(buffer: string, channel: string, up: seq<Message>) {
    AllInRange(up) && Stream(buffer, channel, MessageLines(up))
  }

  predicate DownCarries(f: FloatText, buffer: string, channel: string, down: seq<RuntimeCommand>) {
    AllSendable(f, down) && Stream(buffer, channel, CommandLines(f, down))
  }

  lemma UpAppend(buffer: string, channel: string, up: seq<Message>, more: seq<Message>)
    requires UpCarries(buffer, channel, up) && AllInRange(more)
    ensures UpCarries(buffer, channel + Text(MessageLines(more)), up + more)
  {
    MessageLinesShort(more);
    MessageLinesOfBoth(up, more);
    StreamAppend(buffer, channel, MessageLines(up), MessageLines(more));
  }

  lemma MessageLinesShort(up: seq<Message>)
    requires AllInRange(up)
    ensures AllShort(MessageLines(up))
  {
    forall i | 0 <= i < |up| ensures Short(MessageLines(up)[i]) {
      MessagesAreShort(up[i]);
    }
  }

  lemma MessageLinesOfBoth(a: seq<Message>, b: seq<Message>)
    requires AllInRange(a) && AllInRange(b)
    ensures AllInRange(a + b) && MessageLines(a + b) == MessageLines(a) + MessageLines(b)
  {
    MappedOfBoth(MessageLine, a, b);
  }

  lemma CommandLinesShort(f: FloatText, down: seq<RuntimeCommand>)
    requires Faithful(f) && AllSendable(f, down)
    ensures AllShort(CommandLines(f, down))
  {
    forall i | 0 <= i < |down| ensures Short(CommandLines(f, down)[i]) {
      CommandsAreShort(f, down[i]);
    }
  }

  lemma CommandLinesOfBoth(f: FloatText, a: seq<RuntimeCommand>, b: seq<RuntimeCommand>)
    requires AllSendable(f, a) && AllSendable(f, b)
    ensures AllSendable(f, a + b) && CommandLines(f, a + b) == CommandLines(f, a) + CommandLines(f, b)
  {
    hide CommandLine, Sendable, CommandLines;
  }

  lemma DownAppend(f: FloatText, buffer: string, channel: string, down: seq<RuntimeCommand>, more: seq<RuntimeCommand>)
    requires Faithful(f) && DownCarries(f, buffer, channel, down) && AllSendable(f, more)
    ensures DownCarries(f, buffer, channel + Text(CommandLines(f, more)), down + more)
  {
    CommandLinesShort(f, more);
    CommandLinesOfBoth(f, down, more);
    StreamAppend(buffer, channel, CommandLines(f, down), CommandLines(f, more));
  }

  lemma UpFragment(buffer: string, channel: string, up: seq<Message>, count: nat)
    requires UpCarries(buffer, channel, up) && count <= |channel|
    ensures var (first, partial) := Split(buffer + channel[..count]);
            && |first| <= |up| && first == MessageLines(up[..|first|])
            && UpCarries(partial, channel[count..], up[|first|..]) && |partial| <= MAXIMUM_HELPER_MESSAGE_SIZE
  {
    var k := |Split(buffer + channel[..count]).0|;
    FragmentOf(buffer, channel, MessageLines(up), count);
    assert MessageLines(up)[..k] == MessageLines(up[..k]) && MessageLines(up)[k..] == MessageLines(up[k..]);
  }

  lemma DownFragment(f: FloatText, buffer: string, channel: string, down: seq<RuntimeCommand>, count: nat)
    requires DownCarries(f, buffer, channel, down) && count <= |channel|
    ensures var (first, partial) := Split(buffer + channel[..count]);
            && |first| <= |down| && AllSendable(f, down[..|first|]) && first == CommandLines(f, down[..|first|])
            && DownCarries(f, partial, channel[count..], down[|first|..]) && |partial| <= MAXIMUM_HELPER_MESSAGE_SIZE
  {
    hide Stream, Split, CommandLine, Sendable;
    var k := |Split(buffer + channel[..count]).0|;
    FragmentOf(buffer, channel, CommandLines(f, down), count);
    assert CommandLines(f, down)[..k] == CommandLines(f, down[..k]);
    assert CommandLines(f, down)[k..] == CommandLines(f, down[k..]);
  }

  /** Whether the helper can still read. */
  predicate Reading(stage: Stage) {
    stage.Starting? || stage.Running?
  }

  /** The bytes of a wire carry the messages of a net. A helper that has seen the Workload end reads no more. */
  predicate Carries(f: FloatText, w: Wire, n: Net) {
    && w.core == n.core
    && (!w.core.lost ==>
          && UpCarries(w.supervisorBuffer, w.up, n.up)
          && (Reading(w.core.stage) ==> DownCarries(f, w.helperBuffer, w.down, n.down)))
  }

  // ----- The Supervisor reads a fragment -----

  /** What the Supervisor takes from some messages. */
  function TakeAll(s: Supervisor, up: seq<Message>): (Supervisor, seq<HelperEvent>)
    decreases |up|
  {
    if up == [] then (s, [])
    else
      var (next, event) := Take(s, up[0]);
      var (last, events) := TakeAll(next, up[1..]);
      (last, [event] + events)
  }

  /** All of them are in order. */
  predicate InOrder(s: Supervisor, up: seq<Message>)
    decreases |up|
  {
    && !s.phase.Failed?
    && (up != [] ==> !Take(s, up[0]).1.ConversationLost? && InOrder(Take(s, up[0]).0, up[1..]))
  }

  lemma {:induction false} RunTakesAll(s: Supervisor, up: seq<Message>, partial: string)
    requires AllInRange(up) && InOrder(s, up) && |partial| <= MAXIMUM_HELPER_MESSAGE_SIZE
    ensures Run(SupervisorMachine(), s, MessageLines(up), partial)
            == Feed(TakeAll(s, up).0, partial, TakeAll(s, up).1)
    decreases |up|
  {
    if up != [] {
      MessageStep(s, up[0]);
      MessagesAreShort(up[0]);
      assert MessageLines(up)[1..] == MessageLines(up[1..]);
      RunTakesAll(Take(s, up[0]).0, up[1..], partial);
    }
  }

  /** Taking messages one after the other is taking them all, and the invariant says they are in order. */
  lemma {:induction false} ReadMany(f: FloatText, n: Net, k: nat) returns (t: Net)
    requires Invariant(f, n) && !n.core.lost && !n.core.life.over && k <= |n.up|
    ensures Invariant(f, t) && InOrder(n.core.supervisor, n.up[..k])
    ensures var (s, events) := TakeAll(n.core.supervisor, n.up[..k]);
            t == Net(n.core.(supervisor := s, inbox := n.core.inbox + events), n.down, n.up[k..])
    decreases k
  {
    t := n;
    if k == 0 {
      assert n.core.inbox + [] == n.core.inbox;
    } else {
      ReadOne(f, n);
      var next := Net(ProfileProtocol.Receive(n.core, n.up[0]), n.down, n.up[1..]);
      t := ReadMany(f, next, k - 1);
      TakeAllOneMore(n.core.supervisor, n.up, k, n.core.inbox);
      assert n.up[1..][k - 1..] == n.up[k..];
    }
  }

  lemma ReadOne(f: FloatText, n: Net)
    requires Invariant(f, n) && !n.core.lost && !n.core.life.over && n.up != []
    ensures var next := Net(ProfileProtocol.Receive(n.core, n.up[0]), n.down, n.up[1..]);
            && Invariant(f, next) && next.core.lost == n.core.lost && next.core.life == n.core.life
            && !n.core.supervisor.phase.Failed? && !Take(n.core.supervisor, n.up[0]).1.ConversationLost?
  {
    ReceiveKeeps(f, n);
  }

  lemma TakeAllOneMore(s: Supervisor, up: seq<Message>, k: nat, inbox: seq<HelperEvent>)
    requires 0 < k <= |up|
    ensures up[..k][1..] == up[1..][..k - 1] && up[..k] != [] && up[..k][0] == up[0]
    ensures var rest := TakeAll(Take(s, up[0]).0, up[1..][..k - 1]);
            && TakeAll(s, up[..k]).0 == rest.0
            && (inbox + [Take(s, up[0]).1]) + rest.1 == inbox + TakeAll(s, up[..k]).1
  {
    assert up[..k][1..] == up[1..][..k - 1];
  }

  lemma SupervisorReadsWire(f: FloatText, w: Wire, n: Net, count: nat) returns (t: Net)
    requires Carries(f, w, n) && Invariant(f, n) && !w.core.lost
    requires WireEnabled(f, w, SupervisorReadsBytes(count))
    ensures Invariant(f, t) && Carries(f, WireNext(f, w, SupervisorReadsBytes(count)), t)
  {
    var (first, partial) := Split(w.supervisorBuffer + w.up[..count]);
    UpFragment(w.supervisorBuffer, w.up, n.up, count);
    t := ReadMany(f, n, |first|);
    RunTakesAll(n.core.supervisor, n.up[..|first|], partial);
    assert [] + TakeAll(n.core.supervisor, n.up[..|first|]).1 == TakeAll(n.core.supervisor, n.up[..|first|]).1;
  }

  // ----- The helper reads a fragment -----

  /** Stop commands do nothing to the helper's conversation but to be remembered. */
  predicate OnlyStops(commands: seq<RuntimeCommand>) {
    forall i :: 0 <= i < |commands| ==> !commands[i].ChangeProfile?
  }

  function Stopped(r: Runtime, commands: seq<RuntimeCommand>): Runtime {
    if commands == [] then r else r.(stopping := true)
  }

  /** The helper's conversation over one line it accepts. */
  lemma RunAccepts(f: FloatText, r: Runtime, command: RuntimeCommand, lines: seq<string>, partial: string)
    requires Faithful(f) && (command.ChangeProfile? ==> Sendable(f, command.change))
    requires r.valid && AcceptCommand(r, command).1
    ensures Run(RuntimeMachine(f), r, [CommandLine(f, command)] + lines, partial)
            == Run(RuntimeMachine(f), AcceptCommand(r, command).0, lines, partial).After([command])
  {
    CommandStep(f, r, command);
    CommandsAreShort(f, command);
    hide RuntimeStep, CommandLine;
    var all := [CommandLine(f, command)] + lines;
    assert all[0] == CommandLine(f, command) && all[1..] == lines;
  }

  lemma {:induction false} RunStops(f: FloatText, r: Runtime, commands: seq<RuntimeCommand>, partial: string)
    requires Faithful(f) && OnlyStops(commands) && r.valid && !r.workloadFinished
    requires |partial| <= MAXIMUM_HELPER_MESSAGE_SIZE
    ensures Run(RuntimeMachine(f), r, CommandLines(f, commands), partial)
            == Feed(Stopped(r, commands), partial, commands)
    decreases |commands|
  {
    hide RuntimeStep, CommandLine, Sendable;
    if commands == [] {
    } else {
      hide Run;
      RunAccepts(f, r, commands[0], CommandLines(f, commands[1..]), partial);
      RunStops(f, r.(stopping := true), commands[1..], partial);
      assert CommandLines(f, commands) == [CommandLine(f, commands[0])] + CommandLines(f, commands[1..]);
      assert [commands[0]] + commands[1..] == commands;
    }
  }

  lemma {:induction false} CarryOutStops(c: Core, commands: seq<RuntimeCommand>, kernel: ShapingResult)
    requires OnlyStops(commands)
    ensures CarryOut(c, commands, kernel) == (c, "")
    decreases |commands|
  {
    if commands != [] {
      CarryOutStops(c, commands[1..], kernel);
    }
  }

  /** Obeying stop commands one after the other. */
  lemma {:induction false} ObeyStops(f: FloatText, n: Net, k: nat) returns (t: Net)
    requires Invariant(f, n) && !n.core.lost && n.core.stage.Running? && k <= |n.down| && OnlyStops(n.down[..k])
    ensures Invariant(f, t)
    ensures t == Net(n.core.(runtime := Stopped(n.core.runtime, n.down[..k])), n.down[k..], n.up)
    decreases k
  {
    t := n;
    if k > 0 {
      var next := Net(n.core.(runtime := n.core.runtime.(stopping := true)), n.down[1..], n.up);
      ObeyOneStop(f, n);
      assert n.down[1..][..k - 1] == n.down[..k][1..] && n.down[1..][k - 1..] == n.down[k..];
      t := ObeyStops(f, next, k - 1);
    }
  }

  lemma ObeyOneStop(f: FloatText, n: Net)
    requires Invariant(f, n) && !n.core.lost && n.core.stage.Running? && n.down != [] && !n.down[0].ChangeProfile?
    ensures Invariant(f, Net(n.core.(runtime := n.core.runtime.(stopping := true)), n.down[1..], n.up))
  {
    HelperReadKeeps(f, n, ShapingApplied);
    ObeyAccepts(f, n, ShapingApplied);
    assert n.up + [] == n.up;
  }

  /** The helper's conversation over a frame and stop commands behind it. */
  lemma RunFrame(f: FloatText, r: Runtime, change: Change, stops: seq<RuntimeCommand>, partial: string)
    requires Faithful(f) && Sendable(f, change) && OnlyStops(stops)
    requires r.valid && !r.workloadFinished && r.pending.None? && !r.stopping && !r.profileStateUnknown
    requires |partial| <= MAXIMUM_HELPER_MESSAGE_SIZE
    ensures Run(RuntimeMachine(f), r, [CommandLine(f, ChangeProfile(change))] + CommandLines(f, stops), partial)
            == Feed(Stopped(r.(pending := Some(change)), stops), partial, [ChangeProfile(change)] + stops)
  {
    RunAccepts(f, r, ChangeProfile(change), CommandLines(f, stops), partial);
    RunStops(f, r.(pending := Some(change)), stops, partial);
  }

  /** Commands read from a fragment are carried out as when they are obeyed one after the other. */
  lemma StopsCarriedOut(f: FloatText, n: Net, k: nat, partial: string, kernel: ShapingResult) returns (t: Net)
    requires Faithful(f) && Invariant(f, n) && !n.core.lost && n.core.stage.Running? && k <= |n.down|
    requires OnlyStops(n.down[..k]) && |partial| <= MAXIMUM_HELPER_MESSAGE_SIZE
    ensures var feed := Run(RuntimeMachine(f), n.core.runtime, CommandLines(f, n.down[..k]), partial);
            && feed.buffer == partial && feed.state.valid && Invariant(f, t)
            && CarryOut(n.core.(runtime := feed.state), feed.out, kernel) == (t.core, "")
            && t == Net(t.core, n.down[k..], n.up) && t.core.lost == n.core.lost && t.core.stage == n.core.stage
  {
    RunStops(f, n.core.runtime, n.down[..k], partial);
    t := ObeyStops(f, n, k);
    CarryOutStops(t.core, n.down[..k], kernel);
  }

  lemma FrameCarriedOut(f: FloatText, n: Net, k: nat, partial: string, kernel: ShapingResult) returns (t: Net)
    requires Faithful(f) && Invariant(f, n) && !n.core.lost && n.core.stage.Running? && 0 < k <= |n.down|
    requires IsFrame(n.down) && Sendable(f, n.down[0].change)
    requires OnlyStops(n.down[1..k]) && |partial| <= MAXIMUM_HELPER_MESSAGE_SIZE
    ensures var feed := Run(RuntimeMachine(f), n.core.runtime,
                            [CommandLine(f, n.down[0])] + CommandLines(f, n.down[1..k]), partial);
            var completion := AdapterApply(n.core.confirmed, n.down[0].change, kernel).1;
            && feed.buffer == partial && feed.state.valid && Invariant(f, t)
            && CarryOut(n.core.(runtime := feed.state), feed.out, kernel) == (t.core, CompletionLine(completion) + "\n")
            && t == Net(t.core, n.down[k..], n.up + [ReplyMessage(completion)])
            && t.core.lost == n.core.lost && t.core.stage == n.core.stage
  {
    hide Apply, FlightOk, RuntimeStep;
    var c, change, stops := n.core, n.down[0].change, n.down[1..k];
    HelperReadKeeps(f, n, kernel);
    ObeyAccepts(f, n, kernel);
    var (confirmed, completion) := AdapterApply(c.confirmed, change, kernel);
    var next := Net(Answered(c, change, kernel), n.down[1..], n.up + [ReplyMessage(completion)]);
    assert n.down[1..][..k - 1] == stops && n.down[1..][k - 1..] == n.down[k..];
    t := ObeyStops(f, next, k - 1);
    RunFrame(f, c.runtime, change, stops, partial);
    CarryOutFrame(c, change, stops, kernel);
  }

  lemma CarryOutFrame(c: Core, change: Change, stops: seq<RuntimeCommand>, kernel: ShapingResult)
    requires OnlyStops(stops) && c.runtime.valid && !c.runtime.workloadFinished && c.runtime.pending.None?
    ensures CarryOut(c.(runtime := Stopped(c.runtime.(pending := Some(change)), stops)),
                     [ChangeProfile(change)] + stops, kernel)
            == (Answered(c, change, kernel).(runtime := Stopped(Answered(c, change, kernel).runtime, stops)),
                CompletionLine(AdapterApply(c.confirmed, change, kernel).1) + "\n")
  {
    hide AdapterApply, Apply, Errors;
    var (confirmed, completion) := AdapterApply(c.confirmed, change, kernel);
    var commands := [ChangeProfile(change)] + stops;
    assert commands[1..] == stops;
    CarryOutStops(Answered(c, change, kernel).(runtime := Stopped(Answered(c, change, kernel).runtime, stops)),
                  stops, kernel);
    Ended(CompletionLine(completion) + "\n");
  }

  lemma Ended(text: string)
    ensures text + "" == text
  {
  }

  lemma OneLineText(line: string)
    ensures Text([line]) == line + "\n"
  {
    assert [line][1..] == [];
    assert line + "\n" + "" == line + "\n";
  }

  lemma ReplyText(completion: Completion)
    ensures Text(MessageLines([ReplyMessage(completion)])) == CompletionLine(completion) + "\n"
  {
    OneLineText(CompletionLine(completion));
    assert MessageLines([ReplyMessage(completion)]) == [CompletionLine(completion)];
  }

  /** A reading in which the conversation stays valid. */
  lemma HelperReading(f: FloatText, w: Wire, count: nat, kernel: ShapingResult, feed: Feed<Runtime, RuntimeCommand>)
    requires WireEnabled(f, w, HelperReadsBytes(count, kernel)) && feed.state.valid
    requires var (first, partial) := Split(w.helperBuffer + w.down[..count]);
             feed == Run(RuntimeMachine(f), w.core.runtime, first, partial)
    ensures var (core, replies) := CarryOut(w.core.(runtime := feed.state), feed.out, kernel);
            WireNext(f, w, HelperReadsBytes(count, kernel))
            == Wire(core, feed.buffer, w.down[count..], w.supervisorBuffer, w.up + replies)
  {
  }

  /** The wire after a reading carries the net after the commands were obeyed. */
  lemma ReadingCarries(f: FloatText, w: Wire, n: Net, count: nat, kernel: ShapingResult,
                       feed: Feed<Runtime, RuntimeCommand>, t: Net, more: seq<Message>, text: string)
    requires Carries(f, w, n) && !w.core.lost
    requires WireEnabled(f, w, HelperReadsBytes(count, kernel)) && feed.state.valid
    requires var (first, partial) := Split(w.helperBuffer + w.down[..count]);
             && feed == Run(RuntimeMachine(f), w.core.runtime, first, partial) && feed.buffer == partial
             && |first| <= |n.down| && t == Net(t.core, n.down[|first|..], n.up + more)
    requires CarryOut(n.core.(runtime := feed.state), feed.out, kernel) == (t.core, text)
    requires t.core.lost == n.core.lost && t.core.stage == n.core.stage
    requires AllInRange(more) && text == Text(MessageLines(more))
    ensures Carries(f, WireNext(f, w, HelperReadsBytes(count, kernel)), t)
  {
    HelperReading(f, w, count, kernel, feed);
    DownFragment(f, w.helperBuffer, w.down, n.down, count);
    UpAppend(w.supervisorBuffer, w.up, n.up, more);
  }

  lemma StopsRead(f: FloatText, w: Wire, n: Net, count: nat, kernel: ShapingResult, k: nat, partial: string, t: Net)
    requires Carries(f, w, n) && !w.core.lost && WireEnabled(f, w, HelperReadsBytes(count, kernel))
    requires k <= |n.down| && AllSendable(f, n.down[..k])
    requires Split(w.helperBuffer + w.down[..count]) == (CommandLines(f, n.down[..k]), partial)
    requires var feed := Run(RuntimeMachine(f), n.core.runtime, CommandLines(f, n.down[..k]), partial);
             && feed.buffer == partial && feed.state.valid
             && CarryOut(n.core.(runtime := feed.state), feed.out, kernel) == (t.core, "")
             && t == Net(t.core, n.down[k..], n.up) && t.core.lost == n.core.lost && t.core.stage == n.core.stage
    ensures Carries(f, WireNext(f, w, HelperReadsBytes(count, kernel)), t)
  {
    var feed := Run(RuntimeMachine(f), n.core.runtime, CommandLines(f, n.down[..k]), partial);
    assert n.up + [] == n.up;
    ReadingCarries(f, w, n, count, kernel, feed, t, [], "");
  }

  lemma HelperReadsStops(f: FloatText, w: Wire, n: Net, count: nat, kernel: ShapingResult) returns (t: Net)
    requires Faithful(f) && Carries(f, w, n) && Invariant(f, n) && !w.core.lost
    requires WireEnabled(f, w, HelperReadsBytes(count, kernel))
    requires var k := |Split(w.helperBuffer + w.down[..count]).0|; k <= |n.down| && OnlyStops(n.down[..k])
    ensures Invariant(f, t) && Carries(f, WireNext(f, w, HelperReadsBytes(count, kernel)), t)
  {
    var (first, partial) := Split(w.helperBuffer + w.down[..count]);
    DownFragment(f, w.helperBuffer, w.down, n.down, count);
    t := StopsCarriedOut(f, n, |first|, partial, kernel);
    StopsRead(f, w, n, count, kernel, |first|, partial, t);
  }

  lemma FrameRead(f: FloatText, w: Wire, n: Net, count: nat, kernel: ShapingResult, k: nat, partial: string, t: Net)
    requires Carries(f, w, n) && !w.core.lost && WireEnabled(f, w, HelperReadsBytes(count, kernel))
    requires 0 < k <= |n.down| && AllSendable(f, n.down) && IsFrame(n.down)
    requires Split(w.helperBuffer + w.down[..count])
             == ([CommandLine(f, n.down[0])] + CommandLines(f, n.down[1..k]), partial)
    requires var feed := Run(RuntimeMachine(f), n.core.runtime,
                             [CommandLine(f, n.down[0])] + CommandLines(f, n.down[1..k]), partial);
             var completion := AdapterApply(n.core.confirmed, n.down[0].change, kernel).1;
             && feed.buffer == partial && feed.state.valid
             && CarryOut(n.core.(runtime := feed.state), feed.out, kernel) == (t.core, CompletionLine(completion) + "\n")
             && t == Net(t.core, n.down[k..], n.up + [ReplyMessage(completion)])
             && t.core.lost == n.core.lost && t.core.stage == n.core.stage
    ensures Carries(f, WireNext(f, w, HelperReadsBytes(count, kernel)), t)
  {
    hide Split, CommandLine, AdapterApply;
    var feed := Run(RuntimeMachine(f), n.core.runtime,
                    [CommandLine(f, n.down[0])] + CommandLines(f, n.down[1..k]), partial);
    var completion := AdapterApply(n.core.confirmed, n.down[0].change, kernel).1;
    ReplyText(completion);
    ReadingCarries(f, w, n, count, kernel, feed, t, [ReplyMessage(completion)], CompletionLine(completion) + "\n");
  }

  lemma HelperReadsFrame(f: FloatText, w: Wire, n: Net, count: nat, kernel: ShapingResult) returns (t: Net)
    requires Faithful(f) && Carries(f, w, n) && Invariant(f, n) && !w.core.lost
    requires WireEnabled(f, w, HelperReadsBytes(count, kernel)) && IsFrame(n.down)
    requires var k := |Split(w.helperBuffer + w.down[..count]).0|; 0 < k <= |n.down| && OnlyStops(n.down[1..k])
    ensures Invariant(f, t) && Carries(f, WireNext(f, w, HelperReadsBytes(count, kernel)), t)
  {
    var (first, partial) := Split(w.helperBuffer + w.down[..count]);
    FrameFirst(f, w, n.down, count);
    t := FrameCarriedOut(f, n, |first|, partial, kernel);
    FrameRead(f, w, n, count, kernel, |first|, partial, t);
  }

  lemma FrameFirst(f: FloatText, w: Wire, down: seq<RuntimeCommand>, count: nat)
    requires DownCarries(f, w.helperBuffer, w.down, down) && count <= |w.down| && IsFrame(down)
    requires |Split(w.helperBuffer + w.down[..count]).0| > 0
    ensures var (first, partial) := Split(w.helperBuffer + w.down[..count]);
            && |first| <= |down| && |partial| <= MAXIMUM_HELPER_MESSAGE_SIZE
            && AllSendable(f, down[1..|first|])
            && first == [CommandLine(f, down[0])] + CommandLines(f, down[1..|first|])
  {
    hide Split, CommandLine, Stream;
    var k := |Split(w.helperBuffer + w.down[..count]).0|;
    DownFragment(f, w.helperBuffer, w.down, down, count);
    assert down[..k] == [down[0]] + down[1..k];
  }

  lemma HelperReadsWire(f: FloatText, w: Wire, n: Net, count: nat, kernel: ShapingResult) returns (t: Net)
    requires Faithful(f) && Carries(f, w, n) && Invariant(f, n) && !w.core.lost
    requires WireEnabled(f, w, HelperReadsBytes(count, kernel))
    ensures Invariant(f, t) && Carries(f, WireNext(f, w, HelperReadsBytes(count, kernel)), t)
  {
    var k := |Split(w.helperBuffer + w.down[..count]).0|;
    DownFragment(f, w.helperBuffer, w.down, n.down, count);
    OneFrameInFront(f, n, k);
    if k == 0 || !IsFrame(n.down) {
      t := HelperReadsStops(f, w, n, count, kernel);
    } else {
      t := HelperReadsFrame(f, w, n, count, kernel);
    }
  }

  lemma OneFrameInFront(f: FloatText, n: Net, k: nat)
    requires Invariant(f, n) && !n.core.lost && k <= |n.down|
    ensures k > 0 ==> OnlyStops(n.down[1..k])
    ensures k == 0 || !IsFrame(n.down) ==> OnlyStops(n.down[..k])
  {
  }

  // ----- The other steps -----

  lemma ActingWire(f: FloatText, w: Wire, n: Net, step: Step) returns (t: Net)
    requires Carries(f, w, n) && Invariant(f, n) && !w.core.lost
    requires Acting(step) && ActingEnabled(w.core, step)
    ensures Invariant(f, t) && Carries(f, WireNext(f, w, Inner(step)), t)
  {
    hide Invariant, Stream, Obey;
    ActingKeeps(f, n, step);
    t := Next(f, n, step);
    var (_, m) := ActingStep(n.core, step);
    OneLineText(MessageLine(m));
    assert MessageLines([m]) == [MessageLine(m)];
    UpAppend(w.supervisorBuffer, w.up, n.up, [m]);
  }

  /** The frames and stop commands a local step writes are the lines of what it sends. */
  predicate WritesWhatItSends(f: FloatText, core: Core, frames: seq<string>, stops: seq<RuntimeCommand>) {
    && OnlyStops(stops) && AllSendable(f, Sent(core, frames))
    && Concat(frames) + Stops(stops) == Text(CommandLines(f, Sent(core, frames) + stops))
  }

  lemma {:induction false} StopsText(f: FloatText, stops: seq<RuntimeCommand>)
    requires OnlyStops(stops)
    ensures Stops(stops) == Text(CommandLines(f, stops))
  {
    if stops != [] {
      StopsText(f, stops[1..]);
      assert CommandLines(f, stops)[1..] == CommandLines(f, stops[1..]);
    }
  }

  lemma FramesText(f: FloatText, core: Core, frames: seq<string>)
    requires frames != [] ==> core.supervisor.pending.Some? && Sendable(f, core.supervisor.pending.value)
                              && frames == [FrameLine(f, core.supervisor.pending.value) + "\n"]
    ensures WritesWhatItSends(f, core, frames, [])
  {
    if frames != [] {
      var line := FrameLine(f, core.supervisor.pending.value);
      OneLineText(line);
      assert frames[1..] == [] && frames[0] + "" == frames[0];
      assert CommandLines(f, Sent(core, frames) + []) == [line];
    }
  }

  /** A frame is written only for the change the conversation then waits for. */
  lemma PerformedFrames(f: FloatText, c: Core, event: Event, oks: seq<bool>)
    requires PlaneOk(f, c) && c.created && Executed(event) && RoundsInRange(f) && Writes(f, c, event, oks)
    requires event.Attached? ==> !c.client
    requires event.ChangeResult? ==> c.plane.inFlight.Some? && c.plane.inFlight.value.change == event.change
    ensures var (d, frames) := Perform(f, c, event, oks);
            !d.lost ==> WritesWhatItSends(f, d, frames, [])
  {
    var raised := PerformSummary(f, c, event, oks);
    var (d, frames) := Perform(f, c, event, oks);
    if !d.lost {
      FramesText(f, d, frames);
    }
  }

  lemma HandledFrames(f: FloatText, n: Net, step: Step)
    requires Invariant(f, n) && !n.core.lost && RoundsInRange(f) && LocalEnabled(f, n.core, step) && step.HandleHelperEvent?
    requires !LocalStep(f, n.core, step).0.lost
    ensures var (core, frames, stops) := LocalStep(f, n.core, step);
            WritesWhatItSends(f, core, frames, stops)
  {
    hide Perform, LifeTurn, DecimalNumber;
    if EventOf(n.core.inbox[0]).Some? {
      PoppedOk(f, n);
      PerformedFrames(f, Popped(n).core, EventOf(n.core.inbox[0]).value, step.oks);
    } else {
      FramesText(f, LocalStep(f, n.core, step).0, []);
    }
  }

  lemma LocalFrames(f: FloatText, n: Net, step: Step)
    requires Invariant(f, n) && !n.core.lost && RoundsInRange(f) && Local(step) && LocalEnabled(f, n.core, step)
    requires !LocalStep(f, n.core, step).0.lost
    ensures var (core, frames, stops) := LocalStep(f, n.core, step);
            WritesWhatItSends(f, core, frames, stops)
  {
    var (core, frames, stops) := LocalStep(f, n.core, step);
    if step.HandleHelperEvent? {
      HandledFrames(f, n, step);
    } else if step.ClientBytes? {
      PerformedFrames(f, n.core, BytesReceived(step.bytes), step.oks);
    } else if step.AcceptClient? && !n.core.client {
      PerformedFrames(f, n.core, Attached, step.oks);
    } else {
      StopsText(f, stops);
      assert Sent(core, frames) + stops == stops;
      assert "" + Stops(stops) == Stops(stops);
    }
  }

  lemma PerformLeavesStage(f: FloatText, c: Core, event: Event, oks: seq<bool>)
    requires Writes(f, c, event, oks)
    ensures Perform(f, c, event, oks).0.stage == c.stage
  {
    hide HandleAndExecute, Handle;
  }

  lemma HandleStageStays(f: FloatText, c: Core, listening: bool, oks: seq<bool>)
    requires LocalEnabled(f, c, HandleHelperEvent(listening, oks))
    ensures HandleNext(f, c, listening, oks).0.stage == c.stage
  {
    var rest := c.(inbox := c.inbox[1..]);
    if EventOf(c.inbox[0]).Some? {
      PerformLeavesStage(f, rest, EventOf(c.inbox[0]).value, oks);
    }
    hide Perform, Handle;
  }

  lemma LocalStageStays(f: FloatText, c: Core, step: Step)
    requires LocalEnabled(f, c, step)
    ensures LocalStep(f, c, step).0.stage == c.stage
  {
    if step.HandleHelperEvent? {
      HandleStageStays(f, c, step.listening, step.oks);
    }
  }

  lemma SentCarried(f: FloatText, w: Wire, n: Net, core: Core, frames: seq<string>, stops: seq<RuntimeCommand>)
    requires Faithful(f) && DownCarries(f, w.helperBuffer, w.down, n.down) && WritesWhatItSends(f, core, frames, stops)
    ensures DownCarries(f, w.helperBuffer, w.down + Concat(frames) + Stops(stops), n.down + Sent(core, frames) + stops)
  {
    DownAppend(f, w.helperBuffer, w.down, n.down, Sent(core, frames) + stops);
    Regroup(n.down, Sent(core, frames), stops);
    Regroup(w.down, Concat(frames), Stops(stops));
  }

  lemma LocalWire(f: FloatText, w: Wire, n: Net, step: Step) returns (t: Net)
    requires Faithful(f) && RoundsInRange(f) && Carries(f, w, n) && Invariant(f, n) && !w.core.lost
    requires Local(step) && LocalEnabled(f, w.core, step)
    ensures Invariant(f, t) && Carries(f, WireNext(f, w, Inner(step)), t)
  {
    StepKeeps(f, n, step);
    t := Next(f, n, step);
    LocalStageStays(f, n.core, step);
    var (core, frames, stops) := LocalStep(f, n.core, step);
    if !core.lost && Reading(core.stage) {
      LocalFrames(f, n, step);
      SentCarried(f, w, n, core, frames, stops);
    }
  }

  // ----- Every run over bytes -----

  predicate WireCanRun(f: FloatText, w: Wire, steps: seq<WireStep>)
    decreases |steps|
  {
    steps == [] || (WireEnabled(f, w, steps[0]) && WireCanRun(f, WireNext(f, w, steps[0]), steps[1..]))
  }

  function WireRun(f: FloatText, w: Wire, steps: seq<WireStep>): Wire
    requires WireCanRun(f, w, steps)
    decreases |steps|
  {
    if steps == [] then w else WireRun(f, WireNext(f, w, steps[0]), steps[1..])
  }

  lemma WireStepKeeps(f: FloatText, w: Wire, n: Net, step: WireStep) returns (t: Net)
    requires Faithful(f) && RoundsInRange(f) && Carries(f, w, n) && Invariant(f, n) && !w.core.lost
    requires WireEnabled(f, w, step)
    ensures Invariant(f, t) && Carries(f, WireNext(f, w, step), t)
  {
    match step
    case HelperReadsBytes(count, kernel) => t := HelperReadsWire(f, w, n, count, kernel);
    case SupervisorReadsBytes(count) => t := SupervisorReadsWire(f, w, n, count);
    case Inner(inner) =>
      if Local(inner) {
        t := LocalWire(f, w, n, inner);
      } else {
        t := ActingWire(f, w, n, inner);
      }
  }

  lemma WireLostStays(f: FloatText, w: Wire, step: WireStep)
    requires w.core.lost && WireEnabled(f, w, step)
    ensures WireNext(f, w, step).core.lost
  {
    match step
    case Inner(inner) =>
      if Local(inner) {
        LostStays(f, Net(w.core, [], []), inner);
      }
    case HelperReadsBytes(count, kernel) =>
      var feed := LineMachines.Receive(RuntimeMachine(f), w.core.runtime, w.helperBuffer, w.down[..count]);
      CarryOutLeavesLost(w.core.(runtime := feed.state), feed.out, kernel);
    case _ =>
  }

  lemma {:induction false} CarryOutLeavesLost(c: Core, commands: seq<RuntimeCommand>, kernel: ShapingResult)
    ensures CarryOut(c, commands, kernel).0.lost == c.lost
    decreases |commands|
  {
    if commands != [] {
      match commands[0]
      case ChangeProfile(change) =>
        var (confirmed, completion) := AdapterApply(c.confirmed, change, kernel);
        CarryOutLeavesLost(c.(confirmed := confirmed, runtime := Complete(c.runtime, completion).0), commands[1..], kernel);
      case _ => CarryOutLeavesLost(c, commands[1..], kernel);
    }
  }

  lemma {:induction false} WireRunKeeps(f: FloatText, w: Wire, n: Net, steps: seq<WireStep>) returns (t: Net)
    requires Faithful(f) && RoundsInRange(f) && WireCanRun(f, w, steps)
    requires w.core.lost || (Carries(f, w, n) && Invariant(f, n))
    ensures var last := WireRun(f, w, steps);
            last.core.lost || (Carries(f, last, t) && Invariant(f, t))
    decreases |steps|
  {
    t := n;
    if steps != [] {
      var next := WireNext(f, w, steps[0]);
      if w.core.lost {
        WireLostStays(f, w, steps[0]);
      } else {
        t := WireStepKeeps(f, w, n, steps[0]);
      }
      t := WireRunKeeps(f, next, t, steps[1..]);
    }
  }

  /** The next complete line of what a side has still to read. */
  function NextLine(buffer: string, channel: string): Option<string> {
    match TakeNextLine(buffer + channel) case None => None case Some((line, _)) => Some(line)
  }

  lemma InitiallyCarried(f: FloatText)
    ensures Carries(f, WIRE_START, NET_START) && Invariant(f, NET_START)
  {
    assert Text([]) == "" && "" + "" == "";
  }

  /** Over bytes, in every interleaving and every fragmentation, as long as the conversation was not reported lost:
      both sides have the same confirmed profile, or the Supervisor's with the change in flight applied while the next
      thing the Supervisor will read is `PROFILE_OK`, or it has read it and not handled it yet; no legal frame is ever
      refused, and the Supervisor never fails on the order of messages. */
  lemma AgreementOverBytes(f: FloatText, steps: seq<WireStep>)
    requires Faithful(f) && RoundsInRange(f) && WireCanRun(f, WIRE_START, steps)
    requires !WireRun(f, WIRE_START, steps).core.lost
    ensures var w := WireRun(f, WIRE_START, steps);
            var c := w.core;
            && (|| c.runtime.profileStateUnknown
                || c.confirmed == c.plane.confirmed
                || (&& c.plane.inFlight.Some?
                    && Apply(c.plane.confirmed, c.plane.inFlight.value.change) == Accepted(c.confirmed)
                    && (|| NextLine(w.supervisorBuffer, w.up) == Some("PROFILE_OK")
                        || (c.inbox != [] && c.inbox[0] == ProfileResult(true, c.plane.inFlight.value.change)))))
            && c.runtime.valid && !c.supervisor.phase.Failed?
  {
    hide Apply, WireNext, WireRun;
    var w := WireRun(f, WIRE_START, steps);
    InitiallyCarried(f);
    var n := WireRunKeeps(f, WIRE_START, NET_START, steps);
    AgreementOf(f, n);
    if IsReply(n.up) && n.up[0].completion.Applied? {
      NextLineOf(w.supervisorBuffer, w.up, n.up);
    }
  }

  lemma NextLineOf(buffer: string, channel: string, up: seq<Message>)
    requires UpCarries(buffer, channel, up) && up != []
    ensures NextLine(buffer, channel) == Some(MessageLine(up[0]))
  {
    var line, rest := MessageLine(up[0]), Text(MessageLines(up)[1..]);
    assert OneLine(line) by { MessagesAreShort(up[0]); }
    FirstNewlineAfter(line, rest);
    assert buffer + channel == line + "\n" + rest;
    assert (line + "\n" + rest)[..|line|] == line;
  }

  lemma AgreementOf(f: FloatText, n: Net)
    requires Invariant(f, n) && !n.core.lost
    ensures var c := n.core;
            && (|| c.runtime.profileStateUnknown
                || c.confirmed == c.plane.confirmed
                || (&& c.plane.inFlight.Some?
                    && Apply(c.plane.confirmed, c.plane.inFlight.value.change) == Accepted(c.confirmed)
                    && (|| (IsReply(n.up) && n.up[0].completion.Applied?)
                        || (c.inbox != [] && c.inbox[0] == ProfileResult(true, c.plane.inFlight.value.change)))))
            && c.runtime.valid && !c.supervisor.phase.Failed?
  {
  }

  // ----- What is on the wire -----

  /** The complete lines a side has still to read. */
  function LinesToRead(buffer: string, channel: string): seq<string> {
    Split(buffer + channel).0
  }

  /** A line the helper reads as a Profile Change. */
  predicate ReadsAsChange(f: FloatText, line: string) {
    ParseRuntimeCommand(f, line).Some? && ParseRuntimeCommand(f, line).value.ChangeProfile?
  }

  /** A line that answers a Profile Change. */
  predicate IsAnswer(line: string) {
    line == CompletionLine(Applied) || line == CompletionLine(RestoredAfterFailure) || line == CompletionLine(StateUnknown)
  }

  function ChangesIn(f: FloatText, lines: seq<string>): nat {
    if lines == [] then 0 else (if ReadsAsChange(f, lines[0]) then 1 else 0) + ChangesIn(f, lines[1..])
  }

  function AnswersIn(lines: seq<string>): nat {
    if lines == [] then 0 else (if IsAnswer(lines[0]) then 1 else 0) + AnswersIn(lines[1..])
  }

  lemma CarriedLines(buffer: string, channel: string, lines: seq<string>)
    requires Stream(buffer, channel, lines)
    ensures LinesToRead(buffer, channel) == lines
  {
    assert AllLines(lines) by {
      forall i | 0 <= i < |lines| ensures OneLine(lines[i]) {
        assert Short(lines[i]);
      }
    }
    hide Text, Split;
    SplitText(lines, "");
    assert Text(lines) + "" == Text(lines);
  }

  lemma CommandLineRead(f: FloatText, command: RuntimeCommand)
    requires Faithful(f) && (command.ChangeProfile? ==> Sendable(f, command.change))
    ensures ReadsAsChange(f, CommandLine(f, command)) <==> command.ChangeProfile?
  {
    hide CommandLine, ParseRuntimeCommand;
    CommandRead(f, command);
  }

  lemma {:induction false} ChangesInCommands(f: FloatText, down: seq<RuntimeCommand>)
    requires Faithful(f) && AllSendable(f, down)
    ensures ChangesIn(f, CommandLines(f, down)) == FramesIn(down)
  {
    hide CommandLine, ReadsAsChange, Sendable;
    if down != [] {
      CommandLineRead(f, down[0]);
      ChangesInCommands(f, down[1..]);
      assert CommandLines(f, down)[1..] == CommandLines(f, down[1..]);
    }
  }

  lemma MessageAnswers(m: Message)
    requires InRange(m)
    ensures IsAnswer(MessageLine(m)) <==> m.ReplyMessage?
  {
    if m.ReplyMessage? {
      assert m.completion.Applied? || m.completion.RestoredAfterFailure? || m.completion.StateUnknown?;
    } else {
      OthersBegin(m);
      AnswersBegin(MessageLine(m));
    }
  }

  lemma OthersBegin(m: Message)
    requires InRange(m) && !m.ReplyMessage?
    ensures MessageLine(m) != [] && MessageLine(m)[0] != 'P' && MessageLine(m)[0] != 'E'
  {
  }

  lemma AnswersBegin(line: string)
    requires line != [] && line[0] != 'P' && line[0] != 'E'
    ensures !IsAnswer(line)
  {
  }

  lemma {:induction false} AnswersInMessages(up: seq<Message>)
    requires AllInRange(up)
    ensures AnswersIn(MessageLines(up)) == RepliesIn(up)
  {
    hide MessageLine, IsAnswer, InRange;
    if up != [] {
      MessageAnswers(up[0]);
      AnswersInMessages(up[1..]);
      assert MessageLines(up)[1..] == MessageLines(up[1..]);
    }
  }

  /** What the lines on the wire say about order: at most one change is outstanding from end to end, as a frame the helper
      has still to read, as an answer the Supervisor has still to read, or as a result not handled yet, and it is the one in
      flight; behind a stop command no frame follows, and a helper that was told to stop has none to read. */
  predicate InOrderOnTheWire(f: FloatText, w: Wire) {
    var down, up := LinesToRead(w.helperBuffer, w.down), LinesToRead(w.supervisorBuffer, w.up);
    var outstanding :=
      (if Reading(w.core.stage) then ChangesIn(f, down) else 0) + AnswersIn(up) + ResultsIn(w.core.inbox);
    && outstanding <= 1 && (outstanding == 1 ==> w.core.plane.inFlight.Some?)
    && (Reading(w.core.stage) ==>
          && (forall i, j :: 0 <= i < j < |down| && ReadsAsChange(f, down[j]) ==> ReadsAsChange(f, down[i]))
          && (w.core.runtime.stopping ==> ChangesIn(f, down) == 0))
  }

  lemma CarriedInOrder(f: FloatText, w: Wire, n: Net)
    requires Faithful(f) && Carries(f, w, n) && Invariant(f, n) && !w.core.lost
    ensures InOrderOnTheWire(f, w)
  {
    OneUnderway(f, n);
    CarriedLines(w.supervisorBuffer, w.up, MessageLines(n.up));
    AnswersInMessages(n.up);
    if Reading(w.core.stage) {
      CarriedLines(w.helperBuffer, w.down, CommandLines(f, n.down));
      ChangesInCommands(f, n.down);
      forall i | 0 <= i < |n.down| ensures ReadsAsChange(f, CommandLines(f, n.down)[i]) <==> n.down[i].ChangeProfile? {
        CommandLineRead(f, n.down[i]);
      }
    }
  }

  /** In every interleaving and every fragmentation, as long as the conversation was not reported lost, the bytes on the
      wire are in order. */
  lemma OneOutstandingOverBytes(f: FloatText, steps: seq<WireStep>)
    requires Faithful(f) && RoundsInRange(f) && WireCanRun(f, WIRE_START, steps)
    requires !WireRun(f, WIRE_START, steps).core.lost
    ensures InOrderOnTheWire(f, WireRun(f, WIRE_START, steps))
  {
    hide WireNext, WireRun, InOrderOnTheWire;
    InitiallyCarried(f);
    var n := WireRunKeeps(f, WIRE_START, NET_START, steps);
    CarriedInOrder(f, WireRun(f, WIRE_START, steps), n);
  }
}
