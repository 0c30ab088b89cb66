/** What the Supervisor says to an attached client, and how the client reads it. */
module AttachClient {
  import opened Wrappers
  import opened Lines
  import LineMachines
  import opened NetworkProfile
  import opened ControllerCommands
  import opened ControlPlane
  import S = StatusText
  import O = SessionOutcome
  import L = SessionLifecycle

  // ----- The text of the replies -----

  function ErrorText(error: ParseError): string {
    match error
    case CommandTooLong => "Command exceeds 1024 bytes."
    case InvalidCharacter => "Command contains an invalid character."
    case UnknownCommand => "Unknown command."
    case WrongArgumentCount => "Wrong number of arguments."
    case InvalidDirection => "Direction must be outbound or inbound."
    case InvalidSetting => "Setting must be delay, " + "jitter, loss, or bandwidth."
    case InvalidNumber => "Invalid numeric value."
    case InvalidUnit => "Invalid unit for setting."
    case ValueOutOfRange => "Value is outside the allowed range."
    case ValueOverflow => "Value is too large."
    case ValueUnderflow => "Value is too small to represent."
  }

  const ERROR := "ERROR "
  const NOT_CHANGED := "Profile change could not be applied; " + "previous profile remains active."
  const ALREADY_ATTACHED := "Another controller is already attached."

  function HelpLines(): seq<string> {
    ["HELP_BEGIN", "help - Show controller commands", "status - Show the active session",
     "stop - Stop the active Workload", "detach - Disconnect this controller", "HELP_END"]
  }

  predicate Sayable(s: S.Shown, reply: Reply) {
    reply.StatusReply? ==>
      ValidProfile(reply.profile) && s.arguments != [] && S.ContentLimit(s, reply.profile, reply.shaped) > 0
  }

  /** The lines of a reply. */
  function ReplyLines(s: S.Shown, reply: Reply): seq<string>
    requires Sayable(s, reply)
  {
    match reply
    case AttachedReply => ["ATTACHED"]
    case HelpReply => HelpLines()
    case StatusReply(profile, stopping, shaped) => S.StatusLines(s, profile, stopping, shaped)
    case ChangedReply => ["PROFILE_CHANGED"]
    case NotChangedReply => [ERROR + NOT_CHANGED]
    case StoppingReply => ["STOPPING"]
    case SessionStoppingReply => [ERROR + "Session is stopping."]
    case TooManyReply => [ERROR + "Too many queued commands."]
    case DetachedReply => ["DETACHED"]
    case ErrorReply(error) => [ERROR + ErrorText(error)]
  }

  // ----- The client -----

  datatype ResponseBlock = NoBlock | HelpBlock | StatusBlock

  /** The client ends with a code; `invalid` when it could not make sense of what it read. */
  datatype Exit = Exit(code: int, invalid: bool)

  /** `handle_supervisor_response_line`. */
  function HandleLine(block: ResponseBlock, line: string): (ResponseBlock, Option<Exit>) {
    if block.HelpBlock? then (if line == "HELP_END" then NoBlock else HelpBlock, None)
    else if block.StatusBlock? then (if line == "STATUS_END" then NoBlock else StatusBlock, None)
    else if line == "ATTACHED" || line == "PROFILE_CHANGED" then (NoBlock, None)
    else if line == "HELP_BEGIN" then (HelpBlock, None)
    else if line == "STATUS_BEGIN" then (StatusBlock, None)
    else if line == "DETACHED" then (NoBlock, Some(Exit(0, false)))
    else if line == "STOPPING" then (NoBlock, None)
    else if line == "SESSION_ENDED" then (NoBlock, Some(Exit(0, false)))
    else if line == "SESSION_FAILED" then (NoBlock, Some(Exit(1, false)))
    else if |line| >= 6 && line[..6] == ERROR then
      (NoBlock, if line[6..] == ALREADY_ATTACHED then Some(Exit(1, false)) else None)
    else (NoBlock, Some(Exit(1, true)))
  }

  /** `report_attached_session_outcome`. */
  function ReportOutcome(o: L.Outcome): Exit {
    if o.failures != [] then Exit(1, false) else if o.workload.None? then Exit(1, true) else Exit(0, false)
  }

  /** `handle_session_outcome_result`. */
  function HandleOutcome(parsed: O.Parsing): Option<Exit> {
    match parsed
    case Incomplete => None
    case Complete(outcome) => Some(ReportOutcome(outcome))
    case Broken(_) => Some(Exit(1, true))
  }

  /** The response buffer, the block being read, and the outcome parser's buffer once it exists. */
  datatype Client = Client(buffer: string, block: ResponseBlock, parser: Option<string>)

  const CLIENT_START := Client("", NoBlock, None)

  /** Handing bytes to the outcome parser, which has not completed. */
  function ToParser(c: Client, bytes: string): (Client, Option<Exit>)
    requires c.parser.Some?
  {
    var (parsed, buffer, _) := O.Received(c.parser.value, false, bytes);
    (c.(parser := Some(buffer), buffer := ""), HandleOutcome(parsed))
  }

  /** The line that starts an outcome, with what follows it in the buffer. */
  function StartOutcome(c: Client, rest: string): (Client, Option<Exit>) {
    var started := c.(parser := Some(""), buffer := "");
    var (first, exit) := ToParser(started, O.BEGIN + "\n");
    if rest == "" then (first, exit) else ToParser(first, rest)
  }

  /** The loop over complete lines. */
  function ReadLines(c: Client): (Client, Option<Exit>)
    decreases |c.buffer|
  {
    match TakeNextLine(c.buffer)
    case None => (c, if |c.buffer| > S.MAXIMUM_STATUS_SIZE then Some(Exit(1, true)) else None)
    case Some((line, rest)) =>
      if line == O.BEGIN then StartOutcome(c, rest)
      else
        var (block, exit) := HandleLine(c.block, line);
        var next := c.(buffer := rest, block := block);
        if exit.Some? then (next, exit) else ReadLines(next)
  }

  /** `read_and_handle_supervisor_responses` on received bytes. */
  function ReadResponses(c: Client, bytes: string): (Client, Option<Exit>) {
    if c.parser.Some? then ToParser(c.(buffer := c.buffer + bytes), c.buffer + bytes)
    else ReadLines(c.(buffer := c.buffer + bytes))
  }

  class AttachedController {
    var buffer: string
    var block: ResponseBlock
    var parser: O.ControllerSessionOutcomeParser?

    constructor ()
      ensures Valid() && State() == CLIENT_START
    {
      buffer, block, parser := "", NoBlock, null;
    }

    predicate Valid()
      reads this, parser
    {
      parser != null ==> !parser.completed
    }

    function State(): Client
      reads this, parser
    {
      Client(buffer, block, if parser == null then None else Some(parser.buffer))
    }

    /** As long as nothing ends the client, it reads on. */
    method Read(bytes: string) returns (exit: Option<Exit>)
      requires Valid()
      modifies this, parser
      ensures (State(), exit) == ReadResponses(old(State()), bytes)
      ensures exit.None? ==> Valid() && (parser == old(parser) || fresh(parser))
    {
      buffer := buffer + bytes;
      if parser != null {
        var parsed := parser.Receive(buffer);
        buffer := "";
        return HandleOutcome(parsed);
      }
      ghost var whole := ReadLines(State());
      while true
        invariant parser == null && ReadLines(State()) == whole
        decreases |buffer|
      {
        var taken := TakeNextLine(buffer);
        if taken.None? {
          return if |buffer| > S.MAXIMUM_STATUS_SIZE then Some(Exit(1, true)) else None;
        }
        buffer := taken.value.1;
        if taken.value.0 == O.BEGIN {
          exit := BeginOutcome();
          return;
        }
        var handled := HandleLine(block, taken.value.0);
        block := handled.0;
        if handled.1.Some? {
          return handled.1;
        }
      }
    }

    method BeginOutcome() returns (exit: Option<Exit>)
      requires parser == null
      modifies this
      ensures (State(), exit) == StartOutcome(old(State()), old(buffer))
      ensures fresh(parser) && (exit.None? ==> Valid())
    {
      parser := new O.ControllerSessionOutcomeParser();
      var parsed := parser.Receive(O.BEGIN + "\n");
      BeginIsIncomplete();
      if buffer != "" {
        parsed := parser.Receive(buffer);
        buffer := "";
      }
      exit := HandleOutcome(parsed);
    }
  }

  /** The first line of an outcome alone is incomplete. */
  lemma BeginIsIncomplete()
    ensures O.Received("", false, O.BEGIN + "\n") == (O.Incomplete, O.BEGIN + "\n", false)
  {
    var text := O.BEGIN + "\n";
    assert |text| == 22 && "" + text == text;
    assert OneLine(O.BEGIN);
    SplitStep(O.BEGIN, "");
    assert Split("") == ([], "");
    assert O.BEGIN + "\n" + "" == text;
  }

  /** The client gives up exactly on a line that grows beyond the limit, and on an outcome its parser refuses. */
  lemma LimitsAreExact(c: Client, bytes: string)
    ensures c.parser.None? && OneLine(c.buffer + bytes) ==>
              ReadResponses(c, bytes).1 == if |c.buffer + bytes| > S.MAXIMUM_STATUS_SIZE then Some(Exit(1, true)) else None
    ensures c.parser.Some? && O.Received(c.parser.value, false, c.buffer + bytes).0.Broken? ==>
              ReadResponses(c, bytes).1 == Some(Exit(1, true))
    ensures c.parser.Some? && O.Received(c.parser.value, false, c.buffer + bytes).0.Incomplete? ==>
              ReadResponses(c, bytes).1 == None
  {
    hide O.Received;
  }

  // ----- What the client accepts -----

  /** Lines the client reads from a block state on without complaint, ending outside a block or with a regular exit. */
  predicate Acceptable(block: ResponseBlock, lines: seq<string>)
    decreases |lines|
  {
    if lines == [] then block.NoBlock?
    else
      var (next, exit) := HandleLine(block, lines[0]);
      && OneLine(lines[0]) && |lines[0]| <= S.MAXIMUM_STATUS_SIZE && lines[0] != O.BEGIN
      && (exit.Some? ==> !exit.value.invalid)
      && (exit.None? ==> Acceptable(next, lines[1..]))
  }

  /** Whether reading such lines ends the client. */
  predicate Ends(block: ResponseBlock, lines: seq<string>)
    decreases |lines|
  {
    lines != [] && (HandleLine(block, lines[0]).1.Some? || Ends(HandleLine(block, lines[0]).0, lines[1..]))
  }

  lemma {:induction false} AcceptableInTwo(block: ResponseBlock, a: seq<string>, b: seq<string>)
    requires Acceptable(block, a) && Acceptable(NoBlock, b)
    ensures Acceptable(block, a + b)
    ensures Ends(block, a + b) <==> Ends(block, a) || Ends(NoBlock, b)
    decreases |a|
  {
    if a == [] {
      assert a + b == b;
    } else {
      assert (a + b)[1..] == a[1..] + b && (a + b)[0] == a[0];
      if HandleLine(block, a[0]).1.None? {
        AcceptableInTwo(HandleLine(block, a[0]).0, a[1..], b);
      }
    }
  }

  /** The words a Supervisor says outside a block. */
  const WORDS := {
    "ATTACHED", "PROFILE_CHANGED", "HELP_BEGIN", "STATUS_BEGIN", "STOPPING", "DETACHED", "SESSION_ENDED", "SESSION_FAILED"
  }

  /** Outside a block, exactly the lines that are no such word and no error are invalid responses; the refusal of a second
      client and the old form of a failed Session end the client with an error, a detachment and the old form of an ended
      Session without one, and no other valid line ends it. Inside a block nothing is invalid. */
  lemma InvalidLines(block: ResponseBlock, line: string)
    ensures var exit := HandleLine(block, line).1;
            if !block.NoBlock? then exit.None?
            else if line !in WORDS && !(ERROR <= line) then exit == Some(Exit(1, true))
            else if line == ERROR + ALREADY_ATTACHED || line == "SESSION_FAILED" then exit == Some(Exit(1, false))
            else if line == "DETACHED" || line == "SESSION_ENDED" then exit == Some(Exit(0, false))
            else exit.None?
  {
    assert |ERROR| == 6 && ERROR[0] == 'E';
    if ERROR <= line {
      assert line == ERROR + line[6..];
    }
    if line in WORDS {
      WordsAreNoErrors(line);
    }
  }

  lemma WordsAreNoErrors(word: string)
    requires word in WORDS
    ensures !(ERROR <= word)
  {
    assert "ATTACHED"[0] == 'A' && "PROFILE_CHANGED"[0] == 'P' && "HELP_BEGIN"[0] == 'H' && "STATUS_BEGIN"[0] == 'S';
    assert "STOPPING"[0] == 'S' && "DETACHED"[0] == 'D' && "SESSION_ENDED"[0] == 'S' && "SESSION_FAILED"[0] == 'S';
    assert ERROR[0] == 'E';
  }

  // ----- Every reply is acceptable -----

  predicate Accepts(line: string) {
    HandleLine(NoBlock, line) == (NoBlock, None) && OneLine(line) && |line| <= 100 && line != O.BEGIN
  }

  lemma OneLineAccepted(line: string)
    requires Accepts(line)
    ensures Acceptable(NoBlock, [line]) && !Ends(NoBlock, [line])
  {
    assert [line][1..] == [];
  }

  lemma WordsAccepted()
    ensures Accepts("ATTACHED") && Accepts("PROFILE_CHANGED")
  {
    assert "ATTACHED"[0] == 'A' && "PROFILE_CHANGED"[0] == 'P' && O.BEGIN[0] == 'S';
  }

  lemma StoppingAccepted()
    ensures Accepts("STOPPING")
  {
    assert "STOPPING"[1] == 'T' && O.BEGIN[1] == 'E' && "STATUS_BEGIN"[2] == 'A' && "STOPPING"[2] == 'O';
  }

  lemma ErrorAccepted(text: string)
    requires Message(text)
    ensures Accepts(ERROR + text)
  {
    var line := ERROR + text;
    assert |ERROR| == 6 && OneLine(ERROR) && line[..6] == ERROR && line[6..] == text;
    assert line[0] == 'E' && O.BEGIN[0] == 'S' && ALREADY_ATTACHED[0] == 'A';
    assert "ATTACHED"[0] == 'A' && "PROFILE_CHANGED"[0] == 'P' && "HELP_BEGIN"[0] == 'H' && "STATUS_BEGIN"[0] == 'S';
    assert "DETACHED"[0] == 'D' && "STOPPING"[0] == 'S' && "SESSION_ENDED"[0] == 'S' && "SESSION_FAILED"[0] == 'S';
  }

  /** Error messages are short lines that do not begin like the refusal of a second client. */
  predicate Message(text: string) {
    OneLine(text) && |text| <= 94 && text != "" && text[0] != 'A'
  }

  lemma MessageOfBoth(a: string, b: string)
    requires Message(a) && |a| <= 47 && OneLine(b) && |b| <= 47
    ensures Message(a + b)
  {
  }

  lemma ErrorTexts(error: ParseError)
    ensures Message(ErrorText(error))
  {
    match error
    case CommandTooLong =>
    case InvalidCharacter =>
    case UnknownCommand =>
    case WrongArgumentCount => WrongCountText();
    case InvalidDirection => DirectionText();
    case InvalidSetting => SettingText();
    case _ => NumberTexts(error);
  }

  lemma WrongCountText()
    ensures Message(ErrorText(WrongArgumentCount))
  {
  }

  lemma DirectionText()
    ensures Message(ErrorText(InvalidDirection))
  {
  }

  lemma SettingText()
    ensures Message(ErrorText(InvalidSetting))
  {
    MessageOfBoth("Setting must be delay, ", "jitter, loss, or bandwidth.");
  }

  lemma NumberTexts(error: ParseError)
    requires error.InvalidNumber? || error.InvalidUnit? || error.ValueOutOfRange? || error.ValueOverflow?
             || error.ValueUnderflow?
    ensures Message(ErrorText(error))
  {
    match error
    case InvalidNumber =>
    case InvalidUnit =>
    case _ => RangeTexts(error);
  }

  lemma RangeTexts(error: ParseError)
    requires error.ValueOutOfRange? || error.ValueOverflow? || error.ValueUnderflow?
    ensures Message(ErrorText(error))
  {
    match error
    case ValueOutOfRange =>
    case ValueOverflow =>
    case ValueUnderflow =>
  }

  lemma DetachedAccepted()
    ensures HandleLine(NoBlock, "DETACHED") == (NoBlock, Some(Exit(0, false)))
    ensures Acceptable(NoBlock, ["DETACHED"]) && Ends(NoBlock, ["DETACHED"])
  {
    assert "DETACHED"[0] == 'D' && O.BEGIN[0] == 'S' && "ATTACHED"[0] == 'A' && "PROFILE_CHANGED"[0] == 'P';
    assert "HELP_BEGIN"[0] == 'H' && "STATUS_BEGIN"[0] == 'S';
  }

  /** A line inside a block that does not end it. */
  predicate Within(block: ResponseBlock, line: string) {
    && !block.NoBlock? && HandleLine(block, line) == (block, None)
    && OneLine(line) && |line| <= S.MAXIMUM_STATUS_SIZE && line != O.BEGIN
  }

  lemma {:induction false} BlockAccepted(block: ResponseBlock, inside: seq<string>, last: string)
    requires forall i :: 0 <= i < |inside| ==> Within(block, inside[i])
    requires HandleLine(block, last) == (NoBlock, None) && OneLine(last) && |last| <= 100 && last != O.BEGIN
    ensures Acceptable(block, inside + [last]) && !Ends(block, inside + [last])
    decreases |inside|
  {
    var lines := inside + [last];
    if inside == [] {
      assert lines == [last] && [last][1..] == [];
    } else {
      BlockAccepted(block, inside[1..], last);
      assert lines[1..] == inside[1..] + [last] && lines[0] == inside[0];
    }
  }

  lemma FirstAccepted(line: string, block: ResponseBlock, rest: seq<string>)
    requires HandleLine(NoBlock, line) == (block, None) && OneLine(line) && |line| <= 100 && line != O.BEGIN
    requires Acceptable(block, rest) && !Ends(block, rest)
    ensures Acceptable(NoBlock, [line] + rest) && !Ends(NoBlock, [line] + rest)
  {
    assert ([line] + rest)[1..] == rest;
  }

  lemma BlockReply(begin: string, block: ResponseBlock, inside: seq<string>, last: string)
    requires HandleLine(NoBlock, begin) == (block, None) && OneLine(begin) && |begin| <= 100 && begin != O.BEGIN
    requires forall i :: 0 <= i < |inside| ==> Within(block, inside[i])
    requires HandleLine(block, last) == (NoBlock, None) && OneLine(last) && |last| <= 100 && last != O.BEGIN
    ensures Acceptable(NoBlock, [begin] + (inside + [last])) && !Ends(NoBlock, [begin] + (inside + [last]))
  {
    BlockAccepted(block, inside, last);
    FirstAccepted(begin, block, inside + [last]);
  }

  lemma Begins()
    ensures HandleLine(NoBlock, "HELP_BEGIN") == (HelpBlock, None) && OneLine("HELP_BEGIN") && "HELP_BEGIN" != O.BEGIN
    ensures HandleLine(NoBlock, "STATUS_BEGIN") == (StatusBlock, None) && OneLine("STATUS_BEGIN")
    ensures "STATUS_BEGIN" != O.BEGIN && "STATUS_END" != O.BEGIN && "HELP_END" != O.BEGIN
    ensures OneLine("STATUS_END") && OneLine("HELP_END")
  {
    assert "HELP_BEGIN"[0] == 'H' && "STATUS_BEGIN"[1] == 'T' && "STATUS_END"[1] == 'T' && O.BEGIN[1] == 'E';
    assert "ATTACHED"[0] == 'A' && "PROFILE_CHANGED"[0] == 'P' && "STATUS_BEGIN"[0] == 'S' && O.BEGIN[0] == 'S';
  }

  lemma HelpAccepted()
    ensures Acceptable(NoBlock, HelpLines()) && !Ends(NoBlock, HelpLines())
  {
    Begins();
    var inside := HelpLines()[1..5];
    HelpInside();
    assert |"HELP_BEGIN"| == 10 && |"HELP_END"| == 8;
    BlockReply("HELP_BEGIN", HelpBlock, inside, "HELP_END");
    assert HelpLines() == ["HELP_BEGIN"] + (inside + ["HELP_END"]);
  }

  lemma HelpInside()
    ensures forall i :: 1 <= i < 5 ==> Within(HelpBlock, HelpLines()[i])
  {
    assert OneLine("help - Show controller commands") && OneLine("status - Show the active session");
    assert OneLine("stop - Stop the active Workload") && OneLine("detach - Disconnect this controller");
    assert O.BEGIN[0] == 'S' && "HELP_END"[0] == 'H';
  }

  lemma {:induction false} LineInText(lines: seq<string>, i: nat)
    requires i < |lines|
    ensures |lines[i]| < |Text(lines)|
  {
    if i > 0 {
      LineInText(lines[1..], i - 1);
    }
  }

  lemma StatusAccepted(s: S.Shown, profile: Profile, stopping: bool, shaped: bool)
    requires S.Prints(s) && ValidProfile(profile) && S.ContentLimit(s, profile, shaped) > 0
    ensures var lines := S.StatusLines(s, profile, stopping, shaped);
            Acceptable(NoBlock, lines) && !Ends(NoBlock, lines)
  {
    var lines := S.StatusLines(s, profile, stopping, shaped);
    S.StatusFits(s, profile, stopping, shaped);
    S.StatusIsOneBlock(s, profile, stopping, shaped);
    Begins();
    var inside := lines[1..|lines| - 1];
    forall i | 0 <= i < |inside| ensures Within(StatusBlock, inside[i]) {
      LineInText(lines, i + 1);
      InsideIsWithin(inside[i]);
    }
    assert |"STATUS_BEGIN"| == 12 && |"STATUS_END"| == 10;
    BlockReply("STATUS_BEGIN", StatusBlock, inside, "STATUS_END");
    assert lines == ["STATUS_BEGIN"] + (inside + ["STATUS_END"]);
  }

  lemma InsideIsWithin(line: string)
    requires S.Inside(line) && |line| <= S.MAXIMUM_STATUS_SIZE
    ensures Within(StatusBlock, line)
  {
    assert "STATUS_END"[0] == 'S' && O.BEGIN[0] == 'S';
  }

  lemma SessionErrors()
    ensures Accepts(ERROR + NOT_CHANGED)
    ensures Accepts(ERROR + "Session is stopping.") && Accepts(ERROR + "Too many queued commands.")
  {
    MessageOfBoth("Profile change could not be applied; ", "previous profile remains active.");
    ErrorAccepted(NOT_CHANGED);
    ErrorAccepted("Session is stopping.");
    ErrorAccepted("Too many queued commands.");
  }

  /** The client reads every reply of the control plane, and only a detachment ends it. */
  lemma ReplyAccepted(s: S.Shown, reply: Reply)
    requires S.Prints(s) && Sayable(s, reply)
    ensures Acceptable(NoBlock, ReplyLines(s, reply))
    ensures Ends(NoBlock, ReplyLines(s, reply)) <==> reply.DetachedReply?
  {
    match reply
    case AttachedReply =>
      WordsAccepted();
      OneLineAccepted("ATTACHED");
    case HelpReply => HelpAccepted();
    case StatusReply(profile, stopping, shaped) => StatusAccepted(s, profile, stopping, shaped);
    case ChangedReply =>
      WordsAccepted();
      OneLineAccepted("PROFILE_CHANGED");
    case StoppingReply =>
      StoppingAccepted();
      OneLineAccepted("STOPPING");
    case DetachedReply => DetachedAccepted();
    case ErrorReply(error) =>
      ErrorTexts(error);
      ErrorAccepted(ErrorText(error));
      OneLineAccepted(ERROR + ErrorText(error));
    case _ =>
      SessionErrors();
      OneLineAccepted(ReplyLines(s, reply)[0]);
  }

  predicate AllSayable(s: S.Shown, replies: seq<Reply>) {
    forall i :: 0 <= i < |replies| ==> Sayable(s, replies[i])
  }

  /** The lines of some replies. */
  function Conversation(s: S.Shown, replies: seq<Reply>): seq<string>
    requires AllSayable(s, replies)
  {
    if replies == [] then [] else ReplyLines(s, replies[0]) + Conversation(s, replies[1..])
  }

  lemma {:induction false} ConversationAccepted(s: S.Shown, replies: seq<Reply>)
    requires S.Prints(s) && AllSayable(s, replies)
    ensures Acceptable(NoBlock, Conversation(s, replies))
    ensures Ends(NoBlock, Conversation(s, replies)) <==>
              exists i :: 0 <= i < |replies| && replies[i].DetachedReply?
  {
    if replies != [] {
      ReplyAccepted(s, replies[0]);
      ConversationAccepted(s, replies[1..]);
      AcceptableInTwo(NoBlock, ReplyLines(s, replies[0]), Conversation(s, replies[1..]));
      assert forall i :: 0 < i < |replies| ==> replies[i] == replies[1..][i - 1];
    }
  }

  // ----- A whole connection, in any fragmentation -----

  /** The lines of an outcome, if there is one. */
  function OutcomeLines(o: Option<L.Outcome>): seq<string>
    requires o.Some? ==> O.Deliverable(o.value)
  {
    if o.None? then [] else O.BlockLines(o.value)
  }

  predicate Deliverable(o: Option<L.Outcome>) {
    o.Some? ==> O.Deliverable(o.value)
  }

  /** A client in the middle of a connection: `lines` are the reply lines it has not finished, then comes the outcome;
      `suffix` has not arrived yet. Once in the outcome it waits for the rest of the block. */
  predicate Reading(c: Client, lines: seq<string>, o: Option<L.Outcome>, suffix: string)
    requires Deliverable(o)
  {
    if c.parser.None? then
      Acceptable(c.block, lines) && c.buffer + suffix == Text(lines + OutcomeLines(o))
    else
      && o.Some? && c.buffer == "" && lines == [] && suffix != ""
      && c.parser.value + suffix == Text(O.BlockLines(o.value))
  }

  /** What reading on may lead to: no complaint; an end only by a reply that ends the client, or by the outcome at its
      very end; and the outcome is reported when it has arrived. */
  predicate ReadsWell(d: Client, exit: Option<Exit>, ends: bool, left: seq<string>, o: Option<L.Outcome>, suffix: string)
    requires Deliverable(o)
  {
    && (exit.Some? ==> !exit.value.invalid)
    && (exit.Some? && !ends ==> o.Some? && suffix == "" && exit.value == ReportOutcome(o.value))
    && (exit.None? ==> Reading(d, left, o, suffix) && (suffix == "" ==> o.None? && left == []))
    && (exit.None? && Ends(d.block, left) ==> ends)
  }

  lemma TextOfFirst(line: string, rest: seq<string>)
    ensures Text([line] + rest) == line + "\n" + Text(rest)
  {
    assert ([line] + rest)[1..] == rest;
  }

  /** Taking the first line of a text that has not arrived completely. */
  lemma FirstOf(buffer: string, suffix: string, lines: seq<string>)
    requires lines != [] && OneLine(lines[0]) && buffer + suffix == Text(lines)
    ensures match TakeNextLine(buffer)
            case None => |buffer| <= |lines[0]| && suffix != ""
            case Some((line, rest)) => line == lines[0] && rest + suffix == Text(lines[1..])
  {
    hide Text, TakeNextLine, FirstNewline;
    TextOfFirst(lines[0], lines[1..]);
    assert lines == [lines[0]] + lines[1..];
    var text := Text(lines);
    assert text[|lines[0]|] == '\n';
    match TakeNextLine(buffer)
    case None =>
      assert forall i :: 0 <= i < |buffer| ==> text[i] == buffer[i];
      assert suffix == "" ==> buffer + suffix == buffer;
    case Some((line, rest)) =>
      assert line + "\n" + (rest + suffix) == lines[0] + "\n" + Text(lines[1..]);
      FirstNewlineAfter(line, rest + suffix);
      FirstNewlineAfter(lines[0], Text(lines[1..]));
      assert text[..|line|] == line && text[..|lines[0]|] == lines[0];
      assert text[|line| + 1..] == rest + suffix;
      assert text[|lines[0]| + 1..] == Text(lines[1..]);
  }

  lemma OutcomeHead(o: L.Outcome)
    requires O.Deliverable(o)
    ensures O.BlockLines(o)[0] == O.BEGIN && OneLine(O.BEGIN) && |O.BEGIN| == 21
    ensures Text(O.BlockLines(o)) == O.BEGIN + "\n" + Text(O.BlockLines(o)[1..])
    ensures |Text(O.BlockLines(o))| <= O.MAXIMUM_SIZE
    ensures |O.BlockLines(o)| > 1
  {
    O.SerializesDeliverable(o);
    TextOfFirst(O.BlockLines(o)[0], O.BlockLines(o)[1..]);
    assert O.BlockLines(o) == [O.BlockLines(o)[0]] + O.BlockLines(o)[1..];
  }

  /** The outcome's parser on more of the block. */
  lemma ParserReads(c: Client, o: L.Outcome, bytes: string, suffix: string)
    requires O.Deliverable(o) && c.parser.Some? && bytes != ""
    requires c.parser.value + (bytes + suffix) == Text(O.BlockLines(o))
    ensures var (d, exit) := ToParser(c, bytes);
            ReadsWell(d, exit, false, [], Some(o), suffix)
  {
    OutcomeHead(o);
    var p := c.parser.value;
    assert (p + bytes) + suffix == Text(O.BlockLines(o));
    O.PrefixParses(o, p + bytes, suffix);
  }

  /** The line that begins an outcome. */
  lemma OutcomeBegins(c: Client, o: L.Outcome, rest: string, suffix: string)
    requires O.Deliverable(o) && rest + suffix == Text(O.BlockLines(o)[1..])
    ensures var (d, exit) := StartOutcome(c, rest);
            ReadsWell(d, exit, false, [], Some(o), suffix)
  {
    OutcomeHead(o);
    BeginIsIncomplete();
    var begin := O.BEGIN + "\n";
    var first := c.(parser := Some(begin), buffer := "");
    assert ToParser(c.(parser := Some(""), buffer := ""), begin) == (first, None);
    assert begin + (rest + suffix) == Text(O.BlockLines(o));
    if rest == "" {
      assert rest + suffix == suffix;
      assert suffix != "" by {
        TextOfFirst(O.BlockLines(o)[1], O.BlockLines(o)[2..]);
        assert O.BlockLines(o)[1..] == [O.BlockLines(o)[1]] + O.BlockLines(o)[2..];
      }
    } else {
      ParserReads(first, o, rest, suffix);
    }
  }

  /** The loop over complete lines. */
  lemma {:induction false} LinesReadWell(c: Client, lines: seq<string>, o: Option<L.Outcome>, suffix: string)
      returns (left: seq<string>)
    requires Deliverable(o) && c.parser.None? && Reading(c, lines, o, suffix)
    ensures var (d, exit) := ReadLines(c);
            ReadsWell(d, exit, Ends(c.block, lines), left, o, suffix)
    decreases |c.buffer|
  {
    hide O.BlockLines, StartOutcome, ToParser;
    left := lines;
    if lines == [] && o.None? {
      assert lines + OutcomeLines(o) == [] && |c.buffer + suffix| == 0;
    } else if lines == [] {
      assert lines + OutcomeLines(o) == O.BlockLines(o.value);
      OutcomeHead(o.value);
      FirstOf(c.buffer, suffix, O.BlockLines(o.value));
      if TakeNextLine(c.buffer).Some? {
        OutcomeBegins(c, o.value, TakeNextLine(c.buffer).value.1, suffix);
      }
    } else {
      assert (lines + OutcomeLines(o))[0] == lines[0];
      assert (lines + OutcomeLines(o))[1..] == lines[1..] + OutcomeLines(o);
      FirstOf(c.buffer, suffix, lines + OutcomeLines(o));
      if TakeNextLine(c.buffer).Some? {
        var rest := TakeNextLine(c.buffer).value.1;
        var (block, exit) := HandleLine(c.block, lines[0]);
        if exit.None? {
          left := LinesReadWell(c.(buffer := rest, block := block), lines[1..], o, suffix);
        }
      }
    }
  }

  /** The exits of receiving fragments one after the other, up to the first end. */
  function Exits(c: Client, fragments: seq<string>): seq<Option<Exit>>
    decreases |fragments|
  {
    if fragments == [] then []
    else
      var (d, exit) := ReadResponses(c, fragments[0]);
      [exit] + if exit.Some? then [] else Exits(d, fragments[1..])
  }

  lemma FragmentReadsWell(c: Client, lines: seq<string>, o: Option<L.Outcome>, bytes: string, suffix: string)
      returns (left: seq<string>)
    requires Deliverable(o) && Reading(c, lines, o, bytes + suffix) && bytes != ""
    ensures var (d, exit) := ReadResponses(c, bytes);
            ReadsWell(d, exit, Ends(c.block, lines), left, o, suffix)
  {
    assert !Ends(c.block, []);
    hide ToParser, ReadLines, ReadsWell, Acceptable, O.BlockLines, Ends;
    if c.parser.Some? {
      assert "" + bytes == bytes;
      ParserReads(c.(buffer := bytes), o.value, bytes, suffix);
      left := [];
    } else {
      assert (c.buffer + bytes) + suffix == c.buffer + (bytes + suffix);
      left := LinesReadWell(c.(buffer := c.buffer + bytes), lines, o, suffix);
    }
  }

  lemma {:induction false} FragmentsReadWell(c: Client, lines: seq<string>, o: Option<L.Outcome>, fragments: seq<string>)
    requires Deliverable(o) && Reading(c, lines, o, LineMachines.Concat(fragments)) && fragments != []
    requires forall i :: 0 <= i < |fragments| ==> fragments[i] != ""
    ensures var exits := Exits(c, fragments);
            && exits != [] && (forall i :: 0 <= i < |exits| - 1 ==> exits[i].None?)
            && (exits[|exits| - 1].Some? ==> !exits[|exits| - 1].value.invalid)
            && (!Ends(c.block, lines) ==>
                  |exits| == |fragments|
                  && exits[|exits| - 1] == (if o.Some? then Some(ReportOutcome(o.value)) else None))
    decreases |fragments|
  {
    hide Reading, ReadResponses, Ends, ReportOutcome;
    var rest := LineMachines.Concat(fragments[1..]);
    var left := FragmentReadsWell(c, lines, o, fragments[0], rest);
    var (d, exit) := ReadResponses(c, fragments[0]);
    if |fragments| == 1 {
      assert fragments[1..] == [] && rest == "";
    } else {
      assert rest != "" by {
        assert fragments[1..][0] == fragments[1] != "";
      }
      if exit.None? {
        FragmentsReadWell(d, left, o, fragments[1..]);
      }
    }
  }

  /** What the client's exit code tells: whether any part of the Session's infrastructure failed. */
  function ExitCode(o: L.Outcome): int {
    if exists failure :: failure in o.failures then 1 else 0
  }

  lemma ReportedAsCode(o: L.Outcome)
    requires O.Deliverable(o)
    ensures ReportOutcome(o) == Exit(ExitCode(o), false)
  {
    if o.failures != [] {
      assert o.failures[0] in o.failures;
    }
  }

  /** The Supervisor and the client agree: for every sequence of replies, followed by the block of a deliverable outcome
      or by nothing, and for every way of cutting the stream into fragments, the client never takes anything for an
      invalid response. Unless a reply was the detachment it reads everything and ends exactly with the outcome, with
      code 0 when the Session's infrastructure worked and 1 when it did not, whatever the Workload's own result was. */
  lemma ClientUnderstandsEverything(s: S.Shown, replies: seq<Reply>, o: Option<L.Outcome>, fragments: seq<string>)
    requires S.Prints(s) && AllSayable(s, replies) && Deliverable(o) && fragments != []
    requires LineMachines.Concat(fragments) == Text(Conversation(s, replies) + OutcomeLines(o))
    requires forall i :: 0 <= i < |fragments| ==> fragments[i] != ""
    ensures var exits := Exits(CLIENT_START, fragments);
            && exits != [] && (forall i :: 0 <= i < |exits| - 1 ==> exits[i].None?)
            && (exits[|exits| - 1].Some? ==> !exits[|exits| - 1].value.invalid)
            && ((forall i :: 0 <= i < |replies| ==> !replies[i].DetachedReply?) ==>
                  |exits| == |fragments|
                  && exits[|exits| - 1] == (if o.Some? then Some(Exit(ExitCode(o.value), false)) else None))
  {
    if o.Some? {
      ReportedAsCode(o.value);
    }
    ConversationAccepted(s, replies);
    var lines := Conversation(s, replies);
    assert "" + LineMachines.Concat(fragments) == LineMachines.Concat(fragments);
    FragmentsReadWell(CLIENT_START, lines, o, fragments);
  }
}
