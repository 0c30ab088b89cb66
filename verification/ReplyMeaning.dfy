/** What each reply says: no two replies are written alike, so a client can tell from the lines which one it got. */
module ReplyMeaning {
  import opened Wrappers
  import opened NetworkProfile
  import opened ControllerCommands
  import opened ControlPlane
  import opened AttachClient
  import S = StatusText
  import R = StatusReading

  /** The texts behind `ERROR ` are told apart by their length and their first letter. */
  function Mark(text: string): (nat, char)
    requires text != ""
  {
    (|text|, text[0])
  }

  function ErrorMark(error: ParseError): (nat, char) {
    match error
    case CommandTooLong => (27, 'C')
    case InvalidCharacter => (38, 'C')
    case UnknownCommand => (16, 'U')
    case WrongArgumentCount => (26, 'W')
    case InvalidDirection => (38, 'D')
    case InvalidSetting => (50, 'S')
    case InvalidNumber => (22, 'I')
    case InvalidUnit => (25, 'I')
    case ValueOutOfRange => (35, 'V')
    case ValueOverflow => (19, 'V')
    case ValueUnderflow => (32, 'V')
  }

  lemma ErrorMarks(error: ParseError)
    ensures ErrorText(error) != "" && Mark(ErrorText(error)) == ErrorMark(error)
  {
    match error
    case CommandTooLong =>
    case InvalidCharacter =>
    case UnknownCommand =>
    case WrongArgumentCount =>
    case InvalidDirection =>
    case InvalidSetting =>
      assert |"Setting must be delay, "| == 23 && |"jitter, loss, or bandwidth."| == 27;
    case InvalidNumber =>
    case InvalidUnit =>
    case ValueOutOfRange =>
    case ValueOverflow =>
    case ValueUnderflow =>
  }

  lemma SessionErrorMarks()
    ensures Mark("Session is stopping.") == (20, 'S') && Mark("Too many queued commands.") == (25, 'T')
    ensures NOT_CHANGED != "" && Mark(NOT_CHANGED) == (69, 'P')
  {
    assert |"Profile change could not be applied; "| == 37 && |"previous profile remains active."| == 32;
  }

  /** The line a reply of one line is. */
  function OnlyLine(reply: Reply): (line: string)
    requires !reply.HelpReply? && !reply.StatusReply?
  {
    match reply
    case AttachedReply => "ATTACHED"
    case ChangedReply => "PROFILE_CHANGED"
    case NotChangedReply => ERROR + NOT_CHANGED
    case StoppingReply => "STOPPING"
    case SessionStoppingReply => ERROR + "Session is stopping."
    case TooManyReply => ERROR + "Too many queued commands."
    case DetachedReply => "DETACHED"
    case ErrorReply(error) => ERROR + ErrorText(error)
  }

  /** How a line is told: its length, its first character, and the character where an error's text begins. */
  function LineMark(reply: Reply): (nat, char, char)
    requires !reply.HelpReply? && !reply.StatusReply?
  {
    match reply
    case AttachedReply => (8, 'A', 'E')
    case ChangedReply => (15, 'P', 'E')
    case NotChangedReply => (75, 'E', 'P')
    case StoppingReply => (8, 'S', 'N')
    case SessionStoppingReply => (26, 'E', 'S')
    case TooManyReply => (31, 'E', 'T')
    case DetachedReply => (8, 'D', 'E')
    case ErrorReply(error) => (6 + ErrorMark(error).0, 'E', ErrorMark(error).1)
  }

  lemma LineMarks(reply: Reply)
    requires !reply.HelpReply? && !reply.StatusReply?
    ensures var line := OnlyLine(reply);
            |line| > 6 && (|line|, line[0], line[6]) == LineMark(reply)
  {
    SessionErrorMarks();
    if reply.ErrorReply? {
      ErrorMarks(reply.error);
    }
    assert |ERROR| == 6 && ERROR[0] == 'E';
    hide ErrorText;
  }

  /** The reply a line with some mark is. */
  function Marked(mark: (nat, char, char)): Reply {
    var (length, first, seventh) := mark;
    if length == 8 then if first == 'A' then AttachedReply else if first == 'D' then DetachedReply else StoppingReply
    else if length == 15 then ChangedReply
    else if length == 75 then NotChangedReply
    else if length == 26 then SessionStoppingReply
    else if length == 31 && seventh == 'T' then TooManyReply
    else ErrorReply(MarkedError(length, seventh))
  }

  function MarkedError(length: nat, seventh: char): ParseError {
    if length == 33 then CommandTooLong
    else if length == 44 then if seventh == 'C' then InvalidCharacter else InvalidDirection
    else if length == 22 then UnknownCommand
    else if length == 32 then WrongArgumentCount
    else if length == 56 then InvalidSetting
    else if length == 28 then InvalidNumber
    else if length == 31 then InvalidUnit
    else if length == 41 then ValueOutOfRange
    else if length == 25 then ValueOverflow else ValueUnderflow
  }

  lemma MarksTell(reply: Reply)
    requires !reply.HelpReply? && !reply.StatusReply?
    ensures Marked(LineMark(reply)) == reply
  {
  }

  /** Different replies of one line have different lines. */
  lemma LinesDiffer(a: Reply, b: Reply)
    requires !a.HelpReply? && !a.StatusReply? && !b.HelpReply? && !b.StatusReply?
    ensures OnlyLine(a) == OnlyLine(b) ==> a == b
  {
    hide OnlyLine, LineMark, Marked;
    LineMarks(a);
    LineMarks(b);
    MarksTell(a);
    MarksTell(b);
  }

  /** What two status replies that look alike have in common: everything, but that a percentage is compared as it is
      printed. */
  predicate SameStatus(s: S.Shown, a: Reply, b: Reply)
    requires a.StatusReply? && b.StatusReply?
  {
    && a.stopping == b.stopping && a.shaped == b.shaped
    && SameSettings(s, a.profile.outbound, b.profile.outbound) && SameSettings(s, a.profile.inbound, b.profile.inbound)
  }

  predicate SameSettings(s: S.Shown, a: DirectionSettings, b: DirectionSettings) {
    && a.delay == b.delay && a.jitter == b.jitter && s.percent(a.loss) == s.percent(b.loss) && a.bandwidth == b.bandwidth
  }

  lemma SettingsDiffer(s: S.Shown, lines: seq<string>, direction: Direction, a: DirectionSettings, b: DirectionSettings)
    requires R.Tells(s, lines, direction, a) && R.Tells(s, lines, direction, b)
    ensures SameSettings(s, a, b)
  {
    hide R.DelayIn, R.JitterIn, R.LossIn, R.BandwidthIn;
  }

  lemma WordsDiffer()
    ensures "stopping" != "running" && "applied" != "not applied"
  {
    assert "stopping"[0] == 's' && "running"[0] == 'r' && "applied"[0] == 'a' && "not applied"[0] == 'n';
  }

  lemma StatusesDiffer(s: S.Shown, a: Reply, b: Reply)
    requires a.StatusReply? && b.StatusReply? && Sayable(s, a) && Sayable(s, b) && ReplyLines(s, a) == ReplyLines(s, b)
    ensures SameStatus(s, a, b)
  {
    hide S.StatusLines, R.Between, R.NumberBetween, R.ShapingIn, R.Tells, SameSettings;
    R.StatusReadsBack(s, a.profile, a.stopping, a.shaped);
    R.StatusReadsBack(s, b.profile, b.stopping, b.shaped);
    WordsDiffer();
    var lines := ReplyLines(s, a);
    SettingsDiffer(s, lines, Outbound, a.profile.outbound, b.profile.outbound);
    SettingsDiffer(s, lines, Inbound, a.profile.inbound, b.profile.inbound);
  }

  lemma BlocksBegin(s: S.Shown, reply: Reply)
    requires Sayable(s, reply)
    ensures var lines := ReplyLines(s, reply);
            if reply.HelpReply? then |lines| == 6 && lines[0] == "HELP_BEGIN"
            else if reply.StatusReply? then |lines| > 1 && lines[0] == "STATUS_BEGIN"
            else lines == [OnlyLine(reply)]
  {
    hide S.ProgramLines, S.TailLines, ErrorText;
  }

  /** Replies that are written alike are the same, and the text of each says which result it reports. */
  lemma RepliesAreTold(s: S.Shown, a: Reply, b: Reply)
    requires Sayable(s, a) && Sayable(s, b) && ReplyLines(s, a) == ReplyLines(s, b)
    ensures if a.StatusReply? && b.StatusReply? then SameStatus(s, a, b) else a == b
  {
    BlocksBegin(s, a);
    BlocksBegin(s, b);
    assert "HELP_BEGIN"[0] == 'H' && "STATUS_BEGIN"[0] == 'S';
    if a.StatusReply? && b.StatusReply? {
      StatusesDiffer(s, a, b);
    } else if !a.HelpReply? && !a.StatusReply? && !b.HelpReply? && !b.StatusReply? {
      LinesDiffer(a, b);
    }
    hide ReplyLines, OnlyLine;
  }

  /** Which text means what: a client reads `PROFILE_CHANGED` exactly for a change that was applied, and the message that
      the previous profile remains exactly for one that was not; and likewise for the other outcomes of a command. */
  lemma TextsMean(s: S.Shown, reply: Reply)
    requires Sayable(s, reply)
    ensures var lines := ReplyLines(s, reply);
            && (lines == ["PROFILE_CHANGED"] <==> reply.ChangedReply?)
            && (lines == [ERROR + NOT_CHANGED] <==> reply.NotChangedReply?)
            && (lines == ["ATTACHED"] <==> reply.AttachedReply?)
            && (lines == ["STOPPING"] <==> reply.StoppingReply?)
            && (lines == ["DETACHED"] <==> reply.DetachedReply?)
            && (lines == [ERROR + "Session is stopping."] <==> reply.SessionStoppingReply?)
            && (lines == [ERROR + "Too many queued commands."] <==> reply.TooManyReply?)
            && (forall error :: lines == [ERROR + ErrorText(error)] <==> reply == ErrorReply(error))
  {
    hide ReplyLines, ErrorText, Sayable;
    forall error: ParseError ensures ReplyLines(s, reply) == [ERROR + ErrorText(error)] <==> reply == ErrorReply(error) {
      LineMeans(s, reply, ErrorReply(error));
    }
    LineMeans(s, reply, ChangedReply);
    LineMeans(s, reply, NotChangedReply);
    LineMeans(s, reply, AttachedReply);
    LineMeans(s, reply, StoppingReply);
    LineMeans(s, reply, DetachedReply);
    LineMeans(s, reply, SessionStoppingReply);
    LineMeans(s, reply, TooManyReply);
  }

  lemma LineMeans(s: S.Shown, reply: Reply, other: Reply)
    requires Sayable(s, reply) && !other.HelpReply? && !other.StatusReply?
    ensures ReplyLines(s, reply) == [OnlyLine(other)] <==> reply == other
  {
    BlocksBegin(s, other);
    if ReplyLines(s, reply) == [OnlyLine(other)] {
      RepliesAreTold(s, reply, other);
    }
    hide ReplyLines, OnlyLine;
  }
}
