/** Reading the status reply back: every setting of each direction, the state, the process and whether the profile is
    shaped can be told from the lines, whatever the Workload's arguments are. */
module StatusReading {
  import opened Wrappers
  import opened Lines
  import opened NetworkProfile
  import opened Numerals
  import opened StatusText

  // ----- A reader of the reply -----

  /** What a line holds between two fixed parts. */
  function Between(line: string, before: string, after: string): Option<string> {
    if |before| + |after| <= |line| && line[..|before|] == before && line[|line| - |after|..] == after then
      Some(line[|before|..|line| - |after|])
    else None
  }

  function NumberBetween(line: string, before: string, after: string): Option<nat> {
    match Between(line, before, after)
    case None => None
    case Some(text) => if text != "" && AllDigits(text) then Some(ValueOf(text)) else None
  }

  /** The heading of a direction's lines. */
  function Heading(direction: Direction): string {
    if direction.Outbound? then "outbound:" else "inbound:"
  }

  /** Where a line comes first. */
  function FirstAt(lines: seq<string>, line: string): (at: nat)
    ensures at <= |lines|
  {
    if lines == [] || lines[0] == line then 0 else 1 + FirstAt(lines[1..], line)
  }

  /** A line below the heading of a direction. */
  function Below(lines: seq<string>, direction: Direction, k: nat): string {
    var at := FirstAt(lines, Heading(direction)) + k;
    if at < |lines| then lines[at] else ""
  }

  function DelayIn(lines: seq<string>, direction: Direction): Option<nat> {
    NumberBetween(Below(lines, direction, 1), "  delay: ", " ms")
  }

  function JitterIn(lines: seq<string>, direction: Direction): Option<nat> {
    NumberBetween(Below(lines, direction, 2), "  jitter: ", " ms")
  }

  function LossIn(lines: seq<string>, direction: Direction): Option<string> {
    Between(Below(lines, direction, 3), "  packet loss: ", "%")
  }

  /** `None` inside: unlimited. */
  function BandwidthIn(lines: seq<string>, direction: Direction): Option<Option<nat>> {
    var line := Below(lines, direction, 4);
    if line == "  bandwidth: unlimited" then Some(None)
    else match NumberBetween(line, "  bandwidth: ", " kbps") case None => None case Some(kbps) => Some(Some(kbps))
  }

  function ShapingIn(lines: seq<string>): Option<string> {
    var at := FirstAt(lines, Heading(Outbound));
    if 0 < at <= |lines| then Between(lines[at - 1], "shaping: ", "") else None
  }

  // ----- It reads what was written -----

  lemma BetweenOf(before: string, text: string, after: string)
    ensures Between(before + text + after, before, after) == Some(text)
  {
    var line := before + text + after;
    assert line[..|before|] == before && line[|line| - |after|..] == after;
    assert line[|before|..|line| - |after|] == text;
  }

  lemma NumberOf(before: string, n: nat, after: string)
    ensures NumberBetween(before + Decimal(n) + after, before, after) == Some(n)
  {
    BetweenOf(before, Decimal(n), after);
    ValueOfDecimal(n);
  }

  lemma {:induction false} FirstAfter(before: seq<string>, line: string, rest: seq<string>)
    requires line !in before
    ensures FirstAt(before + ([line] + rest), line) == |before|
  {
    if before == [] {
      assert before + ([line] + rest) == [line] + rest;
    } else {
      FirstAfter(before[1..], line, rest);
      assert (before + ([line] + rest))[1..] == before[1..] + ([line] + rest);
    }
  }

  function NameOf(direction: Direction): string {
    if direction.Outbound? then "outbound" else "inbound"
  }

  /** What a section of the reply tells of its direction. */
  predicate Tells(s: Shown, lines: seq<string>, direction: Direction, settings: DirectionSettings) {
    && DelayIn(lines, direction) == Some(settings.delay) && JitterIn(lines, direction) == Some(settings.jitter)
    && LossIn(lines, direction) == Some(s.percent(settings.loss))
    && BandwidthIn(lines, direction) == Some(settings.bandwidth)
  }

  lemma SectionRead(s: Shown, before: seq<string>, direction: Direction, settings: DirectionSettings, rest: seq<string>)
    requires ValidSettings(settings) && Heading(direction) !in before
    ensures Tells(s, before + (DirectionLines(s, NameOf(direction), settings) + rest), direction, settings)
  {
    var section := DirectionLines(s, NameOf(direction), settings);
    var lines := before + (section + rest);
    assert NameOf(direction) + ":" == Heading(direction);
    assert section + rest == [Heading(direction)] + (section[1..] + rest);
    FirstAfter(before, Heading(direction), section[1..] + rest);
    assert forall k :: 0 <= k < 5 ==> lines[|before| + k] == section[k];
    assert forall k: nat :: k < 5 ==> Below(lines, direction, k) == section[k];
    SettingsRead(s, NameOf(direction), settings);
  }

  lemma SettingsRead(s: Shown, name: string, settings: DirectionSettings)
    requires ValidSettings(settings)
    ensures var section := DirectionLines(s, name, settings);
            && NumberBetween(section[1], "  delay: ", " ms") == Some(settings.delay)
            && NumberBetween(section[2], "  jitter: ", " ms") == Some(settings.jitter)
            && Between(section[3], "  packet loss: ", "%") == Some(s.percent(settings.loss))
            && (settings.bandwidth.None? ==> section[4] == "  bandwidth: unlimited")
            && (settings.bandwidth.Some? ==>
                  && section[4] != "  bandwidth: unlimited"
                  && NumberBetween(section[4], "  bandwidth: ", " kbps") == Some(settings.bandwidth.value))
  {
    hide NumberBetween, Between, Decimal;
    NumberOf("  delay: ", settings.delay, " ms");
    NumberOf("  jitter: ", settings.jitter, " ms");
    BetweenOf("  packet loss: ", s.percent(settings.loss), "%");
    if settings.bandwidth.Some? {
      NumberOf("  bandwidth: ", settings.bandwidth.value, " kbps");
      LimitedEndsOtherwise(settings.bandwidth.value);
    }
  }

  lemma LimitedEndsOtherwise(kbps: nat)
    ensures "  bandwidth: " + Decimal(kbps) + " kbps" != "  bandwidth: unlimited"
  {
    var line := "  bandwidth: " + Decimal(kbps) + " kbps";
    assert line[|line| - 1] == 's' && "  bandwidth: unlimited"[21] == 'd' && |"  bandwidth: unlimited"| == 22;
  }

  // ----- No other line is a heading -----

  /** A line that is no heading, by its first character. */
  predicate NoHeading(line: string) {
    line != "" && line[0] != 'o' && line[0] != 'i'
  }

  lemma {:induction false} ArgumentsAreNoHeadings(size: nat, arguments: seq<string>, i: nat, limit: nat)
    requires limit > 0
    ensures forall line :: line in ArgumentLines(size, arguments, i, limit).0 ==> NoHeading(line)
    decreases |arguments|
  {
    if arguments != [] && size + |ArgumentPrefix(i)| + 1 <= limit {
      var (line, complete) := LimitedLine(size, ArgumentPrefix(i), arguments[0], limit - 1);
      assert ArgumentPrefix(i)[0] == 'a' && line[0] == 'a';
      if complete {
        ArgumentsAreNoHeadings(size + |line| + 1, arguments[1..], i + 1, limit);
      }
    }
  }

  lemma ProgramIsNoHeading(s: Shown, size: nat, limit: nat)
    requires s.arguments != [] && limit > 0
    ensures forall line :: line in ProgramLines(s, size, limit) ==> NoHeading(line)
  {
    var (line, complete) := LimitedLine(size, PROGRAM, s.arguments[0], limit - 1);
    if complete {
      ArgumentsAreNoHeadings(size + |line| + 1, s.arguments[1..], 0, limit);
    }
    assert PROGRAM[0] == 'p' && line[0] == 'p' && TRUNCATED[0] == 'a';
  }

  /** The lines before the first section. */
  function Front(s: Shown, profile: Profile, stopping: bool, shaped: bool): seq<string>
    requires ValidProfile(profile) && s.arguments != [] && ContentLimit(s, profile, shaped) > 0
  {
    HeadLines(s, stopping)
    + ProgramLines(s, |Text(HeadLines(s, stopping))|, ContentLimit(s, profile, shaped))
    + ["shaping: " + (if shaped then "applied" else "not applied")]
  }

  lemma FrontHasNoHeading(s: Shown, profile: Profile, stopping: bool, shaped: bool)
    requires ValidProfile(profile) && s.arguments != [] && ContentLimit(s, profile, shaped) > 0
    ensures forall line :: line in Front(s, profile, stopping, shaped) ==> NoHeading(line)
  {
    ProgramIsNoHeading(s, |Text(HeadLines(s, stopping))|, ContentLimit(s, profile, shaped));
    assert "STATUS_BEGIN"[0] == 'S' && "state: "[0] == 's' && "pid: "[0] == 'p' && "shaping: "[0] == 's';
  }

  lemma HeadingsDiffer()
    ensures "outbound:" != "inbound:" && !NoHeading("outbound:") && !NoHeading("inbound:")
  {
    assert "outbound:"[0] == 'o' && "inbound:"[0] == 'i';
  }

  /** The sections in the reply. */
  lemma Sections(s: Shown, profile: Profile, stopping: bool, shaped: bool)
    requires ValidProfile(profile) && s.arguments != [] && ContentLimit(s, profile, shaped) > 0
    ensures var out, inb := DirectionLines(s, "outbound", profile.outbound), DirectionLines(s, "inbound", profile.inbound);
            var front, lines := Front(s, profile, stopping, shaped), StatusLines(s, profile, stopping, shaped);
            && lines == front + (out + (inb + ["STATUS_END"]))
            && lines == (front + out) + (inb + ["STATUS_END"])
            && forall k :: 0 < k < 5 ==> NoHeading(out[k])
  {
    var out, inb := DirectionLines(s, "outbound", profile.outbound), DirectionLines(s, "inbound", profile.inbound);
    assert "  delay: "[0] == ' ' && "  jitter: "[0] == ' ' && "  packet loss: "[0] == ' ' && "  bandwidth: "[0] == ' ';
    assert "  bandwidth: unlimited"[0] == ' ';
    hide DirectionLines, ProgramLines, HeadLines, ContentLimit;
  }

  /** A status tells everything it is about: the profile's settings of both directions, each in the lines of its own
      direction, whether the Session is stopping, the process, and whether the profile is shaped. */
  lemma StatusReadsBack(s: Shown, profile: Profile, stopping: bool, shaped: bool)
    requires ValidProfile(profile) && s.arguments != [] && ContentLimit(s, profile, shaped) > 0
    ensures var lines := StatusLines(s, profile, stopping, shaped);
            && Tells(s, lines, Outbound, profile.outbound) && Tells(s, lines, Inbound, profile.inbound)
            && |lines| > 3 && Between(lines[1], "state: ", "") == Some(if stopping then "stopping" else "running")
            && NumberBetween(lines[2], "pid: ", "") == Some(s.pid)
            && ShapingIn(lines) == Some(if shaped then "applied" else "not applied")
  {
    var lines, front := StatusLines(s, profile, stopping, shaped), Front(s, profile, stopping, shaped);
    Sections(s, profile, stopping, shaped);
    FrontHasNoHeading(s, profile, stopping, shaped);
    HeadingsDiffer();
    var out, inb := DirectionLines(s, "outbound", profile.outbound), DirectionLines(s, "inbound", profile.inbound);
    SectionRead(s, front, Outbound, profile.outbound, inb + ["STATUS_END"]);
    NoInboundHeading(s, front, profile.outbound);
    SectionRead(s, front + out, Inbound, profile.inbound, ["STATUS_END"]);
    ShapingRead(s, front, profile.outbound, inb + ["STATUS_END"], shaped);
    HeadRead(s, stopping);
    assert lines[1] == HeadLines(s, stopping)[1] && lines[2] == HeadLines(s, stopping)[2];
  }

  lemma NoInboundHeading(s: Shown, front: seq<string>, settings: DirectionSettings)
    requires ValidSettings(settings) && forall line :: line in front ==> NoHeading(line)
    ensures "inbound:" !in front + DirectionLines(s, "outbound", settings)
  {
    HeadingsDiffer();
    assert "  delay: "[0] == ' ' && "  jitter: "[0] == ' ' && "  packet loss: "[0] == ' ' && "  bandwidth: "[0] == ' ';
    assert "  bandwidth: unlimited"[0] == ' ' && ("outbound" + ":")[0] == 'o';
    assert forall line :: line in DirectionLines(s, "outbound", settings) ==> line != "" && line[0] != 'i';
  }

  lemma ShapingRead(s: Shown, front: seq<string>, settings: DirectionSettings, rest: seq<string>, shaped: bool)
    requires ValidSettings(settings) && Heading(Outbound) !in front && front != []
    requires front[|front| - 1] == "shaping: " + (if shaped then "applied" else "not applied")
    ensures ShapingIn(front + (DirectionLines(s, "outbound", settings) + rest))
            == Some(if shaped then "applied" else "not applied")
  {
    var section := DirectionLines(s, "outbound", settings);
    assert "outbound" + ":" == Heading(Outbound);
    assert section + rest == [Heading(Outbound)] + (section[1..] + rest);
    FirstAfter(front, Heading(Outbound), section[1..] + rest);
    var text := if shaped then "applied" else "not applied";
    BetweenOf("shaping: ", text, "");
    assert "shaping: " + text + "" == "shaping: " + text;
  }

  lemma HeadRead(s: Shown, stopping: bool)
    ensures Between(HeadLines(s, stopping)[1], "state: ", "") == Some(if stopping then "stopping" else "running")
    ensures NumberBetween(HeadLines(s, stopping)[2], "pid: ", "") == Some(s.pid)
  {
    var text := if stopping then "stopping" else "running";
    BetweenOf("state: ", text, "");
    NumberOf("pid: ", s.pid, "");
    assert "state: " + text + "" == "state: " + text && "pid: " + Decimal(s.pid) + "" == "pid: " + Decimal(s.pid);
  }
}
