/** The status reply: bounded in size, whatever the Workload's arguments contain. */
module StatusText {
  import opened Wrappers
  import opened Lines
  import opened Hexadecimal
  import opened NetworkProfile
  import opened Numerals

  const MAXIMUM_STATUS_SIZE: nat := 8 * 1024

  // ----- Escaping -----

  predicate NeedsHex(c: char) {
    (c as int < 0x20 && c != '\t' && c != '\n' && c != '\r') || c as int == 0x7f
  }

  /** What is written for one byte. */
  function Piece(c: char): (piece: string)
    ensures 1 <= |piece| <= 4 && OneLine(piece)
  {
    if c == '\\' then ['\\', '\\']
    else if c == '\t' then ['\\', 't']
    else if c == '\n' then ['\\', 'n']
    else if c == '\r' then ['\\', 'r']
    else if NeedsHex(c) then ['\\', 'x', NibbleChar(c as int / 16), NibbleChar(c as int % 16)]
    else [c]
  }

  function Escape(s: string): (t: string)
    ensures OneLine(t)
  {
    if s == "" then "" else Piece(s[0]) + Escape(s[1..])
  }

  function Prefixed(c: char, rest: Option<string>): Option<string> {
    if rest.Some? then Some([c] + rest.value) else None
  }

  /** Reading escaped text back. */
  function Unescape(t: string): Option<string>
    decreases |t|
  {
    if t == "" then Some("")
    else if t[0] != '\\' then Prefixed(t[0], Unescape(t[1..]))
    else if |t| < 2 then None
    else if t[1] == '\\' then Prefixed('\\', Unescape(t[2..]))
    else if t[1] == 't' then Prefixed('\t', Unescape(t[2..]))
    else if t[1] == 'n' then Prefixed('\n', Unescape(t[2..]))
    else if t[1] == 'r' then Prefixed('\r', Unescape(t[2..]))
    else if t[1] == 'x' && |t| >= 4 && IsNibble(t[2]) && IsNibble(t[3]) then
      Prefixed((16 * Nibble(t[2]) + Nibble(t[3])) as char, Unescape(t[4..]))
    else None
  }

  lemma PieceRead(c: char, rest: string)
    ensures Unescape(Piece(c) + rest) == Prefixed(c, Unescape(rest))
  {
    var t := Piece(c) + rest;
    assert t[|Piece(c)|..] == rest;
    if NeedsHex(c) {
      assert Nibble(t[2]) == c as int / 16 && Nibble(t[3]) == c as int % 16;
    }
  }

  /** Escaping loses nothing: it can be read back, so different arguments are never shown alike. */
  lemma {:induction false} EscapeIsInjective(s: string)
    ensures Unescape(Escape(s)) == Some(s)
  {
    if s != "" {
      EscapeIsInjective(s[1..]);
      PieceRead(s[0], Escape(s[1..]));
      assert s == [s[0]] + s[1..];
    }
  }

  lemma {:induction false} EscapeOfBoth(a: string, b: string)
    ensures Escape(a + b) == Escape(a) + Escape(b)
  {
    hide Piece, IsNibble, NibbleChar;
    if a == "" {
      assert a + b == b;
    } else {
      EscapeOfBoth(a[1..], b);
      assert (a + b)[1..] == a[1..] + b;
    }
  }

  /** How much of the input fits when `size` bytes are already there: a number of whole pieces. */
  function Fitting(size: nat, input: string, limit: nat): (n: nat)
    ensures n <= |input|
    decreases |input|
  {
    if input == "" || size + |Piece(input[0])| > limit then 0
    else 1 + Fitting(size + |Piece(input[0])|, input[1..], limit)
  }

  lemma {:induction false} FittingFits(size: nat, input: string, limit: nat)
    ensures var n := Fitting(size, input, limit);
            && (n > 0 ==> size + |Escape(input[..n])| <= limit)
            && (n == |input| <==> size + |Escape(input)| <= limit || input == "")
            && (n < |input| ==> size + |Escape(input[..n + 1])| > limit)
    decreases |input|
  {
    var n := Fitting(size, input, limit);
    if input != "" {
      var piece := Piece(input[0]);
      assert input[..1] == [input[0]] && Escape([input[0]]) == piece by {
        assert [input[0]][1..] == "" && piece + "" == piece;
      }
      if n > 0 {
        FittingFits(size + |piece|, input[1..], limit);
        assert input[..n][1..] == input[1..][..n - 1];
        assert n < |input| ==> input[..n + 1][1..] == input[1..][..n];
      }
    }
  }

  /** `append_escaped_limited`: as many whole pieces as fit, and whether that was everything. */
  method AppendEscapedLimited(output: string, input: string, limit: nat) returns (extended: string, complete: bool)
    ensures var n := Fitting(|output|, input, limit);
            extended == output + Escape(input[..n]) && (complete <==> n == |input|)
  {
    hide Piece, OneLine, NibbleChar;
    extended := output;
    ghost var whole := Fitting(|output|, input, limit);
    for i := 0 to |input|
      invariant extended == output + Escape(input[..i])
      invariant whole == i + Fitting(|extended|, input[i..], limit)
    {
      var piece := Piece(input[i]);
      if |extended| > limit || |piece| > limit - |extended| {
        return extended, false;
      }
      EscapeOfBoth(input[..i], [input[i]]);
      assert [input[i]][1..] == "" && piece + "" == piece;
      assert input[..i + 1] == input[..i] + [input[i]];
      assert output + (Escape(input[..i]) + piece) == (output + Escape(input[..i])) + piece;
      assert input[i..][1..] == input[i + 1..];
      extended := extended + piece;
    }
    assert input[..|input|] == input;
    complete := true;
  }

  // ----- The reply -----

  /** What a status shows besides the profile: the Workload's process and arguments, and how a percentage is printed. */
  datatype Shown = Shown(pid: nat, arguments: seq<string>, percent: Percent -> string)

  /** Percentages are printed short and without newlines. */
  ghost predicate Prints(s: Shown) {
    s.arguments != [] && s.pid <= 1_000_000_000 && forall p :: OneLine(s.percent(p)) && |s.percent(p)| <= 32
  }

  function DirectionLines(s: Shown, name: string, settings: DirectionSettings): seq<string>
    requires ValidSettings(settings)
  {
    [name + ":",
     "  delay: " + Decimal(settings.delay) + " ms",
     "  jitter: " + Decimal(settings.jitter) + " ms",
     "  packet loss: " + s.percent(settings.loss) + "%",
     if settings.bandwidth.Some? then "  bandwidth: " + Decimal(settings.bandwidth.value) + " kbps"
     else "  bandwidth: unlimited"]
  }

  /** The lines after the arguments. */
  function TailLines(s: Shown, profile: Profile, shaped: bool): seq<string>
    requires ValidProfile(profile)
  {
    ["shaping: " + (if shaped then "applied" else "not applied")]
    + DirectionLines(s, "outbound", profile.outbound) + DirectionLines(s, "inbound", profile.inbound)
    + ["STATUS_END"]
  }

  function HeadLines(s: Shown, stopping: bool): seq<string> {
    ["STATUS_BEGIN", "state: " + (if stopping then "stopping" else "running"), "pid: " + Decimal(s.pid)]
  }

  const PROGRAM := "program: "
  const TRUNCATED := "arguments: truncated"

  function ArgumentPrefix(i: nat): string {
    "argument[" + Decimal(i) + "]: "
  }

  /** A line with as much of a value as fits when `size` bytes are before it. */
  function LimitedLine(size: nat, prefix: string, value: string, limit: nat): (string, bool) {
    var n := Fitting(size + |prefix|, value, limit);
    (prefix + Escape(value[..n]), n == |value|)
  }

  /** The lines of the arguments from the i-th on, and whether anything was cut off. */
  function ArgumentLines(size: nat, arguments: seq<string>, i: nat, limit: nat): (seq<string>, bool)
    requires limit > 0
    decreases |arguments|
  {
    if arguments == [] then ([], false)
    else if size + |ArgumentPrefix(i)| + 1 > limit then ([], true)
    else
      var (line, complete) := LimitedLine(size, ArgumentPrefix(i), arguments[0], limit - 1);
      if !complete then ([line], true)
      else
        var (rest, truncated) := ArgumentLines(size + |line| + 1, arguments[1..], i + 1, limit);
        ([line] + rest, truncated)
  }

  /** The lines about the program and its arguments. */
  function ProgramLines(s: Shown, size: nat, limit: nat): seq<string>
    requires s.arguments != [] && limit > 0
  {
    var (line, complete) := LimitedLine(size, PROGRAM, s.arguments[0], limit - 1);
    var (rest, truncated) :=
      if complete then ArgumentLines(size + |line| + 1, s.arguments[1..], 0, limit) else ([], true);
    [line] + rest + if truncated then [TRUNCATED] else []
  }

  function ContentLimit(s: Shown, profile: Profile, shaped: bool): int
    requires ValidProfile(profile)
  {
    MAXIMUM_STATUS_SIZE - |Text(TailLines(s, profile, shaped))| - (|TRUNCATED| + 1)
  }

  /** `build_status`, as its lines. */
  function StatusLines(s: Shown, profile: Profile, stopping: bool, shaped: bool): seq<string>
    requires ValidProfile(profile) && s.arguments != [] && ContentLimit(s, profile, shaped) > 0
  {
    HeadLines(s, stopping)
    + ProgramLines(s, |Text(HeadLines(s, stopping))|, ContentLimit(s, profile, shaped))
    + TailLines(s, profile, shaped)
  }

  // ----- Building it -----

  lemma TextOneMore(lines: seq<string>, line: string)
    ensures Text(lines + [line]) == Text(lines) + line + "\n"
  {
    TextAppend(lines, [line]);
    assert [line][1..] == [];
    assert Text(lines) + (line + "\n" + "") == Text(lines) + line + "\n";
  }

  /** One line with as much of a value as fits; the newline comes in any case. */
  method AppendLimitedLine(response: string, prefix: string, value: string, limit: nat, ghost done: seq<string>)
      returns (extended: string, complete: bool)
    requires response == Text(done)
    ensures complete == LimitedLine(|response|, prefix, value, limit).1
    ensures extended == Text(done + [LimitedLine(|response|, prefix, value, limit).0])
    ensures |extended| == |response| + |LimitedLine(|response|, prefix, value, limit).0| + 1
  {
    ghost var line := LimitedLine(|response|, prefix, value, limit).0;
    TextOneMore(done, line);
    extended, complete := AppendEscapedLimited(response + prefix, value, limit);
    assert extended == response + line;
    extended := extended + "\n";
  }

  lemma ArgumentStep(size: nat, arguments: seq<string>, i: nat, limit: nat, lines: seq<string>)
    requires limit > 0 && i < |arguments|
    ensures var (rest, cut) := ArgumentLines(size, arguments[i..], i, limit);
            if size + |ArgumentPrefix(i)| + 1 > limit then lines + rest == lines && cut
            else
              var (line, complete) := LimitedLine(size, ArgumentPrefix(i), arguments[i], limit - 1);
              if !complete then lines + rest == lines + [line] && cut
              else
                var (later, c) := ArgumentLines(size + |line| + 1, arguments[i + 1..], i + 1, limit);
                lines + rest == (lines + [line]) + later && cut == c
  {
    hide LimitedLine, Escape, Piece;
    assert arguments[i..][0] == arguments[i] && arguments[i..][1..] == arguments[i + 1..];
  }

  /** The loop over the arguments; `done` is what the response says so far. */
  method AppendArguments(response: string, arguments: seq<string>, limit: nat, ghost done: seq<string>)
      returns (extended: string, truncated: bool)
    requires limit > 0 && response == Text(done)
    ensures var (lines, cut) := ArgumentLines(|response|, arguments, 0, limit);
            truncated == cut && extended == Text(done + lines)
  {
    hide LimitedLine, Text, Piece;
    extended, truncated := response, false;
    ghost var lines := done;
    ghost var (all, cut) := ArgumentLines(|response|, arguments, 0, limit);
    ghost var whole := done + all;
    assert arguments[0..] == arguments;
    for i := 0 to |arguments|
      invariant extended == Text(lines) && !truncated
      invariant lines + ArgumentLines(|extended|, arguments[i..], i, limit).0 == whole
      invariant ArgumentLines(|extended|, arguments[i..], i, limit).1 == cut
    {
      var prefix := ArgumentPrefix(i);
      ArgumentStep(|extended|, arguments, i, limit, lines);
      if |extended| + |prefix| + 1 > limit {
        return extended, true;
      }
      ghost var line := LimitedLine(|extended|, prefix, arguments[i], limit - 1).0;
      var fits;
      extended, fits := AppendLimitedLine(extended, prefix, arguments[i], limit - 1, lines);
      lines := lines + [line];
      if !fits {
        return extended, true;
      }
    }
    assert lines + [] == lines;
  }

  /** The program and its arguments. */
  method AppendProgram(s: Shown, response: string, limit: nat, ghost done: seq<string>) returns (extended: string)
    requires s.arguments != [] && limit > 0 && response == Text(done)
    ensures extended == Text(done + ProgramLines(s, |response|, limit))
  {
    ghost var line := LimitedLine(|response|, PROGRAM, s.arguments[0], limit - 1).0;
    var fits;
    extended, fits := AppendLimitedLine(response, PROGRAM, s.arguments[0], limit - 1, done);
    var truncated := !fits;
    ghost var rest: seq<string> := [];
    if fits {
      rest := ArgumentLines(|extended|, s.arguments[1..], 0, limit).0;
      extended, truncated := AppendArguments(extended, s.arguments[1..], limit, done + [line]);
    } else {
      assert done + [line] + [] == done + [line];
    }
    assert extended == Text(done + [line] + rest);
    var mark := if truncated then [TRUNCATED] else [];
    Regroup(done, [line], rest);
    Regroup(done, [line] + rest, mark);
    if truncated {
      TextOneMore(done + [line] + rest, TRUNCATED);
      extended := extended + (TRUNCATED + "\n");
    } else {
      assert done + [line] + rest + [] == done + [line] + rest;
    }
  }

  /** `build_status`. */
  method BuildStatus(s: Shown, profile: Profile, stopping: bool, shaped: bool) returns (response: string)
    requires ValidProfile(profile) && s.arguments != [] && ContentLimit(s, profile, shaped) > 0
    ensures response == Text(StatusLines(s, profile, stopping, shaped))
  {
    var tail := Text(TailLines(s, profile, shaped));
    var limit := MAXIMUM_STATUS_SIZE - |tail| - (|TRUNCATED| + 1);
    ghost var head := HeadLines(s, stopping);
    ghost var size := |Text(head)|;
    response := Text(HeadLines(s, stopping));
    response := AppendProgram(s, response, limit, head);
    TextAppend(head + ProgramLines(s, size, limit), TailLines(s, profile, shaped));
    response := response + tail;
  }

  // ----- Its size -----

  lemma {:induction false} TextBound(lines: seq<string>, most: nat)
    requires forall i :: 0 <= i < |lines| ==> |lines[i]| <= most
    ensures |Text(lines)| <= |lines| * (most + 1)
  {
    if lines != [] {
      TextBound(lines[1..], most);
      assert |lines| * (most + 1) == (|lines| - 1) * (most + 1) + (most + 1);
    }
  }

  lemma ShortNumber(n: nat)
    requires n <= UINT64_MAX
    ensures |Decimal(n)| <= 20 && OneLine(Decimal(n))
  {
    Pow10Twenty();
    DecimalLength(n, 20);
    assert forall i :: 0 <= i < |Decimal(n)| ==> IsDigit(Decimal(n)[i]);
  }

  /** Lines that are short and no marker: they begin with a character no marker begins with. */
  predicate Plain(line: string) {
    OneLine(line) && |line| <= 60 && line != "" && line[0] != 'S' && line[0] != 'H'
  }

  lemma DirectionPlain(s: Shown, name: string, settings: DirectionSettings)
    requires Prints(s) && ValidSettings(settings) && OneLine(name) && 0 < |name| <= 20 && name[0] != 'S' && name[0] != 'H'
    ensures forall i :: 0 <= i < 5 ==> Plain(DirectionLines(s, name, settings)[i])
  {
    hide Decimal, AllDigits, ValidLoss;
    ShortNumber(settings.delay);
    ShortNumber(settings.jitter);
    if settings.bandwidth.Some? {
      ShortNumber(settings.bandwidth.value);
    }
    assert OneLine("  delay: ") && OneLine("  jitter: ") && OneLine("  packet loss: ");
    assert OneLine("  bandwidth: ") && OneLine("  bandwidth: unlimited") && OneLine(" ms") && OneLine(" kbps");
    assert |"  packet loss: "| == 15 && |"  bandwidth: unlimited"| == 22;
  }

  /** The tail: eleven short lines and the end marker. */
  lemma TailIsShort(s: Shown, profile: Profile, shaped: bool)
    requires Prints(s) && ValidProfile(profile)
    ensures var tail := TailLines(s, profile, shaped);
            && |tail| == 12 && tail[11] == "STATUS_END" && |Text(tail)| <= 732
            && forall i :: 0 <= i < 11 ==> Plain(tail[i])
  {
    var tail := TailLines(s, profile, shaped);
    var out, inb := DirectionLines(s, "outbound", profile.outbound), DirectionLines(s, "inbound", profile.inbound);
    assert OneLine("outbound") && OneLine("inbound");
    DirectionPlain(s, "outbound", profile.outbound);
    DirectionPlain(s, "inbound", profile.inbound);
    ShapingLine(shaped);
    assert forall i :: 1 <= i < 6 ==> tail[i] == out[i - 1];
    assert forall i :: 6 <= i < 11 ==> tail[i] == inb[i - 6];
    assert |"STATUS_END"| == 10;
    TextBound(tail, 60);
  }

  lemma ShapingLine(shaped: bool)
    ensures Plain("shaping: " + (if shaped then "applied" else "not applied"))
  {
    assert OneLine("shaping: ") && OneLine("applied") && OneLine("not applied");
  }

  lemma HeadIsShort(s: Shown, stopping: bool)
    requires Prints(s)
    ensures var head := HeadLines(s, stopping);
            && |head| == 3 && |Text(head)| <= 183 && OneLine(head[0]) && Plain(head[1]) && Plain(head[2])
  {
    ShortNumber(s.pid);
    assert OneLine("STATUS_BEGIN") && |"STATUS_BEGIN"| == 12;
    assert Plain("state: " + (if stopping then "stopping" else "running")) by {
      assert OneLine("state: ") && OneLine("stopping") && OneLine("running");
    }
    assert OneLine("pid: ");
    TextBound(HeadLines(s, stopping), 60);
  }

  lemma LimitedLineFits(size: nat, prefix: string, value: string, limit: nat)
    requires size + |prefix| <= limit
    ensures var (line, complete) := LimitedLine(size, prefix, value, limit);
            size + |line| <= limit && (complete ==> line == prefix + Escape(value))
  {
    var n := Fitting(size + |prefix|, value, limit);
    FittingFits(size + |prefix|, value, limit);
    WholeOrNothing(value, n);
  }

  lemma WholeOrNothing(value: string, n: nat)
    requires n <= |value|
    ensures n == |value| ==> value[..n] == value
    ensures n == 0 ==> Escape(value[..n]) == ""
  {
    assert n == 0 ==> value[..n] == "";
  }

  lemma SizeOfFirst(line: string, rest: seq<string>)
    ensures |Text([line] + rest)| == |line| + 1 + |Text(rest)|
  {
    assert ([line] + rest)[1..] == rest;
  }

  lemma {:induction false} ArgumentsFit(size: nat, arguments: seq<string>, i: nat, limit: nat)
    requires 0 < limit && size <= limit
    ensures size + |Text(ArgumentLines(size, arguments, i, limit).0)| <= limit
    decreases |arguments|
  {
    hide LimitedLine, AllDigits, DigitValue;
    if arguments != [] && size + |ArgumentPrefix(i)| + 1 <= limit {
      LimitedLineFits(size, ArgumentPrefix(i), arguments[0], limit - 1);
      var (line, complete) := LimitedLine(size, ArgumentPrefix(i), arguments[0], limit - 1);
      if complete {
        var rest := ArgumentLines(size + |line| + 1, arguments[1..], i + 1, limit).0;
        ArgumentsFit(size + |line| + 1, arguments[1..], i + 1, limit);
        SizeOfFirst(line, rest);
      } else {
        SizeOfFirst(line, []);
        assert [line] + [] == [line];
      }
    }
  }

  lemma ProgramFits(s: Shown, size: nat, limit: nat)
    requires s.arguments != [] && limit > 0 && size + |PROGRAM| <= limit - 1
    ensures size + |Text(ProgramLines(s, size, limit))| <= limit + |TRUNCATED| + 1
  {
    hide LimitedLine, ArgumentLines, Escape;
    var (line, complete) := LimitedLine(size, PROGRAM, s.arguments[0], limit - 1);
    LimitedLineFits(size, PROGRAM, s.arguments[0], limit - 1);
    TextOneMore([], line);
    assert [] + [line] == [line];
    var (rest, truncated) :=
      if complete then ArgumentLines(size + |line| + 1, s.arguments[1..], 0, limit) else ([], true);
    if complete {
      ArgumentsFit(size + |line| + 1, s.arguments[1..], 0, limit);
    }
    TextAppend([line], rest);
    TextOneMore([line] + rest, TRUNCATED);
    assert [line] + rest + [] == [line] + rest;
  }

  /** Whatever the arguments contain and however many there are: the status is at most 8192 bytes, and there is always
      room for its end. */
  lemma StatusFits(s: Shown, profile: Profile, stopping: bool, shaped: bool)
    requires Prints(s) && ValidProfile(profile)
    ensures ContentLimit(s, profile, shaped) > 0
    ensures |Text(StatusLines(s, profile, stopping, shaped))| <= MAXIMUM_STATUS_SIZE
  {
    TailIsShort(s, profile, shaped);
    HeadIsShort(s, stopping);
    assert |TRUNCATED| == 20 && |PROGRAM| == 9;
    var head, limit := HeadLines(s, stopping), ContentLimit(s, profile, shaped);
    ProgramFits(s, |Text(head)|, limit);
    TextAppend(head, ProgramLines(s, |Text(head)|, limit));
    TextAppend(head + ProgramLines(s, |Text(head)|, limit), TailLines(s, profile, shaped));
  }

  // ----- Its lines -----

  /** A line of the reply between the markers. */
  predicate Inside(line: string) {
    OneLine(line) && line != "" && line[0] != 'S' && line[0] != 'H'
  }

  lemma {:induction false} ArgumentsInside(size: nat, arguments: seq<string>, i: nat, limit: nat)
    requires limit > 0
    ensures forall k :: 0 <= k < |ArgumentLines(size, arguments, i, limit).0| ==>
              Inside(ArgumentLines(size, arguments, i, limit).0[k])
    decreases |arguments|
  {
    if arguments != [] && size + |ArgumentPrefix(i)| + 1 <= limit {
      PrefixInside(i, arguments[0][..Fitting(size + |ArgumentPrefix(i)|, arguments[0], limit - 1)]);
      var (line, complete) := LimitedLine(size, ArgumentPrefix(i), arguments[0], limit - 1);
      if complete {
        ArgumentsInside(size + |line| + 1, arguments[1..], i + 1, limit);
      }
    }
  }

  lemma PrefixInside(i: nat, value: string)
    ensures Inside(ArgumentPrefix(i) + Escape(value))
  {
    assert OneLine(Decimal(i)) by {
      assert forall k :: 0 <= k < |Decimal(i)| ==> IsDigit(Decimal(i)[k]);
    }
    assert OneLine("argument[") && OneLine("]: ") && "argument["[0] == 'a';
  }

  /** The reply is one block: it begins with `STATUS_BEGIN`, and `STATUS_END` is its last line and no other. */
  lemma StatusIsOneBlock(s: Shown, profile: Profile, stopping: bool, shaped: bool)
    requires Prints(s) && ValidProfile(profile) && ContentLimit(s, profile, shaped) > 0
    ensures var lines := StatusLines(s, profile, stopping, shaped);
            && |lines| >= 2 && lines[0] == "STATUS_BEGIN" && lines[|lines| - 1] == "STATUS_END"
            && forall i :: 0 < i < |lines| - 1 ==> Inside(lines[i])
  {
    var head, tail := HeadLines(s, stopping), TailLines(s, profile, shaped);
    var size, limit := |Text(head)|, ContentLimit(s, profile, shaped);
    var middle := ProgramLines(s, size, limit);
    HeadIsShort(s, stopping);
    TailIsShort(s, profile, shaped);
    ProgramInside(s, size, limit);
    var lines := StatusLines(s, profile, stopping, shaped);
    forall i | 0 < i < |lines| - 1 ensures Inside(lines[i]) {
      if i < 3 {
        assert lines[i] == head[i];
      } else if i < 3 + |middle| {
        assert lines[i] == middle[i - 3];
      } else {
        assert lines[i] == tail[i - 3 - |middle|] && Plain(tail[i - 3 - |middle|]);
      }
    }
  }

  lemma ProgramInside(s: Shown, size: nat, limit: nat)
    requires s.arguments != [] && limit > 0
    ensures forall k :: 0 <= k < |ProgramLines(s, size, limit)| ==> Inside(ProgramLines(s, size, limit)[k])
  {
    var (line, complete) := LimitedLine(size, PROGRAM, s.arguments[0], limit - 1);
    if complete {
      ArgumentsInside(size + |line| + 1, s.arguments[1..], 0, limit);
    }
    assert OneLine(PROGRAM) && PROGRAM[0] == 'p' && OneLine(TRUNCATED) && TRUNCATED[0] == 'a';
    assert Inside(line);
  }

  // ----- Untruncated arguments -----

  /** The lines of arguments that were not cut. */
  function FullLines(arguments: seq<string>, i: nat): seq<string>
    decreases |arguments|
  {
    if arguments == [] then [] else [ArgumentPrefix(i) + Escape(arguments[0])] + FullLines(arguments[1..], i + 1)
  }

  lemma {:induction false} UncutIsFull(size: nat, arguments: seq<string>, i: nat, limit: nat)
    requires limit > 0 && size <= limit && !ArgumentLines(size, arguments, i, limit).1
    ensures ArgumentLines(size, arguments, i, limit).0 == FullLines(arguments, i)
    decreases |arguments|
  {
    if arguments != [] {
      LimitedLineFits(size, ArgumentPrefix(i), arguments[0], limit - 1);
      var (line, complete) := LimitedLine(size, ArgumentPrefix(i), arguments[0], limit - 1);
      UncutIsFull(size + |line| + 1, arguments[1..], i + 1, limit);
    }
  }

  /** Arguments are cut only when they do not fit: as long as their lines fit, all of them are shown whole. */
  lemma {:induction false} WhatFitsIsShown(size: nat, arguments: seq<string>, i: nat, limit: nat)
    requires limit > 0 && size + |Text(FullLines(arguments, i))| <= limit
    ensures ArgumentLines(size, arguments, i, limit) == (FullLines(arguments, i), false)
    decreases |arguments|
  {
    hide Escape, Fitting, Text, Piece, AllDigits, DigitValue;
    if arguments != [] {
      var line, rest := ArgumentPrefix(i) + Escape(arguments[0]), FullLines(arguments[1..], i + 1);
      SizeOfFirst(line, rest);
      FittingFits(size + |ArgumentPrefix(i)|, arguments[0], limit - 1);
      assert arguments[0][..|arguments[0]|] == arguments[0];
      WhatFitsIsShown(size + |line| + 1, arguments[1..], i + 1, limit);
    }
  }

  lemma SamePrefix(prefix: string, a: string, b: string)
    requires prefix + a == prefix + b
    ensures a == b
  {
    assert (prefix + a)[|prefix|..] == a && (prefix + b)[|prefix|..] == b;
  }

  lemma {:induction false} FullLinesTell(a: seq<string>, b: seq<string>, i: nat)
    requires FullLines(a, i) == FullLines(b, i)
    ensures a == b
    decreases |a|
  {
    if a != [] && b != [] {
      assert FullLines(a, i)[0] == ArgumentPrefix(i) + Escape(a[0]);
      assert FullLines(b, i)[0] == ArgumentPrefix(i) + Escape(b[0]);
      SamePrefix(ArgumentPrefix(i), Escape(a[0]), Escape(b[0]));
      EscapeIsInjective(a[0]);
      EscapeIsInjective(b[0]);
      assert FullLines(a, i)[1..] == FullLines(a[1..], i + 1) && FullLines(b, i)[1..] == FullLines(b[1..], i + 1);
      FullLinesTell(a[1..], b[1..], i + 1);
      assert a == [a[0]] + a[1..] && b == [b[0]] + b[1..];
    }
  }

  predicate Uncut(arguments: seq<string>, size: nat, limit: nat)
    requires arguments != [] && limit > 0
  {
    var (line, complete) := LimitedLine(size, PROGRAM, arguments[0], limit - 1);
    complete && !ArgumentLines(size + |line| + 1, arguments[1..], 0, limit).1
  }

  /** Two argument vectors that are both shown without truncation are shown alike only if they are equal. */
  lemma UncutStatusTellsArguments(a: Shown, b: Shown, size: nat, limit: nat)
    requires a.arguments != [] && b.arguments != [] && limit > 0 && size + |PROGRAM| <= limit - 1
    requires Uncut(a.arguments, size, limit) && Uncut(b.arguments, size, limit)
    requires ProgramLines(a, size, limit) == ProgramLines(b, size, limit)
    ensures a.arguments == b.arguments
  {
    UncutProgram(a, size, limit);
    UncutProgram(b, size, limit);
    var la, lb := ProgramLines(a, size, limit), ProgramLines(b, size, limit);
    assert la[0] == PROGRAM + Escape(a.arguments[0]) && lb[0] == PROGRAM + Escape(b.arguments[0]);
    SamePrefix(PROGRAM, Escape(a.arguments[0]), Escape(b.arguments[0]));
    EscapeIsInjective(a.arguments[0]);
    EscapeIsInjective(b.arguments[0]);
    assert la[1..] == FullLines(a.arguments[1..], 0) && lb[1..] == FullLines(b.arguments[1..], 0);
    FullLinesTell(a.arguments[1..], b.arguments[1..], 0);
    assert a.arguments == [a.arguments[0]] + a.arguments[1..] && b.arguments == [b.arguments[0]] + b.arguments[1..];
  }

  lemma UncutProgram(s: Shown, size: nat, limit: nat)
    requires s.arguments != [] && limit > 0 && size + |PROGRAM| <= limit - 1 && Uncut(s.arguments, size, limit)
    ensures ProgramLines(s, size, limit) == [PROGRAM + Escape(s.arguments[0])] + FullLines(s.arguments[1..], 0)
  {
    hide LimitedLine, ArgumentLines, Escape;
    var (line, _) := LimitedLine(size, PROGRAM, s.arguments[0], limit - 1);
    LimitedLineFits(size, PROGRAM, s.arguments[0], limit - 1);
    UncutIsFull(size + |line| + 1, s.arguments[1..], 0, limit);
    assert [line] + FullLines(s.arguments[1..], 0) + [] == [line] + FullLines(s.arguments[1..], 0);
  }
}
