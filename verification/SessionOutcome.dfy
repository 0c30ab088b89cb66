/** The Session Outcome on its way to the attached client: the block the Supervisor writes and the parser that reads it
    from arbitrary fragments. */
module SessionOutcome {
  import opened Wrappers
  import opened Lines
  import opened LineMachines
  import opened Numerals
  import opened SessionLifecycle

  const MAXIMUM_SIZE: nat := 1024

  datatype ProtocolError =
    | InvalidStructure | InvalidValue | ImpossibleOutcome | MessageTooLarge | IncompleteInput | TrailingData

  datatype Serialization = Block(text: string) | Unserializable(error: ProtocolError)
  datatype Parsing = Incomplete | Complete(outcome: Outcome) | Broken(error: ProtocolError)

  const BEGIN := "SESSION_OUTCOME_BEGIN"
  const END := "SESSION_OUTCOME_END"
  const OK_LINE := "INFRASTRUCTURE OK"
  const FAILED_LINE := "INFRASTRUCTURE FAILED"
  const UNKNOWN_LINE := "WORKLOAD UNKNOWN"
  const EXIT_PREFIX := "WORKLOAD EXIT "
  const SIGNAL_PREFIX := "WORKLOAD SIGNAL "
  const FAILURE_PREFIX := "FAILURE "

  // ----- Codes -----

  function Code(failure: Failure): string {
    match failure
    case StartFailed => "STARTUP"
    case Conversation => "HELPER_CONVERSATION"
    case ProfileState => "PROFILE_STATE"
    case StopRequestFailed => "STOP_REQUEST"
    case CleanupFailure => "PRIVILEGED_CLEANUP"
    case LauncherReaping => "LAUNCHER_REAPING"
    case SupervisorCleanup => "SUPERVISOR_CLEANUP"
    case InvalidEvent => "INVALID_LIFECYCLE_EVENT"
  }

  /** `parse_failure_code`: the first mapping whose code is the given one. */
  function ParseCode(code: string): Option<Failure> {
    if code == Code(StartFailed) then Some(StartFailed)
    else if code == Code(Conversation) then Some(Conversation)
    else if code == Code(ProfileState) then Some(ProfileState)
    else if code == Code(StopRequestFailed) then Some(StopRequestFailed)
    else if code == Code(CleanupFailure) then Some(CleanupFailure)
    else if code == Code(LauncherReaping) then Some(LauncherReaping)
    else if code == Code(SupervisorCleanup) then Some(SupervisorCleanup)
    else if code == Code(InvalidEvent) then Some(InvalidEvent)
    else None
  }

  /** Two characters and the length tell the codes apart. */
  lemma CodesDiffer(failure: Failure)
    ensures var c := Code(failure);
            && 7 <= |c| <= 23
            && match failure
               case StartFailed => |c| == 7
               case Conversation => |c| == 19
               case ProfileState => |c| == 13
               case StopRequestFailed => |c| == 12
               case CleanupFailure => |c| == 18 && c[0] == 'P'
               case LauncherReaping => |c| == 16
               case SupervisorCleanup => |c| == 18 && c[0] == 'S'
               case InvalidEvent => |c| == 23
  {
    match failure
    case StartFailed =>
    case Conversation =>
    case ProfileState =>
    case StopRequestFailed =>
    case CleanupFailure =>
    case LauncherReaping =>
    case SupervisorCleanup =>
    case InvalidEvent =>
  }

  lemma CodesAreLines(failure: Failure)
    ensures OneLine(Code(failure))
  {
    match failure
    case StartFailed =>
    case Conversation =>
    case ProfileState =>
    case StopRequestFailed =>
    case _ => LongCodesAreLines(failure);
  }

  lemma LongCodesAreLines(failure: Failure)
    requires failure.CleanupFailure? || failure.LauncherReaping? || failure.SupervisorCleanup? || failure.InvalidEvent?
    ensures OneLine(Code(failure))
  {
    match failure
    case CleanupFailure =>
    case LauncherReaping =>
    case SupervisorCleanup =>
    case InvalidEvent =>
  }

  lemma CodesParse(failure: Failure)
    ensures ParseCode(Code(failure)) == Some(failure)
  {
    CodesDiffer(failure);
    forall other ensures Code(other) == Code(failure) ==> other == failure {
      CodesDiffer(other);
    }
  }

  lemma CodesBack(code: string)
    requires ParseCode(code).Some?
    ensures Code(ParseCode(code).value) == code
  {
  }

  // ----- Serializing -----

  /** `valid_workload_for_wire`. */
  predicate ValidWorkload(workload: Option<WorkloadResult>) {
    workload.None?
    || match workload.value
       case StartFailure(_) => false
       case Exited(value) => 0 <= value <= 255
       case Signaled(value) => 1 <= value <= 127
  }

  predicate Deliverable(o: Outcome) {
    ValidWorkload(o.workload) && (o.failures == [] ==> o.workload.Some?) && NoDuplicates(o.failures)
  }

  function WorkloadLine(workload: Option<WorkloadResult>): string
    requires ValidWorkload(workload)
  {
    match workload
    case None => UNKNOWN_LINE
    case Some(Exited(value)) => EXIT_PREFIX + Decimal(value)
    case Some(Signaled(value)) => SIGNAL_PREFIX + Decimal(value)
  }

  function FailureLines(failures: seq<Failure>): (lines: seq<string>)
    ensures |lines| == |failures|
  {
    if failures == [] then [] else [FAILURE_PREFIX + Code(failures[0])] + FailureLines(failures[1..])
  }

  function BlockLines(o: Outcome): seq<string>
    requires ValidWorkload(o.workload)
  {
    [BEGIN, WorkloadLine(o.workload), if o.failures == [] then OK_LINE else FAILED_LINE]
    + FailureLines(o.failures) + [END]
  }

  /** `serialize_controller_session_outcome`. */
  function Serialize(o: Outcome): Serialization {
    if !Deliverable(o) then Unserializable(ImpossibleOutcome)
    else if |Text(BlockLines(o))| > MAXIMUM_SIZE then Unserializable(MessageTooLarge)
    else Block(Text(BlockLines(o)))
  }

  /** The loop over the failures with a flag for each one seen. */
  method HasDuplicate(failures: seq<Failure>) returns (duplicate: bool)
    ensures duplicate <==> !NoDuplicates(failures)
  {
    var seen: set<Failure> := {};
    for i := 0 to |failures|
      invariant forall f :: f in seen <==> f in failures[..i]
      invariant NoDuplicates(failures[..i])
    {
      if failures[i] in seen {
        var j :| 0 <= j < i && failures[..i][j] == failures[i];
        assert failures[j] == failures[i];
        return true;
      }
      seen := seen + {failures[i]};
      assert failures[..i + 1] == failures[..i] + [failures[i]];
    }
    assert failures[..|failures|] == failures;
    return false;
  }

  // ----- Parsing -----

  datatype ParsedWorkload = WorkloadRead(value: Option<WorkloadResult>) | WorkloadWrong(error: ProtocolError)

  /** `parse_workload_line`. */
  function ParseWorkload(line: string): ParsedWorkload {
    if line == UNKNOWN_LINE then WorkloadRead(None)
    else match RestAfter(EXIT_PREFIX, line)
      case Some(number) => (
        match ParseInteger(number, 0, 255)
        case None => WorkloadWrong(InvalidValue)
        case Some(value) => WorkloadRead(Some(Exited(value)))
      )
      case None =>
        match RestAfter(SIGNAL_PREFIX, line)
        case None => WorkloadWrong(InvalidStructure)
        case Some(number) =>
          match ParseInteger(number, 1, 127)
          case None => WorkloadWrong(InvalidValue)
          case Some(value) => WorkloadRead(Some(Signaled(value)))
  }

  /** The lines after the head: failures until the end marker. */
  function ParseFailures(lines: seq<string>, rest: string, workload: Option<WorkloadResult>, succeeded: bool,
                         found: seq<Failure>): Parsing
    decreases |lines|
  {
    if lines == [] then Incomplete
    else if lines[0] == END then
      if lines[1..] != [] || rest != "" then Broken(TrailingData)
      else if succeeded != (found == []) then Broken(ImpossibleOutcome)
      else Complete(Outcome(workload, found))
    else if succeeded || RestAfter(FAILURE_PREFIX, lines[0]).None? then Broken(InvalidStructure)
    else match ParseCode(RestAfter(FAILURE_PREFIX, lines[0]).value)
      case None => Broken(InvalidStructure)
      case Some(failure) =>
        if failure in found then Broken(InvalidStructure)
        else ParseFailures(lines[1..], rest, workload, succeeded, found + [failure])
  }

  /** `parse_block` on the complete lines of the input and what follows them. */
  function ParseLines(lines: seq<string>, rest: string): Parsing {
    if lines == [] then Incomplete
    else if lines[0] != BEGIN then Broken(InvalidStructure)
    else if |lines| < 2 then Incomplete
    else match ParseWorkload(lines[1])
      case WorkloadWrong(error) => Broken(error)
      case WorkloadRead(workload) =>
        if |lines| < 3 then Incomplete
        else if lines[2] != OK_LINE && lines[2] != FAILED_LINE then Broken(InvalidStructure)
        else if lines[2] == OK_LINE && workload.None? then Broken(ImpossibleOutcome)
        else ParseFailures(lines[3..], rest, workload, lines[2] == OK_LINE, [])
  }

  function ParseBlock(input: string): Parsing {
    ParseLines(Split(input).0, Split(input).1)
  }

  /** `LineReader`. */
  class LineReader {
    const input: string
    var position: nat

    constructor (input: string)
      ensures this.input == input && position == 0
    {
      this.input := input;
      position := 0;
    }

    function Left(): string
      requires position <= |input|
      reads this
    {
      input[position..]
    }

    method NextLine() returns (line: Option<string>)
      requires position <= |input|
      modifies this
      ensures position <= |input|
      ensures match TakeNextLine(old(Left()))
              case None => line.None? && Left() == old(Left())
              case Some((taken, rest)) => line == Some(taken) && Left() == rest
    {
      var left := input[position..];
      var newline := FirstNewline(left);
      if newline.None? {
        return None;
      }
      line := Some(left[..newline.value]);
      assert left[newline.value + 1..] == input[position + newline.value + 1..];
      position := position + newline.value + 1;
    }

    method Exhausted() returns (done: bool)
      requires position <= |input|
      ensures done <==> Left() == ""
    {
      return position == |input|;
    }
  }

  method ReadFailures(reader: LineReader, workload: Option<WorkloadResult>, succeeded: bool) returns (r: Parsing)
    requires reader.position <= |reader.input|
    modifies reader
    ensures r == old(ParseFailures(Split(reader.Left()).0, Split(reader.Left()).1, workload, succeeded, []))
  {
    var found: seq<Failure> := [];
    ghost var whole := ParseFailures(Split(reader.Left()).0, Split(reader.Left()).1, workload, succeeded, []);
    while true
      invariant reader.position <= |reader.input|
      invariant whole == ParseFailures(Split(reader.Left()).0, Split(reader.Left()).1, workload, succeeded, found)
      decreases |reader.Left()|
    {
      SplitFirst(reader.Left());
      var line := reader.NextLine();
      if line.None? {
        return Incomplete;
      }
      if line.value == END {
        var done := reader.Exhausted();
        SplitFirst(reader.Left());
        if !done {
          return Broken(TrailingData);
        }
        if succeeded != (found == []) {
          return Broken(ImpossibleOutcome);
        }
        return Complete(Outcome(workload, found));
      }
      var code := RestAfter(FAILURE_PREFIX, line.value);
      if succeeded || code.None? {
        return Broken(InvalidStructure);
      }
      var failure := ParseCode(code.value);
      if failure.None? || failure.value in found {
        return Broken(InvalidStructure);
      }
      found := found + [failure.value];
    }
  }

  method ReadBlock(input: string) returns (r: Parsing)
    ensures r == ParseBlock(input)
  {
    var reader := new LineReader(input);
    assert input[0..] == input;
    SplitFirst(reader.Left());
    var first := reader.NextLine();
    if first.None? {
      return Incomplete;
    }
    if first.value != BEGIN {
      return Broken(InvalidStructure);
    }
    SplitFirst(reader.Left());
    var second := reader.NextLine();
    if second.None? {
      return Incomplete;
    }
    var workload := ParseWorkload(second.value);
    if workload.WorkloadWrong? {
      return Broken(workload.error);
    }
    SplitFirst(reader.Left());
    var third := reader.NextLine();
    if third.None? {
      return Incomplete;
    }
    var succeeded := third.value == OK_LINE;
    if !succeeded && third.value != FAILED_LINE {
      return Broken(InvalidStructure);
    }
    if succeeded && workload.value.None? {
      return Broken(ImpossibleOutcome);
    }
    r := ReadFailures(reader, workload.value, succeeded);
  }

  /** `ControllerSessionOutcomeParser`. */
  class ControllerSessionOutcomeParser {
    var buffer: string
    var completed: bool

    constructor ()
      ensures buffer == "" && !completed
    {
      buffer, completed := "", false;
    }

    method Receive(bytes: string) returns (r: Parsing)
      modifies this
      ensures (r, buffer, completed) == Received(old(buffer), old(completed), bytes)
    {
      if completed {
        return Broken(TrailingData);
      }
      if |buffer| + |bytes| > MAXIMUM_SIZE {
        return Broken(MessageTooLarge);
      }
      buffer := buffer + bytes;
      r := ReadBlock(buffer);
      if r.Complete? {
        completed := true;
      }
    }

    method Finish() returns (r: Parsing)
      ensures r == (if completed then Broken(TrailingData)
                    else if ParseBlock(buffer).Broken? then ParseBlock(buffer) else Broken(IncompleteInput))
    {
      if completed {
        return Broken(TrailingData);
      }
      r := ReadBlock(buffer);
      if !r.Broken? {
        r := Broken(IncompleteInput);
      }
    }
  }

  function Received(buffer: string, completed: bool, bytes: string): (Parsing, string, bool) {
    if completed then (Broken(TrailingData), buffer, true)
    else if |buffer| + |bytes| > MAXIMUM_SIZE then (Broken(MessageTooLarge), buffer, false)
    else (ParseBlock(buffer + bytes), buffer + bytes, ParseBlock(buffer + bytes).Complete?)
  }

  /** A parser that waits for more refuses for its size exactly what goes beyond 1024 bytes; up to there the text received
      decides. */
  lemma SizeLimitIsExact(buffer: string, bytes: string)
    ensures Received(buffer, false, bytes).0
            == if |buffer + bytes| <= MAXIMUM_SIZE then ParseBlock(buffer + bytes) else Broken(MessageTooLarge)
  {
    hide ParseBlock;
  }

  // ----- The block fits -----

  const ALL_FAILURES: set<Failure> :=
    {StartFailed, Conversation, ProfileState, StopRequestFailed, CleanupFailure, LauncherReaping, SupervisorCleanup,
     InvalidEvent}

  function Elements(failures: seq<Failure>): set<Failure> {
    set f | f in failures
  }

  lemma {:induction false} DistinctElements(failures: seq<Failure>)
    requires NoDuplicates(failures)
    ensures |Elements(failures)| == |failures|
  {
    if failures != [] {
      var n := |failures| - 1;
      var front := failures[..n];
      DistinctElements(front);
      assert failures[n] !in Elements(front);
      assert Elements(failures) == Elements(front) + {failures[n]} by {
        assert failures == front + [failures[n]];
      }
    }
  }

  lemma SubsetIsSmaller(a: set<Failure>, b: set<Failure>)
    requires a <= b
    ensures |a| <= |b|
  {
    assert b == a + (b - a);
  }

  /** There are only eight kinds of failure. */
  lemma AtMostEight(failures: seq<Failure>)
    requires NoDuplicates(failures)
    ensures |failures| <= 8
  {
    DistinctElements(failures);
    assert Elements(failures) <= ALL_FAILURES by {
      forall f | f in Elements(failures) ensures f in ALL_FAILURES {
        match f case StartFailed => case Conversation => case ProfileState => case StopRequestFailed =>
                case CleanupFailure => case LauncherReaping => case SupervisorCleanup => case InvalidEvent =>
      }
    }
    SubsetIsSmaller(Elements(failures), ALL_FAILURES);
  }

  lemma {:induction false} FailureTextLength(failures: seq<Failure>)
    ensures |Text(FailureLines(failures))| <= 32 * |failures|
    ensures AllLines(FailureLines(failures))
  {
    if failures != [] {
      CodesDiffer(failures[0]);
      CodesAreLines(failures[0]);
      FailureTextLength(failures[1..]);
      assert FailureLines(failures)[1..] == FailureLines(failures[1..]);
      assert |FAILURE_PREFIX| == 8;
    }
  }

  lemma OneLineOfBoth(a: string, b: string)
    requires OneLine(a) && OneLine(b)
    ensures OneLine(a + b)
  {
  }

  lemma DigitsAreOneLine(n: nat)
    requires n <= 255
    ensures OneLine(Decimal(n)) && |Decimal(n)| <= 20
  {
    Pow10Twenty();
    DecimalLength(n, 20);
    assert forall i :: 0 <= i < |Decimal(n)| ==> IsDigit(Decimal(n)[i]);
  }

  lemma WorkloadLineShort(workload: Option<WorkloadResult>)
    requires ValidWorkload(workload)
    ensures OneLine(WorkloadLine(workload)) && |WorkloadLine(workload)| <= 40
  {
    assert OneLine(UNKNOWN_LINE) && OneLine(EXIT_PREFIX) && OneLine(SIGNAL_PREFIX);
    assert |UNKNOWN_LINE| == 16 && |EXIT_PREFIX| == 14 && |SIGNAL_PREFIX| == 16;
    match workload
    case None =>
      assert WorkloadLine(workload) == UNKNOWN_LINE;
    case Some(Exited(value)) =>
      DigitsAreOneLine(value);
      OneLineOfBoth(EXIT_PREFIX, Decimal(value));
      assert WorkloadLine(workload) == EXIT_PREFIX + Decimal(value);
    case Some(Signaled(value)) =>
      DigitsAreOneLine(value);
      OneLineOfBoth(SIGNAL_PREFIX, Decimal(value));
      assert WorkloadLine(workload) == SIGNAL_PREFIX + Decimal(value);
  }

  lemma HeadText(a: string, b: string, c: string)
    ensures |Text([a, b, c])| == |a| + |b| + |c| + 3
  {
    assert [a, b, c][1..] == [b, c] && [b, c][1..] == [c] && [c][1..] == [];
    assert |Text([c])| == |c| + 1;
    assert |Text([b, c])| == |b| + 1 + |Text([c])|;
  }

  lemma MarkersAreLines()
    ensures OneLine(BEGIN) && OneLine(OK_LINE) && OneLine(FAILED_LINE) && OneLine(END)
  {
  }

  lemma AllLinesOfBoth(a: seq<string>, b: seq<string>)
    requires AllLines(a) && AllLines(b)
    ensures AllLines(a + b)
  {
  }

  lemma BlockText(o: Outcome)
    requires ValidWorkload(o.workload)
    ensures AllLines(BlockLines(o)) && |Text(BlockLines(o))| <= 32 * |o.failures| + 120
  {
    var head := [BEGIN, WorkloadLine(o.workload), if o.failures == [] then OK_LINE else FAILED_LINE];
    WorkloadLineShort(o.workload);
    FailureTextLength(o.failures);
    HeadText(head[0], head[1], head[2]);
    TextAppend(head, FailureLines(o.failures));
    TextAppend(head + FailureLines(o.failures), [END]);
    assert [END][1..] == [] && |Text([END])| == 20;
    assert |BEGIN| == 21 && |OK_LINE| == 17 && |FAILED_LINE| == 21;
    MarkersAreLines();
    assert AllLines(head) && AllLines([END]);
    AllLinesOfBoth(head, FailureLines(o.failures));
    AllLinesOfBoth(head + FailureLines(o.failures), [END]);
  }

  /** The serializer accepts exactly the deliverable outcomes: none of them is too large. */
  lemma SerializesDeliverable(o: Outcome)
    ensures Serialize(o).Block? <==> Deliverable(o)
    ensures Deliverable(o) ==> Serialize(o) == Block(Text(BlockLines(o))) && |Text(BlockLines(o))| <= MAXIMUM_SIZE
  {
    if Deliverable(o) {
      AtMostEight(o.failures);
      BlockText(o);
    }
  }

  // ----- Round trip -----

  lemma WorkloadParses(workload: Option<WorkloadResult>)
    requires ValidWorkload(workload)
    ensures ParseWorkload(WorkloadLine(workload)) == WorkloadRead(workload)
  {
    var line := WorkloadLine(workload);
    match workload
    case None =>
    case Some(Exited(value)) =>
      AfterPrefix(EXIT_PREFIX, Decimal(value));
      ParseIntegerDecimal(value, 0, 255);
      assert line[9] == 'E' && UNKNOWN_LINE[9] == 'U';
    case Some(Signaled(value)) =>
      AfterPrefix(SIGNAL_PREFIX, Decimal(value));
      ParseIntegerDecimal(value, 1, 127);
      assert line[9] == 'S' && UNKNOWN_LINE[9] == 'U' && EXIT_PREFIX[9] == 'E';
  }

  lemma FailureLine(failure: Failure)
    ensures var line := FAILURE_PREFIX + Code(failure);
            line != END && RestAfter(FAILURE_PREFIX, line) == Some(Code(failure))
  {
    AfterPrefix(FAILURE_PREFIX, Code(failure));
    assert (FAILURE_PREFIX + Code(failure))[0] == 'F' && END[0] == 'S';
  }

  /** A failure line takes the parser one failure further. */
  lemma FailureStep(failure: Failure, lines: seq<string>, rest: string, workload: Option<WorkloadResult>,
                    found: seq<Failure>)
    requires lines != [] && lines[0] == FAILURE_PREFIX + Code(failure) && failure !in found
    ensures ParseFailures(lines, rest, workload, false, found)
            == ParseFailures(lines[1..], rest, workload, false, found + [failure])
  {
    FailureLine(failure);
    CodesParse(failure);
  }

  lemma CutAfterFirst(head: string, tail: seq<string>, k: nat)
    requires 0 < k <= |tail| + 1
    ensures ([head] + tail)[..k][0] == head && ([head] + tail)[..k][1..] == tail[..k - 1]
  {
  }

  lemma FailureLinesStep(failures: seq<Failure>)
    requires failures != []
    ensures FailureLines(failures) == [FAILURE_PREFIX + Code(failures[0])] + FailureLines(failures[1..])
  {
  }

  lemma CutOfBoth(lines: seq<string>, head: string, tail: seq<string>, last: string, k: nat)
    requires lines == [head] + tail && 0 < k <= |lines| + 1
    ensures (lines + [last])[..k][0] == head && (lines + [last])[..k][1..] == (tail + [last])[..k - 1]
  {
    assert lines + [last] == [head] + (tail + [last]);
    CutAfterFirst(head, tail + [last], k);
  }

  lemma FailureLinesCut(failures: seq<Failure>, k: nat)
    requires failures != [] && 0 < k <= |failures| + 1
    ensures var lines := FailureLines(failures) + [END];
            && lines[..k][0] == FAILURE_PREFIX + Code(failures[0])
            && lines[..k][1..] == (FailureLines(failures[1..]) + [END])[..k - 1]
  {
    FailureLinesStep(failures);
    CutOfBoth(FailureLines(failures), FAILURE_PREFIX + Code(failures[0]), FailureLines(failures[1..]), END, k);
  }

  lemma FreshFailure(found: seq<Failure>, failures: seq<Failure>)
    requires failures != [] && NoDuplicates(found + failures)
    ensures failures[0] !in found && (found + [failures[0]]) + failures[1..] == found + failures
  {
    assert (found + [failures[0]]) + failures[1..] == found + failures;
    forall i | 0 <= i < |found| ensures found[i] != failures[0] {
      assert (found + failures)[i] != (found + failures)[|found|];
    }
  }

  /** Reading some of the failure lines, with or without the end marker. */
  lemma {:induction false} FailuresParse(failures: seq<Failure>, found: seq<Failure>, k: nat, rest: string,
                                         workload: Option<WorkloadResult>)
    requires NoDuplicates(found + failures) && k <= |failures| + 1 && found + failures != []
    ensures var parsed := ParseFailures((FailureLines(failures) + [END])[..k], rest, workload, false, found);
            && (k <= |failures| ==> parsed.Incomplete?)
            && (k == |failures| + 1 && rest == "" ==> parsed == Complete(Outcome(workload, found + failures)))
    decreases |failures|
  {
    if failures == [] {
      assert k > 0 ==> (FailureLines(failures) + [END])[..k] == [END] && [END][1..] == [];
      assert found + failures == found;
    } else if k > 0 {
      FreshFailure(found, failures);
      FailureLinesCut(failures, k);
      FailureStep(failures[0], (FailureLines(failures) + [END])[..k], rest, workload, found);
      FailuresParse(failures[1..], found + [failures[0]], k - 1, rest, workload);
    }
  }

  /** Any number of complete lines of a block is incomplete until it is all of them. */
  lemma LinesParse(o: Outcome, k: nat, rest: string)
    requires Deliverable(o) && k <= |BlockLines(o)|
    ensures k < |BlockLines(o)| ==> ParseLines(BlockLines(o)[..k], rest).Incomplete?
    ensures k == |BlockLines(o)| && rest == "" ==> ParseLines(BlockLines(o)[..k], rest) == Complete(o)
  {
    hide FailureLines, WorkloadLine, IsDigit;
    var lines, tail := BlockLines(o), FailureLines(o.failures) + [END];
    WorkloadParses(o.workload);
    assert lines[..k] == (if k <= 3 then lines[..k] else lines[..3] + tail[..k - 3]);
    if k >= 3 {
      assert lines[..k][3..] == tail[..k - 3];
      assert OK_LINE[15] == 'O' && FAILED_LINE[15] == 'F';
      if o.failures == [] {
        assert tail == [END] && (k > 3 ==> tail[..k - 3] == [END] && [END][1..] == []);
      } else {
        assert [] + o.failures == o.failures;
        FailuresParse(o.failures, [], k - 3, rest, o.workload);
      }
    }
  }

  /** A proper prefix of a block is incomplete, the block itself gives the outcome back. */
  lemma PrefixParses(o: Outcome, prefix: string, suffix: string)
    requires Deliverable(o) && Text(BlockLines(o)) == prefix + suffix
    ensures ParseBlock(prefix) == if suffix == "" then Complete(o) else Incomplete
  {
    var lines := BlockLines(o);
    BlockText(o);
    PrefixOfText(lines, prefix, suffix);
    var k, rest := |Split(prefix).0|, Split(prefix).1;
    if suffix == "" {
      assert prefix + suffix == prefix;
      SplitText(lines, "");
      assert Text(lines) + "" == Text(lines) && lines[..|lines|] == lines;
      LinesParse(o, |lines|, "");
    } else {
      assert |Text(lines[k..])| >= |suffix| > 0;
      assert lines[k..] != [];
      LinesParse(o, k, rest);
    }
  }

  /** The results of receiving fragments one after the other. */
  function Results(buffer: string, completed: bool, fragments: seq<string>): seq<Parsing>
    decreases |fragments|
  {
    if fragments == [] then []
    else
      var (r, next, done) := Received(buffer, completed, fragments[0]);
      [r] + Results(next, done, fragments[1..])
  }

  lemma FragmentParses(o: Outcome, block: string, buffer: string, fragment: string, rest: string)
    requires Deliverable(o) && block == Text(BlockLines(o)) && |block| <= MAXIMUM_SIZE
    requires buffer + (fragment + rest) == block
    ensures Received(buffer, false, fragment)
            == (if rest == "" then Complete(o) else Incomplete, buffer + fragment, rest == "")
  {
    Regroup(buffer, fragment, rest);
    hide ParseBlock, BlockLines, Text;
    PrefixParses(o, buffer + fragment, rest);
  }

  lemma {:induction false} FragmentsParse(o: Outcome, block: string, buffer: string, fragments: seq<string>)
    requires Deliverable(o) && block == Text(BlockLines(o)) && |block| <= MAXIMUM_SIZE
    requires fragments != [] && forall i :: 0 <= i < |fragments| ==> fragments[i] != ""
    requires buffer + Concat(fragments) == block
    ensures var results := Results(buffer, false, fragments);
            && |results| == |fragments| && results[|results| - 1] == Complete(o)
            && forall i :: 0 <= i < |results| - 1 ==> results[i].Incomplete?
    decreases |fragments|
  {
    hide Received, BlockLines, Text, Deliverable;
    var rest := Concat(fragments[1..]);
    FragmentParses(o, block, buffer, fragments[0], rest);
    if |fragments| == 1 {
      assert rest == "" && fragments[1..] == [];
    } else {
      assert rest != "" by {
        assert fragments[1..][0] == fragments[1] != "";
      }
      Regroup(buffer, fragments[0], rest);
      FragmentsParse(o, block, buffer + fragments[0], fragments[1..]);
    }
  }

  /** However the block of a deliverable outcome is cut into fragments, the parser asks for more until the last one and
      then returns the same outcome, its failures in the same order. */
  lemma OutcomeArrives(o: Outcome, fragments: seq<string>)
    requires Serialize(o).Block? && Concat(fragments) == Serialize(o).text
    requires forall i :: 0 <= i < |fragments| ==> fragments[i] != ""
    ensures var results := Results("", false, fragments);
            && |results| == |fragments| > 0 && results[|results| - 1] == Complete(o)
            && forall i :: 0 <= i < |results| - 1 ==> results[i].Incomplete?
  {
    SerializesDeliverable(o);
    var block := Serialize(o).text;
    assert "" + Concat(fragments) == block;
    assert block != "" by {
      assert BlockLines(o) != [];
    }
    FragmentsParse(o, block, "", fragments);
  }

  /** Every run of the lifecycle that was active and whose events are in range publishes a deliverable outcome, as long
      as the unknown profile state is reported at most once. */
  lemma PublishedOutcomesAreDeliverable(script: Script)
    requires Published(script).Some? && LoopOf(script).0.activated && Unknowns(script.turns) <= 1
    requires forall i :: 0 <= i < |script.turns| ==> InRange(script.turns[i].event)
    ensures Deliverable(Published(script).value) && Serialize(Published(script).value).Block?
  {
    OutcomesAreWellFormed(script);
    SerializesDeliverable(Published(script).value);
  }

  // ----- What the parser accepts -----

  /** The parser on a line that is not the end marker, when it comes to an outcome. */
  lemma FailureStepBack(lines: seq<string>, rest: string, workload: Option<WorkloadResult>, succeeded: bool,
                        found: seq<Failure>) returns (failure: Failure)
    requires ParseFailures(lines, rest, workload, succeeded, found).Complete? && lines[0] != END
    ensures lines[0] == FAILURE_PREFIX + Code(failure) && failure !in found && !succeeded
    ensures ParseFailures(lines, rest, workload, succeeded, found)
            == ParseFailures(lines[1..], rest, workload, succeeded, found + [failure])
  {
    var code := RestAfter(FAILURE_PREFIX, lines[0]).value;
    failure := ParseCode(code).value;
    CodesBack(code);
    assert lines[0] == FAILURE_PREFIX + code;
  }

  lemma {:induction false} FailuresBack(lines: seq<string>, rest: string, workload: Option<WorkloadResult>,
                                        succeeded: bool, found: seq<Failure>) returns (more: seq<Failure>)
    requires NoDuplicates(found) && ParseFailures(lines, rest, workload, succeeded, found).Complete?
    ensures ParseFailures(lines, rest, workload, succeeded, found) == Complete(Outcome(workload, found + more))
    ensures lines == FailureLines(more) + [END] && rest == "" && NoDuplicates(found + more)
    ensures succeeded == (found + more == [])
    decreases |lines|
  {
    if lines[0] == END {
      more := [];
      assert found + [] == found && lines == [END];
    } else {
      var failure := FailureStepBack(lines, rest, workload, succeeded, found);
      var later := FailuresBack(lines[1..], rest, workload, succeeded, found + [failure]);
      more := [failure] + later;
      MoreLines(lines, failure, later, found);
    }
  }

  lemma MoreLines(lines: seq<string>, failure: Failure, later: seq<Failure>, found: seq<Failure>)
    requires lines != [] && lines[0] == FAILURE_PREFIX + Code(failure) && lines[1..] == FailureLines(later) + [END]
    ensures lines == FailureLines([failure] + later) + [END]
    ensures (found + [failure]) + later == found + ([failure] + later)
  {
    assert ([failure] + later)[1..] == later;
    assert lines == [lines[0]] + lines[1..];
  }

  /** The number in a Workload line is spelled as the serializer spells it. */
  predicate CanonicalWorkload(line: string) {
    line == UNKNOWN_LINE
    || match RestAfter(EXIT_PREFIX, line)
       case Some(number) => Canonical(number)
       case None => RestAfter(SIGNAL_PREFIX, line).Some? && Canonical(RestAfter(SIGNAL_PREFIX, line).value)
  }

  lemma WorkloadBack(line: string)
    requires ParseWorkload(line).WorkloadRead?
    ensures var w := ParseWorkload(line).value;
            ValidWorkload(w) && (WorkloadLine(w) == line <==> CanonicalWorkload(line))
  {
    if RestAfter(EXIT_PREFIX, line).Some? && line != UNKNOWN_LINE {
      NumberBack(EXIT_PREFIX, line, 0, 255);
    } else if line != UNKNOWN_LINE {
      NumberBack(SIGNAL_PREFIX, line, 1, 127);
    }
  }

  lemma NumberBack(prefix: string, line: string, minimum: nat, maximum: nat)
    requires RestAfter(prefix, line).Some? && ParseInteger(RestAfter(prefix, line).value, minimum, maximum).Some?
    ensures var number := RestAfter(prefix, line).value;
            var value := ParseInteger(number, minimum, maximum).value;
            value >= 0 && (prefix + Decimal(value) == line <==> Canonical(number))
  {
    var number := RestAfter(prefix, line).value;
    var value := ParseInteger(number, minimum, maximum).value;
    assert line == prefix + number;
    ValueOfDecimal(value);
    if Canonical(number) {
      DecimalOfValue(number);
    }
    assert prefix + Decimal(value) == line ==> (prefix + Decimal(value))[|prefix|..] == number;
    assert (prefix + Decimal(value))[|prefix|..] == Decimal(value);
  }

  /** Whatever the parser accepts is a deliverable outcome; and the text is the block of that outcome exactly when the
      number in it has no superfluous zeros and no sign. So reading is one-way. */
  lemma AcceptedUpToSpelling(input: string)
    requires ParseBlock(input).Complete?
    ensures var o := ParseBlock(input).outcome;
            && Deliverable(o)
            && (Serialize(o) == Block(input) <==> CanonicalWorkload(Split(input).0[1]))
  {
    hide FailureLines, CanonicalWorkload, Canonical;
    var (lines, rest) := Split(input);
    var workload := ParseWorkload(lines[1]).value;
    WorkloadBack(lines[1]);
    var failures := FailuresBack(lines[3..], rest, workload, lines[2] == OK_LINE, []);
    assert [] + failures == failures;
    var o := Outcome(workload, failures);
    SerializesDeliverable(o);
    assert lines == [lines[0], lines[1], lines[2]] + lines[3..];
    assert input == Text(lines) by { assert Text(lines) + "" == Text(lines); }
    SameText(BlockLines(o), lines, o);
    assert BlockLines(o)[1] == WorkloadLine(workload);
    assert WorkloadLine(workload) == lines[1] ==> BlockLines(o) == lines;
  }

  lemma SameText(block: seq<string>, lines: seq<string>, o: Outcome)
    requires ValidWorkload(o.workload) && block == BlockLines(o) && AllLines(lines)
    ensures Text(block) == Text(lines) <==> block == lines
  {
    BlockText(o);
    SplitText(block, "");
    SplitText(lines, "");
    assert Text(block) + "" == Text(block) && Text(lines) + "" == Text(lines);
  }
}
