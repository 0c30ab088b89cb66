/** The Workload start block: the context the Supervisor sends and the receiver that accepts it within limits. */
module StartBlock {
  import opened Wrappers
  import opened Lines
  import opened LineMachines
  import opened Hexadecimal

  const MAXIMUM_VALUE: nat := 128 * 1024
  const MAXIMUM_TOTAL: nat := 1024 * 1024
  const MAXIMUM_ENTRIES: nat := 4096
  const MAXIMUM_BLOCK: nat := MAXIMUM_TOTAL * 2 + (MAXIMUM_ENTRIES * 2 + 4) * 6
  const MAXIMUM_LINE: nat := MAXIMUM_VALUE * 2 + 5

  datatype WorkloadContext = WorkloadContext(
    workingDirectory: seq<Byte>, arguments: seq<seq<Byte>>, environment: seq<seq<Byte>>)

  const SLASH: Byte := 47

  const BEGIN := "START_BEGIN"
  const END := "START_END"
  const CWD := "CWD "
  const ARG := "ARG "
  const ENV := "ENV "

  // ----- Hexadecimal -----

  function Hex(value: seq<Byte>): (s: string)
    ensures |s| == 2 * |value|
    ensures forall i :: 0 <= i < |s| ==> IsNibble(s[i])
  {
    if value == [] then "" else [NibbleChar(value[0] / 16), NibbleChar(value[0] % 16)] + Hex(value[1..])
  }

  /** The bytes some pairs of nibbles denote; a zero byte is refused. */
  function Unhex(s: string): Option<seq<Byte>>
  {
    if s == "" then Some([])
    else if |s| == 1 || !IsNibble(s[0]) || !IsNibble(s[1]) || Nibble(s[0]) * 16 + Nibble(s[1]) == 0 then None
    else match Unhex(s[2..])
      case None => None
      case Some(rest) => Some([Nibble(s[0]) * 16 + Nibble(s[1])] + rest)
  }

  /** `decode_hex`. */
  function DecodeHex(s: string): Option<seq<Byte>> {
    if |s| % 2 != 0 || |s| / 2 > MAXIMUM_VALUE then None else Unhex(s)
  }

  predicate NoNul(value: seq<Byte>) {
    forall i :: 0 <= i < |value| ==> value[i] != 0
  }

  lemma {:induction false} UnhexOfHex(value: seq<Byte>)
    ensures Unhex(Hex(value)) == if NoNul(value) then Some(value) else None
  {
    if value != [] {
      var s := Hex(value);
      UnhexOfHex(value[1..]);
      assert s[2..] == Hex(value[1..]);
      assert Nibble(s[0]) * 16 + Nibble(s[1]) == value[0];
      assert value == [value[0]] + value[1..];
      assert NoNul(value) <==> value[0] != 0 && NoNul(value[1..]);
    }
  }

  lemma {:induction false} HexOfUnhex(s: string)
    requires Unhex(s).Some?
    ensures Hex(Unhex(s).value) == s && NoNul(Unhex(s).value)
  {
    if s != "" {
      HexOfUnhex(s[2..]);
      PairBack(s[0], s[1]);
      hide Nibble, NibbleChar, IsNibble;
      var v := Unhex(s).value;
      assert v[1..] == Unhex(s[2..]).value;
      assert s == [s[0], s[1]] + s[2..];
    }
  }

  lemma PairBack(high: char, low: char)
    requires IsNibble(high) && IsNibble(low)
    ensures var n := Nibble(high) * 16 + Nibble(low);
            n < 256 && NibbleChar(n / 16) == high && NibbleChar(n % 16) == low
  {
    NibbleBack(high);
    NibbleBack(low);
  }

  /** `encode_hex`. */
  method EncodeHex(value: seq<Byte>) returns (encoded: string)
    ensures encoded == Hex(value)
  {
    encoded := "";
    for i := 0 to |value|
      invariant encoded + Hex(value[i..]) == Hex(value)
    {
      assert value[i..][1..] == value[i + 1..];
      var pair := [NibbleChar(value[i] / 16), NibbleChar(value[i] % 16)];
      assert encoded + (pair + Hex(value[i + 1..])) == (encoded + pair) + Hex(value[i + 1..]);
      encoded := encoded + pair;
    }
    assert encoded + "" == encoded;
  }

  function Prefixed(front: seq<Byte>, rest: Option<seq<Byte>>): Option<seq<Byte>> {
    if rest.Some? then Some(front + rest.value) else None
  }

  method DecodeHexPairs(s: string) returns (decoded: Option<seq<Byte>>)
    ensures decoded == DecodeHex(s)
  {
    if |s| % 2 != 0 || |s| / 2 > MAXIMUM_VALUE {
      return None;
    }
    var found: seq<Byte> := [];
    var i := 0;
    assert s[0..] == s;
    assert Prefixed([], Unhex(s)) == Unhex(s) by {
      if Unhex(s).Some? {
        assert [] + Unhex(s).value == Unhex(s).value;
      }
    }
    while i < |s|
      invariant 0 <= i <= |s| && i % 2 == 0
      invariant Prefixed(found, Unhex(s[i..])) == Unhex(s)
    {
      assert s[i..][2..] == s[i + 2..];
      if !IsNibble(s[i]) || !IsNibble(s[i + 1]) {
        return None;
      }
      var value := Nibble(s[i]) * 16 + Nibble(s[i + 1]);
      if value == 0 {
        return None;
      }
      PrefixedStep(found, value, Unhex(s[i + 2..]));
      found := found + [value];
      i := i + 2;
    }
    assert found + [] == found;
    return Some(found);
  }

  lemma PrefixedStep(found: seq<Byte>, value: Byte, rest: Option<seq<Byte>>)
    ensures Prefixed(found, Prefixed([value], rest)) == Prefixed(found + [value], rest)
  {
    if rest.Some? {
      assert found + ([value] + rest.value) == (found + [value]) + rest.value;
    }
  }

  // ----- Sizes -----

  /** `add_size`: the value's bytes and one more, if neither the value nor the total becomes too large. */
  function AddSize(total: nat, size: nat): Option<nat> {
    if size > MAXIMUM_VALUE || total > MAXIMUM_TOTAL - (size + 1) then None else Some(total + size + 1)
  }

  function SizeOf(values: seq<seq<Byte>>): nat {
    if values == [] then 0 else |values[0]| + 1 + SizeOf(values[1..])
  }

  predicate Fits(value: seq<Byte>) {
    NoNul(value) && |value| <= MAXIMUM_VALUE
  }

  predicate AllFit(values: seq<seq<Byte>>) {
    forall i :: 0 <= i < |values| ==> Fits(values[i])
  }

  /** A context that can be sent. */
  predicate Acceptable(c: WorkloadContext) {
    && c.workingDirectory != [] && c.workingDirectory[0] == SLASH && Fits(c.workingDirectory)
    && 1 <= |c.arguments| <= MAXIMUM_ENTRIES && |c.environment| <= MAXIMUM_ENTRIES
    && AllFit(c.arguments) && AllFit(c.environment)
    && |c.workingDirectory| + 1 + SizeOf(c.arguments) + SizeOf(c.environment) <= MAXIMUM_TOTAL
  }

  // ----- Serializing -----

  function ValueLines(prefix: string, values: seq<seq<Byte>>): (lines: seq<string>)
    ensures |lines| == |values|
  {
    if values == [] then [] else [prefix + Hex(values[0])] + ValueLines(prefix, values[1..])
  }

  /** The lines of a context. */
  function BlockLines(c: WorkloadContext): (lines: seq<string>)
    ensures |lines| == 3 + |c.arguments| + |c.environment|
  {
    [BEGIN, CWD + Hex(c.workingDirectory)] + ValueLines(ARG, c.arguments) + ValueLines(ENV, c.environment) + [END]
  }

  /** `append_encoded_line` on several values: the lines and the new total, unless one does not fit. */
  function AppendAll(prefix: string, values: seq<seq<Byte>>, total: nat): Option<nat>
    decreases |values|
  {
    if values == [] then Some(total)
    else if !NoNul(values[0]) then None
    else match AddSize(total, |values[0]|)
      case None => None
      case Some(next) => AppendAll(prefix, values[1..], next)
  }

  lemma {:induction false} AppendAllFits(prefix: string, values: seq<seq<Byte>>, total: nat)
    requires total <= MAXIMUM_TOTAL
    ensures AppendAll(prefix, values, total)
            == if AllFit(values) && total + SizeOf(values) <= MAXIMUM_TOTAL then Some(total + SizeOf(values)) else None
    decreases |values|
  {
    if values != [] {
      assert AllFit(values) <==> Fits(values[0]) && AllFit(values[1..]);
      if NoNul(values[0]) && AddSize(total, |values[0]|).Some? {
        AppendAllFits(prefix, values[1..], AddSize(total, |values[0]|).value);
      }
    }
  }

  method AppendEncodedLines(block: seq<string>, prefix: string, values: seq<seq<Byte>>, total: nat)
      returns (extended: seq<string>, newTotal: Option<nat>)
    ensures newTotal == AppendAll(prefix, values, total)
    ensures newTotal.Some? ==> extended == block + ValueLines(prefix, values)
  {
    extended := block;
    var sum := total;
    for i := 0 to |values|
      invariant AppendAll(prefix, values[i..], sum) == AppendAll(prefix, values, total)
      invariant extended + ValueLines(prefix, values[i..]) == block + ValueLines(prefix, values)
    {
      assert values[i..][1..] == values[i + 1..];
      if !NoNul(values[i]) {
        return extended, None;
      }
      var next := AddSize(sum, |values[i]|);
      if next.None? {
        return extended, None;
      }
      var encoded := EncodeHex(values[i]);
      assert extended + ([prefix + encoded] + ValueLines(prefix, values[i + 1..]))
             == (extended + [prefix + encoded]) + ValueLines(prefix, values[i + 1..]);
      extended := extended + [prefix + encoded];
      sum := next.value;
    }
    assert extended + [] == extended;
    newTotal := Some(sum);
  }

  /** `serialize_start_block`, as the list of its lines. */
  method SerializeStartBlock(c: WorkloadContext) returns (lines: Option<seq<string>>)
    ensures lines == if Acceptable(c) then Some(BlockLines(c)) else None
  {
    if c.workingDirectory == [] || c.workingDirectory[0] != SLASH || c.arguments == []
       || |c.arguments| > MAXIMUM_ENTRIES || |c.environment| > MAXIMUM_ENTRIES {
      return None;
    }
    AppendAllFits(CWD, [c.workingDirectory], 0);
    OneValue(CWD, c.workingDirectory);
    var block := [BEGIN];
    var total;
    block, total := AppendEncodedLines(block, CWD, [c.workingDirectory], 0);
    if total.None? {
      return None;
    }
    AppendAllFits(ARG, c.arguments, total.value);
    block, total := AppendEncodedLines(block, ARG, c.arguments, total.value);
    if total.None? {
      return None;
    }
    AppendAllFits(ENV, c.environment, total.value);
    block, total := AppendEncodedLines(block, ENV, c.environment, total.value);
    if total.None? {
      return None;
    }
    assert block + [END] == BlockLines(c);
    return Some(block + [END]);
  }

  lemma OneValue(prefix: string, value: seq<Byte>)
    ensures ValueLines(prefix, [value]) == [prefix + Hex(value)] && SizeOf([value]) == |value| + 1
    ensures AllFit([value]) <==> Fits(value)
  {
    assert [value][1..] == [];
    assert [value][0] == value;
  }

  // ----- Parsing -----

  /** `take_value`. */
  function TakeValue(line: string, prefix: string, total: nat): Option<(seq<Byte>, nat)> {
    match RestAfter(prefix, line)
    case None => None
    case Some(hex) =>
      match DecodeHex(hex)
      case None => None
      case Some(value) =>
        match AddSize(total, |value|)
        case None => None
        case Some(next) => Some((value, next))
  }

  /** Values with a prefix from the front of some lines: the values, the lines left, and the new total. */
  function TakeAll(lines: seq<string>, prefix: string, total: nat, room: nat)
      : Option<(seq<seq<Byte>>, seq<string>, nat)>
    decreases |lines|
  {
    if lines == [] || RestAfter(prefix, lines[0]).None? then Some(([], lines, total))
    else if room == 0 then None
    else match TakeValue(lines[0], prefix, total)
      case None => None
      case Some((value, next)) =>
        match TakeAll(lines[1..], prefix, next, room - 1)
        case None => None
        case Some((values, rest, last)) => Some(([value] + values, rest, last))
  }

  /** `parse_start_block`. */
  function Parse(lines: seq<string>): Option<WorkloadContext> {
    if |lines| < 4 || lines[0] != BEGIN || lines[|lines| - 1] != END then None
    else match TakeValue(lines[1], CWD, 0)
      case None => None
      case Some((directory, total)) =>
        if directory == [] || directory[0] != SLASH then None
        else match TakeAll(lines[2..|lines| - 1], ARG, total, MAXIMUM_ENTRIES)
          case None => None
          case Some((arguments, rest, total2)) =>
            if arguments == [] then None
            else match TakeAll(rest, ENV, total2, MAXIMUM_ENTRIES)
              case None => None
              case Some((environment, left, _)) =>
                if left != [] then None else Some(WorkloadContext(directory, arguments, environment))
  }

  lemma ValueTaken(prefix: string, value: seq<Byte>, total: nat)
    requires Fits(value) && total + |value| + 1 <= MAXIMUM_TOTAL
    ensures TakeValue(prefix + Hex(value), prefix, total) == Some((value, total + |value| + 1))
  {
    AfterPrefix(prefix, Hex(value));
    HexDecodes(value);
  }

  lemma Halves(n: nat)
    ensures 2 * n % 2 == 0 && 2 * n / 2 == n
  {
  }

  lemma HexDecodes(value: seq<Byte>)
    requires Fits(value)
    ensures DecodeHex(Hex(value)) == Some(value)
  {
    var hex := Hex(value);
    UnhexOfHex(value);
    Halves(|value|);
    assert |hex| == 2 * |value|;
  }

  lemma ValueTakenBack(line: string, prefix: string, total: nat)
    requires TakeValue(line, prefix, total).Some? && total <= MAXIMUM_TOTAL
    ensures var (value, next) := TakeValue(line, prefix, total).value;
            line == prefix + Hex(value) && Fits(value) && next == total + |value| + 1 <= MAXIMUM_TOTAL
  {
    HexOfUnhex(RestAfter(prefix, line).value);
  }

  /** Lines of values are taken up to a line of another kind. */
  lemma {:induction false} AllTaken(prefix: string, values: seq<seq<Byte>>, rest: seq<string>, total: nat, room: nat)
    requires AllFit(values) && total + SizeOf(values) <= MAXIMUM_TOTAL && |values| <= room
    requires rest == [] || RestAfter(prefix, rest[0]).None?
    ensures TakeAll(ValueLines(prefix, values) + rest, prefix, total, room)
            == Some((values, rest, total + SizeOf(values)))
    decreases |values|
  {
    hide Hex, TakeValue, AddSize;
    var lines := ValueLines(prefix, values) + rest;
    if values == [] {
      assert lines == rest;
    } else {
      AfterPrefix(prefix, Hex(values[0]));
      ValueTaken(prefix, values[0], total);
      AllTaken(prefix, values[1..], rest, total + |values[0]| + 1, room - 1);
      assert lines[1..] == ValueLines(prefix, values[1..]) + rest;
      assert [values[0]] + values[1..] == values;
    }
  }

  lemma {:induction false} AllTakenBack(lines: seq<string>, prefix: string, total: nat, room: nat)
    requires TakeAll(lines, prefix, total, room).Some? && total <= MAXIMUM_TOTAL
    ensures var (values, rest, last) := TakeAll(lines, prefix, total, room).value;
            && lines == ValueLines(prefix, values) + rest && AllFit(values) && |values| <= room
            && last == total + SizeOf(values) <= MAXIMUM_TOTAL
    decreases |lines|
  {
    hide Hex, Unhex, DecodeHex;
    if lines != [] && RestAfter(prefix, lines[0]).Some? {
      var (value, next) := TakeValue(lines[0], prefix, total).value;
      ValueTakenBack(lines[0], prefix, total);
      AllTakenBack(lines[1..], prefix, next, room - 1);
      var (values, rest, last) := TakeAll(lines, prefix, total, room).value;
      assert values[1..] == TakeAll(lines[1..], prefix, next, room - 1).value.0;
      assert lines == [lines[0]] + lines[1..];
    }
  }

  lemma KindsDiffer(value: string)
    ensures RestAfter(ARG, ENV + value).None? && RestAfter(ARG, END).None? && RestAfter(ENV, END).None?
    ensures ENV + value != END && ARG + value != END && CWD + value != END
  {
    assert (ENV + value)[0] == 'E' && (ARG + value)[0] == 'A' && (CWD + value)[0] == 'C' && END[0] == 'S';
  }

  /** Parsing the lines of an acceptable context gives the context. */
  lemma BlockParses(c: WorkloadContext)
    requires Acceptable(c)
    ensures Parse(BlockLines(c)) == Some(c)
  {
    hide TakeValue, TakeAll, DecodeHex;
    var lines := BlockLines(c);
    var total := |c.workingDirectory| + 1;
    var args, envs := ValueLines(ARG, c.arguments), ValueLines(ENV, c.environment);
    ValueTaken(CWD, c.workingDirectory, 0);
    assert lines[2..|lines| - 1] == args + envs;
    if c.environment != [] {
      KindsDiffer(Hex(c.environment[0]));
    }
    AllTaken(ARG, c.arguments, envs, total, MAXIMUM_ENTRIES);
    AllTaken(ENV, c.environment, [], total + SizeOf(c.arguments), MAXIMUM_ENTRIES);
    assert envs + [] == envs;
  }

  /** The values after the working directory. */
  lemma ParsedValues(lines: seq<string>)
    requires Parse(lines).Some?
    ensures var c := Parse(lines).value;
            && lines[1] == CWD + Hex(c.workingDirectory) && Fits(c.workingDirectory)
            && lines[2..|lines| - 1] == ValueLines(ARG, c.arguments) + ValueLines(ENV, c.environment)
            && AllFit(c.arguments) && AllFit(c.environment)
            && |c.arguments| <= MAXIMUM_ENTRIES && |c.environment| <= MAXIMUM_ENTRIES
            && |c.workingDirectory| + 1 + SizeOf(c.arguments) + SizeOf(c.environment) <= MAXIMUM_TOTAL
  {
    var c, middle := Parse(lines).value, lines[2..|lines| - 1];
    var total := TakeValue(lines[1], CWD, 0).value.1;
    ValueTakenBack(lines[1], CWD, 0);
    AllTakenBack(middle, ARG, total, MAXIMUM_ENTRIES);
    var (arguments, rest, total2) := TakeAll(middle, ARG, total, MAXIMUM_ENTRIES).value;
    AllTakenBack(rest, ENV, total2, MAXIMUM_ENTRIES);
    assert ValueLines(ENV, c.environment) + [] == ValueLines(ENV, c.environment);
  }

  lemma HeadMiddleTail(lines: seq<string>)
    requires |lines| >= 3
    ensures lines == [lines[0], lines[1]] + lines[2..|lines| - 1] + [lines[|lines| - 1]]
  {
  }

  /** Lines that parse are the lines of an acceptable context. */
  lemma ParsedIsBlock(lines: seq<string>)
    requires Parse(lines).Some?
    ensures Acceptable(Parse(lines).value) && BlockLines(Parse(lines).value) == lines
  {
    var c := Parse(lines).value;
    ParsedValues(lines);
    HeadMiddleTail(lines);
    var args, envs := ValueLines(ARG, c.arguments), ValueLines(ENV, c.environment);
    assert [BEGIN, lines[1]] + (args + envs) + [END] == [BEGIN, lines[1]] + args + envs + [END];
  }

  /** Serializing and parsing are inverse to each other: the serializer accepts exactly what the parser can return, and
      each line list denotes one context. */
  lemma StartBlockIsABijection(c: WorkloadContext, lines: seq<string>)
    ensures Parse(lines) == Some(c) <==> Acceptable(c) && lines == BlockLines(c)
  {
    if Acceptable(c) && lines == BlockLines(c) {
      BlockParses(c);
    }
    if Parse(lines).Some? {
      ParsedIsBlock(lines);
    }
  }

  // ----- The receiver -----

  /** `HelperStartConversation`. */
  datatype Receiver = Receiver(lines: seq<string>, encoded: nat, buffer: string, started: bool, finished: bool)

  const RECEIVER_START := Receiver([], 0, "", false, false)

  datatype Feeding = Incomplete | Complete(context: WorkloadContext) | Invalid

  function Refuse(r: Receiver): (Receiver, Feeding) {
    (r.(finished := true), Invalid)
  }

  /** A complete line that passed the limits. */
  function TakeLine(r: Receiver, line: string): Receiver {
    r.(lines := r.lines + [line], encoded := r.encoded + |line| + 1, started := true)
  }

  predicate WithinLimits(r: Receiver, size: nat) {
    size <= MAXIMUM_LINE && r.encoded <= MAXIMUM_BLOCK - (size + 1) && |r.lines| <= MAXIMUM_ENTRIES * 2 + 2
  }

  /** The receive loop. */
  function DrainBlock(r: Receiver): (Receiver, Feeding)
    decreases |r.buffer|
  {
    match TakeNextLine(r.buffer)
    case None =>
      if |r.buffer| > MAXIMUM_LINE || r.encoded > MAXIMUM_BLOCK - |r.buffer| then Refuse(r) else (r, Incomplete)
    case Some((line, rest)) =>
      if !WithinLimits(r, |line|) then Refuse(r)
      else
        var cut := r.(buffer := rest, encoded := r.encoded + |line| + 1);
        if r.lines == [] && line != BEGIN then Refuse(cut)
        else
          var next := TakeLine(r, line).(buffer := rest);
          if line != END then DrainBlock(next)
          else if rest != "" || Parse(next.lines).None? then Refuse(next)
          else (next.(finished := true), Complete(Parse(next.lines).value))
  }

  /** `receive_bytes`. */
  function FeedBlock(r: Receiver, bytes: string): (Receiver, Feeding) {
    if r.finished then (r, Invalid) else DrainBlock(r.(buffer := r.buffer + bytes))
  }

  class HelperStartConversation {
    var lines: seq<string>
    var encoded: nat
    var buffer: string
    var started: bool
    var finished: bool

    constructor ()
      ensures State() == RECEIVER_START
    {
      lines, encoded, buffer, started, finished := [], 0, "", false, false;
    }

    function State(): Receiver
      reads this
    {
      Receiver(lines, encoded, buffer, started, finished)
    }

    method ReceiveBytes(bytes: string) returns (result: Feeding)
      modifies this
      ensures (State(), result) == FeedBlock(old(State()), bytes)
    {
      if finished {
        return Invalid;
      }
      buffer := buffer + bytes;
      ghost var whole := DrainBlock(State());
      while true
        invariant DrainBlock(State()) == whole
        decreases |buffer|
      {
        var line := TakeNextLine(buffer);
        if line.None? {
          if |buffer| > MAXIMUM_LINE || encoded > MAXIMUM_BLOCK - |buffer| {
            finished := true;
            return Invalid;
          }
          return Incomplete;
        }
        var done: Option<Feeding>;
        done := AcceptLine(line.value.0, line.value.1, whole);
        if done.Some? {
          return done.value;
        }
      }
    }

    /** The loop body for a complete line. */
    method AcceptLine(line: string, rest: string, ghost whole: (Receiver, Feeding)) returns (done: Option<Feeding>)
      requires TakeNextLine(buffer) == Some((line, rest)) && DrainBlock(State()) == whole
      modifies this
      ensures done.None? ==> DrainBlock(State()) == whole && buffer == rest
      ensures done.Some? ==> whole == (State(), done.value)
    {
      hide Parse, TakeNextLine;
      if |line| > MAXIMUM_LINE || encoded > MAXIMUM_BLOCK - (|line| + 1) || |lines| > MAXIMUM_ENTRIES * 2 + 2 {
        finished := true;
        return Some(Invalid);
      }
      buffer := rest;
      encoded := encoded + |line| + 1;
      if lines == [] && line != BEGIN {
        finished := true;
        return Some(Invalid);
      }
      started := true;
      lines := lines + [line];
      if line != END {
        return None;
      }
      finished := true;
      if buffer != "" {
        return Some(Invalid);
      }
      var context := Parse(lines);
      return Some(if context.None? then Invalid else Complete(context.value));
    }
  }

  // ----- Every acceptable block arrives -----

  lemma {:induction false} ValueText(prefix: string, values: seq<seq<Byte>>)
    requires |prefix| == 4 && OneLine(prefix) && AllFit(values)
    ensures |Text(ValueLines(prefix, values))| == 2 * SizeOf(values) + 3 * |values|
    ensures AllLines(ValueLines(prefix, values))
    ensures forall i :: 0 <= i < |values| ==> |ValueLines(prefix, values)[i]| <= MAXIMUM_LINE
  {
    if values != [] {
      ValueText(prefix, values[1..]);
      HexIsOneLine(values[0]);
      assert ValueLines(prefix, values)[1..] == ValueLines(prefix, values[1..]);
      assert OneLine(prefix + Hex(values[0]));
    }
  }

  lemma HexIsOneLine(value: seq<Byte>)
    ensures OneLine(Hex(value))
  {
    assert forall i :: 0 <= i < |Hex(value)| ==> IsNibble(Hex(value)[i]);
  }

  lemma TwoLines(a: string, b: string)
    ensures |Text([a, b])| == |a| + |b| + 2 && |Text([a])| == |a| + 1
  {
    assert [a, b][1..] == [b] && [b][1..] == [] && [a][1..] == [];
    assert |Text([b])| == |b| + 1;
  }

  /** The text of an acceptable block: its size, and that no line but the last is the end marker. */
  lemma BlockText(c: WorkloadContext)
    requires Acceptable(c)
    ensures var lines := BlockLines(c);
            && AllLines(lines) && |Text(lines)| <= MAXIMUM_BLOCK
            && forall i :: 0 <= i < |lines| ==> |lines[i]| <= MAXIMUM_LINE
  {
    hide ValueLines, Text, Hex;
    var lines := BlockLines(c);
    var head := [BEGIN, CWD + Hex(c.workingDirectory)];
    var args, envs := ValueLines(ARG, c.arguments), ValueLines(ENV, c.environment);
    assert OneLine(BEGIN) && OneLine(END) && OneLine(CWD) && OneLine(ARG) && OneLine(ENV);
    assert |BEGIN| == 11 && |END| == 9 && |CWD| == 4;
    HexIsOneLine(c.workingDirectory);
    assert OneLine(CWD + Hex(c.workingDirectory));
    ValueText(ARG, c.arguments);
    ValueText(ENV, c.environment);
    TwoLines(BEGIN, CWD + Hex(c.workingDirectory));
    TwoLines(END, END);
    TextAppend(head, args);
    TextAppend(head + args, envs);
    TextAppend(head + args + envs, [END]);
  }

  lemma EndIsLast(c: WorkloadContext, i: nat)
    requires i < |BlockLines(c)|
    ensures BlockLines(c)[i] == END <==> i == |BlockLines(c)| - 1
  {
    var n, m := |c.arguments|, |c.environment|;
    if 2 <= i < 2 + n {
      ValueLineAt(ARG, c.arguments, i - 2);
      KindsDiffer(Hex(c.arguments[i - 2]));
    } else if 2 + n <= i < 2 + n + m {
      ValueLineAt(ENV, c.environment, i - 2 - n);
      KindsDiffer(Hex(c.environment[i - 2 - n]));
    } else {
      KindsDiffer(Hex(c.workingDirectory));
      assert BEGIN[6] == 'B' && END[6] == 'E';
    }
  }

  lemma {:induction false} ValueLineAt(prefix: string, values: seq<seq<Byte>>, i: nat)
    requires i < |values|
    ensures ValueLines(prefix, values)[i] == prefix + Hex(values[i])
  {
    if i > 0 {
      ValueLineAt(prefix, values[1..], i - 1);
    }
  }

  /** A line and what follows it can be told from their text. */
  lemma SameCut(line: string, rest: string, first: string, others: string)
    requires OneLine(line) && OneLine(first) && line + "\n" + rest == first + "\n" + others
    ensures line == first && rest == others
  {
    FirstNewlineAfter(line, rest);
    FirstNewlineAfter(first, others);
    assert (line + "\n" + rest)[..|line|] == line && (first + "\n" + others)[..|first|] == first;
    assert (line + "\n" + rest)[|line| + 1..] == rest && (first + "\n" + others)[|first| + 1..] == others;
  }

  /** A receiver that has taken some lines of a block and holds the beginning of the rest; `suffix` is still to come. */
  predicate Reached(c: WorkloadContext, r: Receiver, suffix: string) {
    var lines, k := BlockLines(c), |r.lines|;
    && k < |lines| && r.lines == lines[..k] && r.encoded == |Text(lines[..k])| && !r.finished
    && r.buffer + suffix == Text(lines[k..])
  }

  lemma PartialFits(c: WorkloadContext, r: Receiver, suffix: string)
    requires Acceptable(c) && Reached(c, r, suffix) && OneLine(r.buffer)
    ensures |r.buffer| <= MAXIMUM_LINE && r.encoded <= MAXIMUM_BLOCK - |r.buffer| && suffix != ""
  {
    var lines, k := BlockLines(c), |r.lines|;
    BlockText(c);
    TextAppend(lines[..k], lines[k..]);
    assert lines[..k] + lines[k..] == lines;
    assert Text(lines[k..]) == lines[k] + "\n" + Text(lines[k + 1..]) by {
      assert lines[k..][1..] == lines[k + 1..];
    }
    assert Text(lines[k..])[|lines[k]|] == '\n';
    assert forall i :: 0 <= i < |r.buffer| ==> Text(lines[k..])[i] == r.buffer[i];
    assert suffix == "" ==> r.buffer + suffix == r.buffer;
  }

  lemma LineFits(c: WorkloadContext, r: Receiver, suffix: string, line: string, rest: string)
    requires Acceptable(c) && Reached(c, r, suffix) && TakeNextLine(r.buffer) == Some((line, rest))
    ensures var k := |r.lines|;
            && line == BlockLines(c)[k] && WithinLimits(r, |line|)
            && rest + suffix == Text(BlockLines(c)[k + 1..])
            && r.lines + [line] == BlockLines(c)[..k + 1]
            && r.encoded + |line| + 1 == |Text(BlockLines(c)[..k + 1])|
  {
    var lines, k := BlockLines(c), |r.lines|;
    BlockText(c);
    assert lines[k..][1..] == lines[k + 1..];
    assert line + "\n" + (rest + suffix) == r.buffer + suffix;
    SameCut(line, rest + suffix, lines[k], Text(lines[k + 1..]));
    assert lines[..k + 1] == lines[..k] + [lines[k]];
    TextAppend(lines[..k], [lines[k]]);
    TwoLines(lines[k], lines[k]);
    TextAppend(lines[..k + 1], lines[k + 1..]);
    assert lines[..k + 1] + lines[k + 1..] == lines;
  }

  /** Reading on: the block completes exactly when nothing is left to come. */
  lemma {:induction false} DrainReaches(c: WorkloadContext, r: Receiver, suffix: string)
    requires Acceptable(c) && Reached(c, r, suffix)
    ensures var (next, result) := DrainBlock(r);
            if suffix == "" then result == Complete(c) && next.finished
            else result.Incomplete? && Reached(c, next, suffix)
    decreases |r.buffer|
  {
    var lines, k := BlockLines(c), |r.lines|;
    match TakeNextLine(r.buffer)
    case None => PartialFits(c, r, suffix);
    case Some((line, rest)) =>
      LineFits(c, r, suffix, line, rest);
      EndIsLast(c, k);
      if line == END {
        assert lines[k + 1..] == [] && |rest + suffix| == 0;
        assert lines[..k + 1] == lines;
        BlockParses(c);
      } else {
        DrainReaches(c, TakeLine(r, line).(buffer := rest), suffix);
      }
  }

  function Results(r: Receiver, fragments: seq<string>): seq<Feeding>
    decreases |fragments|
  {
    if fragments == [] then []
    else
      var (next, result) := FeedBlock(r, fragments[0]);
      [result] + Results(next, fragments[1..])
  }

  lemma {:induction false} FragmentsReach(c: WorkloadContext, r: Receiver, fragments: seq<string>)
    requires Acceptable(c) && fragments != [] && Reached(c, r, Concat(fragments))
    requires forall i :: 0 <= i < |fragments| ==> fragments[i] != ""
    ensures var results := Results(r, fragments);
            && |results| == |fragments| && results[|results| - 1] == Complete(c)
            && forall i :: 0 <= i < |results| - 1 ==> results[i].Incomplete?
    decreases |fragments|
  {
    var rest := Concat(fragments[1..]);
    var fed := r.(buffer := r.buffer + fragments[0]);
    assert fed.buffer + rest == r.buffer + Concat(fragments);
    DrainReaches(c, fed, rest);
    if |fragments| == 1 {
      assert rest == "" && fragments[1..] == [];
    } else {
      assert rest != "" by {
        assert fragments[1..][0] == fragments[1] != "";
      }
      FragmentsReach(c, FeedBlock(r, fragments[0]).0, fragments[1..]);
    }
  }

  /** Every block the serializer accepts passes all limits of the receiver, on every split into fragments: it is
      incomplete on every proper prefix and completes with the same context at its end. */
  lemma StartBlockArrives(c: WorkloadContext, fragments: seq<string>)
    requires Acceptable(c) && Concat(fragments) == Text(BlockLines(c))
    requires forall i :: 0 <= i < |fragments| ==> fragments[i] != ""
    ensures var results := Results(RECEIVER_START, fragments);
            && |results| == |fragments| > 0 && results[|results| - 1] == Complete(c)
            && forall i :: 0 <= i < |results| - 1 ==> results[i].Incomplete?
  {
    var lines := BlockLines(c);
    assert lines[..0] == [] && lines[0..] == lines && "" + Concat(fragments) == Concat(fragments);
    assert Text(lines) != "";
    FragmentsReach(c, RECEIVER_START, fragments);
  }

  // ----- The limit on the number of lines -----

  /** A receiver that has, or is about to have, more lines than the largest block is never content. */
  lemma {:induction false} TooManyLinesAreRefused(r: Receiver)
    requires |r.lines| + |Split(r.buffer).0| > MAXIMUM_ENTRIES * 2 + 3 && Split(r.buffer).0 != []
    ensures DrainBlock(r).1.Invalid?
    decreases |r.buffer|
  {
    hide Parse;
    var (line, rest) := TakeNextLine(r.buffer).value;
    assert Split(r.buffer).0 == [line] + Split(rest).0;
    if WithinLimits(r, |line|) && !(r.lines == [] && line != BEGIN) {
      var next := TakeLine(r, line).(buffer := rest);
      if line != END {
        TooManyLinesAreRefused(next);
      } else {
        assert rest != "";
      }
    }
  }

  /** The limit on the number of lines is tight. A largest context meets it exactly and arrives; one line more, whatever it
      says and wherever it stands, and the receiver refuses. */
  lemma LineLimitIsTight(c: WorkloadContext, line: string, at: nat)
    requires Acceptable(c) && |c.arguments| == MAXIMUM_ENTRIES && |c.environment| == MAXIMUM_ENTRIES
    requires OneLine(line) && at <= |BlockLines(c)|
    ensures FeedBlock(RECEIVER_START, Text(BlockLines(c))).1 == Complete(c)
    ensures FeedBlock(RECEIVER_START, Text(BlockLines(c)[..at] + [line] + BlockLines(c)[at..])).1.Invalid?
  {
    var lines := BlockLines(c);
    assert |lines| == MAXIMUM_ENTRIES * 2 + 3;
    BlockText(c);
    LargestArrives(c);
    hide BlockLines, Text, DrainBlock, Acceptable;
    var more := lines[..at] + [line] + lines[at..];
    LinesOfText(more);
    TooManyLinesAreRefused(RECEIVER_START.(buffer := Text(more)));
    assert "" + Text(more) == Text(more);
  }

  lemma LinesOfText(lines: seq<string>)
    requires AllLines(lines)
    ensures Split(Text(lines)) == (lines, "")
  {
    SplitText(lines, "");
    assert Text(lines) + "" == Text(lines);
  }

  lemma LargestArrives(c: WorkloadContext)
    requires Acceptable(c)
    ensures FeedBlock(RECEIVER_START, Text(BlockLines(c))).1 == Complete(c)
  {
    var text := Text(BlockLines(c));
    assert Text(BlockLines(c)) != "";
    assert Concat([text]) == text;
    StartBlockArrives(c, [text]);
  }
}
