/** The commands a Controller types. */
module ControllerCommands {
  import opened Wrappers
  import opened NetworkProfile
  import opened ProfileWire
  import opened Numerals

  datatype Command = Help | Status | Edit(change: Change) | Stop | Detach

  datatype ParseError =
    | CommandTooLong | InvalidCharacter | UnknownCommand | WrongArgumentCount | InvalidDirection | InvalidSetting
    | InvalidNumber | InvalidUnit | ValueOutOfRange | ValueOverflow | ValueUnderflow

  datatype ParseResult = Parsed(command: Command) | Ignored | Wrong(error: ParseError)

  datatype Checked<T> = Usable(value: T) | Unusable(error: ParseError)

  const MAXIMUM_COMMAND_SIZE: nat := 1024

  // ----- Tokens -----

  predicate IsSeparator(c: char) {
    c == ' ' || c == '\t'
  }

  /** The words of a line, separated by any number of spaces and tabs. */
  function Words(line: string): seq<string>
    decreases |line|
  {
    if line == [] then []
    else if IsSeparator(line[0]) then Words(line[1..])
    else
      var n := WordLength(line);
      [line[..n]] + Words(line[n..])
  }

  function WordLength(s: string): (n: nat)
    ensures n <= |s| && (forall i :: 0 <= i < n ==> !IsSeparator(s[i])) && (n < |s| ==> IsSeparator(s[n]))
    ensures s != [] && !IsSeparator(s[0]) ==> n > 0
  {
    if s == [] || IsSeparator(s[0]) then 0 else 1 + WordLength(s[1..])
  }

  /** `tokenize`. */
  method Tokenize(line: string) returns (tokens: seq<string>)
    ensures tokens == Words(line)
  {
    hide WordLength, IsSeparator;
    tokens := [];
    var position := 0;
    var rest := line;
    while position < |line|
      invariant position <= |line| && rest == line[position..]
      invariant tokens + Words(rest) == Words(line)
    {
      while position < |line| && IsSeparator(line[position])
        invariant position <= |line| && rest == line[position..]
        invariant tokens + Words(rest) == Words(line)
      {
        rest := rest[1..];
        position := position + 1;
      }
      if rest != [] {
        var n := WordLength(rest);
        assert tokens + ([rest[..n]] + Words(rest[n..])) == (tokens + [rest[..n]]) + Words(rest[n..]);
        tokens := tokens + [rest[..n]];
        rest := rest[n..];
        position := position + n;
      }
    }
  }

  // ----- Numbers -----

  /** `is_loss_decimal`: digits, then perhaps a point and at least one more digit. */
  predicate IsLossDecimal(s: string) {
    var whole := WholePart(s);
    && whole != [] && AllDigits(whole)
    && (|whole| < |s| ==> |whole| + 1 < |s| && AllDigits(s[|whole| + 1..]))
  }

  /** What stands before the first point. */
  function WholePart(s: string): (whole: string)
    ensures |whole| <= |s| && whole == s[..|whole|]
    ensures |whole| < |s| ==> s[|whole|] == '.'
  {
    if s == [] || s[0] == '.' then []
    else
      assert s[..1 + |WholePart(s[1..])|] == [s[0]] + s[1..][..|WholePart(s[1..])|];
      [s[0]] + WholePart(s[1..])
  }

  function FractionPart(s: string): string {
    if |WholePart(s)| < |s| then s[|WholePart(s)| + 1..] else []
  }

  /** The number a loss decimal denotes. */
  function DecimalNumber(s: string): real
    requires IsLossDecimal(s)
  {
    ValueOf(WholePart(s)) as real + ValueOf(FractionPart(s)) as real / Pow10(|FractionPart(s)|) as real
  }

  /** `decimal_is_zero`: no digit other than zero. */
  predicate DecimalIsZero(s: string) {
    forall i :: 0 <= i < |s| ==> !('1' <= s[i] <= '9')
  }

  function StripZeros(s: string): (r: string)
    ensures r == [] || r[0] != '0'
    ensures |r| <= |s| && r == s[|s| - |r|..]
  {
    if s != [] && s[0] == '0' then StripZeros(s[1..]) else s
  }

  /** Comparison of two three-character strings, as `std::string_view` does it. */
  predicate Later(a: string, b: string)
    requires |a| == 3 && |b| == 3
  {
    a[0] > b[0] || (a[0] == b[0] && (a[1] > b[1] || (a[1] == b[1] && a[2] > b[2])))
  }

  /** `loss_is_out_of_range`: decided on the text, without computing the number. */
  predicate LossIsOutOfRange(number: string) {
    var stripped := StripZeros(WholePart(number));
    var whole := if stripped == [] then "0" else stripped;
    if |whole| > 3 || (|whole| == 3 && Later(whole, "100")) then true
    else if whole != "100" || |WholePart(number)| == |number| then false
    else !DecimalIsZero(FractionPart(number))
  }

  /** `parse_loss`. */
  function ParseLoss(f: FloatText, number: string): Checked<Percent> {
    if LossIsOutOfRange(number) then Unusable(ValueOutOfRange)
    else
      match f.fixed(number)
      case OutOfRange => Unusable(ValueUnderflow)
      case Unreadable => if DecimalIsZero(number) then Unusable(InvalidNumber) else Unusable(ValueUnderflow)
      case Read(value) =>
        if value == Finite(0.0) && !DecimalIsZero(number) then Unusable(ValueUnderflow)
        else if value.NotFinite? then Unusable(InvalidNumber)
        else Usable(value)
  }

  /** `parse_scaled_unsigned` on a nonempty digit string. */
  function ParseScaled(number: string, scale: nat, maximum: nat): Checked<nat>
    requires AllDigits(number) && scale > 0
  {
    var parsed := ValueOf(number);
    if parsed > UINT64_MAX || parsed > maximum / scale then Unusable(ValueOverflow) else Usable(parsed * scale)
  }

  lemma Multiply(a: nat, b: nat, c: nat)
    requires a <= b
    ensures a * c <= b * c
  {
  }

  lemma FitsIffQuotient(v: nat, scale: nat, maximum: nat)
    requires scale > 0
    ensures v <= maximum / scale <==> v * scale <= maximum
  {
    var q := maximum / scale;
    assert maximum == q * scale + maximum % scale;
    if v <= q {
      Multiply(v, q, scale);
    } else {
      Multiply(q + 1, v, scale);
      assert (q + 1) * scale == q * scale + scale;
    }
  }

  /** The check by division overflows exactly when the scaled number does not fit. */
  lemma ScaledIsExact(number: string, scale: nat, maximum: nat)
    requires AllDigits(number) && scale > 0 && maximum <= UINT64_MAX
    ensures ParseScaled(number, scale, maximum)
            == if ValueOf(number) * scale <= maximum then Usable(ValueOf(number) * scale) else Unusable(ValueOverflow)
  {
    FitsIffQuotient(ValueOf(number), scale, maximum);
    Multiply(1, scale, ValueOf(number));
  }

  // ----- Commands -----

  function ParseDirectionWord(token: string): Option<Direction> {
    if token == "outbound" then Some(Outbound) else if token == "inbound" then Some(Inbound) else None
  }

  function ParseSettingWord(token: string): Option<Setting> {
    if token == "delay" then Some(Delay)
    else if token == "jitter" then Some(Jitter)
    else if token == "loss" then Some(PacketLoss)
    else if token == "bandwidth" then Some(Bandwidth)
    else None
  }

  /** Where `split_attached_unit` cuts: at the first letter or percent sign. */
  function NumberLength(token: string): (n: nat)
    ensures n <= |token|
  {
    if token == [] || 'A' <= token[0] <= 'Z' || 'a' <= token[0] <= 'z' || token[0] == '%' then 0
    else 1 + NumberLength(token[1..])
  }

  function ParseTime(number: string, unit: string): Checked<Milliseconds>
    requires AllDigits(number)
  {
    if unit != "s" && unit != "" && unit != "ms" then Unusable(InvalidUnit)
    else
      var scale := if unit == "s" then 1000 else 1;
      ScaledIsExact(number, scale, INT64_MAX);
      match ParseScaled(number, scale, INT64_MAX)
      case Unusable(error) => Unusable(error)
      case Usable(value) => Usable(value)
  }

  function ParseRate(number: string, unit: string): Checked<UInt64>
    requires AllDigits(number)
  {
    if unit != "mbps" && unit != "" && unit != "kbps" then Unusable(InvalidUnit)
    else if DecimalIsZero(number) then Unusable(ValueOutOfRange)
    else
      var scale := if unit == "mbps" then 1000 else 1;
      ScaledIsExact(number, scale, UINT64_MAX);
      match ParseScaled(number, scale, UINT64_MAX)
      case Unusable(error) => Unusable(error)
      case Usable(value) => Usable(value)
  }

  /** `parse_set_command`. */
  function ParseSet(f: FloatText, tokens: seq<string>): ParseResult {
    if |tokens| != 4 && |tokens| != 5 then Wrong(WrongArgumentCount)
    else if ParseDirectionWord(tokens[1]).None? then Wrong(InvalidDirection)
    else if ParseSettingWord(tokens[2]).None? then Wrong(InvalidSetting)
    else
      var direction := ParseDirectionWord(tokens[1]).value;
      var setting := ParseSettingWord(tokens[2]).value;
      var cut := if |tokens| == 5 then |tokens[3]| else NumberLength(tokens[3]);
      var number := tokens[3][..cut];
      var unit := if |tokens| == 5 then tokens[4] else tokens[3][cut..];
      if setting.PacketLoss? then
        if !IsLossDecimal(number) then Wrong(InvalidNumber)
        else if unit != "" && unit != "%" then Wrong(InvalidUnit)
        else match ParseLoss(f, number)
          case Unusable(error) => Wrong(error)
          case Usable(loss) => Parsed(Edit(SetLoss(direction, loss)))
      else if number == [] || !AllDigits(number) then Wrong(InvalidNumber)
      else if setting.Bandwidth? then
        match ParseRate(number, unit)
        case Unusable(error) => Wrong(error)
        case Usable(rate) => Parsed(Edit(SetBandwidth(direction, rate)))
      else
        match ParseTime(number, unit)
        case Unusable(error) => Wrong(error)
        case Usable(time) =>
          Parsed(Edit(if setting.Delay? then SetDelay(direction, time) else SetJitter(direction, time)))
  }

  /** `parse_reset_command`. */
  function ParseReset(tokens: seq<string>): ParseResult {
    if |tokens| != 3 then Wrong(WrongArgumentCount)
    else match ParseDirectionWord(tokens[1])
      case None => Wrong(InvalidDirection)
      case Some(direction) =>
        match ParseSettingWord(tokens[2])
        case None => Wrong(InvalidSetting)
        case Some(setting) => Parsed(Edit(Reset(direction, setting)))
  }

  predicate Printable(line: string) {
    forall i :: 0 <= i < |line| ==> line[i] == '\t' || ' ' <= line[i] <= '~'
  }

  /** `parse_controller_command`. */
  function ParseCommand(f: FloatText, line: string): ParseResult {
    if |line| > MAXIMUM_COMMAND_SIZE then Wrong(CommandTooLong)
    else if !Printable(line) then Wrong(InvalidCharacter)
    else
      var tokens := Words(line);
      if tokens == [] then Ignored
      else if tokens[0] == "set" then ParseSet(f, tokens)
      else if tokens[0] == "reset" then ParseReset(tokens)
      else if tokens[0] != "help" && tokens[0] != "status" && tokens[0] != "stop" && tokens[0] != "detach" then
        Wrong(UnknownCommand)
      else if |tokens| != 1 then Wrong(WrongArgumentCount)
      else Parsed(if tokens[0] == "help" then Help
                  else if tokens[0] == "status" then Status
                  else if tokens[0] == "stop" then Stop
                  else Detach)
  }

  // ----- What the parser guarantees -----

  /** The library rounds a decimal that is not too large to a double in the same range, or reports underflow. */
  ghost predicate RoundsInRange(f: FloatText) {
    forall s :: IsLossDecimal(s) && DecimalNumber(s) <= 100.0 ==>
      match f.fixed(s)
      case Unreadable => false
      case OutOfRange => true
      case Read(value) => ValidLoss(value) && f.isDouble(value.value)
  }

  lemma {:induction false} LeadingDigit(c: char, rest: string)
    requires IsDigit(c) && AllDigits(rest)
    ensures ValueOf([c] + rest) == DigitValue(c) * Pow10(|rest|) + ValueOf(rest)
    ensures ValueOf(rest) < Pow10(|rest|)
  {
    if rest == [] {
      assert [c] + rest == [c] && [c][..0] == [];
      assert ValueOf([c]) == DigitValue(c);
    } else {
      var n := |rest| - 1;
      LeadingDigit(c, rest[..n]);
      assert ([c] + rest)[..n + 1] == [c] + rest[..n];
      assert ([c] + rest)[n + 1] == rest[n] && DigitValue(rest[n]) <= 9;
      TenTimes(DigitValue(c), Pow10(n));
      hide DigitValue, IsDigit;
    }
  }

  lemma TenTimes(d: nat, p: nat)
    ensures 10 * (d * p) == d * (10 * p)
  {
  }

  lemma {:induction false} StripKeepsValue(s: string)
    requires AllDigits(s)
    ensures AllDigits(StripZeros(s)) && ValueOf(StripZeros(s)) == ValueOf(s)
  {
    if s != [] && s[0] == '0' {
      StripKeepsValue(s[1..]);
      LeadingDigit('0', s[1..]);
      assert s == ['0'] + s[1..];
      assert DigitValue('0') == 0;
    }
  }

  /** Without leading zeros, longer means larger. */
  lemma MoreDigits(s: string)
    requires s != [] && AllDigits(s) && s[0] != '0'
    ensures ValueOf(s) >= Pow10(|s| - 1)
  {
    LeadingDigit(s[0], s[1..]);
    assert s == [s[0]] + s[1..];
    Multiply(1, DigitValue(s[0]), Pow10(|s| - 1));
  }

  lemma {:induction false} Pow10Monotone(a: nat, b: nat)
    requires a <= b
    ensures Pow10(a) <= Pow10(b)
  {
    if a < b {
      Pow10Monotone(a, b - 1);
    }
  }

  lemma ThreeDigits(s: string)
    requires |s| == 3 && AllDigits(s)
    ensures ValueOf(s) == 100 * DigitValue(s[0]) + 10 * DigitValue(s[1]) + DigitValue(s[2])
    ensures Later(s, "100") <==> (s[0] != '0' && ValueOf(s) > 100)
  {
    assert s[..2][..1] == [s[0]] && [s[0]][..0] == [];
    assert ValueOf([s[0]]) == DigitValue(s[0]);
    assert ValueOf(s[..2]) == 10 * DigitValue(s[0]) + DigitValue(s[1]);
  }

  lemma {:induction false} ZeroDigits(s: string)
    requires AllDigits(s)
    ensures DecimalIsZero(s) <==> ValueOf(s) == 0
  {
    if s != [] {
      ZeroDigits(s[..|s| - 1]);
    }
  }

  lemma ValueBelowPower(s: string)
    requires AllDigits(s)
    ensures ValueOf(s) < Pow10(|s|)
  {
    LeadingDigit('0', s);
  }

  lemma ProductNotNegative(a: real, b: real)
    requires a >= 0.0 && b >= 0.0
    ensures a * b >= 0.0
  {
  }

  lemma QuotientBelowOne(v: real, p: real)
    requires 0.0 <= v < p
    ensures 0.0 <= v / p < 1.0 && (v / p == 0.0 <==> v == 0.0)
  {
    var q := v / p;
    assert q * p == v;
    if q >= 1.0 {
      ProductNotNegative(q - 1.0, p);
      assert false;
    }
  }

  /** The integer part decides, except at 100 itself. */
  lemma AboveHundred(number: string)
    requires IsLossDecimal(number)
    ensures var w, f := ValueOf(WholePart(number)), FractionPart(number);
            DecimalNumber(number) > 100.0 <==> w > 100 || (w == 100 && !DecimalIsZero(f))
  {
    var f := FractionPart(number);
    ValueBelowPower(f);
    ZeroDigits(f);
    QuotientBelowOne(ValueOf(f) as real, Pow10(|f|) as real);
  }

  lemma ShortNumbers(s: string)
    requires AllDigits(s) && (s == [] || s[0] != '0')
    ensures |s| > 3 ==> ValueOf(s) >= 1000
    ensures |s| < 3 ==> ValueOf(s) < 100
    ensures |s| == 3 ==> (Later(s, "100") <==> ValueOf(s) > 100) && (s == "100" <==> ValueOf(s) == 100)
  {
    assert Pow10(2) == 100 && Pow10(3) == 1000;
    if |s| > 3 {
      MoreDigits(s);
      Pow10Monotone(3, |s| - 1);
    } else if |s| == 3 {
      ThreeDigits(s);
      assert s == "100" <==> s[0] == '1' && s[1] == '0' && s[2] == '0';
    } else {
      ValueBelowPower(s);
      Pow10Monotone(|s|, 2);
    }
  }

  /** The check on the text is exact: it refuses exactly the decimals greater than 100. */
  lemma LossRangeIsExact(number: string)
    requires IsLossDecimal(number)
    ensures LossIsOutOfRange(number) <==> DecimalNumber(number) > 100.0
  {
    StripKeepsValue(WholePart(number));
    ShortNumbers(StripZeros(WholePart(number)));
    AboveHundred(number);
  }

  lemma SetsAreSendable(f: FloatText, tokens: seq<string>)
    requires RoundsInRange(f)
    ensures var r := ParseSet(f, tokens);
            r.Parsed? ==> r.command.Edit? && Sendable(f, r.command.change)
  {
    hide WholePart, LossIsOutOfRange, DecimalNumber;
    var r := ParseSet(f, tokens);
    if r.Parsed? {
      var cut := if |tokens| == 5 then |tokens[3]| else NumberLength(tokens[3]);
      var number := tokens[3][..cut];
      if r.command.change.SetLoss? {
        LossRangeIsExact(number);
      } else if r.command.change.SetBandwidth? {
        ZeroDigits(number);
        ScaledIsExact(number, 1, UINT64_MAX);
        ScaledIsExact(number, 1000, UINT64_MAX);
      }
    }
  }

  /** Every change the parser lets through can be sent: its value is legal, and a loss is a double. */
  lemma ParsedChangesAreSendable(f: FloatText, line: string)
    requires RoundsInRange(f)
    ensures var r := ParseCommand(f, line);
            r.Parsed? && r.command.Edit? ==> Sendable(f, r.command.change)
  {
    SetsAreSendable(f, Words(line));
  }
}
