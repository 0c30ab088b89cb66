/** Commands as a Controller writes them, and that the parser reads exactly what was written. */
module TypedCommands {
  import opened Wrappers
  import opened NetworkProfile
  import opened ProfileWire
  import opened Numerals
  import opened ControllerCommands

  // ----- How a command is written -----

  datatype TimeUnit = NoTimeUnit | InMilliseconds | InSeconds
  datatype RateUnit = NoRateUnit | InKilobits | InMegabits

  /** A command with everything that is written out; `apart` says that the unit stands as a word of its own. */
  datatype Typed =
    | TypedHelp | TypedStatus | TypedStop | TypedDetach
    | TypedReset(direction: Direction, setting: Setting)
    | TypedDelay(direction: Direction, number: string, timeUnit: TimeUnit, apart: bool)
    | TypedJitter(direction: Direction, number: string, timeUnit: TimeUnit, apart: bool)
    | TypedBandwidth(direction: Direction, number: string, rateUnit: RateUnit, apart: bool)
    | TypedLoss(direction: Direction, number: string, percentSign: bool, apart: bool)

  function DirectionWord(direction: Direction): string {
    match direction case Outbound => "outbound" case Inbound => "inbound"
  }

  function SettingWord(setting: Setting): string {
    match setting
    case Delay => "delay"
    case Jitter => "jitter"
    case PacketLoss => "loss"
    case Bandwidth => "bandwidth"
  }

  function TimeWord(u: TimeUnit): string {
    match u case NoTimeUnit => "" case InMilliseconds => "ms" case InSeconds => "s"
  }

  function RateWord(u: RateUnit): string {
    match u case NoRateUnit => "" case InKilobits => "kbps" case InMegabits => "mbps"
  }

  function PercentWord(sign: bool): string {
    if sign then "%" else ""
  }

  function UnitWord(t: Typed): string
    requires t.TypedDelay? || t.TypedJitter? || t.TypedBandwidth? || t.TypedLoss?
  {
    match t
    case TypedDelay(_, _, u, _) => TimeWord(u)
    case TypedJitter(_, _, u, _) => TimeWord(u)
    case TypedBandwidth(_, _, u, _) => RateWord(u)
    case TypedLoss(_, _, sign, _) => PercentWord(sign)
  }

  function SettingOfTyped(t: Typed): Setting
    requires t.TypedDelay? || t.TypedJitter? || t.TypedBandwidth? || t.TypedLoss?
  {
    match t
    case TypedDelay(_, _, _, _) => Delay
    case TypedJitter(_, _, _, _) => Jitter
    case TypedBandwidth(_, _, _, _) => Bandwidth
    case TypedLoss(_, _, _, _) => PacketLoss
  }

  predicate Sets(t: Typed) {
    t.TypedDelay? || t.TypedJitter? || t.TypedBandwidth? || t.TypedLoss?
  }

  /** Whether the number is one: digits, for a loss perhaps with a point; a unit that stands apart is not empty. */
  predicate Wellformed(t: Typed) {
    Sets(t) ==>
      && (if t.TypedLoss? then IsLossDecimal(t.number) else t.number != "" && AllDigits(t.number))
      && (t.apart ==> UnitWord(t) != "")
  }

  function ValueWords(t: Typed): seq<string>
    requires Sets(t)
  {
    if t.apart then [t.number, UnitWord(t)] else [t.number + UnitWord(t)]
  }

  function TypedWords(t: Typed): seq<string> {
    match t
    case TypedHelp => ["help"]
    case TypedStatus => ["status"]
    case TypedStop => ["stop"]
    case TypedDetach => ["detach"]
    case TypedReset(direction, setting) => ["reset", DirectionWord(direction), SettingWord(setting)]
    case _ => ["set", DirectionWord(t.direction), SettingWord(SettingOfTyped(t))] + ValueWords(t)
  }

  // ----- What it means -----

  /** A time in milliseconds, if a signed 64-bit count holds it. */
  function TimeMeant(number: string, u: TimeUnit): Option<Milliseconds>
    requires AllDigits(number)
  {
    var value := ValueOf(number) * (if u.InSeconds? then 1000 else 1);
    if value <= INT64_MAX then Some(value) else None
  }

  function RateMeant(number: string, u: RateUnit): nat
    requires AllDigits(number)
  {
    ValueOf(number) * (if u.InMegabits? then 1000 else 1)
  }

  function Meaning(f: FloatText, t: Typed): ParseResult
    requires Wellformed(t)
  {
    match t
    case TypedHelp => Parsed(Help)
    case TypedStatus => Parsed(Status)
    case TypedStop => Parsed(Stop)
    case TypedDetach => Parsed(Detach)
    case TypedReset(direction, setting) => Parsed(Edit(Reset(direction, setting)))
    case TypedDelay(direction, number, u, _) =>
      var time := TimeMeant(number, u);
      if time.None? then Wrong(ValueOverflow) else Parsed(Edit(SetDelay(direction, time.value)))
    case TypedJitter(direction, number, u, _) =>
      var time := TimeMeant(number, u);
      if time.None? then Wrong(ValueOverflow) else Parsed(Edit(SetJitter(direction, time.value)))
    case TypedBandwidth(direction, number, u, _) =>
      var rate := RateMeant(number, u);
      if rate == 0 then Wrong(ValueOutOfRange)
      else if rate > UINT64_MAX then Wrong(ValueOverflow)
      else Parsed(Edit(SetBandwidth(direction, rate)))
    case TypedLoss(direction, number, _, _) =>
      if DecimalNumber(number) > 100.0 then Wrong(ValueOutOfRange)
      else match f.fixed(number)
        case Read(value) =>
          if value == Finite(0.0) && DecimalNumber(number) > 0.0 then Wrong(ValueUnderflow)
          else Parsed(Edit(SetLoss(direction, value)))
        case _ => Wrong(ValueUnderflow)
  }

  // ----- Words in a line -----

  predicate IsWord(word: string) {
    word != [] && forall i :: 0 <= i < |word| ==> !IsSeparator(word[i])
  }

  predicate OnlySeparators(gap: string) {
    forall i :: 0 <= i < |gap| ==> IsSeparator(gap[i])
  }

  /** Words with gaps of spaces and tabs around them; only the outermost gaps may be empty. */
  function Spaced(words: seq<string>, gaps: seq<string>): string
    requires |gaps| == |words| + 1
  {
    if words == [] then gaps[0] else gaps[0] + (words[0] + Spaced(words[1..], gaps[1..]))
  }

  predicate Gaps(gaps: seq<string>) {
    && (forall i :: 0 <= i < |gaps| ==> OnlySeparators(gaps[i]))
    && (forall i :: 0 < i < |gaps| - 1 ==> gaps[i] != "")
  }

  lemma FirstWord(word: string, rest: string)
    requires IsWord(word)
    requires rest == [] || IsSeparator(rest[0])
    ensures Words(word + rest) == [word] + Words(rest)
  {
    WordEnds(word, rest);
    assert (word + rest)[0] == word[0];
    assert (word + rest)[..|word|] == word && (word + rest)[|word|..] == rest;
  }

  lemma {:induction false} WordEnds(word: string, rest: string)
    requires forall i :: 0 <= i < |word| ==> !IsSeparator(word[i])
    requires rest == [] || IsSeparator(rest[0])
    ensures WordLength(word + rest) == |word|
  {
    if word == [] {
      assert word + rest == rest;
    } else {
      WordEnds(word[1..], rest);
      assert (word + rest)[1..] == word[1..] + rest;
    }
  }

  lemma {:induction false} SkipGap(gap: string, rest: string)
    requires OnlySeparators(gap)
    ensures Words(gap + rest) == Words(rest)
  {
    if gap == "" {
      assert gap + rest == rest;
    } else {
      SkipGap(gap[1..], rest);
      assert (gap + rest)[1..] == gap[1..] + rest && (gap + rest)[0] == gap[0];
    }
  }

  /** Whatever separates them, the words of a line are found. */
  lemma {:induction false} SpacedWords(words: seq<string>, gaps: seq<string>)
    requires |gaps| == |words| + 1 && Gaps(gaps) && forall i :: 0 <= i < |words| ==> IsWord(words[i])
    ensures Words(Spaced(words, gaps)) == words
    decreases |words|
  {
    hide IsWord, IsSeparator, WordLength;
    if words == [] {
      SkipGap(gaps[0], "");
      assert gaps[0] + "" == gaps[0];
      NoWords();
    } else {
      var rest := Spaced(words[1..], gaps[1..]);
      InnerGap(gaps, |words|);
      SpacedWords(words[1..], gaps[1..]);
      SpacedBegins(words[1..], gaps[1..]);
      hide Words;
      SkipGap(gaps[0], words[0] + rest);
      FirstWord(words[0], rest);
      assert words == [words[0]] + words[1..];
    }
  }

  lemma InnerGap(gaps: seq<string>, n: nat)
    requires n > 0 && |gaps| == n + 1 && Gaps(gaps)
    ensures Gaps(gaps[1..]) && OnlySeparators(gaps[0]) && (n > 1 ==> gaps[1..][0] != "")
  {
    assert forall i :: 0 <= i < |gaps[1..]| ==> gaps[1..][i] == gaps[i + 1];
  }

  lemma NoWords()
    ensures Words("") == []
  {
  }

  lemma SpacedBegins(words: seq<string>, gaps: seq<string>)
    requires |gaps| == |words| + 1 && OnlySeparators(gaps[0]) && (words != [] ==> gaps[0] != "")
    ensures Spaced(words, gaps) == "" || IsSeparator(Spaced(words, gaps)[0])
  {
    if words != [] {
      assert Spaced(words, gaps)[0] == gaps[0][0];
    }
  }

  // ----- The parser reads what was written -----

  lemma WordsAreRead(direction: Direction, setting: Setting)
    ensures ParseDirectionWord(DirectionWord(direction)) == Some(direction)
    ensures ParseSettingWord(SettingWord(setting)) == Some(setting)
  {
  }

  predicate UnitBegins(unit: string) {
    unit == "" || 'a' <= unit[0] <= 'z' || unit[0] == '%'
  }

  predicate NumberCharacter(c: char) {
    IsDigit(c) || c == '.'
  }

  /** An attached unit is cut off where it begins. */
  lemma {:induction false} UnitCutOff(number: string, unit: string)
    requires UnitBegins(unit) && forall i :: 0 <= i < |number| ==> NumberCharacter(number[i])
    ensures NumberLength(number + unit) == |number|
  {
    if number == "" {
      assert number + unit == unit;
    } else {
      UnitCutOff(number[1..], unit);
      assert (number + unit)[1..] == number[1..] + unit && (number + unit)[0] == number[0];
      assert NumberCharacter(number[0]);
    }
  }

  lemma NumbersOfCharacters(t: Typed)
    requires Sets(t) && Wellformed(t)
    ensures t.number != "" && forall i :: 0 <= i < |t.number| ==> NumberCharacter(t.number[i])
    ensures UnitBegins(UnitWord(t))
  {
    if t.TypedLoss? {
      var whole := WholePart(t.number);
      forall i | 0 <= i < |t.number| ensures NumberCharacter(t.number[i]) {
        if i < |whole| {
          assert whole[i] == t.number[i] && IsDigit(whole[i]);
        } else if i > |whole| {
          assert t.number[|whole| + 1..][i - |whole| - 1] == t.number[i];
        }
      }
    } else {
      assert forall i :: 0 <= i < |t.number| ==> IsDigit(t.number[i]);
    }
  }

  /** What is read after the setting, whether the unit is attached or not. */
  function NumberIn(tokens: seq<string>): string
    requires 4 <= |tokens| <= 5
  {
    if |tokens| == 5 then tokens[3] else tokens[3][..NumberLength(tokens[3])]
  }

  function UnitIn(tokens: seq<string>): string
    requires 4 <= |tokens| <= 5
  {
    if |tokens| == 5 then tokens[4] else tokens[3][NumberLength(tokens[3])..]
  }

  lemma ValueFound(t: Typed)
    requires Sets(t) && Wellformed(t)
    ensures var tokens := TypedWords(t);
            && 4 <= |tokens| <= 5 && tokens[0] == "set" && tokens[1] == DirectionWord(t.direction)
            && tokens[2] == SettingWord(SettingOfTyped(t))
            && NumberIn(tokens) == t.number && UnitIn(tokens) == UnitWord(t)
  {
    NumbersOfCharacters(t);
    UnitCutOff(t.number, UnitWord(t));
    var whole := t.number + UnitWord(t);
    assert whole[..|t.number|] == t.number && whole[|t.number|..] == UnitWord(t);
  }

  /** The parser's arithmetic on a time. */
  lemma TimeIsRead(number: string, u: TimeUnit)
    requires AllDigits(number)
    ensures ParseTime(number, TimeWord(u))
            == match TimeMeant(number, u) case None => Unusable(ValueOverflow) case Some(time) => Usable(time)
  {
    ScaledIsExact(number, 1, INT64_MAX);
    ScaledIsExact(number, 1000, INT64_MAX);
    assert |TimeWord(InMilliseconds)| == 2 && |TimeWord(InSeconds)| == 1;
  }

  lemma RateIsRead(number: string, u: RateUnit)
    requires AllDigits(number)
    ensures var rate := RateMeant(number, u);
            ParseRate(number, RateWord(u))
            == if rate == 0 then Unusable(ValueOutOfRange)
               else if rate > UINT64_MAX then Unusable(ValueOverflow) else Usable(rate)
  {
    ZeroDigits(number);
    ScaledIsExact(number, 1, UINT64_MAX);
    ScaledIsExact(number, 1000, UINT64_MAX);
    assert RateWord(InKilobits)[0] == 'k' && RateWord(InMegabits)[0] == 'm';
  }

  lemma QuotientIsZero(v: nat, p: nat)
    requires p > 0
    ensures v as real / p as real >= 0.0 && (v as real / p as real == 0.0 <==> v == 0)
  {
    var q := v as real / p as real;
    assert q * p as real == v as real;
    if q < 0.0 {
      ProductNotNegative(-q, p as real);
    }
  }

  /** A loss is zero exactly when it has no digit but zeros. */
  lemma LossIsZero(number: string)
    requires IsLossDecimal(number)
    ensures DecimalIsZero(number) <==> DecimalNumber(number) == 0.0
    ensures DecimalNumber(number) >= 0.0
  {
    var whole, fraction := WholePart(number), FractionPart(number);
    ZeroDigits(whole);
    ZeroDigits(fraction);
    QuotientIsZero(ValueOf(fraction), Pow10(|fraction|));
    assert DecimalIsZero(number) <==> DecimalIsZero(whole) && DecimalIsZero(fraction) by {
      assert forall i :: 0 <= i < |whole| ==> number[i] == whole[i];
      assert forall i :: 0 <= i < |fraction| ==> number[|whole| + 1 + i] == fraction[i];
      assert forall i :: |whole| < i < |number| ==> number[i] == fraction[i - |whole| - 1];
    }
  }

  lemma LossIsRead(f: FloatText, direction: Direction, number: string)
    requires RoundsInRange(f) && IsLossDecimal(number)
    ensures Meaning(f, TypedLoss(direction, number, false, false))
            == match ParseLoss(f, number)
               case Unusable(error) => Wrong(error)
               case Usable(loss) => Parsed(Edit(SetLoss(direction, loss)))
  {
    LossRangeIsExact(number);
    LossIsZero(number);
    var value := DecimalNumber(number);
    LibraryReads(f, number);
    hide DecimalNumber, IsLossDecimal, DecimalIsZero, LossIsOutOfRange, RoundsInRange;
  }

  lemma LibraryReads(f: FloatText, number: string)
    requires RoundsInRange(f) && IsLossDecimal(number)
    ensures DecimalNumber(number) <= 100.0 ==>
              f.fixed(number).OutOfRange? || (f.fixed(number).Read? && f.fixed(number).value.Finite?)
  {
    hide DecimalNumber, IsLossDecimal;
  }

  /** What a set command with these parts comes to. */
  function SetWith(f: FloatText, direction: Direction, setting: Setting, number: string, unit: string): ParseResult {
    if setting.PacketLoss? then
      if !IsLossDecimal(number) then Wrong(InvalidNumber)
      else if unit != "" && unit != "%" then Wrong(InvalidUnit)
      else match ParseLoss(f, number)
        case Unusable(error) => Wrong(error)
        case Usable(loss) => Parsed(Edit(SetLoss(direction, loss)))
    else if number == "" || !AllDigits(number) then Wrong(InvalidNumber)
    else match setting
      case Bandwidth =>
        (match ParseRate(number, unit)
         case Unusable(error) => Wrong(error)
         case Usable(rate) => Parsed(Edit(SetBandwidth(direction, rate))))
      case Delay =>
        (match ParseTime(number, unit)
         case Unusable(error) => Wrong(error)
         case Usable(time) => Parsed(Edit(SetDelay(direction, time))))
      case _ =>
        match ParseTime(number, unit)
        case Unusable(error) => Wrong(error)
        case Usable(time) => Parsed(Edit(SetJitter(direction, time)))
  }

  lemma SetByParts(f: FloatText, tokens: seq<string>)
    requires 4 <= |tokens| <= 5
    requires ParseDirectionWord(tokens[1]).Some? && ParseSettingWord(tokens[2]).Some?
    ensures ParseSet(f, tokens)
            == SetWith(f, ParseDirectionWord(tokens[1]).value, ParseSettingWord(tokens[2]).value,
                       NumberIn(tokens), UnitIn(tokens))
  {
    hide ParseDirectionWord, ParseSettingWord, ParseTime, ParseRate, ParseLoss, IsLossDecimal, AllDigits, NumberLength;
    assert tokens[3][..|tokens[3]|] == tokens[3];
  }

  lemma SetIsRead(f: FloatText, t: Typed)
    requires RoundsInRange(f) && Sets(t) && Wellformed(t)
    ensures ParseSet(f, TypedWords(t)) == Meaning(f, t)
  {
    var tokens := TypedWords(t);
    ValueFound(t);
    WordsAreRead(t.direction, SettingOfTyped(t));
    SetByParts(f, tokens);
    hide TypedWords, DirectionWord, SettingWord, ParseDirectionWord, ParseSettingWord, NumberIn, UnitIn, ParseSet;
    PartsAreRead(f, t);
  }

  lemma PartsAreRead(f: FloatText, t: Typed)
    requires RoundsInRange(f) && Sets(t) && Wellformed(t)
    ensures SetWith(f, t.direction, SettingOfTyped(t), t.number, UnitWord(t)) == Meaning(f, t)
  {
    hide SetWith, Meaning, ParseTime, ParseRate, ParseLoss, IsLossDecimal, AllDigits, RoundsInRange;
    match t
    case TypedDelay(direction, number, u, _) => DelayIsRead(f, direction, number, u, t.apart);
    case TypedJitter(direction, number, u, _) => JitterIsRead(f, direction, number, u, t.apart);
    case TypedBandwidth(direction, number, u, _) => BandwidthIsRead(f, direction, number, u, t.apart);
    case TypedLoss(direction, number, sign, _) => PercentIsRead(f, direction, number, sign, t.apart);
  }

  lemma DelayIsRead(f: FloatText, direction: Direction, number: string, u: TimeUnit, apart: bool)
    requires Wellformed(TypedDelay(direction, number, u, apart))
    ensures SetWith(f, direction, Delay, number, TimeWord(u)) == Meaning(f, TypedDelay(direction, number, u, apart))
  {
    TimeIsRead(number, u);
    hide ParseTime, TimeWord, TimeMeant, AllDigits;
  }

  lemma JitterIsRead(f: FloatText, direction: Direction, number: string, u: TimeUnit, apart: bool)
    requires Wellformed(TypedJitter(direction, number, u, apart))
    ensures SetWith(f, direction, Jitter, number, TimeWord(u)) == Meaning(f, TypedJitter(direction, number, u, apart))
  {
    TimeIsRead(number, u);
    hide ParseTime, TimeWord, TimeMeant, AllDigits;
  }

  lemma BandwidthIsRead(f: FloatText, direction: Direction, number: string, u: RateUnit, apart: bool)
    requires Wellformed(TypedBandwidth(direction, number, u, apart))
    ensures SetWith(f, direction, Bandwidth, number, RateWord(u)) == Meaning(f, TypedBandwidth(direction, number, u, apart))
  {
    RateIsRead(number, u);
    hide ParseRate, RateWord, RateMeant, AllDigits;
  }

  lemma PercentIsRead(f: FloatText, direction: Direction, number: string, sign: bool, apart: bool)
    requires RoundsInRange(f) && Wellformed(TypedLoss(direction, number, sign, apart))
    ensures SetWith(f, direction, PacketLoss, number, PercentWord(sign))
            == Meaning(f, TypedLoss(direction, number, sign, apart))
  {
    LossIsRead(f, direction, number);
    hide ParseLoss, DecimalNumber, IsLossDecimal;
  }

  lemma ResetIsRead(direction: Direction, setting: Setting)
    ensures ParseReset(TypedWords(TypedReset(direction, setting))) == Parsed(Edit(Reset(direction, setting)))
  {
    WordsAreRead(direction, setting);
    hide ParseDirectionWord, ParseSettingWord, DirectionWord, SettingWord;
  }

  /** The keywords are told apart. */
  lemma KeywordsDiffer()
    ensures "help" !in {"set", "reset", "status", "stop", "detach"} && "status" !in {"set", "reset", "stop", "detach"}
    ensures "stop" !in {"set", "reset", "detach"} && "detach" !in {"set", "reset"} && "reset" != "set"
  {
    assert "help"[0] == 'h' && "detach"[0] == 'd' && "reset"[0] == 'r' && "set"[1] == 'e';
    assert "status"[1] == 't' && "status"[2] == 'a' && "stop"[1] == 't' && "stop"[2] == 'o';
  }

  lemma TypedIsDispatched(f: FloatText, t: Typed, line: string)
    requires Words(line) == TypedWords(t) && |line| <= MAXIMUM_COMMAND_SIZE && Printable(line)
    ensures Sets(t) ==> ParseCommand(f, line) == ParseSet(f, TypedWords(t))
    ensures t.TypedReset? ==> ParseCommand(f, line) == ParseReset(TypedWords(t))
    ensures t.TypedHelp? ==> ParseCommand(f, line) == Parsed(Help)
    ensures t.TypedStatus? ==> ParseCommand(f, line) == Parsed(Status)
    ensures t.TypedStop? ==> ParseCommand(f, line) == Parsed(Stop)
    ensures t.TypedDetach? ==> ParseCommand(f, line) == Parsed(Detach)
  {
    hide Words, ParseSet, ParseReset, Printable, ValueWords, DirectionWord, SettingWord;
    KeywordsDiffer();
  }

  /** A line with the words of a well-formed command means that command: the setting, the direction and the number times
      its unit, or the error of a value that does not fit. */
  lemma TypedIsParsed(f: FloatText, t: Typed, line: string)
    requires RoundsInRange(f) && Wellformed(t)
    requires Words(line) == TypedWords(t) && |line| <= MAXIMUM_COMMAND_SIZE && Printable(line)
    ensures ParseCommand(f, line) == Meaning(f, t)
  {
    hide ParseCommand, ParseSet, TypedWords;
    TypedIsDispatched(f, t, line);
    if Sets(t) {
      SetIsRead(f, t);
    } else if t.TypedReset? {
      ResetIsRead(t.direction, t.setting);
    }
  }

  // ----- In any layout -----

  predicate PrintableWord(word: string) {
    IsWord(word) && Printable(word)
  }

  lemma NumbersPrint(t: Typed)
    requires Sets(t) && Wellformed(t)
    ensures forall i :: 0 <= i < |ValueWords(t)| ==> PrintableWord(ValueWords(t)[i])
  {
    NumbersOfCharacters(t);
    var unit := UnitWord(t);
    assert Printable(unit) && forall i :: 0 <= i < |unit| ==> !IsSeparator(unit[i]);
    hide UnitWord, IsLossDecimal, AllDigits;
    assert forall i :: 0 <= i < |t.number| ==> t.number[i] > ' ' && t.number[i] <= '~' by {
      assert forall i :: 0 <= i < |t.number| ==> NumberCharacter(t.number[i]);
    }
  }

  lemma TypedWordsPrint(t: Typed)
    requires Wellformed(t)
    ensures forall i :: 0 <= i < |TypedWords(t)| ==> PrintableWord(TypedWords(t)[i])
  {
    KeywordsPrint();
    if Sets(t) {
      NumbersPrint(t);
      SettingsPrint(t.direction, SettingOfTyped(t));
      hide PrintableWord, ValueWords, DirectionWord, SettingWord;
      var head := ["set", DirectionWord(t.direction), SettingWord(SettingOfTyped(t))];
      forall i | 0 <= i < |TypedWords(t)| ensures PrintableWord(TypedWords(t)[i]) {
        if i < 3 {
          assert TypedWords(t)[i] == head[i];
        } else {
          assert TypedWords(t)[i] == ValueWords(t)[i - 3];
        }
      }
    } else if t.TypedReset? {
      SettingsPrint(t.direction, t.setting);
      hide PrintableWord, DirectionWord, SettingWord;
    } else {
      hide PrintableWord;
    }
  }

  lemma KeywordsPrint()
    ensures PrintableWord("help") && PrintableWord("status") && PrintableWord("stop") && PrintableWord("detach")
    ensures PrintableWord("set") && PrintableWord("reset")
  {
  }

  lemma SettingsPrint(direction: Direction, setting: Setting)
    ensures PrintableWord(DirectionWord(direction)) && PrintableWord(SettingWord(setting))
  {
    match setting case Delay => case Jitter => case PacketLoss => case Bandwidth =>
  }

  lemma {:induction false} SpacedPrints(words: seq<string>, gaps: seq<string>)
    requires |gaps| == |words| + 1 && forall i :: 0 <= i < |words| ==> PrintableWord(words[i])
    requires forall i :: 0 <= i < |gaps| ==> OnlySeparators(gaps[i])
    ensures Printable(Spaced(words, gaps))
    decreases |words|
  {
    assert Printable(gaps[0]) by {
      assert forall i :: 0 <= i < |gaps[0]| ==> IsSeparator(gaps[0][i]);
    }
    if words != [] {
      SpacedPrints(words[1..], gaps[1..]);
      PrintableTogether(words[0], Spaced(words[1..], gaps[1..]));
      PrintableTogether(gaps[0], words[0] + Spaced(words[1..], gaps[1..]));
    }
  }

  lemma PrintableTogether(a: string, b: string)
    requires Printable(a) && Printable(b)
    ensures Printable(a + b)
  {
  }

  /** However a command is laid out, with any spaces and tabs between its words and around them, and its unit attached or
      apart: the parser reads what was written. */
  lemma WhateverTheLayout(f: FloatText, t: Typed, gaps: seq<string>)
    requires RoundsInRange(f) && Wellformed(t) && |gaps| == |TypedWords(t)| + 1 && Gaps(gaps)
    requires |Spaced(TypedWords(t), gaps)| <= MAXIMUM_COMMAND_SIZE
    ensures ParseCommand(f, Spaced(TypedWords(t), gaps)) == Meaning(f, t)
  {
    hide ParseCommand, TypedWords, Spaced, Printable, Words;
    TypedWordsPrint(t);
    assert forall i :: 0 <= i < |TypedWords(t)| ==> PrintableWord(TypedWords(t)[i]);
    SpacedWords(TypedWords(t), gaps);
    SpacedPrints(TypedWords(t), gaps);
    TypedIsParsed(f, t, Spaced(TypedWords(t), gaps));
  }

  // ----- And nothing else -----

  predicate IsKeyword(word: string) {
    word == "help" || word == "status" || word == "stop" || word == "detach" || word == "set" || word == "reset"
  }

  predicate IsDirection(word: string) {
    word == DirectionWord(Outbound) || word == DirectionWord(Inbound)
  }

  predicate IsSetting(word: string) {
    word == SettingWord(Delay) || word == SettingWord(Jitter) || word == SettingWord(PacketLoss)
    || word == SettingWord(Bandwidth)
  }

  predicate IsNumberFor(setting: string, number: string) {
    if setting == SettingWord(PacketLoss) then IsLossDecimal(number) else number != "" && AllDigits(number)
  }

  predicate IsUnitFor(setting: string, unit: string) {
    if setting == SettingWord(PacketLoss) then unit == "" || unit == "%"
    else if setting == SettingWord(Bandwidth) then unit == "" || unit == "kbps" || unit == "mbps"
    else unit == "" || unit == "ms" || unit == "s"
  }

  /** How many words a command has. */
  predicate RightCount(words: seq<string>)
    requires words != []
  {
    if words[0] == "set" then |words| == 4 || |words| == 5 else if words[0] == "reset" then |words| == 3 else |words| == 1
  }

  /** The first thing that is wrong with a line, if anything is wrong with its form. */
  function FirstFlaw(line: string): Option<ParseError> {
    var words := Words(line);
    if |line| > MAXIMUM_COMMAND_SIZE then Some(CommandTooLong)
    else if !Printable(line) then Some(InvalidCharacter)
    else if words == [] then None
    else if !IsKeyword(words[0]) then Some(UnknownCommand)
    else if !RightCount(words) then Some(WrongArgumentCount)
    else if words[0] != "set" && words[0] != "reset" then None
    else if !IsDirection(words[1]) then Some(InvalidDirection)
    else if !IsSetting(words[2]) then Some(InvalidSetting)
    else if words[0] == "reset" then None
    else if !IsNumberFor(words[2], NumberIn(words)) then Some(InvalidNumber)
    else if !IsUnitFor(words[2], UnitIn(words)) then Some(InvalidUnit)
    else None
  }

  function DirectionTyped(word: string): Direction {
    if word == DirectionWord(Outbound) then Outbound else Inbound
  }

  function TimeTyped(word: string): TimeUnit {
    if word == "" then NoTimeUnit else if word == "ms" then InMilliseconds else InSeconds
  }

  function RateTyped(word: string): RateUnit {
    if word == "" then NoRateUnit else if word == "kbps" then InKilobits else InMegabits
  }

  function SettingTyped(word: string): Setting {
    if word == SettingWord(Delay) then Delay
    else if word == SettingWord(Jitter) then Jitter
    else if word == SettingWord(PacketLoss) then PacketLoss
    else Bandwidth
  }

  /** The command written in words without a flaw. */
  function Reread(words: seq<string>): Typed
    requires words != [] && IsKeyword(words[0]) && RightCount(words)
  {
    if words[0] == "help" then TypedHelp
    else if words[0] == "status" then TypedStatus
    else if words[0] == "stop" then TypedStop
    else if words[0] == "detach" then TypedDetach
    else if words[0] == "reset" then TypedReset(DirectionTyped(words[1]), SettingTyped(words[2]))
    else RereadSet(DirectionTyped(words[1]), SettingTyped(words[2]), NumberIn(words), UnitIn(words), |words| == 5)
  }

  function RereadSet(direction: Direction, setting: Setting, number: string, unit: string, apart: bool): Typed {
    match setting
    case Delay => TypedDelay(direction, number, TimeTyped(unit), apart)
    case Jitter => TypedJitter(direction, number, TimeTyped(unit), apart)
    case PacketLoss => TypedLoss(direction, number, unit != "", apart)
    case Bandwidth => TypedBandwidth(direction, number, RateTyped(unit), apart)
  }

  lemma DirectionsAreRead(word: string)
    ensures ParseDirectionWord(word).Some? <==> IsDirection(word)
    ensures IsDirection(word) ==> ParseDirectionWord(word) == Some(DirectionTyped(word))
    ensures IsDirection(word) ==> DirectionWord(DirectionTyped(word)) == word
  {
  }

  lemma SettingsAreRead(word: string)
    ensures ParseSettingWord(word).Some? <==> IsSetting(word)
    ensures IsSetting(word) ==> ParseSettingWord(word) == Some(SettingTyped(word))
    ensures IsSetting(word) ==> SettingWord(SettingTyped(word)) == word
  {
  }

  lemma SettingWordsDiffer(s: Setting, t: Setting)
    ensures SettingWord(s) == SettingWord(t) <==> s == t
  {
    WordsAreRead(Outbound, s);
    WordsAreRead(Outbound, t);
  }

  lemma UnitsAreRead(unit: string)
    ensures IsUnitFor(SettingWord(Delay), unit) ==> TimeWord(TimeTyped(unit)) == unit
    ensures IsUnitFor(SettingWord(Jitter), unit) ==> TimeWord(TimeTyped(unit)) == unit
    ensures IsUnitFor(SettingWord(Bandwidth), unit) ==> RateWord(RateTyped(unit)) == unit
    ensures IsUnitFor(SettingWord(PacketLoss), unit) ==> PercentWord(unit != "") == unit
  {
    SettingWordsDiffer(Delay, PacketLoss);
    SettingWordsDiffer(Delay, Bandwidth);
    SettingWordsDiffer(Jitter, PacketLoss);
    SettingWordsDiffer(Jitter, Bandwidth);
    SettingWordsDiffer(Bandwidth, PacketLoss);
    hide SettingWord;
  }

  /** The form of a set command decides between its errors and a well-formed command. */
  lemma SetFlaws(f: FloatText, words: seq<string>)
    requires 4 <= |words| <= 5 && words[0] == "set" && (|words| == 5 ==> words[4] != "")
    ensures !IsDirection(words[1]) ==> ParseSet(f, words) == Wrong(InvalidDirection)
    ensures IsDirection(words[1]) && !IsSetting(words[2]) ==> ParseSet(f, words) == Wrong(InvalidSetting)
    ensures IsDirection(words[1]) && IsSetting(words[2]) ==>
              && (!IsNumberFor(words[2], NumberIn(words)) ==> ParseSet(f, words) == Wrong(InvalidNumber))
              && (IsNumberFor(words[2], NumberIn(words)) && !IsUnitFor(words[2], UnitIn(words)) ==>
                    ParseSet(f, words) == Wrong(InvalidUnit))
  {
    DirectionsAreRead(words[1]);
    SettingsAreRead(words[2]);
    hide DirectionWord, ParseDirectionWord, ParseSettingWord, IsSetting, IsDirection;
    if ParseDirectionWord(words[1]).Some? && ParseSettingWord(words[2]).Some? {
      SetByParts(f, words);
      hide ParseSet;
      PartFlaws(f, DirectionTyped(words[1]), SettingTyped(words[2]), NumberIn(words), UnitIn(words));
    }
  }

  lemma PartFlaws(f: FloatText, direction: Direction, setting: Setting, number: string, unit: string)
    ensures !IsNumberFor(SettingWord(setting), number) ==>
              SetWith(f, direction, setting, number, unit) == Wrong(InvalidNumber)
    ensures IsNumberFor(SettingWord(setting), number) && !IsUnitFor(SettingWord(setting), unit) ==>
              SetWith(f, direction, setting, number, unit) == Wrong(InvalidUnit)
  {
    SettingWordsDiffer(setting, PacketLoss);
    SettingWordsDiffer(setting, Bandwidth);
    hide SettingWord, ParseLoss, IsLossDecimal, AllDigits, ParseScaled, DecimalIsZero;
  }

  lemma SetReread(words: seq<string>)
    requires 4 <= |words| <= 5 && words[0] == "set" && (|words| == 5 ==> words[4] != "")
    requires IsDirection(words[1]) && IsSetting(words[2])
    requires IsNumberFor(words[2], NumberIn(words)) && IsUnitFor(words[2], UnitIn(words))
    ensures Sets(Reread(words)) && Wellformed(Reread(words)) && TypedWords(Reread(words)) == words
  {
    DirectionsAreRead(words[1]);
    SettingsAreRead(words[2]);
    var direction, setting, number, unit := DirectionTyped(words[1]), SettingTyped(words[2]), NumberIn(words), UnitIn(words);
    KeywordsDiffer();
    assert Reread(words) == RereadSet(direction, setting, number, unit, |words| == 5);
    SetRewritten(direction, setting, number, unit, |words| == 5);
    assert words[3] == (if |words| == 5 then number else number + unit);
    assert words == ["set", words[1], words[2]] + words[3..];
  }

  lemma SetRewritten(direction: Direction, setting: Setting, number: string, unit: string, apart: bool)
    requires IsNumberFor(SettingWord(setting), number) && IsUnitFor(SettingWord(setting), unit) && (apart ==> unit != "")
    ensures var t := RereadSet(direction, setting, number, unit, apart);
            && Sets(t) && Wellformed(t) && UnitWord(t) == unit && SettingOfTyped(t) == setting
            && t.number == number && t.apart == apart && t.direction == direction
  {
    UnitsAreRead(unit);
    SettingWordsDiffer(setting, PacketLoss);
    hide SettingWord, IsUnitFor, TimeWord, TimeTyped, RateWord, RateTyped, PercentWord, AllDigits, IsLossDecimal;
  }

  lemma ResetFlaws(words: seq<string>)
    requires |words| == 3 && words[0] == "reset"
    ensures !IsDirection(words[1]) ==> ParseReset(words) == Wrong(InvalidDirection)
    ensures IsDirection(words[1]) && !IsSetting(words[2]) ==> ParseReset(words) == Wrong(InvalidSetting)
    ensures IsDirection(words[1]) && IsSetting(words[2]) ==> TypedWords(Reread(words)) == words && Reread(words).TypedReset?
  {
    DirectionsAreRead(words[1]);
    SettingsAreRead(words[2]);
    KeywordsDiffer();
    hide DirectionWord, SettingWord, ParseDirectionWord, ParseSettingWord, IsSetting, IsDirection, SettingTyped,
         DirectionTyped;
  }

  lemma {:induction false} WordsAreWords(line: string)
    ensures forall i :: 0 <= i < |Words(line)| ==> IsWord(Words(line)[i])
    decreases |line|
  {
    if line == [] {
    } else if IsSeparator(line[0]) {
      WordsAreWords(line[1..]);
    } else {
      WordsAreWords(line[WordLength(line)..]);
    }
  }

  /** A line without words is a line of separators, or no line at all. */
  lemma {:induction false} NoWordsNoText(line: string)
    ensures Words(line) == [] <==> OnlySeparators(line)
    decreases |line|
  {
    if line != [] && IsSeparator(line[0]) {
      NoWordsNoText(line[1..]);
      assert forall i :: 0 < i < |line| ==> line[i] == line[1..][i - 1];
    }
  }

  /** Every line is decided: the first flaw of its form is the error; a line of separators is ignored; any other line is a
      well-formed command, and means what it says. So nothing is read that was not written. */
  lemma EveryLineIsDecided(f: FloatText, line: string)
    requires RoundsInRange(f)
    ensures Words(line) == [] <==> OnlySeparators(line)
    ensures match FirstFlaw(line)
            case Some(error) => ParseCommand(f, line) == Wrong(error)
            case None =>
              if Words(line) == [] then ParseCommand(f, line) == Ignored
              else
                var t := Reread(Words(line));
                Wellformed(t) && TypedWords(t) == Words(line) && ParseCommand(f, line) == Meaning(f, t)
  {
    NoWordsNoText(line);
    WordsAreWords(line);
    hide Words, Printable, OnlySeparators;
    var words := Words(line);
    if |line| <= MAXIMUM_COMMAND_SIZE && Printable(line) && words != [] && IsKeyword(words[0]) && RightCount(words) {
      WordsAreDecided(f, line, words);
    } else {
      FormIsRefused(f, line, words);
    }
  }

  lemma FormIsRefused(f: FloatText, line: string, words: seq<string>)
    requires words == Words(line)
    requires !(|line| <= MAXIMUM_COMMAND_SIZE && Printable(line) && words != [] && IsKeyword(words[0]) && RightCount(words))
    ensures match FirstFlaw(line)
            case Some(error) => ParseCommand(f, line) == Wrong(error)
            case None => words == [] && ParseCommand(f, line) == Ignored
  {
    KeywordsDiffer();
    hide Words, Printable, NumberIn, UnitIn;
  }

  lemma WordsAreDecided(f: FloatText, line: string, words: seq<string>)
    requires RoundsInRange(f) && words == Words(line) && |line| <= MAXIMUM_COMMAND_SIZE && Printable(line)
    requires words != [] && IsKeyword(words[0]) && RightCount(words) && forall i :: 0 <= i < |words| ==> IsWord(words[i])
    ensures match FirstFlaw(line)
            case Some(error) => ParseCommand(f, line) == Wrong(error)
            case None =>
              var t := Reread(words);
              Wellformed(t) && TypedWords(t) == words && ParseCommand(f, line) == Meaning(f, t)
  {
    KeywordsDiffer();
    if words[0] == "set" {
      assert |words| == 5 ==> IsWord(words[4]);
      SetFlaws(f, words);
      assert ParseCommand(f, line) == ParseSet(f, words);
      if FirstFlaw(line).None? {
        SetReread(words);
        TypedIsParsed(f, Reread(words), line);
      }
      hide Words, Printable, ParseCommand, ParseSet, Reread, TypedWords, IsNumberFor, IsUnitFor, IsSetting, IsDirection;
    } else if words[0] == "reset" {
      ResetFlaws(words);
      assert ParseCommand(f, line) == ParseReset(words);
      if FirstFlaw(line).None? {
        TypedIsParsed(f, Reread(words), line);
      }
      hide Words, Printable, ParseCommand, ParseReset, Reread, TypedWords, IsSetting, IsDirection;
    } else {
      OneWordReread(words);
      hide Words, Printable, ParseCommand, Reread, TypedWords;
      TypedIsParsed(f, Reread(words), line);
    }
  }

  lemma OneWordReread(words: seq<string>)
    requires |words| == 1 && IsKeyword(words[0]) && words[0] != "set" && words[0] != "reset"
    ensures TypedWords(Reread(words)) == words && Wellformed(Reread(words))
  {
  }
}
