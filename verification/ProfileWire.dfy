/** The Profile Change frames of the Supervisor-helper conversation. */
module ProfileWire {
  import opened Wrappers
  import opened NetworkProfile
  import Lines
  import Numerals

  const MAXIMUM_HELPER_MESSAGE_SIZE: nat := 1024

  /** What `std::from_chars` says about a fixed-notation number. */
  datatype FixedReading = Unreadable | OutOfRange | Read(value: Percent)

  /** The library conversions between doubles and text. `spell` is `std::to_chars` with 17 significant digits,
      `parse` is `std::from_chars` over the whole token, `fixed` the same in fixed notation. */
  datatype FloatText = FloatText(
    isDouble: real -> bool, spell: real -> string, parse: string -> Option<Percent>,
    fixed: string -> FixedReading)

  predicate Spelling(text: string) {
    && 0 < |text| <= 64
    && forall i :: 0 <= i < |text| ==> text[i] != ' ' && text[i] != '\n'
  }

  /** What the program relies on: 17 digits identify a double, so reading back what was printed gives it again. */
  ghost predicate Faithful(f: FloatText) {
    forall v :: f.isDouble(v) && 0.0 <= v <= 100.0 ==>
      Spelling(f.spell(v)) && f.parse(f.spell(v)) == Some(Finite(v))
  }

  /** A legal change whose packet loss, if it sets one, is a double. */
  predicate Sendable(f: FloatText, change: Change) {
    ValidChange(change) && (change.SetLoss? ==> f.isDouble(change.percent.value))
  }

  datatype RuntimeCommand = StopTerminate | StopKill | Shutdown | ChangeProfile(change: Change)

  // ----- Tokens -----

  predicate IsToken(t: string) {
    t != [] && forall i :: 0 <= i < |t| ==> t[i] != ' '
  }

  function Join(tokens: seq<string>): string
    requires tokens != []
  {
    if |tokens| == 1 then tokens[0] else tokens[0] + " " + Join(tokens[1..])
  }

  /** Position of the first space, `find(' ')`. */
  function FirstSpace(s: string): (at: nat)
    ensures at <= |s| && (forall i :: 0 <= i < at ==> s[i] != ' ') && (at < |s| ==> s[at] == ' ')
  {
    if s == [] || s[0] == ' ' then 0 else 1 + FirstSpace(s[1..])
  }

  /** Tokens of a line separated by exactly one space each. */
  function Tokens(line: string): Option<seq<string>>
    decreases |line|
  {
    var at := FirstSpace(line);
    if at == 0 then None
    else if at == |line| then Some([line])
    else match Tokens(line[at + 1..])
      case None => None
      case Some(rest) => Some([line[..at]] + rest)
  }

  function After(found: seq<string>, rest: Option<seq<string>>): Option<seq<string>> {
    match rest case None => None case Some(tokens) => Some(found + tokens)
  }

  lemma AfterStep(found: seq<string>, s: string)
    ensures var at := FirstSpace(s);
            After(found, Tokens(s)) ==
            if at == 0 then None
            else if at == |s| then Some(found + [s])
            else After(found + [s[..at]], Tokens(s[at + 1..]))
  {
    hide FirstSpace;
    var at := FirstSpace(s);
    if 0 < at < |s| && Tokens(s[at + 1..]).Some? {
      Lines.Regroup(found, [s[..at]], Tokens(s[at + 1..]).value);
    }
  }

  /** `split_wire_tokens`: the loop finds the tokens from left to right. */
  method SplitWireTokens(line: string) returns (tokens: Option<seq<string>>)
    ensures tokens == Tokens(line)
  {
    hide Tokens, After;
    if line == [] || line[0] == ' ' || line[|line| - 1] == ' ' {
      LooseSpace(line);
      return None;
    }
    var found: seq<string> := [];
    var begin := 0;
    var rest := line;
    AfterNothing(Tokens(line));
    while begin < |line|
      invariant begin < |line| && rest == line[begin..]
      invariant After(found, Tokens(rest)) == Tokens(line)
    {
      AfterStep(found, rest);
      var length := FirstSpace(rest);
      if length == 0 { return None; }
      found := found + [rest[..length]];
      if length == |rest| {
        assert rest[..length] == rest;
        return Some(found);
      }
      assert line[begin + length] == ' ';
      begin := begin + length + 1;
      rest := rest[length + 1..];
    }
    assert false;
  }

  lemma AfterNothing(tokens: Option<seq<string>>)
    ensures After([], tokens) == tokens
  {
    if tokens.Some? {
      assert [] + tokens.value == tokens.value;
    }
  }

  lemma {:induction false} LooseSpace(line: string)
    requires line == [] || line[0] == ' ' || line[|line| - 1] == ' '
    ensures Tokens(line).None?
    decreases |line|
  {
    var at := FirstSpace(line);
    if 0 < at < |line| {
      LooseSpace(line[at + 1..]);
    }
  }

  lemma TokensStep(head: string, tail: string)
    requires IsToken(head)
    ensures Tokens(head) == Some([head])
    ensures Tokens(head + " " + tail) ==
            match Tokens(tail) case None => None case Some(rest) => Some([head] + rest)
  {
    var line := head + " " + tail;
    assert FirstSpace(head) == |head|;
    assert line[|head|] == ' ' && forall i :: 0 <= i < |head| ==> line[i] == head[i];
    assert FirstSpace(line) == |head|;
    assert line[..|head|] == head && line[|head| + 1..] == tail;
  }

  /** Splitting succeeds on tokens joined by single spaces, */
  lemma {:induction false} TokensOfJoin(tokens: seq<string>)
    requires tokens != [] && forall i :: 0 <= i < |tokens| ==> IsToken(tokens[i])
    ensures Tokens(Join(tokens)) == Some(tokens)
  {
    assert IsToken(tokens[0]);
    if |tokens| == 1 {
      TokensStep(tokens[0], "");
      assert tokens == [tokens[0]];
    } else {
      TokensOfJoin(tokens[1..]);
      TokensStep(tokens[0], Join(tokens[1..]));
      assert tokens == [tokens[0]] + tokens[1..];
    }
  }

  lemma JoinStep(head: string, rest: seq<string>)
    requires rest != []
    ensures Join([head] + rest) == head + " " + Join(rest)
  {
    assert ([head] + rest)[1..] == rest;
  }

  /** and on nothing else. */
  lemma {:induction false} JoinOfTokens(line: string)
    requires Tokens(line).Some?
    ensures Tokens(line).value != [] && Join(Tokens(line).value) == line
    decreases |line|
  {
    hide FirstSpace;
    var at := FirstSpace(line);
    if at < |line| {
      var tail := line[at + 1..];
      JoinOfTokens(tail);
      JoinStep(line[..at], Tokens(tail).value);
      assert line == line[..at] + " " + tail;
    }
  }

  // ----- Frames -----

  function DirectionToken(direction: Direction): string {
    match direction case Outbound => "OUTBOUND" case Inbound => "INBOUND"
  }

  function SettingToken(setting: Setting): string {
    match setting
    case Delay => "DELAY"
    case Jitter => "JITTER"
    case PacketLoss => "LOSS"
    case Bandwidth => "BANDWIDTH"
  }

  function ParseDirection(token: string): Option<Direction> {
    if token == "OUTBOUND" then Some(Outbound)
    else if token == "INBOUND" then Some(Inbound)
    else None
  }

  function ParseSetting(token: string): Option<Setting> {
    if token == "DELAY" then Some(Delay)
    else if token == "JITTER" then Some(Jitter)
    else if token == "LOSS" then Some(PacketLoss)
    else if token == "BANDWIDTH" then Some(Bandwidth)
    else None
  }

  /** `has_canonical_unsigned_spelling`. */
  method HasCanonicalUnsignedSpelling(token: string) returns (canonical: bool)
    ensures canonical == Numerals.Canonical(token)
  {
    if token == [] || (|token| > 1 && token[0] == '0') {
      return false;
    }
    for i := 0 to |token|
      invariant Numerals.AllDigits(token[..i])
    {
      if !Numerals.IsDigit(token[i]) {
        return false;
      }
    }
    assert token[..|token|] == token;
    return true;
  }

  function ParseCanonicalUnsigned(token: string, maximum: int): Option<nat> {
    if Numerals.Canonical(token) && Numerals.ValueOf(token) <= maximum then Some(Numerals.ValueOf(token)) else None
  }

  function SerializeLoss(f: FloatText, loss: Percent): Option<string> {
    if ValidLoss(loss) then Some(f.spell(loss.value)) else None
  }

  function ParseCanonicalLoss(f: FloatText, token: string): Option<Percent> {
    match f.parse(token)
    case None => None
    case Some(loss) => if SerializeLoss(f, loss) == Some(token) then Some(loss) else None
  }

  /** The three tokens of a frame. */
  function FrameTokens(f: FloatText, change: Change): (tokens: seq<string>)
    requires ValidChange(change)
    ensures |tokens| == 3
  {
    var direction := DirectionToken(change.direction);
    match change
    case SetDelay(_, value) => ["PROFILE_SET_DELAY", direction, Numerals.Decimal(value)]
    case SetJitter(_, value) => ["PROFILE_SET_JITTER", direction, Numerals.Decimal(value)]
    case SetLoss(_, percent) => ["PROFILE_SET_LOSS", direction, f.spell(percent.value)]
    case SetBandwidth(_, kbps) => ["PROFILE_SET_BANDWIDTH", direction, Numerals.Decimal(kbps)]
    case Reset(_, setting) => ["PROFILE_RESET", direction, SettingToken(setting)]
  }

  function FrameLine(f: FloatText, change: Change): string
    requires ValidChange(change)
  {
    Join(FrameTokens(f, change))
  }

  /** `serialize_profile_change`, `None` where the source returns the empty string. */
  function Serialize(f: FloatText, change: Change): Option<string> {
    if Apply(DEFAULT_PROFILE, change).Rejected? then None
    else
      AcceptedIffValid(DEFAULT_PROFILE, change);
      Some(FrameLine(f, change) + "\n")
  }

  /** `parse_profile_change`. */
  function ParseChange(f: FloatText, tokens: seq<string>): Option<Change> {
    if |tokens| != 3 then None
    else match ParseDirection(tokens[1])
      case None => None
      case Some(direction) =>
        if tokens[0] == "PROFILE_SET_DELAY" || tokens[0] == "PROFILE_SET_JITTER" then
          match ParseCanonicalUnsigned(tokens[2], INT64_MAX)
          case None => None
          case Some(value) =>
            Some(if tokens[0] == "PROFILE_SET_DELAY" then SetDelay(direction, value) else SetJitter(direction, value))
        else if tokens[0] == "PROFILE_SET_BANDWIDTH" then
          match ParseCanonicalUnsigned(tokens[2], UINT64_MAX)
          case None => None
          case Some(value) => if value == 0 then None else Some(SetBandwidth(direction, value))
        else if tokens[0] == "PROFILE_SET_LOSS" then
          match ParseCanonicalLoss(f, tokens[2])
          case None => None
          case Some(loss) => Some(SetLoss(direction, loss))
        else if tokens[0] == "PROFILE_RESET" then
          match ParseSetting(tokens[2])
          case None => None
          case Some(setting) => Some(Reset(direction, setting))
        else None
  }

  /** `parse_helper_runtime_command`. */
  function ParseRuntimeCommand(f: FloatText, line: string): Option<RuntimeCommand> {
    if line == "STOP TERM" then Some(StopTerminate)
    else if line == "STOP KILL" then Some(StopKill)
    else if line == "SHUTDOWN" then Some(Shutdown)
    else match Tokens(line)
      case None => None
      case Some(tokens) =>
        match ParseChange(f, tokens)
        case None => None
        case Some(change) => Some(ChangeProfile(change))
  }

  lemma FrameTokensParse(f: FloatText, change: Change)
    requires Faithful(f) && Sendable(f, change)
    ensures ParseChange(f, FrameTokens(f, change)) == Some(change)
  {
    if change.SetDelay? || change.SetJitter? {
      Numerals.ValueOfDecimal(change.value);
    } else if change.SetBandwidth? {
      Numerals.ValueOfDecimal(change.kbps);
    }
  }

  lemma NumeralToken(n: nat)
    requires n <= UINT64_MAX
    ensures Spelling(Numerals.Decimal(n))
  {
    Numerals.Pow10Twenty();
    Numerals.DecimalLength(n, 20);
  }

  lemma WordsSpelled()
    ensures Spelling("PROFILE_SET_DELAY") && Spelling("PROFILE_SET_JITTER") && Spelling("PROFILE_SET_LOSS")
    ensures Spelling("PROFILE_SET_BANDWIDTH") && Spelling("PROFILE_RESET")
    ensures forall d :: Spelling(DirectionToken(d))
    ensures forall s :: Spelling(SettingToken(s))
  {
    forall d ensures Spelling(DirectionToken(d)) {
      match d case Outbound => case Inbound =>
    }
    forall s ensures Spelling(SettingToken(s)) {
      match s case Delay => case Jitter => case PacketLoss => case Bandwidth =>
    }
  }

  /** Every frame token is a short token without newline. */
  lemma FrameTokensSpelled(f: FloatText, change: Change)
    requires Faithful(f) && Sendable(f, change)
    ensures var t := FrameTokens(f, change);
            Spelling(t[0]) && Spelling(t[1]) && Spelling(t[2]) && t[0][0] == 'P'
  {
    WordsSpelled();
    match change
    case SetDelay(_, value) => NumeralToken(value);
    case SetJitter(_, value) => NumeralToken(value);
    case SetLoss(_, _) =>
    case SetBandwidth(_, kbps) => NumeralToken(kbps);
    case Reset(_, _) =>
  }

  lemma ThreeTokenLine(t: seq<string>)
    requires |t| == 3 && Spelling(t[0]) && Spelling(t[1]) && Spelling(t[2])
    ensures Join(t) == t[0] + " " + (t[1] + " " + t[2])
    ensures Lines.OneLine(Join(t)) && |Join(t)| <= 194
    ensures Tokens(Join(t)) == Some(t)
  {
    hide Tokens, FirstSpace;
    TokensOfJoin(t);
    assert t == [t[0]] + [t[1], t[2]] && [t[1], t[2]] == [t[1]] + [t[2]];
    JoinStep(t[0], [t[1], t[2]]);
    JoinStep(t[1], [t[2]]);
  }

  lemma ProfileLineParses(f: FloatText, t: seq<string>, change: Change)
    requires t != [] && t[0] != [] && t[0][0] == 'P' && Tokens(Join(t)) == Some(t)
    requires ParseChange(f, t) == Some(change)
    ensures ParseRuntimeCommand(f, Join(t)) == Some(ChangeProfile(change))
  {
    assert Join(t)[0] == 'P';
  }

  /** The frame of a sendable change is one line within the size limit, and the helper reads the change in it. */
  lemma FrameRoundTrip(f: FloatText, change: Change)
    requires Faithful(f) && Sendable(f, change)
    ensures Serialize(f, change) == Some(FrameLine(f, change) + "\n")
    ensures Lines.OneLine(FrameLine(f, change)) && |FrameLine(f, change)| <= MAXIMUM_HELPER_MESSAGE_SIZE
    ensures ParseRuntimeCommand(f, FrameLine(f, change)) == Some(ChangeProfile(change))
  {
    AcceptedIffValid(DEFAULT_PROFILE, change);
    FrameTokensSpelled(f, change);
    FrameTokensParse(f, change);
    var t := FrameTokens(f, change);
    ThreeTokenLine(t);
    ProfileLineParses(f, t, change);
  }

  lemma TokensAreCanonical(f: FloatText, tokens: seq<string>)
    requires ParseChange(f, tokens).Some?
    ensures ValidChange(ParseChange(f, tokens).value)
    ensures FrameTokens(f, ParseChange(f, tokens).value) == tokens
  {
    if ParseCanonicalUnsigned(tokens[2], UINT64_MAX).Some? {
      Numerals.DecimalOfValue(tokens[2]);
    }
    assert tokens == [tokens[0], tokens[1], tokens[2]];
  }

  /** Exactly the changes with a legal value are written at all. */
  lemma OnlyLegalChangesAreSent(f: FloatText, change: Change)
    ensures Serialize(f, change).Some? <==> ValidChange(change)
  {
    AcceptedIffValid(DEFAULT_PROFILE, change);
  }

  /** Frames are canonical: an accepted frame is, byte for byte, the one serialized from the change it denotes, so
      no two frames denote the same change. */
  lemma FrameIsCanonical(f: FloatText, line: string)
    requires ParseRuntimeCommand(f, line).Some? && ParseRuntimeCommand(f, line).value.ChangeProfile?
    ensures Serialize(f, ParseRuntimeCommand(f, line).value.change) == Some(line + "\n")
  {
    var change := ParseRuntimeCommand(f, line).value.change;
    TokensAreCanonical(f, Tokens(line).value);
    JoinOfTokens(line);
    AcceptedIffValid(DEFAULT_PROFILE, change);
  }
}
