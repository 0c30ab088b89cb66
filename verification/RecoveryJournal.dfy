/** The recovery journal: the text of a record. */
module RecoveryJournal {
  import opened Wrappers
  import opened Lines

  datatype Backend = Nftables | Ufw | Firewalld
  datatype RecordPhase = Intent | Applied | Removing
  datatype Record = Record(backend: Backend, phase: RecordPhase, token: string)

  const MAXIMUM_RECORD_SIZE: nat := 256

  predicate ValidToken(token: string) {
    |token| == 32 && forall i :: 0 <= i < |token| ==> '0' <= token[i] <= '9' || 'a' <= token[i] <= 'f'
  }

  function BackendName(backend: Backend): string {
    match backend
    case Nftables => "nftables"
    case Ufw => "ufw"
    case Firewalld => "firewalld"
  }

  function PhaseName(phase: RecordPhase): string {
    match phase
    case Intent => "intent"
    case Applied => "applied"
    case Removing => "removing"
  }

  function ParseBackend(value: string): Option<Backend> {
    if value == "nftables" then Some(Nftables)
    else if value == "ufw" then Some(Ufw)
    else if value == "firewalld" then Some(Firewalld)
    else None
  }

  function ParsePhase(value: string): Option<RecordPhase> {
    if value == "intent" then Some(Intent)
    else if value == "applied" then Some(Applied)
    else if value == "removing" then Some(Removing)
    else None
  }

  function RecordLines(r: Record): seq<string> {
    ["version=1", "backend=" + BackendName(r.backend), "phase=" + PhaseName(r.phase), "token=" + r.token]
  }

  /** `serialize`. */
  function Serialize(r: Record): Option<string> {
    if ValidToken(r.token) then Some(Text(RecordLines(r))) else None
  }

  /** The record in four lines. */
  function ParseLines(lines: seq<string>): Option<Record> {
    if |lines| != 4 || lines[0] != "version=1" then None
    else match RestAfter("backend=", lines[1])
      case None => None
      case Some(b) =>
        match ParseBackend(b)
        case None => None
        case Some(backend) =>
          match RestAfter("phase=", lines[2])
          case None => None
          case Some(p) =>
            match ParsePhase(p)
            case None => None
            case Some(phase) =>
              match RestAfter("token=", lines[3])
              case None => None
              case Some(token) => if ValidToken(token) then Some(Record(backend, phase, token)) else None
  }

  /** `parse`: four complete lines and nothing after them. */
  function Parse(contents: string): Option<Record> {
    var (lines, rest) := Split(contents);
    if rest == "" then ParseLines(lines) else None
  }

  lemma AfterBack(prefix: string, line: string)
    requires RestAfter(prefix, line).Some?
    ensures prefix + RestAfter(prefix, line).value == line
  {
  }

  lemma NamesParse(backend: Backend, phase: RecordPhase)
    ensures ParseBackend(BackendName(backend)) == Some(backend) && ParsePhase(PhaseName(phase)) == Some(phase)
    ensures OneLine(BackendName(backend)) && OneLine(PhaseName(phase))
    ensures |BackendName(backend)| <= 9 && |PhaseName(phase)| <= 8
  {
    match backend case Nftables => case Ufw => case Firewalld =>
    match phase case Intent => case Applied => case Removing =>
  }

  lemma NamesBack(value: string)
    ensures ParseBackend(value).Some? ==> BackendName(ParseBackend(value).value) == value
    ensures ParsePhase(value).Some? ==> PhaseName(ParsePhase(value).value) == value
  {
  }

  lemma LinesParse(r: Record)
    requires ValidToken(r.token)
    ensures ParseLines(RecordLines(r)) == Some(r)
  {
    NamesParse(r.backend, r.phase);
    AfterPrefix("backend=", BackendName(r.backend));
    AfterPrefix("phase=", PhaseName(r.phase));
    AfterPrefix("token=", r.token);
  }

  lemma LinesBack(lines: seq<string>)
    requires ParseLines(lines).Some?
    ensures RecordLines(ParseLines(lines).value) == lines && ValidToken(ParseLines(lines).value.token)
  {
    NamesBack(RestAfter("backend=", lines[1]).value);
    NamesBack(RestAfter("phase=", lines[2]).value);
    AfterBack("backend=", lines[1]);
    AfterBack("phase=", lines[2]);
    AfterBack("token=", lines[3]);
    assert lines == [lines[0], lines[1], lines[2], lines[3]];
  }

  lemma TextOfFour(lines: seq<string>)
    requires |lines| == 4
    ensures |Text(lines)| == |lines[0]| + |lines[1]| + |lines[2]| + |lines[3]| + 4
  {
    assert lines[1..][1..] == lines[2..] && lines[2..][1..] == lines[3..] && lines[3..][1..] == [];
    assert |Text(lines[3..])| == |lines[3]| + 1;
    assert |Text(lines[2..])| == |lines[2]| + 1 + |Text(lines[3..])|;
    assert |Text(lines[1..])| == |lines[1]| + 1 + |Text(lines[2..])|;
  }

  /** Reading back what was written gives the same record, and it fits the size limit. */
  lemma RecordRoundTrip(r: Record)
    requires ValidToken(r.token)
    ensures Serialize(r).Some? && |Serialize(r).value| <= MAXIMUM_RECORD_SIZE
    ensures Parse(Serialize(r).value) == Some(r)
  {
    NamesParse(r.backend, r.phase);
    var lines := RecordLines(r);
    assert AllLines(lines);
    SplitText(lines, "");
    assert Text(lines) + "" == Text(lines);
    LinesParse(r);
    TextOfFour(lines);
  }

  /** A text that is accepted is the one written for the record it denotes: no two texts denote the same record. */
  lemma RecordIsCanonical(contents: string)
    requires Parse(contents).Some?
    ensures Serialize(Parse(contents).value) == Some(contents)
  {
    LinesBack(Split(contents).0);
    assert Text(Split(contents).0) + "" == Text(Split(contents).0);
  }
}
