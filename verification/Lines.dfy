/** Line framing: how every stream reader of the program cuts a byte stream at newlines, and what that
    makes independent of the fragments in which the stream arrives. */
module Lines {
  import opened Wrappers

  /** A string without a newline: a line body, or a partial line waiting for more bytes. */
  predicate OneLine(s: string) {
    forall i :: 0 <= i < |s| ==> s[i] != '\n'
  }

  /** Position of the first newline, `std::string::find('\n')`. */
  function FirstNewline(s: string): (at: Option<nat>)
    ensures at.None? ==> OneLine(s)
    ensures at.Some? ==> at.value < |s| && s[at.value] == '\n' && OneLine(s[..at.value])
  {
    if s == [] then None
    else if s[0] == '\n' then Some(0)
    else
      match FirstNewline(s[1..])
      case None => None
      case Some(k) =>
        assert s[..k + 1] == [s[0]] + s[1..][..k];
        Some(k + 1)
  }

  /** `take_next_line`: the first line and what stays in the buffer, or nothing when no line is complete. */
  function TakeNextLine(buffer: string): (r: Option<(string, string)>)
    ensures r.None? ==> OneLine(buffer)
    ensures r.Some? ==> OneLine(r.value.0) && buffer == r.value.0 + "\n" + r.value.1
  {
    match FirstNewline(buffer)
    case None => None
    case Some(at) => Some((buffer[..at], buffer[at + 1..]))
  }

  /** The text of a list of lines, each followed by a newline. */
  function Text(lines: seq<string>): string {
    if lines == [] then "" else lines[0] + "\n" + Text(lines[1..])
  }

  predicate AllLines(lines: seq<string>) {
    forall i :: 0 <= i < |lines| ==> OneLine(lines[i])
  }

  // ----- Prefixes -----

  predicate HasPrefix(prefix: string, line: string) {
    |prefix| <= |line| && line[..|prefix|] == prefix
  }

  /** What follows a prefix. */
  function RestAfter(prefix: string, line: string): Option<string> {
    if HasPrefix(prefix, line) then Some(line[|prefix|..]) else None
  }

  lemma AfterPrefix(prefix: string, rest: string)
    ensures RestAfter(prefix, prefix + rest) == Some(rest)
  {
    assert (prefix + rest)[..|prefix|] == prefix && (prefix + rest)[|prefix|..] == rest;
  }

  // ----- Texts -----

  lemma Regroup<T>(a: seq<T>, b: seq<T>, c: seq<T>)
    ensures a + (b + c) == (a + b) + c
  {
  }

  lemma TextFirst(line: string, lines: seq<string>, rest: string)
    ensures Text([line] + lines) + rest == line + "\n" + (Text(lines) + rest)
  {
    assert ([line] + lines)[1..] == lines;
    Regroup(line + "\n", Text(lines), rest);
  }

  /** All complete lines of a buffer and the partial line after them. */
  function Split(s: string): (r: (seq<string>, string))
    ensures AllLines(r.0) && OneLine(r.1)
    ensures s == Text(r.0) + r.1
    decreases |s|
  {
    match TakeNextLine(s)
    case None => ([], s)
    case Some((line, rest)) =>
      var (lines, partial) := Split(rest);
      TextFirst(line, lines, partial);
      ([line] + lines, partial)
  }

  lemma {:induction false} TextAppend(a: seq<string>, b: seq<string>)
    ensures Text(a + b) == Text(a) + Text(b)
  {
    if a == [] {
      assert a + b == b;
    } else {
      TextAppend(a[1..], b);
      assert (a + b)[1..] == a[1..] + b;
    }
  }

  lemma {:induction false} FirstNewlineAfter(line: string, rest: string)
    requires OneLine(line)
    ensures FirstNewline(line + "\n" + rest) == Some(|line|)
  {
    if line != [] {
      FirstNewlineAfter(line[1..], rest);
      assert (line + "\n" + rest)[1..] == line[1..] + "\n" + rest;
    }
  }

  /** The first line of a text, and the others. */
  lemma SplitFirst(s: string)
    ensures match TakeNextLine(s)
            case None => Split(s) == ([], s)
            case Some((line, rest)) =>
              Split(s).0 != [] && Split(s).0[0] == line && Split(s).0[1..] == Split(rest).0 && Split(s).1 == Split(rest).1
  {
  }

  lemma SplitStep(line: string, rest: string)
    requires OneLine(line)
    ensures Split(line + "\n" + rest) == ([line] + Split(rest).0, Split(rest).1)
  {
    FirstNewlineAfter(line, rest);
    var s := line + "\n" + rest;
    assert s[..|line|] == line && s[|line| + 1..] == rest;
  }

  /** Cutting the text of some lines gives those lines back. */
  lemma {:induction false} SplitText(lines: seq<string>, partial: string)
    requires AllLines(lines) && OneLine(partial)
    ensures Split(Text(lines) + partial) == (lines, partial)
  {
    if lines == [] {
      assert Text(lines) + partial == partial;
      assert FirstNewline(partial).None?;
    } else {
      SplitText(lines[1..], partial);
      SplitStep(lines[0], Text(lines[1..]) + partial);
      assert Text(lines) + partial == lines[0] + "\n" + (Text(lines[1..]) + partial);
      assert [lines[0]] + lines[1..] == lines;
    }
  }

  lemma TextJoin(first: seq<string>, partial: string, b: string, second: seq<string>, rest: string)
    requires partial + b == Text(second) + rest
    ensures (Text(first) + partial) + b == Text(first + second) + rest
  {
    TextAppend(first, second);
    assert (Text(first) + partial) + b == Text(first) + (partial + b);
    assert Text(first) + (Text(second) + rest) == (Text(first) + Text(second)) + rest;
  }

  /** Cutting is independent of where the stream was interrupted: only the partial line is carried over. */
  lemma SplitAppend(a: string, b: string)
    ensures Split(a + b) ==
            (Split(a).0 + Split(Split(a).1 + b).0, Split(Split(a).1 + b).1)
  {
    var (first, partial) := Split(a);
    var (second, rest) := Split(partial + b);
    TextJoin(first, partial, b, second, rest);
    SplitText(first + second, rest);
  }

  /** A prefix of the text of some lines holds some of those lines and leaves the text of the others. */
  lemma PrefixOfText(lines: seq<string>, prefix: string, suffix: string)
    requires AllLines(lines) && Text(lines) == prefix + suffix
    ensures |Split(prefix).0| <= |lines| && Split(prefix).0 == lines[..|Split(prefix).0|]
    ensures Split(prefix).1 + suffix == Text(lines[|Split(prefix).0|..])
  {
    SplitAppend(prefix, suffix);
    SplitText(lines, "");
    assert Text(lines) + "" == Text(lines);
    var first := Split(prefix).0;
    var second := Split(Split(prefix).1 + suffix).0;
    assert lines == first + second;
    assert lines[..|first|] == first && lines[|first|..] == second;
  }
}
