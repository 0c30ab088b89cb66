/** Automata that read a byte stream line by line, with a limit on the length of a line. Both directions of the
    Supervisor-helper conversation are such automata. */
module LineMachines {
  import opened Wrappers
  import opened Lines

  /** An automaton: `step` consumes one line, `overlong` is the reaction to a line beyond the limit, and a `dead`
      state reads nothing more. */
  datatype Machine<!S, !E> = Machine(
    limit: nat, dead: S -> bool, step: (S, string) -> (S, seq<E>), overlong: S -> (S, seq<E>))

  /** What one feeding leaves: the state, the partial line kept in the buffer, and what was produced. */
  datatype Feed<S, E> = Feed(state: S, buffer: string, out: seq<E>) {
    function After(earlier: seq<E>): Feed<S, E> {
      this.(out := earlier + out)
    }
  }

  function Run<S, E>(m: Machine<S, E>, s: S, lines: seq<string>, partial: string): Feed<S, E> {
    if m.dead(s) then Feed(s, "", [])
    else if lines == [] && |partial| <= m.limit then Feed(s, partial, [])
    else if lines == [] || |lines[0]| > m.limit then Feed(m.overlong(s).0, "", m.overlong(s).1)
    else
      var (next, out) := m.step(s, lines[0]);
      Run(m, next, lines[1..], partial).After(out)
  }

  function Drain<S, E>(m: Machine<S, E>, s: S, buffer: string): Feed<S, E> {
    Run(m, s, Split(buffer).0, Split(buffer).1)
  }

  /** `receive_bytes`. */
  function Receive<S, E>(m: Machine<S, E>, s: S, buffer: string, bytes: string): Feed<S, E> {
    if m.dead(s) then Feed(s, buffer, []) else Drain(m, s, buffer + bytes)
  }

  /** One turn of the receive loops. */
  lemma DrainTurn<S, E>(m: Machine<S, E>, s: S, buffer: string)
    requires !m.dead(s)
    ensures Drain(m, s, buffer) ==
            match FirstNewline(buffer)
            case None => if |buffer| > m.limit then Feed(m.overlong(s).0, "", m.overlong(s).1)
                         else Feed(s, buffer, [])
            case Some(at) => if at > m.limit then Feed(m.overlong(s).0, "", m.overlong(s).1)
                             else Drain(m, m.step(s, buffer[..at]).0, buffer[at + 1..])
                                  .After(m.step(s, buffer[..at]).1)
  {
    if FirstNewline(buffer).Some? {
      var at := FirstNewline(buffer).value;
      var lines := Split(buffer).0;
      assert lines[0] == buffer[..at] && lines[1..] == Split(buffer[at + 1..]).0;
    }
  }

  /** The limit is exact: at the first line beyond it, or at a partial line beyond it, a machine that is still alive
      breaks, and what was read before counts. */
  lemma {:induction false} OverlongLineBreaks<S, E>(m: Machine<S, E>, s: S, lines: seq<string>, partial: string, k: nat)
    requires k <= |lines| && forall i :: 0 <= i < k ==> |lines[i]| <= m.limit
    requires (if k < |lines| then |lines[k]| else |partial|) > m.limit
    ensures var one := Run(m, s, lines[..k], "");
            Run(m, s, lines, partial)
            == if m.dead(one.state) then one
               else Feed(m.overlong(one.state).0, "", one.out + m.overlong(one.state).1)
    decreases k
  {
    if m.dead(s) {
    } else if k == 0 {
      assert [] + m.overlong(s).1 == m.overlong(s).1;
    } else {
      var (next, out) := m.step(s, lines[0]);
      OverlongLineBreaks(m, next, lines[1..], partial, k - 1);
      assert lines[..k][1..] == lines[1..][..k - 1];
      var one := Run(m, next, lines[..k][1..], "");
      assert out + (one.out + m.overlong(one.state).1) == (out + one.out) + m.overlong(one.state).1;
    }
  }

  /** A state that can be reached by reading: what is buffered is one partial line within the limit. */
  ghost predicate Settled<S, E>(m: Machine<S, E>, s: S, buffer: string) {
    if m.dead(s) then buffer == "" else OneLine(buffer) && |buffer| <= m.limit
  }

  lemma {:induction false} RunSettles<S, E>(m: Machine<S, E>, s: S, lines: seq<string>, partial: string)
    requires OneLine(partial) && forall t :: m.dead(m.overlong(t).0)
    ensures var r := Run(m, s, lines, partial);
            Settled(m, r.state, r.buffer) && (!m.dead(r.state) ==> r.buffer == partial)
    decreases |lines|
  {
    if !m.dead(s) && lines != [] && |lines[0]| <= m.limit {
      RunSettles(m, m.step(s, lines[0]).0, lines[1..], partial);
    }
  }

  lemma {:induction false} RunInTwo<S, E>(
      m: Machine<S, E>, s: S, first: seq<string>, partial: string, b: string)
    requires OneLine(partial) && forall t :: m.dead(m.overlong(t).0)
    ensures var one := Run(m, s, first, partial);
            Run(m, s, first + Split(partial + b).0, Split(partial + b).1)
            == if m.dead(one.state) then one else Drain(m, one.state, partial + b).After(one.out)
    decreases |first|
  {
    var (second, rest) := Split(partial + b);
    if m.dead(s) {
    } else if first == [] {
      assert first + second == second;
      if |partial| <= m.limit {
        assert [] + Run(m, s, second, rest).out == Run(m, s, second, rest).out;
      } else {
        LongPartial(partial, b);
      }
    } else if |first[0]| <= m.limit {
      assert (first + second)[1..] == first[1..] + second;
      var (next, out) := m.step(s, first[0]);
      RunInTwo(m, next, first[1..], partial, b);
      var one := Run(m, next, first[1..], partial);
      if !m.dead(one.state) {
        var r := Drain(m, one.state, partial + b);
        assert out + (one.out + r.out) == (out + one.out) + r.out;
      }
    }
  }

  /** More bytes do not shorten a line that is already too long. */
  lemma LongPartial(partial: string, b: string)
    requires OneLine(partial)
    ensures var (lines, rest) := Split(partial + b);
            if lines == [] then |rest| >= |partial| else |lines[0]| >= |partial|
  {
    var s := partial + b;
    if FirstNewline(s).Some? {
      assert s[FirstNewline(s).value] == '\n' && s[..|partial|] == partial;
    }
  }

  lemma DrainInTwo<S, E>(m: Machine<S, E>, s: S, buffer: string, b: string)
    requires forall t :: m.dead(m.overlong(t).0)
    ensures var one := Drain(m, s, buffer);
            && Settled(m, one.state, one.buffer)
            && Drain(m, s, buffer + b)
               == if m.dead(one.state) then one else Drain(m, one.state, one.buffer + b).After(one.out)
  {
    var (first, partial) := Split(buffer);
    RunSettles(m, s, first, partial);
    RunInTwo(m, s, first, partial, b);
    SplitAppend(buffer, b);
  }

  lemma NothingMore<S, E>(f: Feed<S, E>)
    ensures Feed(f.state, f.buffer, []).After(f.out) == f && f.After([]) == f
  {
    assert f.out + [] == f.out && [] + f.out == f.out;
  }

  lemma AfterBoth<S, E>(f: Feed<S, E>, earlier: seq<E>, later: seq<E>)
    ensures f.After(later).After(earlier) == f.After(earlier + later)
  {
    assert earlier + (later + f.out) == (earlier + later) + f.out;
  }

  /** Fragmentation independence: receiving `a` and then `b` gives what receiving `a + b` at once gives, and the
      same final state. */
  lemma ReceiveInTwo<S, E>(m: Machine<S, E>, s: S, buffer: string, a: string, b: string)
    requires Settled(m, s, buffer) && forall t :: m.dead(m.overlong(t).0)
    ensures var one := Receive(m, s, buffer, a);
            && Settled(m, one.state, one.buffer)
            && Receive(m, s, buffer, a + b) == Receive(m, one.state, one.buffer, b).After(one.out)
  {
    var one := Receive(m, s, buffer, a);
    NothingMore(one);
    if !m.dead(s) {
      assert buffer + (a + b) == (buffer + a) + b;
      DrainInTwo(m, s, buffer + a, b);
    }
  }

  /** The whole stream at once, for any way of cutting it into fragments. */
  function ReceiveAll<S, E>(m: Machine<S, E>, s: S, buffer: string, fragments: seq<string>): Feed<S, E>
    decreases |fragments|
  {
    if fragments == [] then Feed(s, buffer, [])
    else
      var one := Receive(m, s, buffer, fragments[0]);
      ReceiveAll(m, one.state, one.buffer, fragments[1..]).After(one.out)
  }

  function Concat(fragments: seq<string>): string {
    if fragments == [] then "" else fragments[0] + Concat(fragments[1..])
  }

  lemma {:induction false} ReceiveFragments<S, E>(m: Machine<S, E>, s: S, buffer: string, fragments: seq<string>)
    requires Settled(m, s, buffer) && forall t :: m.dead(m.overlong(t).0)
    ensures ReceiveAll(m, s, buffer, fragments) == Receive(m, s, buffer, Concat(fragments))
    decreases |fragments|
  {
    if fragments == [] {
      assert buffer + "" == buffer;
      if !m.dead(s) {
        DrainTurn(m, s, buffer);
        assert FirstNewline(buffer).None?;
      }
    } else {
      ReceiveInTwo(m, s, buffer, fragments[0], Concat(fragments[1..]));
      var one := Receive(m, s, buffer, fragments[0]);
      ReceiveFragments(m, one.state, one.buffer, fragments[1..]);
    }
  }
}
