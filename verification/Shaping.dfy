/** Shaping one direction at a time, with confirmation and rollback, against a kernel that any `tc` command may leave in
    any state. */
module Shaping {
  import opened Wrappers
  import opened NetworkProfile
  import opened ProfileProtocol
  import opened HelperConversations
  import Lines

  const NANOSECONDS_PER_MILLISECOND: nat := 1_000_000
  const PROBABILITY_MAX: nat := 0xffff_ffff
  const OWNED_HANDLE: nat := 0x4e4c_0000

  // ----- What a qdisc must be -----

  datatype QdiscKind = Noqueue | Netem | OtherKind

  /** The root qdisc of a device as the kernel reports it. */
  datatype Qdisc = Qdisc(kind: QdiscKind, handle: nat, delay: nat, jitter: nat, loss: nat, unsupported: bool)

  predicate Unrestricting(s: DirectionSettings) {
    s.delay == 0 && s.jitter == 0 && s.loss == Finite(0.0) && s.bandwidth.None?
  }

  /** `nanoseconds`: `None` when the value is negative or does not fit 64 bits. */
  function Nanoseconds(ms: Milliseconds): Option<nat> {
    if ms < 0 || ms > UINT64_MAX / NANOSECONDS_PER_MILLISECOND then None else Some(ms * NANOSECONDS_PER_MILLISECOND)
  }

  lemma NanosecondsAreExact(ms: Milliseconds)
    ensures Nanoseconds(ms).Some? <==> 0 <= ms && ms * NANOSECONDS_PER_MILLISECOND <= UINT64_MAX
    ensures Nanoseconds(ms).Some? ==> Nanoseconds(ms).value == 1_000_000 * ms
  {
  }

  /** `std::rint` in the default mode: to the nearest integer, a tie to the even one. */
  function RoundToEven(x: real): int {
    var down := x.Floor;
    if x - down as real < 0.5 then down
    else if x - down as real > 0.5 then down + 1
    else if down % 2 == 0 then down else down + 1
  }

  /** `loss_probability`. */
  function LossProbability(loss: Percent): (p: Option<nat>)
    ensures p.Some? <==> ValidLoss(loss)
    ensures p.Some? ==> p.value <= PROBABILITY_MAX
  {
    if !ValidLoss(loss) then None
    else
      assert 0.0 <= loss.value / 100.0 * PROBABILITY_MAX as real <= PROBABILITY_MAX as real by { Scale(loss.value); }
      Some(RoundToEven(loss.value / 100.0 * PROBABILITY_MAX as real))
  }

  lemma Scale(x: real)
    requires 0.0 <= x <= 100.0
    ensures 0.0 <= x / 100.0 * PROBABILITY_MAX as real <= PROBABILITY_MAX as real
  {
  }

  /** `qdisc_matches`. */
  predicate Matches(q: Qdisc, s: DirectionSettings) {
    if Unrestricting(s) then q.kind.Noqueue? && q.handle == 0
    else
      && Nanoseconds(s.delay).Some? && Nanoseconds(s.jitter).Some? && LossProbability(s.loss).Some?
      && s.bandwidth.None? && !q.unsupported && q.kind.Netem? && q.handle == OWNED_HANDLE
      && q.delay == Nanoseconds(s.delay).value && q.jitter == Nanoseconds(s.jitter).value
      && q.loss == LossProbability(s.loss).value
  }

  /** `is_owned_root_qdisc`. */
  predicate OwnedRoot(q: Qdisc) {
    (q.kind.Noqueue? && q.handle == 0) || (q.kind.Netem? && q.handle == OWNED_HANDLE)
  }

  /** Only an owned root can be what some settings ask for, and what it is fixes the settings up to the rounding of the
      loss. */
  lemma MatchesOwned(q: Qdisc, s: DirectionSettings, t: DirectionSettings)
    requires Matches(q, s)
    ensures OwnedRoot(q)
    ensures Matches(q, t) ==>
              s.delay == t.delay && s.jitter == t.jitter && LossProbability(s.loss) == LossProbability(t.loss)
  {
  }

  lemma RoundingIsMonotone(x: real, y: real)
    requires x <= y
    ensures RoundToEven(x) <= RoundToEven(y)
    ensures x - 0.5 <= RoundToEven(x) as real <= x + 0.5
  {
  }

  /** The probability is the nearest one: the rounding is off by at most half a unit, monotone, and exact at both ends
      of the range. */
  lemma ProbabilityIsNearest(a: Percent, b: Percent)
    requires ValidLoss(a) && ValidLoss(b) && a.value <= b.value
    ensures LossProbability(a).value <= LossProbability(b).value
    ensures var exact := a.value / 100.0 * PROBABILITY_MAX as real;
            exact - 0.5 <= LossProbability(a).value as real <= exact + 0.5
    ensures a.value == 0.0 ==> LossProbability(a).value == 0
    ensures a.value == 100.0 ==> LossProbability(a).value == PROBABILITY_MAX
  {
    ScaleMonotone(a.value, b.value);
    RoundingIsMonotone(a.value / 100.0 * PROBABILITY_MAX as real, b.value / 100.0 * PROBABILITY_MAX as real);
  }

  lemma ScaleMonotone(x: real, y: real)
    requires x <= y
    ensures x / 100.0 * PROBABILITY_MAX as real <= y / 100.0 * PROBABILITY_MAX as real
  {
  }

  /** What can be set at all: no bandwidth, times that fit, and a loss that does not round to none. */
  predicate Settable(s: DirectionSettings) {
    && s.bandwidth.None? && Nanoseconds(s.delay).Some? && Nanoseconds(s.jitter).Some?
    && LossProbability(s.loss).Some?
    && (s.loss.value > 0.0 ==> LossProbability(s.loss).value != 0)
  }

  // ----- Commands and queries -----

  datatype TcCommand = DeleteRoot | AddRoot(added: DirectionSettings) | ChangeRoot(changed: DirectionSettings)

  datatype Act =
    | Asked(asked: Direction, answer: Option<Qdisc>)
    | Ran(direction: Direction, command: TcCommand)

  /** Which command brings a root of the given kind to some settings; `None` where no arguments can be made. */
  function CommandFor(s: DirectionSettings, existing: Qdisc): Option<TcCommand> {
    if !(s.bandwidth.None? && Nanoseconds(s.delay).Some? && Nanoseconds(s.jitter).Some?
         && LossProbability(s.loss).Some?) then None
    else if Unrestricting(s) then Some(DeleteRoot)
    else if s.loss.value != 0.0 && LossProbability(s.loss).value == 0 then None
    else if existing.kind.Noqueue? then Some(AddRoot(s)) else Some(ChangeRoot(s))
  }

  const PLAIN_QDISC := Qdisc(Noqueue, 0, 0, 0, 0, false)

  /** The netem root that settings ask for. */
  function NetemOf(s: DirectionSettings): Option<Qdisc> {
    if Nanoseconds(s.delay).None? || Nanoseconds(s.jitter).None? || LossProbability(s.loss).None? then None
    else Some(Qdisc(Netem, OWNED_HANDLE, Nanoseconds(s.delay).value, Nanoseconds(s.jitter).value,
                    LossProbability(s.loss).value, false))
  }

  /** What `tc` leaves when it does what it is told: a netem root is added where there is none, and only where there is
      one can it be changed or deleted; otherwise the command is refused and the root stays. */
  function Effect(q: Qdisc, command: TcCommand): Qdisc {
    var netem := q.kind.Netem? && q.handle == OWNED_HANDLE;
    match command
    case DeleteRoot => if netem then PLAIN_QDISC else q
    case AddRoot(s) => if q.kind.Noqueue? && NetemOf(s).Some? then NetemOf(s).value else q
    case ChangeRoot(s) => if netem && NetemOf(s).Some? then NetemOf(s).value else q
  }

  /** On an owned root the command for some settings is the one that brings them about. */
  lemma TheCommandWorks(s: DirectionSettings, q: Qdisc)
    requires OwnedRoot(q) && Settable(s)
    ensures CommandFor(s, q).Some? && Matches(Effect(q, CommandFor(s, q).value), s)
  {
  }

  // ----- Looks -----

  /** The answers seen, in order. */
  function Look(act: Act): seq<Option<Qdisc>> {
    if act.Asked? then [act.answer] else []
  }

  function Looks(acts: seq<Act>): seq<Option<Qdisc>> {
    if acts == [] then [] else Look(acts[0]) + Looks(acts[1..])
  }

  lemma {:induction false} LooksInTwo(a: seq<Act>, b: seq<Act>)
    ensures Looks(a + b) == Looks(a) + Looks(b)
    decreases |a|
  {
    if a == [] {
      assert a + b == b;
    } else {
      var first, rest := a[0], a[1..];
      LooksInTwo(rest, b);
      assert (a + b)[1..] == rest + b;
      LooksFirst(a);
      LooksFirst(a + b);
      hide Look, Looks;
      Lines.Regroup(Look(first), Looks(rest), Looks(b));
    }
  }

  lemma LooksFirst(acts: seq<Act>)
    requires acts != []
    ensures Looks(acts) == Look(acts[0]) + Looks(acts[1..])
  {
  }

  predicate Saw(look: Option<Qdisc>, s: DirectionSettings) {
    look.Some? && Matches(look.value, s)
  }

  /** What an attempt must report: success when the look after it shows what was requested; otherwise the old state when that
      look or the one after the rollback of an owned root shows it; and otherwise that nothing is known. */
  predicate TrialReported(result: ShapingResult, current: DirectionSettings, requested: DirectionSettings,
                          looks: seq<Option<Qdisc>>) {
    && |looks| >= 2
    && if Saw(looks[1], requested) then |looks| == 2 && result.ShapingApplied?
       else if Saw(looks[1], current) then |looks| == 2 && result.ShapingRestored?
       else if looks[1].None? || !OwnedRoot(looks[1].value) then |looks| == 2 && result.ShapingUnknown?
       else |looks| == 3 && result == if Saw(looks[2], current) then ShapingRestored else ShapingUnknown
  }

  /** What `set_settings` must report, from what it was told and what it saw. */
  predicate Reported(result: ShapingResult, current: DirectionSettings, requested: DirectionSettings,
                     sameVeth: bool, tcFound: bool, looks: seq<Option<Qdisc>>) {
    if !sameVeth then looks == [] && result.ShapingUnknown?
    else if !Settable(requested) then looks == [] && result.ShapingRestored?
    else if |looks| == 1 then
      if !Saw(looks[0], current) then result.ShapingUnknown?
      else if current == requested then result.ShapingApplied?
      else !tcFound && result.ShapingRestored?
    else
      && looks != [] && Saw(looks[0], current) && current != requested && tcFound
      && TrialReported(result, current, requested, looks)
  }

  /** What shaping a direction comes to when the kernel does what it is told and every look works. */
  function ReliableResult(current: DirectionSettings, requested: DirectionSettings, sameVeth: bool, tcFound: bool)
      : ShapingResult {
    if !sameVeth then ShapingUnknown
    else if !Settable(requested) then ShapingRestored
    else if current == requested || tcFound then ShapingApplied else ShapingRestored
  }

  /** The environment of one Session: the kernel's root qdiscs, the settings the owner stores for each direction while
      they are known, and the adapter's confirmed profile. Nothing else writes the qdiscs. `reliable`: every
      look works and every command has its effect. */
  class ShapedEnvironment {
    const placed: bool
    const reliable: bool
    var outboundRoot: Qdisc
    var inboundRoot: Qdisc
    var outboundSettings: Option<DirectionSettings>
    var inboundSettings: Option<DirectionSettings>
    var confirmed: Profile
    ghost var acts: seq<Act>

    constructor (placed: bool, reliable: bool)
      ensures Valid() && confirmed == DEFAULT_PROFILE && acts == [] && this.placed == placed && this.reliable == reliable
      ensures Stored(Outbound) == Some(UNRESTRICTED) && Stored(Inbound) == Some(UNRESTRICTED)
    {
      this.placed, this.reliable := placed, reliable;
      outboundRoot, inboundRoot := PLAIN_QDISC, PLAIN_QDISC;
      outboundSettings, inboundSettings := Some(UNRESTRICTED), Some(UNRESTRICTED);
      confirmed, acts := DEFAULT_PROFILE, [];
    }

    function Root(direction: Direction): Qdisc
      reads this
    {
      if direction.Outbound? then outboundRoot else inboundRoot
    }

    function Stored(direction: Direction): Option<DirectionSettings>
      reads this
    {
      if direction.Outbound? then outboundSettings else inboundSettings
    }

    /** The settings stored for a direction, if any, are what the kernel has. */
    predicate Known(direction: Direction)
      reads this
    {
      Stored(direction).Some? ==> Matches(Root(direction), Stored(direction).value)
    }

    /** Stored settings are what the kernel has and what the adapter confirmed. */
    predicate Valid()
      reads this
    {
      && Known(Outbound) && Known(Inbound)
      && (outboundSettings.Some? ==> outboundSettings.value == confirmed.outbound)
      && (inboundSettings.Some? ==> inboundSettings.value == confirmed.inbound)
    }

    /** A definite answer is truthful. */
    method Query(direction: Direction) returns (answer: Option<Qdisc>)
      modifies this`acts
      ensures answer.Some? ==> answer.value == Root(direction)
      ensures reliable ==> answer.Some?
      ensures acts == old(acts) + [Asked(direction, answer)]
    {
      var works: bool := *;
      answer := if works || reliable then Some(Root(direction)) else None;
      acts := acts + [Asked(direction, answer)];
    }

    /** A command may leave any root on its device, whatever it reports, unless the kernel is reliable. */
    method RunTc(direction: Direction, command: TcCommand)
      modifies this`acts, this`outboundRoot, this`inboundRoot
      ensures acts == old(acts) + [Ran(direction, command)]
      ensures reliable ==> Root(direction) == Effect(old(Root(direction)), command)
      ensures direction.Outbound? ==> inboundRoot == old(inboundRoot)
      ensures direction.Inbound? ==> outboundRoot == old(outboundRoot)
    {
      var left: Qdisc := *;
      if reliable {
        left := Effect(Root(direction), command);
      }
      if direction.Outbound? {
        outboundRoot := left;
      } else {
        inboundRoot := left;
      }
      acts := acts + [Ran(direction, command)];
    }

    /** `set_settings`. `sameVeth` says whether the veth was just seen to be the proven pair, `tcFound` whether the tool
        was found. Reporting success means that the kernel has what was requested, reporting a restored state that it
        has what it had. */
    method SetSettings(direction: Direction, current: DirectionSettings, requested: DirectionSettings,
                       sameVeth: bool, tcFound: bool)
        returns (result: ShapingResult)
      requires Matches(Root(direction), current)
      modifies this`acts, this`outboundRoot, this`inboundRoot
      ensures old(acts) <= acts && Careful(direction, current, acts[|old(acts)|..])
      ensures Reported(result, current, requested, sameVeth, tcFound, Looks(acts[|old(acts)|..]))
      ensures reliable ==> result == ReliableResult(current, requested, sameVeth, tcFound)
      ensures result.ShapingApplied? ==> Matches(Root(direction), requested)
      ensures result.ShapingRestored? ==> Matches(Root(direction), current)
      ensures direction.Outbound? ==> inboundRoot == old(inboundRoot)
      ensures direction.Inbound? ==> outboundRoot == old(outboundRoot)
      ensures !sameVeth || !Settable(requested) || !tcFound ==> Root(direction) == old(Root(direction))
    {
      if !sameVeth {
        return ShapingUnknown;
      }
      if !Settable(requested) {
        return ShapingRestored;
      }
      var before := Query(direction);
      assert acts[|old(acts)|..] == [Asked(direction, before)];
      if before.None? || !Matches(before.value, current) {
        return ShapingUnknown;
      }
      if current == requested {
        return ShapingApplied;
      }
      if !tcFound {
        return ShapingRestored;
      }
      ghost var tried;
      result, tried := TryAndRollBack(direction, current, requested, before.value);
      assert acts[|old(acts)|..] == tried;
    }

    /** The attempt and, if it did not work out on an owned root, the rollback; the acts begin with the look before. */
    method TryAndRollBack(direction: Direction, current: DirectionSettings, requested: DirectionSettings, before: Qdisc)
        returns (result: ShapingResult, ghost tried: seq<Act>)
      requires before == Root(direction) && Matches(before, current) && Settable(requested)
      modifies this`acts, this`outboundRoot, this`inboundRoot
      ensures tried != [] && tried[0] == Asked(direction, Some(before)) && acts == old(acts) + tried[1..]
      ensures Tries(direction, tried) && TrialReported(result, current, requested, Looks(tried))
      ensures reliable ==> result.ShapingApplied?
      ensures result.ShapingApplied? ==> Matches(Root(direction), requested)
      ensures result.ShapingRestored? ==> Matches(Root(direction), current)
      ensures direction.Outbound? ==> inboundRoot == old(inboundRoot)
      ensures direction.Inbound? ==> outboundRoot == old(outboundRoot)
    {
      MatchesOwned(before, current, current);
      TheCommandWorks(requested, before);
      hide Matches, Settable, CommandFor, Effect, OwnedRoot, Tries, Looks;
      var after;
      after, tried := Attempt(direction, requested, before);
      if after.Some? && Matches(after.value, requested) {
        return ShapingApplied, tried;
      }
      if after.Some? && Matches(after.value, current) {
        return ShapingRestored, tried;
      }
      if after.None? || !OwnedRoot(after.value) {
        return ShapingUnknown, tried;
      }
      var last, second := Attempt(direction, current, after.value);
      TriesInTwo(direction, tried, second);
      LooksInTwo(tried, second[1..]);
      TailInTwo(old(acts), tried, second[1..]);
      tried := tried + second[1..];
      result := if last.Some? && Matches(last.value, current) then ShapingRestored else ShapingUnknown;
    }

    /** A command, if there is one, on a root just seen, and a look at what it left; the acts begin with the look
        before. */
    method Attempt(direction: Direction, settings: DirectionSettings, existing: Qdisc)
        returns (after: Option<Qdisc>, ghost tried: seq<Act>)
      requires OwnedRoot(existing) && existing == Root(direction)
      modifies this`acts, this`outboundRoot, this`inboundRoot
      ensures tried != [] && tried[0] == Asked(direction, Some(existing)) && acts == old(acts) + tried[1..]
      ensures Tries(direction, tried) && |tried| >= 2 && tried[|tried| - 1] == Asked(direction, after)
      ensures Looks(tried) == [Some(existing), after] && Looks(tried[1..]) == [after]
      ensures reliable ==> after == Some(match CommandFor(settings, existing)
                                         case None => existing case Some(command) => Effect(existing, command))
      ensures after.Some? ==> after.value == Root(direction)
      ensures direction.Outbound? ==> inboundRoot == old(inboundRoot)
      ensures direction.Inbound? ==> outboundRoot == old(outboundRoot)
    {
      tried := [Asked(direction, Some(existing))];
      var command := CommandFor(settings, existing);
      if command.Some? {
        RunTc(direction, command.value);
        tried := tried + [Ran(direction, command.value)];
      }
      after := Query(direction);
      ghost var before := tried;
      tried := tried + [Asked(direction, after)];
      LooksInTwo(before, [Asked(direction, after)]);
      assert tried == [Asked(direction, Some(existing))] + tried[1..];
      LooksInTwo([Asked(direction, Some(existing))], tried[1..]);
    }

    /** `set_direction_settings`: the stored settings follow what is known of the kernel, and are given up for good when
        nothing is known. */
    method SetDirectionSettings(direction: Direction, requested: DirectionSettings, sameVeth: bool, tcFound: bool)
        returns (result: ShapingResult)
      requires Known(Outbound) && Known(Inbound)
      modifies this`acts, this`outboundRoot, this`inboundRoot, this`outboundSettings, this`inboundSettings
      ensures Known(Outbound) && Known(Inbound)
      ensures forall d :: d != direction ==> Stored(d) == old(Stored(d)) && Root(d) == old(Root(d))
      ensures result.ShapingApplied? ==> Stored(direction) == Some(requested)
      ensures result.ShapingRestored? ==> Stored(direction) == old(Stored(direction)) && Stored(direction).Some?
      ensures result.ShapingUnknown? && placed ==> Stored(direction).None?
      ensures !placed || old(Stored(direction)).None? ==>
                result.ShapingUnknown? && Stored(direction) == old(Stored(direction)) && acts == old(acts)
      ensures old(acts) <= acts
      ensures old(Stored(direction)).Some? ==> Careful(direction, old(Stored(direction)).value, acts[|old(acts)|..])
      ensures placed && old(Stored(direction)).Some? ==>
                var current := old(Stored(direction)).value;
                if current == requested then result.ShapingApplied? && acts == old(acts)
                else
                  && Reported(result, current, requested, sameVeth, tcFound, Looks(acts[|old(acts)|..]))
                  && (reliable ==> result == ReliableResult(current, requested, sameVeth, tcFound))
    {
      var current := Stored(direction);
      if !placed || current.None? {
        return ShapingUnknown;
      }
      if current.value == requested {
        return ShapingApplied;
      }
      result := SetSettings(direction, current.value, requested, sameVeth, tcFound);
      var next := if result.ShapingApplied? then Some(requested) else if result.ShapingUnknown? then None else current;
      if direction.Outbound? {
        outboundSettings := next;
      } else {
        inboundSettings := next;
      }
    }

    /** What shaping one direction reported. */
    ghost predicate Shaped(kernel: ShapingResult, current: Option<DirectionSettings>, requested: DirectionSettings,
                           sameVeth: bool, tcFound: bool, done: seq<Act>) {
      if !placed || current.None? then kernel.ShapingUnknown? && done == []
      else Reported(kernel, current.value, requested, sameVeth, tcFound, Looks(done))
    }

    /** `NetworkEnvironmentProfileChangeAdapter::apply`: what the protocol calls the adapter's answer, with the stored
        settings still equal to the confirmed profile and to the kernel. */
    method ApplyChange(change: Change, sameVeth: bool, tcFound: bool)
        returns (completion: Completion, ghost kernel: ShapingResult)
      requires Valid()
      modifies this
      ensures Valid()
      ensures (confirmed, completion) == AdapterApply(old(confirmed), change, kernel)
      ensures forall d :: Stored(d).Some? <==>
                old(Stored(d)).Some? && !(completion.StateUnknown? && placed && d == change.direction)
      ensures old(acts) <= acts
      ensures forall d :: d != change.direction ==> Root(d) == old(Root(d))
      ensures completion.Applied? && Stored(change.direction).Some? ==>
                Matches(Root(change.direction), confirmed.Of(change.direction))
      ensures Plain(old(confirmed)) && (!ValidChange(change) || AboutBandwidth(change)) ==> acts == old(acts)
      ensures Plain(old(confirmed)) && ValidChange(change) && !AboutBandwidth(change) ==>
                var direction, wanted := change.direction, Apply(old(confirmed), change).profile;
                if wanted == old(confirmed) then completion.Applied? && acts == old(acts)
                else
                  && Shaped(kernel, old(Stored(direction)), wanted.Of(direction), sameVeth, tcFound, acts[|old(acts)|..])
                  && (reliable && placed && old(Stored(direction)).Some? ==>
                        kernel == ReliableResult(old(confirmed).Of(direction), wanted.Of(direction), sameVeth, tcFound))
    {
      kernel := ShapingUnknown;
      var application := Apply(confirmed, change);
      AcceptedIffPlain(confirmed, change);
      hide Apply, ValidProfile, ValidChange, Settable, Reported, ReliableResult, Matches, Careful, Looks;
      if application.Rejected? {
        return RestoredAfterFailure, kernel;
      }
      var candidate := application.profile;
      if change.Target().Bandwidth? || candidate.outbound.bandwidth.Some? || candidate.inbound.bandwidth.Some? {
        return RestoredAfterFailure, kernel;
      }
      var outboundChanged := candidate.outbound != confirmed.outbound;
      var inboundChanged := candidate.inbound != confirmed.inbound;
      if !outboundChanged && !inboundChanged {
        return Applied, kernel;
      }
      if outboundChanged && inboundChanged {
        assert false;
        return StateUnknown, kernel;
      }
      var direction := if outboundChanged then Outbound else Inbound;
      assert direction == change.direction;
      var result := SetDirectionSettings(direction, candidate.Of(direction), sameVeth, tcFound);
      kernel := result;
      if result.ShapingApplied? {
        confirmed := candidate;
        return Applied, kernel;
      }
      completion := if result.ShapingRestored? then RestoredAfterFailure else StateUnknown;
    }
  }

  /** On a profile the adapter confirmed, every legal change is accepted and moves one direction. */
  lemma AcceptedIffPlain(confirmed: Profile, change: Change)
    ensures Plain(confirmed) ==> (Apply(confirmed, change).Accepted? <==> ValidChange(change))
    ensures Apply(confirmed, change).Accepted? ==>
              var after := Apply(confirmed, change).profile;
              && (Plain(confirmed) && !AboutBandwidth(change) ==> Plain(after))
              && (if change.direction.Outbound? then after.inbound == confirmed.inbound
                  else after.outbound == confirmed.outbound)
  {
    if Plain(confirmed) {
      AcceptedIffValid(confirmed, change);
    }
    if Apply(confirmed, change).Accepted? {
      AppliesToOneDirection(confirmed, change);
    }
  }

  // ----- What the commands may touch -----

  /** Acts that begin with the answer before the attempt: a command runs only on a root just seen, and the rollback only
      on an owned one. */
  predicate Tries(direction: Direction, acts: seq<Act>) {
    && acts != [] && acts[0].Asked? && acts[0].answer.Some?
    && forall i :: 0 < i < |acts| && acts[i].Ran? ==>
         && acts[i].direction == direction
         && acts[i - 1].Asked? && acts[i - 1].asked == direction && acts[i - 1].answer.Some?
         && OwnedRoot(acts[i - 1].answer.value)
  }

  lemma TriesInTwo(direction: Direction, first: seq<Act>, second: seq<Act>)
    requires Tries(direction, first) && Tries(direction, second) && first[|first| - 1] == second[0]
    ensures Tries(direction, first + second[1..])
  {
    var both := first + second[1..];
    forall i | 0 < i < |both| && both[i].Ran? ensures both[i - 1].Asked? && both[i - 1].asked == direction {
      if i >= |first| {
        assert both[i] == second[i - |first| + 1] && both[i - 1] == second[i - |first|];
      }
    }
  }

  lemma TailInTwo<T>(before: seq<T>, first: seq<T>, rest: seq<T>)
    requires first != []
    ensures before + first[1..] + rest == before + (first + rest)[1..]
  {
    assert (first + rest)[1..] == first[1..] + rest;
  }

  /** In one change: no command before the stored settings were seen, and every command right after a look at an owned
      root of the same device. */
  predicate Careful(direction: Direction, current: DirectionSettings, acts: seq<Act>) {
    forall i :: 0 <= i < |acts| && acts[i].Ran? ==>
      && i > 0
      && acts[0].Asked? && acts[0].answer.Some? && Matches(acts[0].answer.value, current)
      && acts[i].direction == direction
      && acts[i - 1].Asked? && acts[i - 1].asked == direction && acts[i - 1].answer.Some?
      && OwnedRoot(acts[i - 1].answer.value)
  }
}
