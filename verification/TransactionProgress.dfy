/** What the Network Environment transaction is sure to do: a preparation whose steps work succeeds, the first step that
    does not is the one reported, and a cleanup calls for the removal of every proven root while there is time. */
module TransactionProgress {
  import opened Wrappers
  import opened NetworkTransaction

  /** The time the calls from the n-th on take. */
  function Elapsed(script: nat -> Answer, n: nat, count: nat): nat {
    if count == 0 then 0 else Elapsed(script, n, count - 1) + script(n + count - 1).elapsed
  }

  lemma {:induction false} ElapsedGrows(script: nat -> Answer, n: nat, a: nat, b: nat)
    requires a <= b
    ensures Elapsed(script, n, a) <= Elapsed(script, n, b)
  {
    if a < b {
      ElapsedGrows(script, n, a, b - 1);
    }
  }

  function AnswerAt(script: nat -> Answer, n: nat, i: nat): Answer {
    script(n + i)
  }

  predicate AllGone(script: nat -> Answer, n: nat, count: nat) {
    forall i :: 0 <= i < count ==> AnswerAt(script, n, i).root.Absent?
  }

  // ----- Cleanup -----

  /** The failures of removals that left something. */
  function FailuresOf(script: nat -> Answer, n: nat, count: nat): seq<Failure> {
    if count == 0 then []
    else
      var last := script(n + count - 1);
      FailuresOf(script, n, count - 1) + if last.root.Absent? then [] else [Failure(Cleanup, last.cause)]
  }

  /** The owner after the removals of some roots, in order, as the answers report it. */
  function OwnerAfter(script: nat -> Answer, n: nat, o: Owner, names: seq<RootName>): Owner {
    if names == [] then o
    else
      var k := |names| - 1;
      Set(OwnerAfter(script, n, o, names[..k]), names[k], script(n + k).root)
  }

  /** A call for the removal of a root, with the proof the owner had of it. */
  predicate CallsFor(call: Call, name: RootName) {
    Removes(call.op) && RootOf(call.op) == Some(name) && call.Proper()
  }

  /** How many of some removals, one after the other, begin within the budget. */
  function InTime(script: nat -> Answer, n: nat, count: nat): (made: nat)
    ensures made <= count
  {
    if count == 0 then 0
    else if Elapsed(script, n, count - 1) < TRANSACTION_LIMIT then count
    else InTime(script, n, count - 1)
  }

  function Timeouts(count: nat): seq<Failure> {
    seq(count, _ => Failure(Cleanup, Timeout))
  }

  /** A cleanup that has dealt with some roots, one after the other: while there was time it called for their removal, and
      for nothing else; those it was too late for are left and recorded as timed out. */
  predicate HasDealtWith(script: nat -> Answer, w: World, o: Owner, c: Cleaning, names: seq<RootName>) {
    var made := InTime(script, w.answered, |names|);
    && c.world.answered == w.answered + made
    && c.world.now == w.now + Elapsed(script, w.answered, made)
    && c.world.handed == c.owner && c.owner == OwnerAfter(script, w.answered, o, names[..made])
    && c.failures == FailuresOf(script, w.answered, made) + Timeouts(|names| - made)
    && |c.world.calls| == |w.calls| + made && w.calls <= c.world.calls
    && forall i :: 0 <= i < made ==> CallsFor(c.world.calls[|w.calls| + i], names[i])
  }

  lemma {:induction false} InTimeIsExact(script: nat -> Answer, n: nat, count: nat)
    ensures var made := InTime(script, n, count);
            && (forall i :: 0 <= i < made ==> Elapsed(script, n, i) < TRANSACTION_LIMIT)
            && (forall i :: made <= i < count ==> Elapsed(script, n, i) >= TRANSACTION_LIMIT)
  {
    if count > 0 {
      if Elapsed(script, n, count - 1) < TRANSACTION_LIMIT {
        forall i | 0 <= i < count ensures Elapsed(script, n, i) < TRANSACTION_LIMIT {
          ElapsedGrows(script, n, i, count - 1);
        }
      } else {
        InTimeIsExact(script, n, count - 1);
      }
    }
  }

  /** What one more removal, tried at a certain time, does to the count of those in time. */
  lemma InTimeOne(script: nat -> Answer, n: nat, count: nat)
    ensures var made := InTime(script, n, count);
            if Elapsed(script, n, made) < TRANSACTION_LIMIT then made == count && InTime(script, n, count + 1) == count + 1
            else InTime(script, n, count + 1) == made
  {
    var made := InTime(script, n, count);
    InTimeIsExact(script, n, count);
    if Elapsed(script, n, made) < TRANSACTION_LIMIT {
      assert made == count;
    } else {
      ElapsedGrows(script, n, made, count);
    }
  }

  /** A removal in time: one call, and the answer takes the root's place. */
  lemma RemovalInTime(script: nat -> Answer, c: Cleaning, name: RootName, limit: Time)
      returns (d: Cleaning, call: Call)
    requires c.world.handed == c.owner && Get(c.owner, name).Proven? && c.world.now < limit
    ensures d == Remove(script, c, name, limit) && CallsFor(call, name)
    ensures var answer := script(c.world.answered);
            && d.world.answered == c.world.answered + 1 && d.world.now == c.world.now + answer.elapsed
            && d.world.handed == d.owner == Set(c.owner, name, answer.root)
            && d.world.calls == c.world.calls + [call]
            && d.failures == c.failures + if answer.root.Absent? then [] else [Failure(Cleanup, answer.cause)]
  {
    d := Remove(script, c, name, limit);
    call := Call(RemovalOf(c.owner, name), c.world.now, Least(c.world.now + OPERATION_LIMIT, limit), c.world.handed);
    assert c.failures + [] == c.failures;
  }

  lemma OneMoreInTime(script: nat -> Answer, w: World, o: Owner, c: Cleaning, names: seq<RootName>, name: RootName)
    requires HasDealtWith(script, w, o, c, names) && Get(c.owner, name).Proven?
    requires InTime(script, w.answered, |names|) == |names| && InTime(script, w.answered, |names| + 1) == |names| + 1
    requires Elapsed(script, w.answered, |names|) < TRANSACTION_LIMIT
    ensures HasDealtWith(script, w, o, Remove(script, c, name, w.now + TRANSACTION_LIMIT), names + [name])
  {
    hide OwnerAfter, FailuresOf, Elapsed, Remove, CallsFor, InTime;
    var d, call := RemovalInTime(script, c, name, w.now + TRANSACTION_LIMIT);
    OwnerAfterOne(script, w.answered, o, names, name);
    FailuresOfOne(script, w.answered, |names|);
    ElapsedOne(script, w.answered, |names|);
    var more := names + [name];
    assert names[..|names|] == names && more[..|more|] == more;
    assert d.failures == FailuresOf(script, w.answered, |more|) + Timeouts(0);
    forall i | 0 <= i < |more| ensures CallsFor(d.world.calls[|w.calls| + i], more[i]) {
      if i < |names| {
        assert d.world.calls[|w.calls| + i] == c.world.calls[|w.calls| + i] && more[i] == names[i];
      } else {
        assert d.world.calls[|w.calls| + i] == call && more[i] == name;
      }
    }
  }

  lemma OneTooLate(script: nat -> Answer, w: World, o: Owner, c: Cleaning, names: seq<RootName>, name: RootName)
    requires HasDealtWith(script, w, o, c, names) && Get(c.owner, name).Proven?
    requires InTime(script, w.answered, |names| + 1) == InTime(script, w.answered, |names|)
    requires Elapsed(script, w.answered, InTime(script, w.answered, |names|)) >= TRANSACTION_LIMIT
    ensures HasDealtWith(script, w, o, Remove(script, c, name, w.now + TRANSACTION_LIMIT), names + [name])
  {
    hide OwnerAfter, FailuresOf, Elapsed, CallsFor, InTime;
    var made := InTime(script, w.answered, |names|);
    assert (names + [name])[..made] == names[..made];
    assert Timeouts(|names| - made) + [Failure(Cleanup, Timeout)] == Timeouts(|names| + 1 - made);
  }

  lemma OneMore(script: nat -> Answer, w: World, o: Owner, c: Cleaning, names: seq<RootName>, name: RootName)
    requires HasDealtWith(script, w, o, c, names) && Get(c.owner, name).Proven?
    ensures HasDealtWith(script, w, o, Remove(script, c, name, w.now + TRANSACTION_LIMIT), names + [name])
  {
    hide HasDealtWith, Remove, Elapsed, InTime;
    InTimeOne(script, w.answered, |names|);
    if Elapsed(script, w.answered, InTime(script, w.answered, |names|)) < TRANSACTION_LIMIT {
      OneMoreInTime(script, w, o, c, names, name);
    } else {
      OneTooLate(script, w, o, c, names, name);
    }
  }

  lemma OwnerAfterOne(script: nat -> Answer, n: nat, o: Owner, names: seq<RootName>, name: RootName)
    ensures OwnerAfter(script, n, o, names + [name]) == Set(OwnerAfter(script, n, o, names), name, script(n + |names|).root)
  {
    assert (names + [name])[..|names|] == names;
  }

  lemma FailuresOfOne(script: nat -> Answer, n: nat, count: nat)
    ensures FailuresOf(script, n, count + 1)
            == FailuresOf(script, n, count)
               + if script(n + count).root.Absent? then [] else [Failure(Cleanup, script(n + count).cause)]
  {
  }

  lemma ElapsedOne(script: nat -> Answer, n: nat, count: nat)
    ensures Elapsed(script, n, count + 1) == Elapsed(script, n, count) + script(n + count).elapsed
  {
  }

  /** The proven roots in the order of their removal: before the veth, before the namespace, and all. */
  function BeforeVeth(o: Owner): seq<RootName> {
    if o.connectivity.Proven? then [ConnectivityRoot] else []
  }

  function BeforeNamespace(o: Owner): seq<RootName> {
    BeforeVeth(o) + if o.veth.Proven? then [VethRoot] else []
  }

  function ProvenRoots(o: Owner): seq<RootName> {
    BeforeNamespace(o) + if o.namespaceRoot.Proven? then [NamespaceRoot] else []
  }

  /** The owner after those removals of some that were made in time. */
  function OwnerInTime(script: nat -> Answer, n: nat, o: Owner, names: seq<RootName>): Owner {
    OwnerAfter(script, n, o, names[..InTime(script, n, |names|)])
  }

  /** The veth once more: it was left, and then the namespace was reported gone. */
  predicate VethAgain(script: nat -> Answer, n: nat, o: Owner) {
    var left := OwnerInTime(script, n, o, ProvenRoots(o));
    o.namespaceRoot.Proven? && left.namespaceRoot.Absent? && left.veth.Proven?
  }

  function DueRemovals(script: nat -> Answer, n: nat, o: Owner): seq<RootName> {
    ProvenRoots(o) + if VethAgain(script, n, o) then [VethRoot] else []
  }

  /** Removals leave the other roots as they were. */
  lemma {:induction false} OthersStay(script: nat -> Answer, n: nat, o: Owner, names: seq<RootName>, name: RootName)
    requires name !in names
    ensures Get(OwnerAfter(script, n, o, names), name) == Get(o, name)
  {
    if names != [] {
      OthersStay(script, n, o, names[..|names| - 1], name);
    }
  }

  /** One root of the cleanup: dealt with if it is proven, passed over otherwise. */
  lemma NextRoot(script: nat -> Answer, w: World, o: Owner, c: Cleaning, names: seq<RootName>, name: RootName)
    requires HasDealtWith(script, w, o, c, names) && name !in names
    ensures HasDealtWith(script, w, o, Remove(script, c, name, w.now + TRANSACTION_LIMIT),
                         names + if Get(o, name).Proven? then [name] else [])
    ensures Get(c.owner, name) == Get(o, name)
  {
    hide OwnerAfter, FailuresOf, Elapsed, CallsFor, InTime;
    OthersStay(script, w.answered, o, names[..InTime(script, w.answered, |names|)], name);
    if Get(c.owner, name).Proven? {
      hide HasDealtWith, Remove;
      OneMore(script, w, o, c, names, name);
    } else {
      assert names + [] == names;
    }
  }

  /** Connectivity, then the veth. */
  lemma FirstRoots(script: nat -> Answer, w: World, o: Owner)
    requires w.handed == o
    ensures var c := RemoveConnectivityAndVeth(script, StartCleaning(w, o), w.now + TRANSACTION_LIMIT);
            HasDealtWith(script, w, o, c, BeforeNamespace(o))
  {
    NothingDoneYet(script, w, o);
    hide HasDealtWith, Remove;
    NextRoot(script, w, o, StartCleaning(w, o), [], ConnectivityRoot);
    assert [] + BeforeVeth(o) == BeforeVeth(o);
    var c := Remove(script, StartCleaning(w, o), ConnectivityRoot, w.now + TRANSACTION_LIMIT);
    NextRoot(script, w, o, c, BeforeVeth(o), VethRoot);
  }

  lemma NothingDoneYet(script: nat -> Answer, w: World, o: Owner)
    requires w.handed == o
    ensures HasDealtWith(script, w, o, StartCleaning(w, o), [])
  {
  }

  lemma OwnerIs(script: nat -> Answer, w: World, o: Owner, c: Cleaning, names: seq<RootName>)
    requires HasDealtWith(script, w, o, c, names)
    ensures c.owner == OwnerInTime(script, w.answered, o, names)
  {
  }

  /** The namespace, and the veth again if that is due. */
  lemma LastRoots(script: nat -> Answer, w: World, o: Owner, c: Cleaning)
    requires HasDealtWith(script, w, o, c, BeforeNamespace(o))
    ensures HasDealtWith(script, w, o, RemoveNamespaceAndRest(script, c, w.now + TRANSACTION_LIMIT),
                         DueRemovals(script, w.answered, o))
  {
    hide HasDealtWith, Remove, OwnerInTime;
    var limit := w.now + TRANSACTION_LIMIT;
    NextRoot(script, w, o, c, BeforeNamespace(o), NamespaceRoot);
    var d := Remove(script, c, NamespaceRoot, limit);
    OwnerIs(script, w, o, d, ProvenRoots(o));
    if VethAgain(script, w.answered, o) {
      OneMore(script, w, o, d, ProvenRoots(o), VethRoot);
    } else {
      NothingToRemove(script, d, VethRoot, limit);
      assert ProvenRoots(o) + [] == ProvenRoots(o);
    }
  }

  lemma NothingToRemove(script: nat -> Answer, c: Cleaning, name: RootName, limit: Time)
    ensures !Get(c.owner, name).Proven? ==> Remove(script, c, name, limit) == c
  {
  }

  /** Every cleanup, exactly. The removals due are those of the proven roots, in the order connectivity, veth, namespace,
      and of the veth again when it was left and the namespace then reported gone. Those that begin within thirty seconds
      are called for and nothing else is; the owner afterwards is what their answers say. Each removal that left something is
      recorded with its cause, each that came too late as timed out, and, if asked for, that something was
      unconfirmed from the start. */
  lemma CleanupIsExact(script: nat -> Answer, w: World, o: Owner, returnResidual: bool)
    requires w.handed == o
    ensures var c := CleanUp(script, w, o, returnResidual);
            var due := DueRemovals(script, w.answered, o);
            var made := InTime(script, w.answered, |due|);
            && |c.world.calls| == |w.calls| + made && w.calls <= c.world.calls
            && (forall i :: 0 <= i < made ==> CallsFor(c.world.calls[|w.calls| + i], due[i]))
            && c.owner == OwnerAfter(script, w.answered, o, due[..made])
            && c.failures == FailuresOf(script, w.answered, made) + Timeouts(|due| - made)
                             + if returnResidual && AnyUnconfirmed(o) then [Failure(Cleanup, IncompleteCleanup)] else []
  {
    hide OwnerAfter, FailuresOf, Elapsed, CallsFor, InTime, RemoveConnectivityAndVeth, RemoveNamespaceAndRest, DueRemovals;
    FirstRoots(script, w, o);
    var c := RemoveConnectivityAndVeth(script, StartCleaning(w, o), w.now + TRANSACTION_LIMIT);
    LastRoots(script, w, o, c);
    var d := RemoveNamespaceAndRest(script, c, w.now + TRANSACTION_LIMIT);
    assert d.failures + [] == d.failures;
  }

  /** If every removal begins in time and reports the root gone, nothing is left and nothing is recorded. */
  lemma CleanupEmpties(script: nat -> Answer, w: World, o: Owner)
    requires w.handed == o && !AnyUnconfirmed(o)
    requires InTime(script, w.answered, |ProvenRoots(o)|) == |ProvenRoots(o)|
    requires AllGone(script, w.answered, |ProvenRoots(o)|)
    ensures var c := CleanUp(script, w, o, true);
            && c.owner.Empty() && c.failures == [] && |c.world.calls| == |w.calls| + |ProvenRoots(o)|
  {
    hide CleanUp, OwnerAfter, FailuresOf, Elapsed, AllGone, ProvenRoots, DueRemovals, InTime;
    CleanupIsExact(script, w, o, true);
    NothingMoreIsDue(script, w.answered, o);
    NoFailures(script, w.answered, |ProvenRoots(o)|);
  }

  lemma NothingMoreIsDue(script: nat -> Answer, n: nat, o: Owner)
    requires !AnyUnconfirmed(o) && AllGone(script, n, |ProvenRoots(o)|)
    requires InTime(script, n, |ProvenRoots(o)|) == |ProvenRoots(o)|
    ensures DueRemovals(script, n, o) == ProvenRoots(o)
    ensures OwnerAfter(script, n, o, ProvenRoots(o)[..|ProvenRoots(o)|]).Empty()
  {
    hide OwnerAfter, AllGone, InTime, ProvenRoots;
    GoneAfter(script, n, o);
    assert ProvenRoots(o)[..|ProvenRoots(o)|] == ProvenRoots(o);
    assert ProvenRoots(o) + [] == ProvenRoots(o);
  }

  /** The roots whose removal was answered with Absent are gone, the others are as they were. */
  lemma {:induction false} AnsweredGone(script: nat -> Answer, n: nat, o: Owner, names: seq<RootName>, name: RootName)
    requires AllGone(script, n, |names|)
    ensures Get(OwnerAfter(script, n, o, names), name) == if name in names then Absent else Get(o, name)
  {
    hide AllGone;
    if names != [] {
      var rest, last := names[..|names| - 1], names[|names| - 1];
      GoneSooner(script, n, |names|);
      AnsweredGone(script, n, o, rest, name);
      assert names == rest + [last];
    }
  }

  lemma GoneSooner(script: nat -> Answer, n: nat, count: nat)
    requires AllGone(script, n, count) && count > 0
    ensures AllGone(script, n, count - 1) && script(n + count - 1).root.Absent?
  {
    assert AnswerAt(script, n, count - 1).root.Absent?;
  }

  lemma GoneAfter(script: nat -> Answer, n: nat, o: Owner)
    requires !AnyUnconfirmed(o) && AllGone(script, n, |ProvenRoots(o)|)
    ensures OwnerAfter(script, n, o, ProvenRoots(o)).Empty()
  {
    hide OwnerAfter, AllGone;
    AnsweredGone(script, n, o, ProvenRoots(o), NamespaceRoot);
    AnsweredGone(script, n, o, ProvenRoots(o), VethRoot);
    AnsweredGone(script, n, o, ProvenRoots(o), ConnectivityRoot);
  }

  lemma {:induction false} NoFailures(script: nat -> Answer, n: nat, count: nat)
    requires AllGone(script, n, count)
    ensures FailuresOf(script, n, count) == []
  {
    if count > 0 {
      NoFailures(script, n, count - 1);
      assert AnswerAt(script, n, count - 1).root.Absent?;
    }
  }

  // ----- Preparation -----

  /** The stages of the eleven steps. */
  const STAGES := [
    Preflight, NamespaceCreation, VethCreation, VethCreation, HostConfiguration, HostConfiguration,
    NamespaceConfiguration, NamespaceConfiguration, NamespaceConfiguration, RouteConfiguration, InternetConnectivity
  ]

  /** A step whose answer delivers what the step is for: the namespace, the pair, the pair with its peer placed, and the
      connectivity come with a proof. */
  predicate Delivers(k: nat, a: Answer) {
    && (k == 1 || k == 2 || k == 3 || k == 10 ==> a.root.Proven?)
    && (k == 2 ==> !a.root.placed) && (k == 3 ==> a.root.placed)
  }

  /** A step that begins in time and works. */
  predicate StepWorks(script: nat -> Answer, n: nat, k: nat) {
    Elapsed(script, n, k) < TRANSACTION_LIMIT && AnswerAt(script, n, k).succeeded && Delivers(k, AnswerAt(script, n, k))
  }

  predicate StepsWork(script: nat -> Answer, n: nat, count: nat) {
    forall k :: 0 <= k < count ==> StepWorks(script, n, k)
  }

  /** The roots after some steps, as they were reported. */
  function HeldAfter(script: nat -> Answer, n: nat, count: nat): Owner {
    Owner(if count > 1 then script(n + 1).root else Absent,
          if count > 3 then script(n + 3).root else if count > 2 then script(n + 2).root else Absent,
          if count > 10 then script(n + 10).root else Absent)
  }

  /** A preparation after some steps that worked. */
  predicate Reached(script: nat -> Answer, w: World, wk: World, k: nat) {
    && wk.now == w.now + Elapsed(script, w.answered, k) && wk.answered == w.answered + k
    && wk.handed == HeldAfter(script, w.answered, k) && CallsSteps(w, wk, k)
  }

  /** One call for each of the first steps, in order. */
  predicate CallsSteps(w: World, wk: World, k: nat) {
    && |wk.calls| == |w.calls| + k && w.calls <= wk.calls
    && forall i :: |w.calls| <= i < |wk.calls| ==> StepNumber(wk.calls[i].op) == i - |w.calls|
  }

  /** One more call. */
  lemma OneMoreStep(w: World, wk: World, k: nat, next: World, op: Operation, call: Call)
    requires CallsSteps(w, wk, k) && next.calls == wk.calls + [call] && call.op == op && StepNumber(op) == k
    ensures CallsSteps(w, next, k + 1)
  {
    assert forall i :: 0 <= i < |wk.calls| ==> next.calls[i] == wk.calls[i];
  }

  lemma {:induction false} WorkingSteps(script: nat -> Answer, w: World, k: nat) returns (wk: World)
    requires w.handed == OWNS_NOTHING && k <= STEPS && StepsWork(script, w.answered, k)
    ensures Reached(script, w, wk, k)
    ensures Prepare(script, w) == PrepareFrom(script, wk, wk.handed, k, w.now + TRANSACTION_LIMIT)
  {
    if k == 0 {
      wk := w;
    } else {
      var before := WorkingSteps(script, w, k - 1);
      assert StepWorks(script, w.answered, k - 1);
      wk := WorkingStep(script, w, before, k - 1);
    }
  }

  lemma WorkingStep(script: nat -> Answer, w: World, wk: World, k: nat) returns (next: World)
    requires k < STEPS && Reached(script, w, wk, k) && StepWorks(script, w.answered, k)
    ensures Reached(script, w, next, k + 1)
    ensures PrepareFrom(script, wk, wk.handed, k, w.now + TRANSACTION_LIMIT)
            == PrepareFrom(script, next, next.handed, k + 1, w.now + TRANSACTION_LIMIT)
  {
    next := AnsweredStep(script, w, wk, k);
    hide Elapsed, CallsSteps;
  }

  /** A step that begins in time makes its call, and the root it reports takes its place. */
  lemma AnsweredStep(script: nat -> Answer, w: World, wk: World, k: nat) returns (next: World)
    requires k < STEPS && Reached(script, w, wk, k) && Elapsed(script, w.answered, k) < TRANSACTION_LIMIT
    ensures Reached(script, w, next, k + 1) && next == StepOf(script, wk, wk.handed, k, w.now + TRANSACTION_LIMIT).0
    ensures next.handed == StepOf(script, wk, wk.handed, k, w.now + TRANSACTION_LIMIT).1
  {
    hide Elapsed, CallsSteps;
    ElapsedOne(script, w.answered, k);
    var limit := w.now + TRANSACTION_LIMIT;
    next := StepOf(script, wk, wk.handed, k, limit).0;
    var op := OperationOf(k, wk.handed);
    OneMoreStep(w, wk, k, next, op, Call(op, wk.now, Least(wk.now + OPERATION_LIMIT, limit), wk.handed));
  }

  /** When every step begins in time and works, the preparation succeeds: one call for each step, and the owner holds
      the namespace of the second answer, the placed pair of the fourth and the connectivity of the last. */
  lemma WorkingPreparation(script: nat -> Answer, w: World)
    requires w.handed == OWNS_NOTHING && StepsWork(script, w.answered, STEPS)
    ensures var (w', result) := Prepare(script, w);
            var n := w.answered;
            && result == Prepared(Owner(script(n + 1).root, script(n + 3).root, script(n + 10).root))
            && w'.now == w.now + Elapsed(script, n, STEPS) && CallsSteps(w, w', STEPS)
  {
    var wk := WorkingSteps(script, w, STEPS);
    hide Elapsed, Prepare;
  }

  /** Otherwise the first step that is late or does not work is the one reported, with its stage and with the time, the
      adapter's cause or the missing proof as the cause; and what the answers so far reported is rolled back. */
  lemma FirstFailureIsReported(script: nat -> Answer, w: World, k: nat) returns (began: World)
    requires w.handed == OWNS_NOTHING && k < STEPS
    requires StepsWork(script, w.answered, k) && !StepWorks(script, w.answered, k)
    ensures var (w', result) := Prepare(script, w);
            var n := w.answered;
            var late := Elapsed(script, n, k) >= TRANSACTION_LIMIT;
            var answer := AnswerAt(script, n, k);
            && result.PreparationFailure?
            && result.primary == Failure(STAGES[k], if late then Timeout
                                                    else if answer.succeeded then IdentityUnavailable else answer.cause)
            && Reached(script, w, began, if late then k else k + 1)
            && result.rollback == ResultOf(CleanUp(script, began, began.handed, true))
            && w' == CleanUp(script, began, began.handed, true).world
  {
    hide Elapsed, Prepare, CleanUp, ResultOf, Reached, StepsWork, StepOf;
    var wk := WorkingSteps(script, w, k);
    var failure;
    began, failure := FailingStep(script, w, wk, k);
  }

  lemma FailingStep(script: nat -> Answer, w: World, wk: World, k: nat) returns (began: World, failure: Failure)
    requires k < STEPS && Reached(script, w, wk, k) && !StepWorks(script, w.answered, k)
    ensures var late := Elapsed(script, w.answered, k) >= TRANSACTION_LIMIT;
            var answer := AnswerAt(script, w.answered, k);
            && failure == Failure(STAGES[k], if late then Timeout
                                             else if answer.succeeded then IdentityUnavailable else answer.cause)
            && Reached(script, w, began, if late then k else k + 1)
            && StepOf(script, wk, wk.handed, k, w.now + TRANSACTION_LIMIT) == (began, began.handed, Some(failure))
  {
    hide Elapsed, CallsSteps;
    var (after, owner, failed) := StepOf(script, wk, wk.handed, k, w.now + TRANSACTION_LIMIT);
    began := after;
    if Elapsed(script, w.answered, k) < TRANSACTION_LIMIT {
      var next := AnsweredStep(script, w, wk, k);
    }
    failure := failed.value;
  }
}
