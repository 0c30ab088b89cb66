/** The Network Environment transaction: preparing three roots in eleven steps, rolling back on failure, and cleaning
    up with retries. The adapter is an arbitrary script; time passes only inside its calls. */
module NetworkTransaction {
  import opened Wrappers

  /** Nanoseconds of the monotonic clock. */
  type Time = int

  const OPERATION_LIMIT: Time := 5_000_000_000
  const TRANSACTION_LIMIT: Time := 30_000_000_000

  datatype Stage =
    | Preflight | NamespaceCreation | VethCreation | HostConfiguration | NamespaceConfiguration
    | RouteConfiguration | InternetConnectivity | Cleanup

  datatype Cause =
    | Collision | UnavailableOrInvalidTool | SystemFailure | CommandExit | CommandSignal | Timeout
    | IdentityUnavailable | IdentityMismatch | IncompleteCleanup | UnsupportedHostConfiguration
    | ConsentDeclined | ConsentTimeout | ConsentUnavailable

  datatype Failure = Failure(stage: Stage, cause: Cause)

  /** Device and inode of the namespace file. */
  type NamespaceIdentity = nat

  datatype LinkIdentity = LinkIdentity(index: nat, peerIndex: nat, peerNamespace: Option<int>)

  /** The two ends of the veth pair. */
  datatype VethIdentity = VethIdentity(host: LinkIdentity, session: LinkIdentity)

  datatype Proof = NamespaceProof(namespaceFile: NamespaceIdentity) | VethProof(pair: VethIdentity) | ConnectivityProof

  /** What the owner has of a root: nothing, a proof of identity that can be used once, or a root that may exist but
      cannot be told from a foreign one. A veth proof says whether the peer was placed in the namespace. */
  datatype Root = Absent | Proven(proof: Proof, placed: bool) | Unconfirmed

  datatype Owner = Owner(namespaceRoot: Root, veth: Root, connectivity: Root) {
    predicate Empty() {
      namespaceRoot.Absent? && veth.Absent? && connectivity.Absent?
    }
  }

  const OWNS_NOTHING := Owner(Absent, Absent, Absent)

  datatype RootName = NamespaceRoot | VethRoot | ConnectivityRoot

  /** Calls of the adapter with the proofs they are given. */
  datatype Operation =
    | CheckHost
    | CreateNamespace
    | CreateVeth
    | MovePeer(intoNamespace: Root, moved: Root)
    | Configure(step: nat, usedNamespace: Root, usedVeth: Root)
    | ConfigureConnectivity
    | RemoveConnectivity(removed: Root)
    | RemoveVeth(removed: Root, besideNamespace: Option<Root>)
    | RemoveNamespace(removed: Root)

  predicate Removes(op: Operation) {
    op.RemoveConnectivity? || op.RemoveVeth? || op.RemoveNamespace?
  }

  /** The root whose new state an operation reports. */
  function RootOf(op: Operation): Option<RootName> {
    match op
    case CreateNamespace => Some(NamespaceRoot)
    case RemoveNamespace(_) => Some(NamespaceRoot)
    case CreateVeth => Some(VethRoot)
    case MovePeer(_, _) => Some(VethRoot)
    case RemoveVeth(_, _) => Some(VethRoot)
    case ConfigureConnectivity => Some(ConnectivityRoot)
    case RemoveConnectivity(_) => Some(ConnectivityRoot)
    case _ => None
  }

  function Get(o: Owner, name: RootName): Root {
    match name
    case NamespaceRoot => o.namespaceRoot
    case VethRoot => o.veth
    case ConnectivityRoot => o.connectivity
  }

  function Set(o: Owner, name: RootName, root: Root): Owner {
    match name
    case NamespaceRoot => o.(namespaceRoot := root)
    case VethRoot => o.(veth := root)
    case ConnectivityRoot => o.(connectivity := root)
  }

  function Update(o: Owner, name: Option<RootName>, root: Root): Owner {
    if name.None? then o else Set(o, name.value, root)
  }

  /** Whether an operation presents only proofs as they were last handed out, and creates a root only where there is
      none: each proof is used by exactly one holder. */
  predicate Authorized(op: Operation, handed: Owner) {
    match op
    case CheckHost => true
    case CreateNamespace => handed.namespaceRoot.Absent?
    case CreateVeth => handed.veth.Absent?
    case MovePeer(n, v) => n == handed.namespaceRoot && v == handed.veth && n.Proven? && v.Proven? && !v.placed
    case Configure(_, n, v) => n == handed.namespaceRoot && v == handed.veth && n.Proven? && v.Proven? && v.placed
    case ConfigureConnectivity => handed.connectivity.Absent?
    case RemoveConnectivity(c) => c == handed.connectivity && c.Proven?
    case RemoveVeth(v, n) =>
      v == handed.veth && v.Proven? && n == (if handed.namespaceRoot.Proven? then Some(handed.namespaceRoot) else None)
    case RemoveNamespace(n) => n == handed.namespaceRoot && n.Proven?
  }

  /** What one call of the adapter does: time passes, and for an operation on a root the root has a new state. */
  datatype Answer = Answer(elapsed: nat, succeeded: bool, root: Root, cause: Cause)

  /** A call made, and the roots as they were handed out before it. */
  datatype Call = Call(op: Operation, at: Time, deadline: Time, held: Owner) {
    predicate Proper() {
      Authorized(op, held)
    }
  }

  /** The clock, how many calls were answered, the roots as the adapter last reported them, and the calls made. */
  datatype World = World(now: Time, answered: nat, handed: Owner, calls: seq<Call>)

  function Least(a: Time, b: Time): Time {
    if a <= b then a else b
  }

  /** One call, with the deadline of `operation_deadline`. */
  function Ask(script: nat -> Answer, w: World, op: Operation, limit: Time): (World, Answer) {
    var a := script(w.answered);
    (World(w.now + a.elapsed, w.answered + 1, Update(w.handed, RootOf(op), a.root),
           w.calls + [Call(op, w.now, Least(w.now + OPERATION_LIMIT, limit), w.handed)]),
     a)
  }

  // ----- Cleanup -----

  /** Where a cleanup is: the world, the roots still owned, and the failures recorded. */
  datatype Cleaning = Cleaning(world: World, owner: Owner, failures: seq<Failure>) {
    function Fail(cause: Cause): Cleaning {
      this.(failures := failures + [Failure(Cleanup, cause)])
    }
  }

  function RemovalOf(o: Owner, name: RootName): Operation {
    match name
    case ConnectivityRoot => RemoveConnectivity(o.connectivity)
    case VethRoot => RemoveVeth(o.veth, if o.namespaceRoot.Proven? then Some(o.namespaceRoot) else None)
    case NamespaceRoot => RemoveNamespace(o.namespaceRoot)
  }

  /** One removal, if the root is proven and the transaction has time left. */
  function Remove(script: nat -> Answer, c: Cleaning, name: RootName, limit: Time): Cleaning {
    if !Get(c.owner, name).Proven? then c
    else if c.world.now >= limit then c.Fail(Timeout)
    else
      var (w, a) := Ask(script, c.world, RemovalOf(c.owner, name), limit);
      var r := Cleaning(w, Set(c.owner, name, a.root), c.failures);
      if a.root.Absent? then r else r.Fail(a.cause)
  }

  function StartCleaning(w: World, o: Owner): Cleaning {
    Cleaning(w, o, [])
  }

  predicate AnyUnconfirmed(o: Owner) {
    o.namespaceRoot.Unconfirmed? || o.veth.Unconfirmed? || o.connectivity.Unconfirmed?
  }

  /** The namespace, and the veth once more if the namespace is now gone. */
  function RemoveNamespaceAndRest(script: nat -> Answer, c: Cleaning, limit: Time): Cleaning {
    var d := Remove(script, c, NamespaceRoot, limit);
    if c.owner.namespaceRoot.Proven? && d.owner.namespaceRoot.Absent? then Remove(script, d, VethRoot, limit) else d
  }

  function RemoveConnectivityAndVeth(script: nat -> Answer, c: Cleaning, limit: Time): Cleaning {
    Remove(script, Remove(script, c, ConnectivityRoot, limit), VethRoot, limit)
  }

  function Finish(c: Cleaning, incomplete: bool): Cleaning {
    if incomplete then c.Fail(IncompleteCleanup) else c
  }

  /** `cleanup_state`: connectivity, veth, namespace, and perhaps the veth again. */
  function CleanUp(script: nat -> Answer, w: World, o: Owner, returnResidual: bool): Cleaning {
    var limit := w.now + TRANSACTION_LIMIT;
    var c := RemoveConnectivityAndVeth(script, StartCleaning(w, o), limit);
    Finish(RemoveNamespaceAndRest(script, c, limit), returnResidual && AnyUnconfirmed(o))
  }

  /** The result a caller sees: the failures and what is left to retry. */
  datatype CleanupResult = CleanupResult(failures: seq<Failure>, residual: Option<Owner>)

  function ResultOf(c: Cleaning): CleanupResult {
    CleanupResult(c.failures, if c.owner.Empty() then None else Some(c.owner))
  }

  // ----- Preparation -----

  datatype Preparation =
    | Prepared(owner: Owner)
    | PreparationFailure(primary: Failure, rollback: CleanupResult)

  const STEPS: nat := 11

  /** The stage of each step. */
  function StageOf(k: nat): Stage {
    if k == 0 then Preflight
    else if k == 1 then NamespaceCreation
    else if k <= 3 then VethCreation
    else if k <= 5 then HostConfiguration
    else if k <= 8 then NamespaceConfiguration
    else if k == 9 then RouteConfiguration
    else InternetConnectivity
  }

  function OperationOf(k: nat, o: Owner): Operation {
    if k == 0 then CheckHost
    else if k == 1 then CreateNamespace
    else if k == 2 then CreateVeth
    else if k == 3 then MovePeer(o.namespaceRoot, o.veth)
    else if k <= 9 then Configure(k, o.namespaceRoot, o.veth)
    else ConfigureConnectivity
  }

  /** Whether a step that succeeded delivered the proof it must deliver. */
  predicate Delivered(k: nat, o: Owner) {
    match k
    case 1 => o.namespaceRoot.Proven?
    case 2 => o.veth.Proven? && !o.veth.placed
    case 3 => o.veth.Proven? && o.veth.placed
    case 10 => o.connectivity.Proven?
    case _ => true
  }

  /** `preparation_failure`: roll everything back, with a budget of its own. */
  function RollBack(script: nat -> Answer, w: World, o: Owner, primary: Failure): (World, Preparation) {
    var c := CleanUp(script, w, o, true);
    (c.world, PreparationFailure(primary, ResultOf(c)))
  }

  /** One step: the world and the roots after it, and the failure if there is one. */
  function StepOf(script: nat -> Answer, w: World, o: Owner, k: nat, limit: Time): (World, Owner, Option<Failure>) {
    if w.now >= limit then (w, o, Some(Failure(StageOf(k), Timeout)))
    else
      var (w1, a) := Ask(script, w, OperationOf(k, o), limit);
      var o1 := Update(o, RootOf(OperationOf(k, o)), a.root);
      (w1, o1, if !a.succeeded then Some(Failure(StageOf(k), a.cause))
               else if !Delivered(k, o1) then Some(Failure(StageOf(k), IdentityUnavailable))
               else None)
  }

  /** The steps from the k-th on; the first failure is rolled back. */
  function PrepareFrom(script: nat -> Answer, w: World, o: Owner, k: nat, limit: Time): (World, Preparation)
    decreases STEPS - k, w
  {
    if k >= STEPS then (w, Prepared(o))
    else
      var (w1, o1, failure) := StepOf(script, w, o, k, limit);
      if failure.Some? then RollBack(script, w1, o1, failure.value) else PrepareFrom(script, w1, o1, k + 1, limit)
  }

  /** `prepare_network_environment`. */
  function Prepare(script: nat -> Answer, w: World): (World, Preparation) {
    PrepareFrom(script, w, OWNS_NOTHING, 0, w.now + TRANSACTION_LIMIT)
  }

  // ----- The objects -----

  /** The adapter behind its script. */
  class Adapter {
    const script: nat -> Answer
    var now: Time
    var answered: nat
    ghost var handed: Owner
    ghost var calls: seq<Call>

    constructor (script: nat -> Answer, now: Time)
      ensures this.script == script && State() == World(now, 0, OWNS_NOTHING, [])
    {
      this.script := script;
      this.now, answered, handed, calls := now, 0, OWNS_NOTHING, [];
    }

    ghost function State(): World
      reads this
    {
      World(now, answered, handed, calls)
    }

    method Perform(op: Operation, deadline: Time) returns (a: Answer)
      modifies this
      ensures a == script(old(answered)) && answered == old(answered) + 1 && now == old(now) + a.elapsed
      ensures handed == Update(old(handed), RootOf(op), a.root)
      ensures calls == old(calls) + [Call(op, old(now), deadline, old(handed))]
    {
      a := script(answered);
      calls := calls + [Call(op, now, deadline, handed)];
      handed := Update(handed, RootOf(op), a.root);
      now, answered := now + a.elapsed, answered + 1;
    }
  }

  /** `operation_deadline`. */
  method OperationDeadline(now: Time, limit: Time) returns (deadline: Time)
    ensures deadline == Least(now + OPERATION_LIMIT, limit)
  {
    deadline := if now + OPERATION_LIMIT < limit then now + OPERATION_LIMIT else limit;
  }

  class OwnerState {
    var namespaceRoot: Root
    var veth: Root
    var connectivity: Root

    constructor ()
      ensures Value() == OWNS_NOTHING
    {
      namespaceRoot, veth, connectivity := Absent, Absent, Absent;
    }

    function Value(): Owner
      reads this
    {
      Owner(namespaceRoot, veth, connectivity)
    }
  }

  /** A removal inside `cleanup_state`: the proof leaves the owner for the call, and the reported state takes its
      place. */
  method RemoveRoot(state: OwnerState, adapter: Adapter, name: RootName, limit: Time, ghost before: seq<Failure>)
      returns (failures: seq<Failure>)
    requires Get(state.Value(), name).Proven?
    modifies state, adapter
    ensures Cleaning(adapter.State(), state.Value(), before + failures)
            == Remove(adapter.script, old(Cleaning(adapter.State(), state.Value(), before)), name, limit)
  {
    failures := [];
    if adapter.now >= limit {
      return [Failure(Cleanup, Timeout)];
    }
    var op := RemovalOf(state.Value(), name);
    var deadline := OperationDeadline(adapter.now, limit);
    match name {
      case ConnectivityRoot => state.connectivity := Absent;
      case VethRoot => state.veth := Absent;
      case NamespaceRoot => state.namespaceRoot := Absent;
    }
    var a := adapter.Perform(op, deadline);
    match name {
      case ConnectivityRoot => state.connectivity := a.root;
      case VethRoot => state.veth := a.root;
      case NamespaceRoot => state.namespaceRoot := a.root;
    }
    if !a.root.Absent? {
      failures := [Failure(Cleanup, a.cause)];
    } else {
      assert before + [] == before;
    }
  }

  method CleanupState(state: OwnerState, adapter: Adapter, returnResidual: bool)
      returns (failures: seq<Failure>, residual: bool)
    modifies state, adapter
    ensures Cleaning(adapter.State(), state.Value(), failures)
            == CleanUp(adapter.script, old(adapter.State()), old(state.Value()), returnResidual)
    ensures residual == (returnResidual && !state.Value().Empty())
  {
    failures := [];
    var beganUnconfirmed := AnyUnconfirmed(state.Value());
    var limit := adapter.now + TRANSACTION_LIMIT;
    if state.connectivity.Proven? {
      failures := RemoveRoot(state, adapter, ConnectivityRoot, limit, []);
      assert [] + failures == failures;
    }
    if state.veth.Proven? {
      var more := RemoveRoot(state, adapter, VethRoot, limit, failures);
      failures := failures + more;
    }
    var namespaceRemoved := false;
    if state.namespaceRoot.Proven? {
      var more := RemoveRoot(state, adapter, NamespaceRoot, limit, failures);
      failures := failures + more;
      namespaceRemoved := state.namespaceRoot.Absent?;
    }
    if namespaceRemoved && state.veth.Proven? {
      var more := RemoveRoot(state, adapter, VethRoot, limit, failures);
      failures := failures + more;
    }
    if returnResidual && beganUnconfirmed {
      failures := failures + [Failure(Cleanup, IncompleteCleanup)];
    }
    residual := returnResidual && !state.Value().Empty();
  }

  method FailPreparation(state: OwnerState, adapter: Adapter, primary: Failure) returns (result: Preparation)
    modifies state, adapter
    ensures (adapter.State(), result)
            == RollBack(adapter.script, old(adapter.State()), old(state.Value()), primary)
  {
    var failures, residual := CleanupState(state, adapter, true);
    result := PreparationFailure(primary, CleanupResult(failures, if residual then Some(state.Value()) else None));
  }

  method RunStep(state: OwnerState, adapter: Adapter, k: nat, limit: Time) returns (failure: Option<Failure>)
    modifies state, adapter
    ensures (adapter.State(), state.Value(), failure)
            == StepOf(adapter.script, old(adapter.State()), old(state.Value()), k, limit)
  {
    if adapter.now >= limit {
      return Some(Failure(StageOf(k), Timeout));
    }
    var op := OperationOf(k, state.Value());
    var deadline := OperationDeadline(adapter.now, limit);
    if op.MovePeer? {
      state.veth := Absent;
    }
    var a := adapter.Perform(op, deadline);
    match RootOf(op) {
      case None =>
      case Some(NamespaceRoot) => state.namespaceRoot := a.root;
      case Some(VethRoot) => state.veth := a.root;
      case Some(ConnectivityRoot) => state.connectivity := a.root;
    }
    if !a.succeeded {
      return Some(Failure(StageOf(k), a.cause));
    }
    if !Delivered(k, state.Value()) {
      return Some(Failure(StageOf(k), IdentityUnavailable));
    }
    return None;
  }

  /** A step with the rollback of its failure. */
  method RunOrFail(state: OwnerState, adapter: Adapter, k: nat, limit: Time, ghost whole: (World, Preparation))
      returns (failed: Option<Preparation>)
    requires k < STEPS && whole == PrepareFrom(adapter.script, adapter.State(), state.Value(), k, limit)
    modifies state, adapter
    ensures failed.Some? ==> whole == (adapter.State(), failed.value) && failed.value.PreparationFailure?
    ensures failed.None? ==> whole == PrepareFrom(adapter.script, adapter.State(), state.Value(), k + 1, limit)
  {
    var failure := RunStep(state, adapter, k, limit);
    if failure.Some? {
      var result := FailPreparation(state, adapter, failure.value);
      return Some(result);
    }
    return None;
  }

  /** The steps from the k-th on, each with the rollback of its failure. */
  method RunRemaining(state: OwnerState, adapter: Adapter, k: nat, limit: Time, ghost whole: (World, Preparation))
      returns (failed: Option<Preparation>)
    requires k <= STEPS && whole == PrepareFrom(adapter.script, adapter.State(), state.Value(), k, limit)
    modifies state, adapter
    ensures whole == (adapter.State(), if failed.Some? then failed.value else Prepared(state.Value()))
    ensures failed.Some? ==> failed.value.PreparationFailure?
    decreases STEPS - k
  {
    failed := None;
    if k < STEPS {
      failed := RunOrFail(state, adapter, k, limit, whole);
      if failed.None? {
        failed := RunRemaining(state, adapter, k + 1, limit, whole);
      }
    }
  }

  /** `prepare_network_environment`, step by step on the owner's fields. */
  method PrepareNetworkEnvironment(state: OwnerState, adapter: Adapter) returns (result: Preparation)
    requires state.Value() == OWNS_NOTHING
    modifies state, adapter
    ensures (adapter.State(), result) == Prepare(adapter.script, old(adapter.State()))
    ensures result.Prepared? ==> result.owner == state.Value()
  {
    var limit := adapter.now + TRANSACTION_LIMIT;
    var failed := RunRemaining(state, adapter, 0, limit, Prepare(adapter.script, adapter.State()));
    result := if failed.Some? then failed.value else Prepared(state.Value());
  }

  // ----- What every cleanup keeps -----

  /** A call inside a transaction that began at `start`: it begins strictly before the transaction's deadline, and its
      own deadline is after now, at most five seconds ahead and at most thirty seconds after the start. */
  predicate Timely(call: Call, start: Time) {
    && start <= call.at < start + TRANSACTION_LIMIT
    && call.at < call.deadline <= call.at + OPERATION_LIMIT
    && call.deadline <= start + TRANSACTION_LIMIT
    && (call.deadline == call.at + OPERATION_LIMIT || call.deadline == start + TRANSACTION_LIMIT)
  }

  /** A cleanup's call on a root that was proven when the cleanup began. */
  predicate Removal(call: Call, start: Time, o: Owner) {
    && Timely(call, start) && call.Proper() && Removes(call.op)
    && RootOf(call.op).Some? && Get(o, RootOf(call.op).value).Proven?
  }

  /** What removing roots in one transaction keeps: the owner holds exactly what the adapter last handed out; only
      proven roots change, and every call is the removal of one; a root left over is recorded. */
  predicate Cleans(w: World, o: Owner, c: Cleaning, most: nat) {
    && c.world.handed == c.owner && c.world.now >= w.now
    && w.calls <= c.world.calls && |c.world.calls| <= |w.calls| + most
    && (forall i :: |w.calls| <= i < |c.world.calls| ==> Removal(c.world.calls[i], w.now, o))
    && (forall name :: !Get(o, name).Proven? ==> Get(c.owner, name) == Get(o, name))
  }

  /** What one removal adds. */
  predicate Removed(w: World, o: Owner, c: Cleaning, d: Cleaning, name: RootName, most: nat) {
    && Cleans(w, o, d, most)
    && c.failures <= d.failures
    && (forall other :: other != name ==> Get(d.owner, other) == Get(c.owner, other))
    && (Get(c.owner, name).Proven? && !Get(d.owner, name).Absent? ==> d.failures != [])
    && (!Get(c.owner, name).Proven? ==> d == c)
  }

  lemma RemoveKeeps(script: nat -> Answer, w: World, o: Owner, c: Cleaning, name: RootName, most: nat)
    requires Cleans(w, o, c, most)
    ensures Removed(w, o, c, Remove(script, c, name, w.now + TRANSACTION_LIMIT), name, most + 1)
  {
    var limit := w.now + TRANSACTION_LIMIT;
    var d := Remove(script, c, name, limit);
    if Get(c.owner, name).Proven? && c.world.now < limit {
      var call := Call(RemovalOf(c.owner, name), c.world.now, Least(c.world.now + OPERATION_LIMIT, limit),
                       c.world.handed);
      assert d.world.calls == c.world.calls + [call];
      assert Removal(call, w.now, o);
      assert w.calls <= d.world.calls;
    }
  }

  predicate CleansUp(w: World, o: Owner, c: Cleaning, returnResidual: bool) {
    && Cleans(w, o, c, 4)
    && (returnResidual && !c.owner.Empty() ==> c.failures != [])
    && (returnResidual && AnyUnconfirmed(o) ==> Failure(Cleanup, IncompleteCleanup) in c.failures)
    && (o.Empty() ==> c == StartCleaning(w, o))
  }

  /** After connectivity and veth. */
  predicate HalfClean(w: World, o: Owner, c: Cleaning) {
    && Cleans(w, o, c, 2)
    && c.owner.namespaceRoot == o.namespaceRoot
    && (!c.owner.connectivity.Absent? || !c.owner.veth.Absent? ==> c.failures != [] || AnyUnconfirmed(o))
    && (o.Empty() ==> c == StartCleaning(w, o))
  }

  lemma FirstHalf(script: nat -> Answer, w: World, o: Owner)
    requires w.handed == o
    ensures HalfClean(w, o, RemoveConnectivityAndVeth(script, StartCleaning(w, o), w.now + TRANSACTION_LIMIT))
  {
    var c0 := StartCleaning(w, o);
    RemoveKeeps(script, w, o, c0, ConnectivityRoot, 0);
    var c1 := Remove(script, c0, ConnectivityRoot, w.now + TRANSACTION_LIMIT);
    RemoveKeeps(script, w, o, c1, VethRoot, 1);
    HalfCleanFrom(w, o, c1, Remove(script, c1, VethRoot, w.now + TRANSACTION_LIMIT));
  }

  lemma HalfCleanFrom(w: World, o: Owner, c1: Cleaning, c2: Cleaning)
    requires w.handed == o
    requires Removed(w, o, StartCleaning(w, o), c1, ConnectivityRoot, 1) && Removed(w, o, c1, c2, VethRoot, 2)
    ensures HalfClean(w, o, c2)
  {
    assert Get(c1.owner, VethRoot) == o.veth && Get(c1.owner, NamespaceRoot) == o.namespaceRoot;
    assert Get(c2.owner, NamespaceRoot) == o.namespaceRoot && Get(c2.owner, ConnectivityRoot) == c1.owner.connectivity;
    assert Get(o, ConnectivityRoot) == o.connectivity;
  }

  lemma CleansUpFrom(w: World, o: Owner, c2: Cleaning, c3: Cleaning, c4: Cleaning, returnResidual: bool)
    requires HalfClean(w, o, c2) && Removed(w, o, c2, c3, NamespaceRoot, 3)
    requires c4 == c3 || Removed(w, o, c3, c4, VethRoot, 4)
    ensures CleansUp(w, o, Finish(c4, returnResidual && AnyUnconfirmed(o)), returnResidual)
  {
    assert Get(c3.owner, VethRoot) == c2.owner.veth && Get(c3.owner, ConnectivityRoot) == c2.owner.connectivity;
    if c4 != c3 {
      assert Get(c4.owner, ConnectivityRoot) == c2.owner.connectivity;
      assert Get(c4.owner, NamespaceRoot) == c3.owner.namespaceRoot;
    }
    assert Get(c2.owner, NamespaceRoot) == o.namespaceRoot && Get(c3.owner, NamespaceRoot) == c3.owner.namespaceRoot;
  }

  lemma SecondHalf(script: nat -> Answer, w: World, o: Owner, c: Cleaning, returnResidual: bool)
    requires HalfClean(w, o, c)
    ensures var d := RemoveNamespaceAndRest(script, c, w.now + TRANSACTION_LIMIT);
            CleansUp(w, o, Finish(d, returnResidual && AnyUnconfirmed(o)), returnResidual)
  {
    var limit := w.now + TRANSACTION_LIMIT;
    var d := Remove(script, c, NamespaceRoot, limit);
    RemoveKeeps(script, w, o, c, NamespaceRoot, 2);
    RemoveKeeps(script, w, o, d, VethRoot, 3);
    CleansUpFrom(w, o, c, d, RemoveNamespaceAndRest(script, c, limit), returnResidual);
  }

  lemma CleanUpKeeps(script: nat -> Answer, w: World, o: Owner, returnResidual: bool)
    requires w.handed == o
    ensures CleansUp(w, o, CleanUp(script, w, o, returnResidual), returnResidual)
  {
    FirstHalf(script, w, o);
    var c := RemoveConnectivityAndVeth(script, StartCleaning(w, o), w.now + TRANSACTION_LIMIT);
    SecondHalf(script, w, o, c, returnResidual);
    var d := RemoveNamespaceAndRest(script, c, w.now + TRANSACTION_LIMIT);
    assert CleanUp(script, w, o, returnResidual) == Finish(d, returnResidual && AnyUnconfirmed(o));
  }

  /** A cleanup, for every behaviour of the adapter: at most four calls, each a timely removal of a root that was
      proven, presenting the proof last handed out; an unconfirmed root causes no call and stays unconfirmed; there is
      a residual exactly when the adapter has not confirmed every root to be gone, it holds exactly what is left, and
      it never comes without a failure. */
  lemma CleanupConserves(script: nat -> Answer, w: World, o: Owner)
    requires w.handed == o
    ensures var c := CleanUp(script, w, o, true);
            var result := ResultOf(c);
            && w.calls <= c.world.calls && |c.world.calls| <= |w.calls| + 4
            && (forall i :: |w.calls| <= i < |c.world.calls| ==> Removal(c.world.calls[i], w.now, o))
            && (forall name :: Get(o, name).Unconfirmed? ==> Get(c.owner, name).Unconfirmed?)
            && (forall name :: Get(o, name).Absent? ==> Get(c.owner, name).Absent?)
            && (result.residual.None? <==> c.world.handed.Empty())
            && (result.residual.Some? ==> result.residual.value == c.world.handed && result.failures != [])
            && (result.failures == [] ==> c.world.handed.Empty() && !AnyUnconfirmed(o))
  {
    CleanUpKeeps(script, w, o, true);
  }

  // ----- Retries -----

  /** Any number of retries of what is left, each with a fresh budget. */
  function Retry(script: nat -> Answer, w: World, o: Owner, times: nat): (World, Owner)
    decreases times, w
  {
    if times == 0 || o.Empty() then (w, o)
    else
      var c := CleanUp(script, w, o, true);
      Retry(script, c.world, c.owner, times - 1)
  }

  /** However often it is retried, a root whose identity is unconfirmed is never removed and stays, and nothing else is
      called than the removal of what is proven. */
  lemma {:induction false} RetriesSpareUnconfirmed(script: nat -> Answer, w: World, o: Owner, name: RootName, times: nat)
    requires w.handed == o && Get(o, name).Unconfirmed?
    ensures var (w', o') := Retry(script, w, o, times);
            && Get(o', name).Unconfirmed? && w'.handed == o'
            && w.calls <= w'.calls && |w'.calls| <= |w.calls| + 4 * times
            && forall i :: |w.calls| <= i < |w'.calls| ==>
                 w'.calls[i].Proper() && Removes(w'.calls[i].op) && RootOf(w'.calls[i].op) != Some(name)
    decreases times
  {
    if times > 0 && !o.Empty() {
      CleanUpKeeps(script, w, o, true);
      var c := CleanUp(script, w, o, true);
      RetriesSpareUnconfirmed(script, c.world, c.owner, name, times - 1);
    }
  }

  // ----- What every preparation keeps -----

  /** What the owner holds before each step. */
  predicate Ready(k: nat, o: Owner) {
    && (if k <= 1 then o.namespaceRoot.Absent? else o.namespaceRoot.Proven?)
    && (if k <= 2 then o.veth.Absent? else o.veth.Proven? && o.veth.placed == (k > 3))
    && (if k <= 10 then o.connectivity.Absent? else o.connectivity.Proven?)
  }

  /** A call of the setup: timely within the setup's budget, authorized, and not a removal. */
  predicate SetupCall(call: Call, start: Time) {
    Timely(call, start) && call.Proper() && !Removes(call.op)
  }

  /** Which step an operation of the setup belongs to. */
  function StepNumber(op: Operation): nat {
    match op
    case CheckHost => 0
    case CreateNamespace => 1
    case CreateVeth => 2
    case MovePeer(_, _) => 3
    case Configure(step, _, _) => step
    case ConfigureConnectivity => 10
    case _ => STEPS
  }

  /** The calls between two worlds. */
  predicate AllSetup(calls: seq<Call>, from: nat, to: nat, start: Time)
    requires to <= |calls|
  {
    forall i :: from <= i < to ==> SetupCall(calls[i], start)
  }

  /** What a preparation leaves, when the rollback, if any, began at `began` with the calls up to `split` made. */
  predicate Prepares(w: World, w': World, result: Preparation, k: nat, start: Time, split: nat, began: World) {
    && w.calls <= w'.calls && |w.calls| <= split <= |w'.calls| && AllSetup(w'.calls, |w.calls|, split, start)
    && match result
       case Prepared(owner) =>
         && split == |w'.calls| && w'.handed == owner && Ready(STEPS, owner) && |w'.calls| == |w.calls| + (STEPS - k)
         && (forall i :: |w.calls| <= i < |w'.calls| ==> StepNumber(w'.calls[i].op) == k + (i - |w.calls|))
       case PreparationFailure(primary, rollback) =>
         && |began.calls| == split && began.now >= w.now && |w'.calls| <= split + 4
         && (forall i :: split <= i < |w'.calls| ==> Removal(w'.calls[i], began.now, began.handed))
         && (rollback.residual.None? <==> w'.handed.Empty())
         && (rollback.residual.Some? ==> rollback.residual.value == w'.handed && rollback.failures != [])
         && (forall name :: Get(began.handed, name).Unconfirmed? ==> Get(w'.handed, name).Unconfirmed?)
         && !primary.stage.Cleanup?
  }

  /** What one step adds to the calls. */
  predicate Stepped(w: World, w1: World, k: nat, start: Time) {
    && w1.now >= w.now
    && (|| w1.calls == w.calls
        || (&& |w1.calls| == |w.calls| + 1 && w.calls <= w1.calls
            && SetupCall(w1.calls[|w.calls|], start) && StepNumber(w1.calls[|w.calls|].op) == k))
  }

  lemma StepKeeps(script: nat -> Answer, w: World, o: Owner, k: nat, start: Time)
    requires w.handed == o && k < STEPS && Ready(k, o) && w.now >= start
    ensures var (w1, o1, failure) := StepOf(script, w, o, k, start + TRANSACTION_LIMIT);
            && w1.handed == o1 && Stepped(w, w1, k, start)
            && (failure.None? ==> Ready(k + 1, o1) && |w1.calls| == |w.calls| + 1)
            && (failure.Some? ==> failure.value.stage == StageOf(k))
  {
  }

  lemma RollBackKeeps(script: nat -> Answer, w: World, o: Owner, primary: Failure, k: nat, start: Time)
    requires w.handed == o && !primary.stage.Cleanup?
    ensures var (w', result) := RollBack(script, w, o, primary);
            Prepares(w, w', result, k, start, |w.calls|, w)
  {
    CleanupConserves(script, w, o);
    CleanUpKeeps(script, w, o, true);
  }

  lemma AfterStep(w: World, w1: World, w': World, result: Preparation, k: nat, start: Time, split: nat, began: World)
    requires Prepares(w1, w', result, k + 1, start, split, began) && k < STEPS && Stepped(w, w1, k, start)
    requires result.Prepared? ==> |w1.calls| == |w.calls| + 1
    ensures Prepares(w, w', result, k, start, split, began)
  {
    assert forall i :: 0 <= i < |w1.calls| ==> w'.calls[i] == w1.calls[i];
  }

  lemma {:induction false} PreparationKeeps(script: nat -> Answer, w: World, o: Owner, k: nat, start: Time)
      returns (split: nat, began: World)
    requires w.handed == o && k <= STEPS && Ready(k, o) && w.now >= start
    ensures var (w', result) := PrepareFrom(script, w, o, k, start + TRANSACTION_LIMIT);
            Prepares(w, w', result, k, start, split, began)
    decreases STEPS - k
  {
    split, began := |w.calls|, w;
    if k < STEPS {
      var limit := start + TRANSACTION_LIMIT;
      StepKeeps(script, w, o, k, start);
      var (w1, o1, failure) := StepOf(script, w, o, k, limit);
      if failure.Some? {
        RollBackKeeps(script, w1, o1, failure.value, k + 1, start);
        split, began := |w1.calls|, w1;
      } else {
        split, began := PreparationKeeps(script, w1, o1, k + 1, start);
      }
      var (w', result) := PrepareFrom(script, w, o, k, limit);
      AfterStep(w, w1, w', result, k, start, split, began);
    }
  }

  /** A preparation, for every behaviour of the adapter. If it succeeds, all eleven steps were called once each, in
      order and in time, and the owner holds the three proofs last handed out. If it fails, the calls are those of the
      setup followed by those of a rollback that has a budget of its own and removes only proven roots; there is a
      residual exactly when a root is not confirmed gone, it holds exactly what is left, and it never comes without a
      recorded failure. */
  lemma PreparedOrRolledBack(script: nat -> Answer, w: World) returns (split: nat, began: World)
    requires w.handed == OWNS_NOTHING && w.calls == []
    ensures var (w', result) := Prepare(script, w);
            && (result.Prepared? ==>
                  && result.owner == w'.handed && result.owner.namespaceRoot.Proven? && result.owner.connectivity.Proven?
                  && result.owner.veth.Proven? && result.owner.veth.placed
                  && |w'.calls| == STEPS
                  && forall i :: 0 <= i < STEPS ==> SetupCall(w'.calls[i], w.now) && StepNumber(w'.calls[i].op) == i)
            && (result.PreparationFailure? ==>
                  && split <= |w'.calls| <= split + 4
                  && (forall i :: 0 <= i < split ==> SetupCall(w'.calls[i], w.now))
                  && (forall i :: split <= i < |w'.calls| ==> Removal(w'.calls[i], began.now, began.handed))
                  && (result.rollback.residual.None? <==> w'.handed.Empty())
                  && (result.rollback.residual.Some? ==>
                        result.rollback.residual.value == w'.handed && result.rollback.failures != []))
  {
    split, began := PreparationKeeps(script, w, OWNS_NOTHING, 0, w.now);
  }
}
