/** Deletion authority over whole runs: the transaction with the production adapter behind it. Through preparation,
    rollback, cleanup and any number of retries, nothing is deleted but what the program made, and only right after it was
    seen again. */
module DeletionAuthority {
  import opened Wrappers
  import opened NetworkTransaction
  import opened OwnershipProofs

  // ----- The adapter's answers -----

  function NamespaceRootOf(held: Held<NamespaceIdentity>): Root {
    match held
    case NotThere => Absent
    case HeldProof(identity) => Proven(NamespaceProof(identity), false)
    case NotConfirmed => Unconfirmed
  }

  function VethRootOf(held: Held<VethIdentity>, placed: bool): Root {
    match held
    case NotThere => Absent
    case HeldProof(identity) => Proven(VethProof(identity), placed)
    case NotConfirmed => Unconfirmed
  }

  function MovedRootOf(proof: VethIdentity, moved: Moved): Root {
    match moved
    case MovedPair(identity) => Proven(VethProof(identity), true)
    case StillOnHost => Proven(VethProof(proof), false)
    case MovedNothing => Absent
    case MovedUnconfirmed => Unconfirmed
  }

  predicate IsNamespaceProof(r: Root) {
    r.Proven? && r.proof.NamespaceProof? && !r.placed
  }

  predicate IsVethProof(r: Root) {
    r.Proven? && r.proof.VethProof?
  }

  /** The other operations address, raise and route the links, and set up or take down connectivity: they delete neither
      the namespace nor the veth. */
  predicate DeletesNothing(acts: seq<Act>) {
    forall i :: 0 <= i < |acts| && acts[i].Ran? ==> !acts[i].command.DeleteNamespace? && !acts[i].command.DeleteVeth?
  }

  /** What the production adapter may do for an operation, and answer to it. */
  ghost predicate Performs(op: Operation, acts: seq<Act>, a: Answer) {
    match op
    case CreateNamespace => exists held :: CreatesNamespace(acts, held, a.succeeded) && a.root == NamespaceRootOf(held)
    case CreateVeth => exists held :: CreatesVeth(acts, held, a.succeeded) && a.root == VethRootOf(held, false)
    case MovePeer(_, veth) =>
      IsVethProof(veth) ==>
        exists moved :: MovesPeer(veth.proof.pair, acts, moved, a.succeeded)
                        && a.root == MovedRootOf(veth.proof.pair, moved)
    case RemoveNamespace(root) =>
      IsNamespaceProof(root) ==>
        exists held :: RemovesNamespace(root.proof.namespaceFile, acts, held) && a.root == NamespaceRootOf(held)
    case RemoveVeth(veth, beside) =>
      IsVethProof(veth) ==>
        exists held :: RemovesVeth(veth.proof.pair, veth.placed, beside.Some?, acts, held)
                       && a.root == VethRootOf(held, veth.placed)
    case _ => DeletesNothing(acts)
  }

  /** The production adapter on the platform: its methods behind the coordinator's operations. For operations that do not
      touch the identity of a root, `other` is the answer. */
  method PerformOperation(platform: Platform, op: Operation, other: Answer) returns (a: Answer, ghost acts: seq<Act>)
    requires match op
             case MovePeer(_, veth) => IsVethProof(veth)
             case RemoveNamespace(root) => IsNamespaceProof(root)
             case RemoveVeth(veth, _) => IsVethProof(veth)
             case _ => true
    modifies platform
    ensures platform.acts == old(platform.acts) + acts && Performs(op, acts, a)
  {
    ghost var before := platform.acts;
    a, acts := other, [];
    match op {
      case CreateNamespace =>
        var held, succeeded, cause := MakeNamespace(platform);
        a := Answer(other.elapsed, succeeded, NamespaceRootOf(held), cause);
        acts := platform.acts[|before|..];
      case CreateVeth =>
        var held, succeeded, cause := MakeVeth(platform);
        a := Answer(other.elapsed, succeeded, VethRootOf(held, false), cause);
        acts := platform.acts[|before|..];
      case MovePeer(_, veth) =>
        var moved, succeeded, cause := MovePeerIntoNamespace(platform, veth.proof.pair);
        a := Answer(other.elapsed, succeeded, MovedRootOf(veth.proof.pair, moved), cause);
        acts := platform.acts[|before|..];
      case RemoveNamespace(root) =>
        var held, cause := OwnershipProofs.RemoveNamespace(platform, root.proof.namespaceFile);
        a := Answer(other.elapsed, held.NotThere?, NamespaceRootOf(held), cause);
        acts := platform.acts[|before|..];
      case RemoveVeth(veth, beside) =>
        var held, cause, removal := RemoveProvenVeth(platform, veth.proof.pair, veth.placed, beside.Some?);
        a := Answer(other.elapsed, held.NotThere?, VethRootOf(held, veth.placed), cause);
        acts := removal;
      case _ =>
    }
  }

  // ----- Histories -----

  /** The roots handed out after the first calls of a history. */
  function HandedAfter(script: nat -> Answer, calls: seq<Call>): Owner {
    if calls == [] then OWNS_NOTHING
    else
      var n := |calls| - 1;
      Update(calls[n].held, RootOf(calls[n].op), script(n).root)
  }

  /** A history in which each call was made with what the calls before it handed out, and presented only that. */
  predicate Linked(script: nat -> Answer, calls: seq<Call>) {
    forall i :: 0 <= i < |calls| ==> calls[i].held == HandedAfter(script, calls[..i]) && calls[i].Proper()
  }

  predicate Historic(script: nat -> Answer, w: World) {
    w.answered == |w.calls| && w.handed == HandedAfter(script, w.calls) && Linked(script, w.calls)
  }

  lemma AskIsHistoric(script: nat -> Answer, w: World, op: Operation, limit: Time)
    requires Historic(script, w) && Authorized(op, w.handed)
    ensures Historic(script, Ask(script, w, op, limit).0)
  {
    var w1 := Ask(script, w, op, limit).0;
    assert w1.calls[..|w.calls|] == w.calls;
    forall i | 0 <= i < |w1.calls|
      ensures w1.calls[i].held == HandedAfter(script, w1.calls[..i]) && w1.calls[i].Proper()
    {
      if i < |w.calls| {
        assert w1.calls[..i] == w.calls[..i] && w1.calls[i] == w.calls[i];
      }
    }
  }

  lemma RemoveIsHistoric(script: nat -> Answer, c: Cleaning, name: RootName, limit: Time)
    requires Historic(script, c.world) && c.world.handed == c.owner
    ensures var d := Remove(script, c, name, limit);
            Historic(script, d.world) && d.world.handed == d.owner
  {
    if Get(c.owner, name).Proven? && c.world.now < limit {
      AskIsHistoric(script, c.world, RemovalOf(c.owner, name), limit);
    }
  }

  lemma CleanUpIsHistoric(script: nat -> Answer, w: World, o: Owner, returnResidual: bool)
    requires Historic(script, w) && w.handed == o
    ensures var c := CleanUp(script, w, o, returnResidual);
            Historic(script, c.world) && c.world.handed == c.owner
  {
    hide Historic;
    var limit := w.now + TRANSACTION_LIMIT;
    var c0 := StartCleaning(w, o);
    RemoveIsHistoric(script, c0, ConnectivityRoot, limit);
    var c1 := Remove(script, c0, ConnectivityRoot, limit);
    RemoveIsHistoric(script, c1, VethRoot, limit);
    var c2 := Remove(script, c1, VethRoot, limit);
    RemoveIsHistoric(script, c2, NamespaceRoot, limit);
    RemoveIsHistoric(script, Remove(script, c2, NamespaceRoot, limit), VethRoot, limit);
  }

  lemma {:induction false} RetryIsHistoric(script: nat -> Answer, w: World, o: Owner, times: nat)
    requires Historic(script, w) && w.handed == o
    ensures var (w', o') := Retry(script, w, o, times);
            Historic(script, w') && w'.handed == o'
    decreases times
  {
    hide Historic, CleanUp;
    if times > 0 && !o.Empty() {
      CleanUpIsHistoric(script, w, o, true);
      var c := CleanUp(script, w, o, true);
      RetryIsHistoric(script, c.world, c.owner, times - 1);
    }
  }

  lemma StepIsHistoric(script: nat -> Answer, w: World, o: Owner, k: nat, limit: Time)
    requires Historic(script, w) && w.handed == o && k < STEPS && Ready(k, o)
    ensures var (w1, o1, failure) := StepOf(script, w, o, k, limit);
            && Historic(script, w1) && w1.handed == o1
            && (failure.None? ==> Ready(k + 1, o1))
  {
    hide Historic;
    if w.now < limit {
      AskIsHistoric(script, w, OperationOf(k, o), limit);
    }
  }

  lemma {:induction false} PrepareIsHistoric(script: nat -> Answer, w: World, o: Owner, k: nat, limit: Time)
    requires Historic(script, w) && w.handed == o && k <= STEPS && Ready(k, o)
    ensures var (w', result) := PrepareFrom(script, w, o, k, limit);
            Historic(script, w') && w'.handed == LeftBy(result)
    decreases STEPS - k
  {
    hide Historic, StepOf, CleanUp, Ready;
    if k < STEPS {
      StepIsHistoric(script, w, o, k, limit);
      var (w1, o1, failure) := StepOf(script, w, o, k, limit);
      if failure.Some? {
        CleanUpIsHistoric(script, w1, o1, true);
      } else {
        PrepareIsHistoric(script, w1, o1, k + 1, limit);
      }
    }
  }

  /** What a preparation leaves to its caller. */
  function LeftBy(result: Preparation): Owner {
    match result
    case Prepared(owner) => owner
    case PreparationFailure(_, rollback) => if rollback.residual.Some? then rollback.residual.value else OWNS_NOTHING
  }

  /** A whole use of the Network Environment: preparation, and then the cleanup of what it left, once and as often as it
      is retried, up to the last owner's destructor. */
  function WholeRun(script: nat -> Answer, w: World, times: nat): World {
    var (w1, result) := Prepare(script, w);
    Retry(script, w1, LeftBy(result), times).0
  }

  lemma WholeRunIsHistoric(script: nat -> Answer, w: World, times: nat)
    requires w.calls == [] && w.answered == 0 && w.handed == OWNS_NOTHING
    ensures Historic(script, WholeRun(script, w, times))
  {
    PrepareIsHistoric(script, w, OWNS_NOTHING, 0, w.now + TRANSACTION_LIMIT);
    var (w1, result) := Prepare(script, w);
    RetryIsHistoric(script, w1, LeftBy(result), times);
  }

  // ----- Where a proof comes from -----

  /** Every call of a history was performed by the production adapter. */
  ghost predicate AllPerformed(script: nat -> Answer, acts: nat -> seq<Act>, calls: seq<Call>) {
    forall i :: 0 <= i < |calls| ==> Performs(calls[i].op, acts(i), script(i))
  }

  /** Making the namespace, and the look right after it. */
  predicate MakesNamespace(op: Operation, acts: seq<Act>, identity: NamespaceIdentity) {
    && op.CreateNamespace? && |acts| == 2 && acts[0].Ran? && acts[0].command.AddNamespace?
    && acts[1].AskedNamespace? && SeenNamespace(acts[1].namespaceAnswer) == Same(identity)
  }

  /** Making the pair, or moving its peer, and the look right after it. */
  predicate MakesVeth(op: Operation, acts: seq<Act>, identity: VethIdentity, placed: bool) {
    if placed then
      && op.MovePeer? && |acts| == 4 && acts[0].Ran? && acts[0].command.MoveSessionEnd?
      && acts[1].AskedLink? && acts[2].AskedLink? && acts[3].AskedLink?
      && SeenPlaced(acts[1].linkAnswer, acts[2].linkAnswer, acts[3].linkAnswer) == Same(identity)
    else
      && op.CreateVeth? && |acts| == 3 && acts[0].Ran? && acts[0].command.AddVeth?
      && acts[1].AskedLink? && acts[2].AskedLink?
      && SeenOnHost(acts[1].linkAnswer, acts[2].linkAnswer) == Same(identity)
  }

  predicate MadeNamespace(acts: nat -> seq<Act>, calls: seq<Call>, c: nat, identity: NamespaceIdentity) {
    c < |calls| && MakesNamespace(calls[c].op, acts(c), identity)
  }

  predicate MadeVeth(acts: nat -> seq<Act>, calls: seq<Call>, c: nat, identity: VethIdentity, placed: bool) {
    c < |calls| && MakesVeth(calls[c].op, acts(c), identity, placed)
  }

  /** One call leaves a namespace proof only by making the namespace or by keeping the proof. */
  lemma NamespaceProofMadeOrKept(op: Operation, acts: seq<Act>, a: Answer, held: Owner)
    requires Performs(op, acts, a) && Authorized(op, held)
    requires held.namespaceRoot.Proven? ==> IsNamespaceProof(held.namespaceRoot)
    ensures var root := Update(held, RootOf(op), a.root).namespaceRoot;
            root.Proven? ==>
              || root == held.namespaceRoot
              || (IsNamespaceProof(root) && MakesNamespace(op, acts, root.proof.namespaceFile))
  {
    hide SeenOnHost, SeenPlaced;
  }

  lemma VethProofMadeOrKept(op: Operation, acts: seq<Act>, a: Answer, held: Owner)
    requires Performs(op, acts, a) && Authorized(op, held)
    requires held.veth.Proven? ==> IsVethProof(held.veth)
    ensures var root := Update(held, RootOf(op), a.root).veth;
            root.Proven? ==>
              || root == held.veth
              || (IsVethProof(root) && MakesVeth(op, acts, root.proof.pair, root.placed))
  {
    hide SeenNamespace, LookOf;
    match op {
      case MovePeer(_, veth) =>
        var moved :| MovesPeer(veth.proof.pair, acts, moved, a.succeeded) && a.root == MovedRootOf(veth.proof.pair, moved);
        MoveKeepsProofs(veth.proof.pair, acts, moved, a.succeeded);
        hide SeenPlaced, JudgeMove;
      case RemoveVeth(veth, beside) =>
        var report :| RemovesVeth(veth.proof.pair, veth.placed, beside.Some?, acts, report)
                      && a.root == VethRootOf(report, veth.placed);
        VethDeletionAuthority(veth.proof.pair, veth.placed, beside.Some?, acts, report);
        hide LookAt, RemovesVeth;
      case _ =>
    }
  }

  /** A namespace proof held at some point of a history is the identity seen when the namespace was made. */
  lemma {:induction false} NamespaceProofOrigin(script: nat -> Answer, acts: nat -> seq<Act>, calls: seq<Call>, n: nat)
      returns (c: nat)
    requires n <= |calls| && Linked(script, calls) && AllPerformed(script, acts, calls)
    ensures var root := HandedAfter(script, calls[..n]).namespaceRoot;
            root.Proven? ==> IsNamespaceProof(root) && c < n && MadeNamespace(acts, calls, c, root.proof.namespaceFile)
    decreases n
  {
    c := 0;
    if n > 0 {
      hide Performs, MakesNamespace, Authorized;
      var last := calls[n - 1];
      assert calls[..n][n - 1] == last;
      assert last.held == HandedAfter(script, calls[..n - 1]) && Performs(last.op, acts(n - 1), script(n - 1));
      c := NamespaceProofOrigin(script, acts, calls, n - 1);
      assert last.Proper();
      NamespaceProofMadeOrKept(last.op, acts(n - 1), script(n - 1), last.held);
      var root := HandedAfter(script, calls[..n]).namespaceRoot;
      if root.Proven? && root != last.held.namespaceRoot {
        c := n - 1;
      }
    }
  }

  /** The same for the veth: the pair seen when it was made, or across the namespaces when its peer was moved. */
  lemma {:induction false} VethProofOrigin(script: nat -> Answer, acts: nat -> seq<Act>, calls: seq<Call>, n: nat)
      returns (c: nat)
    requires n <= |calls| && Linked(script, calls) && AllPerformed(script, acts, calls)
    ensures var root := HandedAfter(script, calls[..n]).veth;
            root.Proven? ==> IsVethProof(root) && c < n && MadeVeth(acts, calls, c, root.proof.pair, root.placed)
    decreases n
  {
    c := 0;
    if n > 0 {
      hide Performs, MakesVeth, Authorized;
      var last := calls[n - 1];
      assert calls[..n][n - 1] == last;
      assert last.held == HandedAfter(script, calls[..n - 1]) && Performs(last.op, acts(n - 1), script(n - 1));
      c := VethProofOrigin(script, acts, calls, n - 1);
      assert last.Proper();
      VethProofMadeOrKept(last.op, acts(n - 1), script(n - 1), last.held);
      var root := HandedAfter(script, calls[..n]).veth;
      if root.Proven? && root != last.held.veth {
        c := n - 1;
      }
    }
  }

  // ----- The main result -----

  /** A delete command for the namespace has authority: it belongs to a removal of the root the owner held, right before it
      the namespace was seen to be the one of the held proof, and that is the one seen when the program made it. */
  predicate NamespaceDeleteIsAuthorized(acts: nat -> seq<Act>, calls: seq<Call>, i: nat, j: nat, c: nat)
    requires i < |calls| && j < |acts(i)|
  {
    var root := calls[i].held.namespaceRoot;
    && calls[i].op == RemoveNamespace(root) && IsNamespaceProof(root)
    && j > 0 && acts(i)[j - 1].AskedNamespace?
    && SeenNamespace(acts(i)[j - 1].namespaceAnswer) == Same(root.proof.namespaceFile)
    && c < i && MadeNamespace(acts, calls, c, root.proof.namespaceFile)
  }

  predicate VethDeleteIsAuthorized(acts: nat -> seq<Act>, calls: seq<Call>, i: nat, j: nat, c: nat)
    requires i < |calls| && j < |acts(i)|
  {
    var root := calls[i].held.veth;
    && calls[i].op.RemoveVeth? && calls[i].op.removed == root && IsVethProof(root)
    && (root.placed ==> calls[i].op.besideNamespace == Some(calls[i].held.namespaceRoot))
    && LookAt(acts(i), j, root.placed) == Same(root.proof.pair)
    && c < i && MadeVeth(acts, calls, c, root.proof.pair, root.placed)
  }

  /** Only a removal deletes its root. */
  lemma DeletesOnlyInRemovals(op: Operation, acts: seq<Act>, a: Answer, held: Owner, j: nat)
    requires Performs(op, acts, a) && Authorized(op, held) && j < |acts| && acts[j].Ran?
    requires held.namespaceRoot.Proven? ==> IsNamespaceProof(held.namespaceRoot)
    requires held.veth.Proven? ==> IsVethProof(held.veth)
    ensures acts[j].command.DeleteNamespace? ==>
              op == RemoveNamespace(held.namespaceRoot) && IsNamespaceProof(held.namespaceRoot)
    ensures acts[j].command.DeleteVeth? ==> op.RemoveVeth? && op.removed == held.veth && IsVethProof(held.veth)
  {
    hide LookOf, SeenOnHost, SeenPlaced, SeenNamespace, Judge, JudgeMove, ValidHostPair, ValidPlacedPair;
    match op {
      case RemoveVeth(veth, beside) =>
        var report :| RemovesVeth(veth.proof.pair, veth.placed, beside.Some?, acts, report);
        VethActsDeleteNoNamespace(veth.proof.pair, veth.placed, beside.Some?, acts, report, j);
      case _ =>
    }
  }

  lemma VethActsDeleteNoNamespace(proof: VethIdentity, placed: bool, namespaceProven: bool, acts: seq<Act>,
                                  held: Held<VethIdentity>, j: nat)
    requires RemovesVeth(proof, placed, namespaceProven, acts, held) && j < |acts| && acts[j].Ran?
    ensures acts[j].command.DeleteVeth?
  {
    hide LookOf, Judge;
    if !(placed && !namespaceProven) {
      var n := LookLength(placed);
      assert forall k :: 0 <= k < n ==> acts[..n][k] == acts[k];
      assert forall k :: n < k < |acts| ==> acts[n + 1..][k - n - 1] == acts[k];
    }
  }

  /** Over any whole run, for every behaviour of the platform and every clock: each delete command has authority. */
  lemma DeletesOnlyWhatWasMade(script: nat -> Answer, acts: nat -> seq<Act>, w: World, times: nat, i: nat, j: nat)
      returns (c: nat)
    requires w.calls == [] && w.answered == 0 && w.handed == OWNS_NOTHING
    requires var calls := WholeRun(script, w, times).calls;
             AllPerformed(script, acts, calls) && i < |calls| && j < |acts(i)| && acts(i)[j].Ran?
    ensures var calls := WholeRun(script, w, times).calls;
            && (acts(i)[j].command.DeleteNamespace? ==> NamespaceDeleteIsAuthorized(acts, calls, i, j, c))
            && (acts(i)[j].command.DeleteVeth? ==> VethDeleteIsAuthorized(acts, calls, i, j, c))
  {
    WholeRunIsHistoric(script, w, times);
    hide WholeRun;
    c := AuthorityInHistory(script, acts, WholeRun(script, w, times).calls, i, j);
  }

  lemma AuthorityInHistory(script: nat -> Answer, acts: nat -> seq<Act>, calls: seq<Call>, i: nat, j: nat)
      returns (c: nat)
    requires Linked(script, calls) && AllPerformed(script, acts, calls)
    requires i < |calls| && j < |acts(i)| && acts(i)[j].Ran?
    ensures acts(i)[j].command.DeleteNamespace? ==> NamespaceDeleteIsAuthorized(acts, calls, i, j, c)
    ensures acts(i)[j].command.DeleteVeth? ==> VethDeleteIsAuthorized(acts, calls, i, j, c)
  {
    var namespaceOrigin := NamespaceProofOrigin(script, acts, calls, i);
    var vethOrigin := VethProofOrigin(script, acts, calls, i);
    var call := calls[i];
    assert call.held == HandedAfter(script, calls[..i]) && Performs(call.op, acts(i), script(i));
    hide Linked, AllPerformed, HandedAfter, MadeNamespace, MadeVeth;
    DeletesOnlyInRemovals(call.op, acts(i), script(i), call.held, j);
    c := namespaceOrigin;
    if acts(i)[j].command.DeleteNamespace? {
      var root := call.held.namespaceRoot;
      var report :| RemovesNamespace(root.proof.namespaceFile, acts(i), report);
      NamespaceDeletionAuthority(root.proof.namespaceFile, acts(i), report);
    } else if acts(i)[j].command.DeleteVeth? {
      c := vethOrigin;
      VethAuthority(call, acts(i), script(i), j);
    }
  }

  lemma VethAuthority(call: Call, acts: seq<Act>, a: Answer, j: nat)
    requires Performs(call.op, acts, a) && call.Proper() && call.op.RemoveVeth? && IsVethProof(call.op.removed)
    requires j < |acts| && acts[j].Ran? && acts[j].command.DeleteVeth?
    ensures LookAt(acts, j, call.op.removed.placed) == Same(call.op.removed.proof.pair)
    ensures call.op.removed.placed ==> call.op.besideNamespace == Some(call.held.namespaceRoot)
  {
    hide LookAt;
    var veth := call.op.removed;
    var report :| RemovesVeth(veth.proof.pair, veth.placed, call.op.besideNamespace.Some?, acts, report);
    VethDeletionAuthority(veth.proof.pair, veth.placed, call.op.besideNamespace.Some?, acts, report);
  }
}
