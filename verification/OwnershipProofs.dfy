/** How the production adapter proves what it owns: it looks at the namespace and the links by name, keeps the
    identities it saw when it made them, and deletes only what it has just seen to be the same. Queries and commands
    may answer anything. */
module OwnershipProofs {
  import opened Wrappers
  import opened NetworkTransaction

  datatype Status = Present | Missing | QueryFailure | QueryTimeout | Malformed

  datatype NamespaceQuery = NamespaceQuery(status: Status, handle: Option<NamespaceIdentity>)

  datatype LinkQuery = LinkQuery(status: Status, identity: Option<LinkIdentity>)

  datatype Place = HostEnd | SessionEndOnHost | SessionEndInNamespace

  datatype Command = AddNamespace | DeleteNamespace | AddVeth | MoveSessionEnd | DeleteVeth
  datatype CommandResult = Success | NonzeroExit | KilledBySignal | CommandTimeout | ExecFailure | CommandSystemFailure

  function CommandCause(result: CommandResult): Cause {
    match result
    case Success => SystemFailure
    case NonzeroExit => CommandExit
    case KilledBySignal => CommandSignal
    case CommandTimeout => Timeout
    case ExecFailure => UnavailableOrInvalidTool
    case CommandSystemFailure => SystemFailure
  }

  /** What the adapter did and what it was told. */
  datatype Act =
    | AskedNamespace(namespaceAnswer: NamespaceQuery)
    | AskedLink(place: Place, linkAnswer: LinkQuery)
    | Ran(command: Command, result: CommandResult)

  // ----- Observations -----

  /** What one look at a root amounts to. */
  datatype Seen<I> = Gone | Same(identity: I) | Unclear

  function SeenNamespace(q: NamespaceQuery): Seen<NamespaceIdentity> {
    if q.status.Missing? then Gone
    else if q.status.Present? && q.handle.Some? then Same(q.handle.value)
    else Unclear
  }

  /** `valid_host_pair`: two links on the host that name each other as peers. */
  predicate ValidHostPair(host: LinkQuery, session: LinkQuery) {
    && host.status.Present? && session.status.Present? && host.identity.Some? && session.identity.Some?
    && host.identity.value.peerIndex == session.identity.value.index
    && session.identity.value.peerIndex == host.identity.value.index
    && host.identity.value.peerNamespace.None? && session.identity.value.peerNamespace.None?
  }

  /** `valid_placed_pair`: the session end has left the host and both ends name each other across namespaces. */
  predicate ValidPlacedPair(host: LinkQuery, oldSession: LinkQuery, placed: LinkQuery) {
    && oldSession.status.Missing? && host.status.Present? && placed.status.Present?
    && host.identity.Some? && placed.identity.Some?
    && host.identity.value.peerIndex == placed.identity.value.index
    && placed.identity.value.peerIndex == host.identity.value.index
    && host.identity.value.peerNamespace.Some? && placed.identity.value.peerNamespace.Some?
    && host.identity.value.peerNamespace.value >= 0 && placed.identity.value.peerNamespace.value >= 0
  }

  function SeenOnHost(host: LinkQuery, session: LinkQuery): Seen<VethIdentity> {
    if host.status.Missing? && session.status.Missing? then Gone
    else if ValidHostPair(host, session) then Same(VethIdentity(host.identity.value, session.identity.value))
    else Unclear
  }

  function SeenPlaced(host: LinkQuery, oldSession: LinkQuery, placed: LinkQuery): Seen<VethIdentity> {
    if host.status.Missing? && oldSession.status.Missing? && placed.status.Missing? then Gone
    else if ValidPlacedPair(host, oldSession, placed) then Same(VethIdentity(host.identity.value, placed.identity.value))
    else Unclear
  }

  /** How many queries make one look at the veth. */
  function LookLength(placed: bool): nat {
    if placed then 3 else 2
  }

  /** What some acts that are one look saw of the veth. */
  function LookOf(look: seq<Act>, placed: bool): Seen<VethIdentity>
    requires |look| == LookLength(placed)
  {
    if look[0].AskedLink? && look[0].place.HostEnd? && look[1].AskedLink? && look[1].place.SessionEndOnHost? then
      if !placed then SeenOnHost(look[0].linkAnswer, look[1].linkAnswer)
      else if look[2].AskedLink? && look[2].place.SessionEndInNamespace? then
        SeenPlaced(look[0].linkAnswer, look[1].linkAnswer, look[2].linkAnswer)
      else Unclear
    else Unclear
  }

  /** What the last acts before a position saw of the veth. */
  function LookAt(acts: seq<Act>, end: nat, placed: bool): Seen<VethIdentity>
    requires end <= |acts|
  {
    if end < LookLength(placed) then Unclear else LookOf(acts[end - LookLength(placed)..end], placed)
  }

  predicate OnlyAsks(acts: seq<Act>) {
    forall i :: 0 <= i < |acts| ==> acts[i].AskedLink?
  }

  /** `inventory_cause`. */
  predicate Unavailable(q: LinkQuery) {
    q.status.QueryFailure? || q.status.QueryTimeout? || q.status.Malformed?
  }

  function InventoryCause(queries: seq<LinkQuery>): Cause {
    if exists i :: 0 <= i < |queries| && Unavailable(queries[i]) then IdentityUnavailable else IdentityMismatch
  }

  // ----- What is held -----

  /** What the adapter reports of a root it proves by identities of type I. */
  datatype Held<I> = NotThere | HeldProof(identity: I) | NotConfirmed

  /** A removal's report: what the last look says. */
  function Judge<I(==)>(proof: I, seen: Seen<I>): Held<I> {
    match seen
    case Gone => NotThere
    case Same(identity) => if identity == proof then HeldProof(proof) else NotConfirmed
    case Unclear => NotConfirmed
  }

  /** Why a root is still there after a command: what went wrong with the command, or that it did not do it. */
  function KeptCause(result: CommandResult): Cause {
    if result.Success? then IdentityMismatch else CommandCause(result)
  }

  /** Why something was not made: what went wrong with the command, unless what is there cannot be told. */
  function NotMadeCause(result: CommandResult, told: bool): Cause {
    if told && !result.Success? then CommandCause(result) else IdentityUnavailable
  }

  function LinkAnswers(look: seq<Act>): seq<LinkQuery>
    requires OnlyAsks(look)
  {
    seq(|look|, i requires 0 <= i < |look| && look[i].AskedLink? => look[i].linkAnswer)
  }

  // ----- The platform -----

  /** Everything the adapter asks or runs, with answers the platform is free to choose. */
  class Platform {
    ghost var acts: seq<Act>

    constructor ()
      ensures acts == []
    {
      acts := [];
    }

    method QueryNamespace() returns (q: NamespaceQuery)
      modifies this
      ensures acts == old(acts) + [AskedNamespace(q)]
    {
      q := *;
      acts := acts + [AskedNamespace(q)];
    }

    method QueryLink(place: Place) returns (q: LinkQuery)
      modifies this
      ensures acts == old(acts) + [AskedLink(place, q)]
    {
      q := *;
      acts := acts + [AskedLink(place, q)];
    }

    method Run(command: Command) returns (result: CommandResult)
      modifies this
      ensures acts == old(acts) + [Ran(command, result)]
    {
      result := *;
      acts := acts + [Ran(command, result)];
    }
  }

  // ----- The namespace -----

  /** What removing a namespace may do: look, and only if that look shows the namespace of the proof, delete and look
      again; the report is what the last look says. */
  predicate RemovesNamespace(proof: NamespaceIdentity, acts: seq<Act>, held: Held<NamespaceIdentity>) {
    && |acts| > 0 && acts[0].AskedNamespace?
    && if SeenNamespace(acts[0].namespaceAnswer) == Same(proof) then
         && |acts| == 3 && acts[1].Ran? && acts[1].command.DeleteNamespace? && acts[2].AskedNamespace?
         && held == Judge(proof, SeenNamespace(acts[2].namespaceAnswer))
       else
         |acts| == 1 && held == Judge(proof, SeenNamespace(acts[0].namespaceAnswer))
  }

  /** `remove_namespace`. */
  method RemoveNamespace(platform: Platform, proof: NamespaceIdentity)
      returns (held: Held<NamespaceIdentity>, cause: Cause)
    modifies platform
    ensures old(platform.acts) <= platform.acts
    ensures RemovesNamespace(proof, platform.acts[|old(platform.acts)|..], held)
    ensures var acts := platform.acts[|old(platform.acts)|..];
            var last := acts[|acts| - 1];
            && (held.HeldProof? ==> |acts| == 3 && acts[1].Ran? && cause == KeptCause(acts[1].result))
            && (held.NotConfirmed? ==>
                  last.AskedNamespace?
                  && cause == if last.namespaceAnswer.status.Present? && (|acts| == 3 || last.namespaceAnswer.handle.Some?)
                              then IdentityMismatch else IdentityUnavailable)
  {
    var before := platform.QueryNamespace();
    if before.status.Missing? {
      return NotThere, SystemFailure;
    }
    if !before.status.Present? || before.handle.None? {
      return NotConfirmed, IdentityUnavailable;
    }
    if before.handle.value != proof {
      return NotConfirmed, IdentityMismatch;
    }
    var command := platform.Run(DeleteNamespace);
    var after := platform.QueryNamespace();
    if after.status.Missing? {
      return NotThere, SystemFailure;
    }
    if after.status.Present? && after.handle.Some? && after.handle.value == proof {
      return HeldProof(proof), if command.Success? then IdentityMismatch else CommandCause(command);
    }
    return NotConfirmed, if after.status.Present? then IdentityMismatch else IdentityUnavailable;
  }

  /** What creating a namespace may do: one command, one look; success needs both, and what was seen is held even if
      the command failed. */
  predicate CreatesNamespace(acts: seq<Act>, held: Held<NamespaceIdentity>, succeeded: bool) {
    && |acts| == 2 && acts[0].Ran? && acts[0].command.AddNamespace? && acts[1].AskedNamespace?
    && held == (match SeenNamespace(acts[1].namespaceAnswer)
                case Gone => NotThere
                case Same(identity) => HeldProof(identity)
                case Unclear => NotConfirmed)
    && (succeeded <==> acts[0].result.Success? && held.HeldProof?)
  }

  method MakeNamespace(platform: Platform) returns (held: Held<NamespaceIdentity>, succeeded: bool, cause: Cause)
    modifies platform
    ensures old(platform.acts) <= platform.acts
    ensures CreatesNamespace(platform.acts[|old(platform.acts)|..], held, succeeded)
    ensures !succeeded ==> cause == NotMadeCause(platform.acts[|old(platform.acts)|].result, !held.NotConfirmed?)
  {
    var command := platform.Run(AddNamespace);
    var query := platform.QueryNamespace();
    if query.status.Present? && query.handle.Some? {
      return HeldProof(query.handle.value), command.Success?, CommandCause(command);
    }
    held := if query.status.Missing? then NotThere else NotConfirmed;
    cause := if query.status.Missing? && !command.Success? then CommandCause(command) else IdentityUnavailable;
    succeeded := false;
  }

  // ----- The veth pair -----

  /** `observe_veth`: two queries on the host, and a third in the namespace when the peer was placed there. */
  method ObserveVeth(platform: Platform, placed: bool)
      returns (seen: Seen<VethIdentity>, cause: Cause, ghost look: seq<Act>)
    modifies platform
    ensures platform.acts == old(platform.acts) + look && |look| == LookLength(placed) && OnlyAsks(look)
    ensures seen == LookOf(look, placed)
    ensures seen.Unclear? ==> cause == InventoryCause(LinkAnswers(look))
  {
    var host := platform.QueryLink(HostEnd);
    var session := platform.QueryLink(SessionEndOnHost);
    look := [AskedLink(HostEnd, host), AskedLink(SessionEndOnHost, session)];
    if !placed {
      seen := SeenOnHost(host, session);
      assert LinkAnswers(look) == [host, session];
      cause := if seen.Unclear? then InventoryCause([host, session]) else SystemFailure;
    } else {
      var inside := platform.QueryLink(SessionEndInNamespace);
      look := look + [AskedLink(SessionEndInNamespace, inside)];
      seen := SeenPlaced(host, session, inside);
      assert LinkAnswers(look) == [host, session, inside];
      cause := if seen.Unclear? then InventoryCause([host, session, inside]) else SystemFailure;
    }
  }

  /** What removing a veth may do: look, and only if that look shows the pair of the proof, delete and look again; the
      report is what the last look says. A placed pair whose namespace is not proven is not deleted. */
  predicate RemovesVeth(proof: VethIdentity, placed: bool, namespaceProven: bool, acts: seq<Act>,
                        held: Held<VethIdentity>)
  {
    if placed && !namespaceProven then RemovesOrphan(acts, held)
    else
      var n := LookLength(placed);
      && |acts| >= n && OnlyAsks(acts[..n])
      && if LookOf(acts[..n], placed) == Same(proof) then
           && |acts| == 2 * n + 1 && acts[n].Ran? && acts[n].command.DeleteVeth? && OnlyAsks(acts[n + 1..])
           && held == Judge(proof, LookOf(acts[n + 1..], placed))
         else |acts| == n && held == Judge(proof, LookOf(acts[..n], placed))
  }

  predicate RemovesOrphan(acts: seq<Act>, held: Held<VethIdentity>) {
    && |acts| == 2 && OnlyAsks(acts) && acts[0].place.HostEnd? && acts[1].place.SessionEndOnHost?
    && held == (if acts[0].linkAnswer.status.Missing? && acts[1].linkAnswer.status.Missing? then NotThere
                else NotConfirmed)
  }

  method RemoveOrphanVeth(platform: Platform) returns (held: Held<VethIdentity>, cause: Cause, ghost acts: seq<Act>)
    modifies platform
    ensures platform.acts == old(platform.acts) + acts && RemovesOrphan(acts, held)
  {
    var host := platform.QueryLink(HostEnd);
    var session := platform.QueryLink(SessionEndOnHost);
    acts := [AskedLink(HostEnd, host), AskedLink(SessionEndOnHost, session)];
    if host.status.Missing? && session.status.Missing? {
      held, cause := NotThere, SystemFailure;
    } else {
      held, cause := NotConfirmed, InventoryCause([host, session]);
    }
  }

  /** What a look means for a held proof, with the cause of a root that stays. */
  method JudgeVeth(proof: VethIdentity, seen: Seen<VethIdentity>, unclear: Cause, kept: Cause)
      returns (held: Held<VethIdentity>, cause: Cause)
    ensures held == Judge(proof, seen)
    ensures held.HeldProof? ==> cause == kept
    ensures held.NotConfirmed? ==> cause == if seen.Unclear? then unclear else IdentityMismatch
  {
    if seen.Gone? {
      return NotThere, SystemFailure;
    }
    if seen.Unclear? {
      return NotConfirmed, unclear;
    }
    if seen.identity != proof {
      return NotConfirmed, IdentityMismatch;
    }
    return HeldProof(proof), kept;
  }

  /** `remove_proven_veth`. */
  method RemoveProvenVeth(platform: Platform, proof: VethIdentity, placed: bool, namespaceProven: bool)
      returns (held: Held<VethIdentity>, cause: Cause, ghost acts: seq<Act>)
    modifies platform
    ensures platform.acts == old(platform.acts) + acts
    ensures RemovesVeth(proof, placed, namespaceProven, acts, held)
    ensures !(placed && !namespaceProven) ==>
              var n := LookLength(placed);
              && (held.HeldProof? ==> |acts| == 2 * n + 1 && acts[n].Ran? && cause == KeptCause(acts[n].result))
              && (held.NotConfirmed? ==>
                    && |acts| >= n && OnlyAsks(acts[|acts| - n..])
                    && cause == if LookOf(acts[|acts| - n..], placed).Unclear?
                                then InventoryCause(LinkAnswers(acts[|acts| - n..])) else IdentityMismatch)
  {
    if placed && !namespaceProven {
      held, cause, acts := RemoveOrphanVeth(platform);
      return;
    }
    var seen, why, look := ObserveVeth(platform, placed);
    if seen != Same(proof) {
      held, cause := JudgeVeth(proof, seen, why, SystemFailure);
      acts := look;
      assert acts[..LookLength(placed)] == look && acts[|acts| - LookLength(placed)..] == look;
      return;
    }
    var command := platform.Run(DeleteVeth);
    var again, whyAgain, lookAgain := ObserveVeth(platform, placed);
    held, cause := JudgeVeth(proof, again, whyAgain, if command.Success? then IdentityMismatch else CommandCause(command));
    acts := look + [Ran(DeleteVeth, command)] + lookAgain;
    assert acts[..LookLength(placed)] == look && acts[LookLength(placed) + 1..] == lookAgain;
    assert acts[|acts| - LookLength(placed)..] == lookAgain;
  }

  /** What creating a veth pair may do. */
  predicate CreatesVeth(acts: seq<Act>, held: Held<VethIdentity>, succeeded: bool) {
    && |acts| == 3 && acts[0].Ran? && acts[0].command.AddVeth?
    && acts[1].AskedLink? && acts[1].place.HostEnd? && acts[2].AskedLink? && acts[2].place.SessionEndOnHost?
    && held == (match SeenOnHost(acts[1].linkAnswer, acts[2].linkAnswer)
                case Gone => NotThere
                case Same(identity) => HeldProof(identity)
                case Unclear => NotConfirmed)
    && (succeeded <==> acts[0].result.Success? && held.HeldProof?)
  }

  method MakeVeth(platform: Platform) returns (held: Held<VethIdentity>, succeeded: bool, cause: Cause)
    modifies platform
    ensures old(platform.acts) <= platform.acts
    ensures CreatesVeth(platform.acts[|old(platform.acts)|..], held, succeeded)
    ensures !succeeded ==> cause == NotMadeCause(platform.acts[|old(platform.acts)|].result, !held.NotConfirmed?)
  {
    var command := platform.Run(AddVeth);
    var host := platform.QueryLink(HostEnd);
    var session := platform.QueryLink(SessionEndOnHost);
    if ValidHostPair(host, session) {
      return HeldProof(VethIdentity(host.identity.value, session.identity.value)), command.Success?,
             CommandCause(command);
    }
    var absent := host.status.Missing? && session.status.Missing?;
    held := if absent then NotThere else NotConfirmed;
    cause := if absent && !command.Success? then CommandCause(command) else IdentityUnavailable;
    succeeded := false;
  }

  /** What moving the peer reports: a placed pair, the unmoved pair of the proof, nothing, or no confirmation. */
  datatype Moved = MovedPair(identity: VethIdentity) | StillOnHost | MovedNothing | MovedUnconfirmed

  function JudgeMove(proof: VethIdentity, host: LinkQuery, oldSession: LinkQuery, placed: LinkQuery): Moved {
    if ValidPlacedPair(host, oldSession, placed) then
      MovedPair(VethIdentity(host.identity.value, placed.identity.value))
    else if SeenOnHost(host, oldSession) == Same(proof) && placed.status.Missing? then StillOnHost
    else if host.status.Missing? && oldSession.status.Missing? && placed.status.Missing? then MovedNothing
    else MovedUnconfirmed
  }

  predicate MovesPeer(proof: VethIdentity, acts: seq<Act>, moved: Moved, succeeded: bool) {
    && |acts| == 4 && acts[0].Ran? && acts[0].command.MoveSessionEnd?
    && acts[1].AskedLink? && acts[2].AskedLink? && acts[3].AskedLink?
    && moved == JudgeMove(proof, acts[1].linkAnswer, acts[2].linkAnswer, acts[3].linkAnswer)
    && (succeeded <==> acts[0].result.Success? && moved.MovedPair?)
  }

  /** `move_peer`. */
  method MovePeerIntoNamespace(platform: Platform, proof: VethIdentity)
      returns (moved: Moved, succeeded: bool, cause: Cause)
    modifies platform
    ensures old(platform.acts) <= platform.acts
    ensures MovesPeer(proof, platform.acts[|old(platform.acts)|..], moved, succeeded)
    ensures !succeeded ==>
              var result := platform.acts[|old(platform.acts)|].result;
              cause == if moved.StillOnHost? then KeptCause(result) else NotMadeCause(result, !moved.MovedUnconfirmed?)
  {
    var command := platform.Run(MoveSessionEnd);
    var host := platform.QueryLink(HostEnd);
    var oldSession := platform.QueryLink(SessionEndOnHost);
    var placed := platform.QueryLink(SessionEndInNamespace);
    if ValidPlacedPair(host, oldSession, placed) {
      return MovedPair(VethIdentity(host.identity.value, placed.identity.value)), command.Success?,
             CommandCause(command);
    }
    if ValidHostPair(host, oldSession) && placed.status.Missing?
       && proof == VethIdentity(host.identity.value, oldSession.identity.value) {
      return StillOnHost, false, if command.Success? then IdentityMismatch else CommandCause(command);
    }
    var absent := host.status.Missing? && oldSession.status.Missing? && placed.status.Missing?;
    return if absent then MovedNothing else MovedUnconfirmed, false,
           if absent && !command.Success? then CommandCause(command) else IdentityUnavailable;
  }

  // ----- Deletion authority -----

  /** Every delete command in some acts comes right after a look that shows the identity of the proof. */
  predicate NamespaceDeletionsFollowProof(proof: NamespaceIdentity, acts: seq<Act>) {
    forall i :: 0 <= i < |acts| && acts[i].Ran? && acts[i].command.DeleteNamespace? ==>
      i > 0 && acts[i - 1].AskedNamespace? && SeenNamespace(acts[i - 1].namespaceAnswer) == Same(proof)
  }

  predicate VethDeletionsFollowProof(proof: VethIdentity, placed: bool, acts: seq<Act>) {
    forall i :: 0 <= i < |acts| && acts[i].Ran? && acts[i].command.DeleteVeth? ==>
      LookAt(acts, i, placed) == Same(proof)
  }

  /** Deletion authority for the namespace: at most one delete command, and only right after the namespace was seen to
      be the proven one; it is reported gone exactly when the last look finds none, kept with its own proof exactly when
      the last look shows it, and unconfirmed in every other case. */
  lemma NamespaceDeletionAuthority(proof: NamespaceIdentity, acts: seq<Act>, held: Held<NamespaceIdentity>)
    requires RemovesNamespace(proof, acts, held)
    ensures NamespaceDeletionsFollowProof(proof, acts)
    ensures acts != [] && acts[|acts| - 1].AskedNamespace?
    ensures var last := SeenNamespace(acts[|acts| - 1].namespaceAnswer);
            && (held.NotThere? <==> last.Gone?)
            && (held.HeldProof? <==> last == Same(proof))
            && (held.HeldProof? ==> held.identity == proof)
    ensures (exists i :: 0 <= i < |acts| && acts[i].Ran?) <==> SeenNamespace(acts[0].namespaceAnswer) == Same(proof)
  {
    if SeenNamespace(acts[0].namespaceAnswer) == Same(proof) {
      assert acts[1].Ran?;
    }
  }

  /** Deletion authority for the veth pair, placed or not; without the proven namespace a placed pair is never
      deleted. */
  lemma VethDeletionAuthority(proof: VethIdentity, placed: bool, namespaceProven: bool, acts: seq<Act>,
                              held: Held<VethIdentity>)
    requires RemovesVeth(proof, placed, namespaceProven, acts, held)
    ensures VethDeletionsFollowProof(proof, placed, acts)
    ensures placed && !namespaceProven ==> OnlyAsks(acts) && !held.HeldProof?
    ensures held.HeldProof? ==> held.identity == proof
    ensures !(placed && !namespaceProven) ==>
              && (held.NotThere? <==> LookAt(acts, |acts|, placed).Gone?)
              && (held.HeldProof? <==> LookAt(acts, |acts|, placed) == Same(proof))
  {
    hide LookOf;
    if !(placed && !namespaceProven) {
      var n := LookLength(placed);
      assert acts[n - n..n] == acts[..n];
      assert forall i :: 0 <= i < n ==> acts[..n][i] == acts[i];
      assert forall i :: n < i < |acts| ==> acts[n + 1..][i - n - 1] == acts[i];
      assert |acts| > n ==> acts[|acts| - n..|acts|] == acts[n + 1..];
    }
  }

  /** A moved peer is a proof only if the pair was seen across the namespaces, and the old proof comes back only if
      exactly that pair was seen on the host; then it was not moved. */
  lemma MoveKeepsProofs(proof: VethIdentity, acts: seq<Act>, moved: Moved, succeeded: bool)
    requires MovesPeer(proof, acts, moved, succeeded)
    ensures moved.StillOnHost? ==> SeenOnHost(acts[1].linkAnswer, acts[2].linkAnswer) == Same(proof) && !succeeded
    ensures moved.MovedPair? ==> SeenPlaced(acts[1].linkAnswer, acts[2].linkAnswer, acts[3].linkAnswer)
                                 == Same(moved.identity)
    ensures moved.MovedNothing? <==> SeenPlaced(acts[1].linkAnswer, acts[2].linkAnswer, acts[3].linkAnswer).Gone?
    ensures succeeded ==> moved.MovedPair?
  {
  }
}
