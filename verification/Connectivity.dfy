/** Configuring, removing and reconciling connectivity behind a write-ahead journal. Every command may fail after it
    took effect, and the program may be interrupted after any step. */
module Connectivity {
  import opened Wrappers
  import opened NetworkTransaction
  import opened RecoveryJournal

  // ----- What the host has -----

  datatype Journal = EmptyJournal | ValidJournal(record: Record) | CorruptJournal

  /** A firewalld policy as far as it was made. */
  datatype Policy = Policy(ingress: string, egress: bool, rule: bool)

  /** The journal and everything that carries a token: nft tables, ufw rules, firewalld policies. */
  datatype Snapshot = Snapshot(journal: Journal, tables: set<string>, rules: set<string>, policies: map<string, Policy>)

  /** Write-ahead: what carries a token is there only while the journal holds that token and its firewall. */
  predicate Safe(s: Snapshot) {
    && (forall t :: t in s.tables ==> s.journal.ValidJournal? && s.journal.record.token == t)
    && (forall t :: t in s.rules ==>
          s.journal.ValidJournal? && s.journal.record.token == t && s.journal.record.backend.Ufw?)
    && (forall t :: t in s.policies ==>
          s.journal.ValidJournal? && s.journal.record.token == t && s.journal.record.backend.Firewalld?)
  }

  predicate Clean(s: Snapshot) {
    s.tables == {} && s.rules == {} && s.policies == map[]
  }

  /** One step never replaces a record by one with another token. */
  predicate KeepsToken(before: Snapshot, after: Snapshot) {
    before.journal.ValidJournal? && after.journal.ValidJournal? ==>
      after.journal.record.token == before.journal.record.token
  }

  /** A history in which every point is safe and no step overwrites a token. */
  predicate Guarded(history: seq<Snapshot>) {
    && (forall i :: 0 <= i < |history| ==> Safe(history[i]))
    && (forall i :: 0 < i < |history| ==> KeepsToken(history[i - 1], history[i]))
  }

  datatype CommandResult = Success | Failed(cause: Cause)

  datatype Reading = ReadEmpty | ReadValid(record: Record) | ReadCorrupt | ReadFailure

  /** What listing the table says: it is there, it is there but the listing does not name it, it is known to be absent,
      or nothing is known. */
  datatype Listing = Listed | ListedOddly | KnownAbsent | NotKnown(cause: Cause)

  datatype PolicyInfo = Shown(policy: Policy) | InvalidPolicy(cause: Cause) | NoAnswer(cause: Cause)

  /** The host. Queries that give a definite answer are truthful; a command that reports success took effect. On a
      reliable host everything works. `readings` and `writes`: what reading the journal gave, and whether writing a record
      worked. */
  class Host {
    const reliable: bool
    var journal: Journal
    var tables: set<string>
    var rules: set<string>
    var policies: map<string, Policy>
    var history: seq<Snapshot>
    ghost var readings: seq<Reading>
    ghost var writes: seq<bool>

    constructor (start: Snapshot, reliable: bool)
      requires Safe(start)
      ensures Valid() && State() == start && this.reliable == reliable && history == [start]
    {
      readings, writes := [], [];
      this.reliable := reliable;
      journal, tables, rules, policies := start.journal, start.tables, start.rules, start.policies;
      history := [start];
    }

    function State(): Snapshot
      reads this
    {
      Snapshot(journal, tables, rules, policies)
    }

    ghost predicate Valid()
      reads this
    {
      Guarded(history) && history != [] && history[|history| - 1] == State()
    }

    /** A step that may have taken effect, and surely did if it reports success. */
    twostate predicate Stepped(new intended: Snapshot, ok: bool)
      reads this
    {
      && Valid() && old(history) <= history
      && (State() == intended || (!ok && State() == old(State())))
      && (reliable ==> ok)
    }

    method Read() returns (r: Reading)
      modifies this`readings
      ensures readings == old(readings) + [r]
      ensures r.ReadEmpty? ==> journal.EmptyJournal?
      ensures r.ReadValid? ==> journal == ValidJournal(r.record)
      ensures r.ReadCorrupt? ==> journal.CorruptJournal?
      ensures reliable ==> !r.ReadFailure?
    {
      var works: bool := *;
      if !works && !reliable {
        r := ReadFailure;
      } else {
        r := match journal
          case EmptyJournal => ReadEmpty
          case ValidJournal(record) => ReadValid(record)
          case CorruptJournal => ReadCorrupt;
      }
      readings := readings + [r];
    }

    /** `write_recovery_record`: replacing the file is one step, and it may report failure after that. */
    method Write(record: Record) returns (ok: bool)
      requires Valid()
      requires journal.EmptyJournal? || (journal.ValidJournal? && journal.record.token == record.token
                                         && journal.record.backend == record.backend)
      modifies this
      ensures Stepped(old(State()).(journal := ValidJournal(record)), ok)
      ensures readings == old(readings) && writes == old(writes) + [ok]
    {
      var takes: bool, reports: bool := *, *;
      if takes || reliable {
        journal := ValidJournal(record);
        history := history + [State()];
      }
      ok := reliable || (takes && reports);
      writes := writes + [ok];
    }

    /** `clear_recovery_record`. */
    method Clear() returns (ok: bool)
      requires Valid() && Clean(State())
      modifies this
      ensures Stepped(old(State()).(journal := EmptyJournal), ok)
    {
      var takes: bool, reports: bool := *, *;
      if takes || reliable {
        journal := EmptyJournal;
        history := history + [State()];
      }
      ok := reliable || (takes && reports);
    }

    method AnyResult(took: bool) returns (r: CommandResult)
      ensures r.Success? ==> took
      ensures reliable && took ==> r.Success?
    {
      var cause: Cause, reports: bool := *, *;
      r := if took && (reports || reliable) then Success else Failed(cause);
    }

    method AddTable(t: string) returns (r: CommandResult)
      requires Valid() && journal.ValidJournal? && journal.record.token == t
      modifies this
      ensures Stepped(old(State()).(tables := old(tables) + {t}), r.Success?)
    {
      var takes: bool := *;
      if takes || reliable {
        tables := tables + {t};
        history := history + [State()];
      }
      r := AnyResult(takes || reliable);
    }

    /** Adding the chain or the rule inside the table. */
    method EditTable() returns (r: CommandResult)
      ensures reliable ==> r.Success?
    {
      r := AnyResult(true);
    }

    method ListTable(t: string) returns (l: Listing)
      ensures l.Listed? || l.ListedOddly? ==> t in tables
      ensures l.KnownAbsent? ==> t !in tables
      ensures reliable ==> l.Listed? || l.KnownAbsent?
    {
      var cause: Cause, works: bool, odd: bool := *, *, *;
      if !works && !reliable {
        return NotKnown(cause);
      }
      return if t !in tables then KnownAbsent else if odd && !reliable then ListedOddly else Listed;
    }

    method DeleteTable(t: string) returns (r: CommandResult)
      requires Valid()
      modifies this
      ensures Stepped(old(State()).(tables := old(tables) - {t}), r.Success?)
    {
      var takes: bool := *;
      if takes || reliable {
        tables := tables - {t};
        history := history + [State()];
      }
      r := AnyResult(takes || reliable);
    }

    method AllowRule(t: string) returns (r: CommandResult)
      requires Valid() && journal.ValidJournal? && journal.record.token == t && journal.record.backend.Ufw?
      modifies this
      ensures Stepped(old(State()).(rules := old(rules) + {t}), r.Success?)
    {
      var takes: bool := *;
      if takes || reliable {
        rules := rules + {t};
        history := history + [State()];
      }
      r := AnyResult(takes || reliable);
    }

    method RulePresent(t: string) returns (present: Option<bool>)
      ensures present.Some? ==> present.value == (t in rules)
      ensures reliable ==> present.Some?
    {
      var works: bool := *;
      present := if works || reliable then Some(t in rules) else None;
    }

    method DeleteRule(t: string) returns (r: CommandResult)
      requires Valid()
      modifies this
      ensures Stepped(old(State()).(rules := old(rules) - {t}), r.Success?)
    {
      var takes: bool := *;
      if takes || reliable {
        rules := rules - {t};
        history := history + [State()];
      }
      r := AnyResult(takes || reliable);
    }

    /** Any of the commands that make a policy or add to it. */
    method SetPolicy(t: string, policy: Policy) returns (r: CommandResult)
      requires Valid() && journal.ValidJournal? && journal.record.token == t && journal.record.backend.Firewalld?
      modifies this
      ensures Stepped(old(State()).(policies := old(policies)[t := policy]), r.Success?)
    {
      var takes: bool := *;
      if takes || reliable {
        policies := policies[t := policy];
        history := history + [State()];
      }
      r := AnyResult(takes || reliable);
    }

    method InfoPolicy(t: string) returns (info: PolicyInfo)
      ensures info.Shown? ==> t in policies && policies[t] == info.policy
      ensures info.InvalidPolicy? ==> t !in policies
      ensures reliable ==> !info.NoAnswer?
    {
      var cause: Cause, works: bool := *, *;
      if !works && !reliable {
        return NoAnswer(cause);
      }
      return if t in policies then Shown(policies[t]) else InvalidPolicy(cause);
    }

    method DeletePolicy(t: string) returns (r: CommandResult)
      requires Valid()
      modifies this
      ensures Stepped(old(State()).(policies := old(policies) - {t}), r.Success?)
    {
      var takes: bool := *;
      if takes || reliable {
        policies := policies - {t};
        history := history + [State()];
      }
      r := AnyResult(takes || reliable);
    }

    /** Whether firewalld runs; when it does not, no policy is in force. */
    method FirewalldActive() returns (active: Option<bool>)
      ensures active == Some(false) ==> policies == map[]
    {
      var answer: Option<bool> := *;
      active := if answer == Some(false) && policies != map[] then None else answer;
    }
  }

  // ----- Configuring -----

  /** What a later removal works with; the paths say which tools were found or needed. */
  datatype Handle = Handle(record: Record, nftPath: bool, firewallPath: bool, zone: string)

  datatype Connection = NoConnectivity | Held(handle: Handle) | ConnectivityUnconfirmed

  /** The checks of the host and the consent of the user, which change nothing: a refusal, or the firewall to use and,
      for firewalld, the zone of the host's link. */
  datatype Inspection = Refused(cause: Cause) | Granted(backend: Backend, zone: string)

  /** The handle knows the journal's record and the firewall it may have to clean. */
  predicate Fits(h: Handle, s: Snapshot) {
    && (s.journal.ValidJournal? ==>
          s.journal.record.token == h.record.token && s.journal.record.backend == h.record.backend)
    && (s.rules != {} || s.policies != map[] ==> h.firewallPath)
  }

  /** The journal holds this handle's record. */
  predicate Recorded(h: Handle, s: Snapshot) {
    s.journal.ValidJournal? && s.journal.record.token == h.record.token && s.journal.record.backend == h.record.backend
  }

  /** The nft table with its chain and rule. */
  method MakeTable(host: Host, token: string) returns (added: bool, result: CommandResult)
    requires host.Valid() && host.journal.ValidJournal? && host.journal.record.token == token
    modifies host
    ensures host.Valid() && old(host.history) <= host.history
    ensures host.journal == old(host.journal) && host.rules == old(host.rules) && host.policies == old(host.policies)
    ensures result.Success? ==> added && token in host.tables
    ensures host.reliable ==> result.Success?
  {
    added := false;
    result := host.AddTable(token);
    if !result.Success? {
      return;
    }
    added := true;
    result := host.EditTable();
    if !result.Success? {
      return;
    }
    result := host.EditTable();
  }

  predicate ZoneCharacter(c: char) {
    '0' <= c <= '9' || 'A' <= c <= 'Z' || 'a' <= c <= 'z' || c == '_' || c == '-'
  }

  /** `firewalld_policy_matches` on a policy. */
  predicate PolicyMatches(policy: Policy, expectedZone: string, allowIncomplete: bool) {
    && (policy.ingress == "" || policy.ingress == expectedZone)
    && (allowIncomplete || (policy.ingress != "" && policy.egress && policy.rule))
    && (forall i :: 0 <= i < |policy.ingress| ==> ZoneCharacter(policy.ingress[i]))
  }

  /** A zone name that a listing can be compared with. */
  predicate ZoneText(zone: string) {
    forall i :: 0 <= i < |zone| ==> ZoneCharacter(zone[i])
  }

  /** `add_firewalld_policy`. */
  method AddPolicy(host: Host, token: string, zone: string) returns (ok: bool, cause: Cause)
    requires host.Valid() && host.journal.ValidJournal? && host.journal.record.token == token
    requires host.journal.record.backend.Firewalld?
    modifies host
    ensures host.Valid() && old(host.history) <= host.history
    ensures host.journal == old(host.journal) && host.rules == old(host.rules) && host.tables == old(host.tables)
    ensures ok ==> token in host.policies && PolicyMatches(host.policies[token], zone, false)
    ensures host.reliable ==>
              && (ok <==> zone != "" && ZoneText(zone))
              && token in host.policies && host.policies[token] == Policy(zone, true, true)
  {
    cause := SystemFailure;
    var result := host.SetPolicy(token, Policy("", false, false));
    if result.Success? {
      result := host.SetPolicy(token, Policy(zone, false, false));
    }
    if result.Success? {
      result := host.SetPolicy(token, Policy(zone, true, false));
    }
    if result.Success? {
      result := host.SetPolicy(token, Policy(zone, true, true));
    }
    if result.Failed? {
      return false, result.cause;
    }
    var info := host.InfoPolicy(token);
    ok := info.Shown? && PolicyMatches(info.policy, zone, false);
    cause := IdentityUnavailable;
  }

  /** The firewall's part of the configuration. */
  method OpenFirewall(host: Host, backend: Backend, token: string, zone: string) returns (ok: bool, cause: Cause)
    requires host.Valid() && host.journal.ValidJournal? && host.journal.record.token == token
    requires host.journal.record.backend == backend
    modifies host
    ensures host.Valid() && old(host.history) <= host.history
    ensures host.journal == old(host.journal) && host.tables == old(host.tables)
    ensures ok && backend.Ufw? ==> token in host.rules
    ensures ok && backend.Firewalld? ==> token in host.policies && PolicyMatches(host.policies[token], zone, false)
    ensures backend.Nftables? ==> ok && host.State() == old(host.State())
    ensures host.reliable ==>
              && (ok <==> (backend.Firewalld? ==> zone != "" && ZoneText(zone)))
              && (backend.Firewalld? ==> token in host.policies && host.policies[token] == Policy(zone, true, true))
  {
    ok, cause := true, SystemFailure;
    if backend.Ufw? {
      var result := host.AllowRule(token);
      var present := host.RulePresent(token);
      if !result.Success? || present != Some(true) {
        return false, if result.Failed? then result.cause else IdentityUnavailable;
      }
    } else if backend.Firewalld? {
      ok, cause := AddPolicy(host, token, zone);
    }
  }

  /** With firewalld the zone must have a name that can be recognized afterwards. */
  predicate Openable(inspection: Inspection)
    requires inspection.Granted?
  {
    inspection.backend.Firewalld? ==> inspection.zone != "" && ZoneText(inspection.zone)
  }

  /** Nothing was begun: the journal was just read and not found empty, or it was, and the record could not be written. */
  twostate predicate NotBegun(host: Host, cause: Cause)
    reads host
  {
    && |host.readings| == |old(host.readings)| + 1
    && if host.readings[|old(host.readings)|].ReadEmpty? then
         cause.SystemFailure? && host.writes == old(host.writes) + [false]
       else cause.UnsupportedHostConfiguration? && host.writes == old(host.writes)
  }

  /** `configure_connectivity`. The record is written before anything that carries its token, and everything is behind
      it at every step. Success means that the table is there, the firewall is open and the record says so; whatever
      may have been made is in the handle. On a reliable host it succeeds exactly when the checks and the user
      allow it, no earlier record is in the way, and with firewalld the zone has a name. */
  method ConfigureConnectivity(host: Host, inspection: Inspection, token: string)
      returns (succeeded: bool, cause: Cause, state: Connection)
    requires host.Valid() && ValidToken(token)
    modifies host
    ensures host.Valid() && old(host.history) <= host.history
    ensures succeeded ==>
              && state.Held? && inspection.Granted?
              && host.journal == ValidJournal(Record(inspection.backend, Applied, token))
              && token in host.tables
              && (inspection.backend.Ufw? ==> token in host.rules)
              && (inspection.backend.Firewalld? ==>
                    token in host.policies && PolicyMatches(host.policies[token], inspection.zone, false))
    ensures state.Held? ==> Fits(state.handle, host.State()) && Recorded(state.handle, host.State())
                            && old(host.journal).EmptyJournal?
    ensures state.NoConnectivity? ==> host.tables == old(host.tables) && host.rules == old(host.rules)
                                      && host.policies == old(host.policies)
    ensures !state.ConnectivityUnconfirmed? && (inspection.Refused? ==> !succeeded && host.State() == old(host.State()))
    ensures inspection.Refused? ==> cause == inspection.cause && state.NoConnectivity?
    ensures inspection.Granted? && state.NoConnectivity? ==> NotBegun(host, cause)
    ensures host.reliable ==>
              (succeeded <==> inspection.Granted? && old(host.journal).EmptyJournal? && Openable(inspection))
    ensures host.reliable && state.Held? ==>
              && state.handle.nftPath
              && (Removable(state.handle, host.State()) <==> (inspection.backend.Firewalld? ==> ZoneText(inspection.zone)))
  {
    if inspection.Refused? {
      return false, inspection.cause, NoConnectivity;
    }
    var existing := host.Read();
    if !existing.ReadEmpty? {
      return false, UnsupportedHostConfiguration, NoConnectivity;
    }
    var record := Record(inspection.backend, Intent, token);
    var written := host.Write(record);
    if !written {
      return false, SystemFailure, NoConnectivity;
    }
    var handle := Handle(record, false, false, "");
    var added, made := MakeTable(host, token);
    handle := handle.(nftPath := added);
    if made.Failed? {
      return false, made.cause, Held(handle);
    }
    handle := handle.(firewallPath := !inspection.backend.Nftables?,
                      zone := if inspection.backend.Firewalld? then inspection.zone else "");
    var open, why := OpenFirewall(host, inspection.backend, token, inspection.zone);
    if !open {
      return false, why, Held(handle);
    }
    var applied := record.(phase := Applied);
    var marked := host.Write(applied);
    if !marked {
      return false, SystemFailure, Held(handle);
    }
    return true, SystemFailure, Held(handle.(record := applied));
  }

  // ----- Removing -----

  /** What removing the firewall part does on a reliable host: everything but a policy whose zone is not the handle's. */
  predicate Removable(h: Handle, s: Snapshot) {
    h.record.backend.Firewalld? && h.record.token in s.policies ==>
      PolicyMatches(s.policies[h.record.token], h.zone, true)
  }

  /** `remove_firewall`. Success leaves nothing of the firewall that carries the token. */
  method RemoveFirewall(host: Host, h: Handle) returns (ok: bool, cause: Cause)
    requires host.Valid() && Recorded(h, host.State())
    modifies host
    ensures host.Valid() && old(host.history) <= host.history
    ensures host.journal == old(host.journal) && host.tables == old(host.tables)
    ensures ok ==> host.rules == {} && host.policies == map[]
    ensures host.reliable ==> (ok <==> Removable(h, old(host.State())))
    ensures Fits(h, old(host.State())) ==> Fits(h, host.State())
  {
    ok, cause := true, SystemFailure;
    if h.record.backend.Ufw? {
      ok, cause := RemoveRule(host, h.record.token);
    } else if h.record.backend.Firewalld? {
      ok, cause := RemovePolicy(host, h);
    }
  }

  method RemoveRule(host: Host, token: string) returns (ok: bool, cause: Cause)
    requires host.Valid() && host.journal.ValidJournal? && host.journal.record.token == token
    requires host.journal.record.backend.Ufw?
    modifies host
    ensures host.Valid() && old(host.history) <= host.history
    ensures host.journal == old(host.journal) && host.tables == old(host.tables) && host.policies == map[]
    ensures ok ==> host.rules == {}
    ensures host.rules <= old(host.rules) && (host.reliable ==> ok)
  {
    OnlyToken(host.State(), token);
    var present := host.RulePresent(token);
    if present.None? {
      return false, IdentityUnavailable;
    }
    if !present.value {
      return true, SystemFailure;
    }
    var result := host.DeleteRule(token);
    OnlyToken(host.State(), token);
    if result.Failed? {
      return false, result.cause;
    }
    var remains := host.RulePresent(token);
    ok := remains == Some(false);
    cause := if ok then SystemFailure else IdentityUnavailable;
  }

  /** Whatever is there carries the journal's token. */
  lemma OnlyToken(s: Snapshot, token: string)
    requires Safe(s) && s.journal.ValidJournal? && s.journal.record.token == token
    ensures s.tables <= {token} && s.rules <= {token} && s.policies.Keys <= {token}
    ensures token !in s.tables ==> s.tables == {}
    ensures token !in s.rules ==> s.rules == {}
    ensures token !in s.policies ==> s.policies == map[]
    ensures !s.journal.record.backend.Ufw? ==> s.rules == {}
    ensures !s.journal.record.backend.Firewalld? ==> s.policies == map[]
  {
  }

  method RemovePolicy(host: Host, h: Handle) returns (ok: bool, cause: Cause)
    requires host.Valid() && Recorded(h, host.State()) && h.record.backend.Firewalld?
    modifies host
    ensures host.Valid() && old(host.history) <= host.history
    ensures host.journal == old(host.journal) && host.tables == old(host.tables) && host.rules == {}
    ensures ok ==> host.policies == map[]
    ensures host.policies.Keys <= old(host.policies).Keys
    ensures host.reliable ==> (ok <==> Removable(h, old(host.State())))
  {
    var token := h.record.token;
    OnlyToken(host.State(), token);
    var info := host.InfoPolicy(token);
    if !info.Shown? {
      var gone := host.FirewalldActive();
      if gone == Some(false) || info.InvalidPolicy? {
        return true, SystemFailure;
      }
      return false, info.cause;
    }
    if !PolicyMatches(info.policy, h.zone, true) {
      return false, IdentityMismatch;
    }
    var result := host.DeletePolicy(token);
    OnlyToken(host.State(), token);
    if result.Failed? {
      return false, result.cause;
    }
    var again := host.InfoPolicy(token);
    if again.Shown? {
      return false, IdentityMismatch;
    }
    if again.InvalidPolicy? {
      return true, SystemFailure;
    }
    var active := host.FirewalldActive();
    ok := active == Some(false);
    cause := if ok then SystemFailure else again.cause;
  }

  /** The table's part of the removal: look, delete, look again. */
  method RemoveTable(host: Host, token: string) returns (state: Connection, cause: Cause)
    requires host.Valid() && host.journal.ValidJournal? && host.journal.record.token == token
    modifies host
    ensures host.Valid() && old(host.history) <= host.history
    ensures host.journal == old(host.journal) && host.rules == old(host.rules) && host.policies == old(host.policies)
    ensures state.NoConnectivity? ==> host.tables == {}
    ensures host.reliable ==> state.NoConnectivity?
    ensures state.ConnectivityUnconfirmed? ==> host.State() == old(host.State())
  {
    OnlyToken(host.State(), token);
    var kept := Held(Handle(host.journal.record, true, false, ""));
    var listing := host.ListTable(token);
    if listing.KnownAbsent? {
      return NoConnectivity, SystemFailure;
    }
    if listing.NotKnown? {
      return kept, listing.cause;
    }
    if listing.ListedOddly? {
      return ConnectivityUnconfirmed, IdentityMismatch;
    }
    var result := host.DeleteTable(token);
    OnlyToken(host.State(), token);
    if result.Failed? {
      return kept, result.cause;
    }
    var again := host.ListTable(token);
    if again.KnownAbsent? {
      return NoConnectivity, SystemFailure;
    }
    return kept, if again.NotKnown? then again.cause else IdentityMismatch;
  }

  /** `remove_connectivity`. Reporting that connectivity is gone means: no table, no rule, no policy, and an empty
      journal. A record with another token or an unreadable journal is left alone. On a reliable host it succeeds
      exactly when the firewall part is removable; `nftFound` says whether the tool can be found again. */
  method RemoveConnectivity(host: Host, handle: Handle, nftFound: bool) returns (cause: Cause, state: Connection)
    requires host.Valid() && Safe(host.State())
    requires host.rules != {} || host.policies != map[] ==> handle.firewallPath
    modifies host
    ensures host.Valid() && old(host.history) <= host.history
    ensures state.NoConnectivity? ==> Clean(host.State()) && host.journal.EmptyJournal?
    ensures state.Held? ==> Fits(state.handle, host.State()) && state.handle.record.token == handle.record.token
    ensures !Fits(handle, old(host.State())) ==>
              !state.NoConnectivity? && host.State() == old(host.State()) && !state.Held?
    ensures old(host.journal).CorruptJournal? ==> !state.NoConnectivity? && host.State() == old(host.State())
    ensures host.reliable && Fits(handle, old(host.State())) && !old(host.journal).CorruptJournal?
            && (nftFound || handle.nftPath) ==>
              (state.NoConnectivity? <==> !handle.firewallPath || Removable(handle, old(host.State())))
    ensures !nftFound && !handle.nftPath ==> !state.NoConnectivity?
  {
    var current := host.Read();
    var removing := handle.record;
    if current.ReadValid? && current.record.token == handle.record.token
       && current.record.backend == handle.record.backend {
      removing := current.record;
    } else if !current.ReadEmpty? {
      return IdentityMismatch, ConnectivityUnconfirmed;
    }
    removing := removing.(phase := Removing);
    var written := host.Write(removing);
    if !written {
      return SystemFailure, Held(handle);
    }
    var held := handle.(record := removing);
    if handle.firewallPath {
      var ok, why := RemoveFirewall(host, held);
      if !ok {
        return why, Held(held);
      }
    }
    if !handle.nftPath && !nftFound {
      return UnavailableOrInvalidTool, Held(held);
    }
    var left, cause1 := RemoveTable(host, removing.token);
    if left.ConnectivityUnconfirmed? {
      return cause1, ConnectivityUnconfirmed;
    }
    if left.Held? {
      return cause1, Held(held);
    }
    var cleared := host.Clear();
    if !cleared {
      return SystemFailure, Held(held);
    }
    return SystemFailure, NoConnectivity;
  }

  // ----- Reconciling -----

  /** The tools that can be found. */
  datatype Tools = Tools(nft: bool, ufw: bool, firewalld: bool)

  predicate HasTools(tools: Tools, backend: Backend) {
    tools.nft && (backend.Ufw? ==> tools.ufw) && (backend.Firewalld? ==> tools.firewalld)
  }

  /** A policy that the reconciliation can recognize: it was interrupted before it got its zone. */
  predicate WithoutZone(s: Snapshot) {
    s.journal.ValidJournal? && s.journal.record.token in s.policies ==>
      s.policies[s.journal.record.token].ingress == ""
  }

  /** `reconcile_pending_state`: what an interrupted run left behind is removed with a handle made from the record
      alone. Success means that nothing is left and the journal is empty. With reliable tools it completes for nftables
      and ufw always; for firewalld, because the zone of the policy is not in the record, exactly when the policy is
      absent or has no zone yet. */
  method ReconcilePendingState(host: Host, tools: Tools) returns (ok: bool, cause: Cause)
    requires host.Valid()
    modifies host
    ensures host.Valid() && old(host.history) <= host.history
    ensures ok ==> Clean(host.State()) && host.journal.EmptyJournal?
    ensures old(host.journal).CorruptJournal? ==> !ok && host.State() == old(host.State())
    ensures host.reliable && old(host.journal).ValidJournal? && HasTools(tools, old(host.journal).record.backend) ==>
              (ok <==> !old(host.journal).record.backend.Firewalld? || WithoutZone(old(host.State())))
    ensures host.reliable && old(host.journal).EmptyJournal? ==> ok && host.State() == old(host.State())
    ensures old(host.journal).ValidJournal? && !HasTools(tools, old(host.journal).record.backend) ==>
              !ok && host.State() == old(host.State())
  {
    var reading := host.Read();
    if reading.ReadEmpty? {
      NothingWithoutRecord(host.State());
      return true, SystemFailure;
    }
    if !reading.ReadValid? {
      return false, UnsupportedHostConfiguration;
    }
    var record := reading.record;
    if !HasTools(tools, record.backend) {
      return false, UnavailableOrInvalidTool;
    }
    var handle := Handle(record, true, !record.backend.Nftables?, "");
    OnlyToken(host.State(), record.token);
    ZoneDecides(handle, host.State());
    var why, state := RemoveConnectivity(host, handle, tools.nft);
    return state.NoConnectivity?, why;
  }

  lemma NothingWithoutRecord(s: Snapshot)
    requires Safe(s) && !s.journal.ValidJournal?
    ensures Clean(s)
  {
  }

  /** With an empty zone in the handle a policy is recognized exactly when it has no zone. */
  lemma ZoneDecides(h: Handle, s: Snapshot)
    requires h.zone == "" && s.journal == ValidJournal(h.record)
    ensures Removable(h, s) <==> !h.record.backend.Firewalld? || WithoutZone(s)
  {
  }

  // ----- Any number of runs -----

  /** What one run of the program meets: the tools it finds, the checks and the consent, a fresh token, and how often it
      tries to remove what it configured. */
  datatype Plan = Plan(reliable: bool, tools: Tools, inspection: Inspection, token: string, removals: nat)

  /** One run, as far as it goes: what an earlier run left is reconciled first, then connectivity is configured, and what
      is held is removed, with retries. A reliable run that could reconcile configures exactly when it is allowed to, and
      its first removal leaves nothing behind. */
  method RunProgram(host: Host, plan: Plan) returns (reconciled: bool, configured: bool, left: Connection)
    requires host.Valid() && host.reliable == plan.reliable && ValidToken(plan.token)
    modifies host
    ensures host.Valid() && old(host.history) <= host.history
    ensures plan.reliable && old(host.journal).ValidJournal? && HasTools(plan.tools, old(host.journal).record.backend) ==>
              (reconciled <==> !old(host.journal).record.backend.Firewalld? || WithoutZone(old(host.State())))
    ensures plan.reliable && old(host.journal).EmptyJournal? ==> reconciled
    ensures reconciled && left.NoConnectivity? ==> Clean(host.State())
    ensures configured ==> reconciled && plan.inspection.Granted?
    ensures configured && plan.removals == 0 ==>
              && left.Held? && plan.token in host.tables
              && host.journal == ValidJournal(Record(plan.inspection.backend, Applied, plan.token))
    ensures plan.reliable && reconciled ==> (configured <==> plan.inspection.Granted? && Openable(plan.inspection))
    ensures plan.reliable && configured && plan.removals > 0 ==>
              left.NoConnectivity? && Clean(host.State()) && host.journal.EmptyJournal?
  {
    var cause;
    left, configured := NoConnectivity, false;
    reconciled, cause := ReconcilePendingState(host, plan.tools);
    if !reconciled {
      return;
    }
    configured, cause, left := ConfigureConnectivity(host, plan.inspection, plan.token);
    var tries := plan.removals;
    while left.Held? && tries > 0
      invariant host.Valid() && old(host.history) <= host.history && 0 <= tries <= plan.removals
      invariant left.Held? ==> Fits(left.handle, host.State())
      invariant left.NoConnectivity? ==> Clean(host.State())
      invariant configured && tries == plan.removals ==>
                  && left.Held? && plan.token in host.tables
                  && host.journal == ValidJournal(Record(plan.inspection.backend, Applied, plan.token))
      invariant plan.reliable && configured ==>
                  if tries == plan.removals then left.handle.nftPath && Removable(left.handle, host.State())
                  else left.NoConnectivity? && host.journal.EmptyJournal?
    {
      cause, left := RemoveConnectivity(host, left.handle, plan.tools.nft);
      tries := tries - 1;
    }
  }

  /** What a reboot, a flushed ruleset or a stopped firewalld takes away; the journal stays. */
  function Weakened(s: Snapshot, kept: Snapshot): Snapshot {
    Snapshot(s.journal, s.tables * kept.tables, s.rules * kept.rules,
             map t | t in s.policies && t in kept.policies :: kept.policies[t])
  }

  /** A run may be interrupted after any of its steps, and before the next one the machine may lose anything but the
      journal. */
  datatype Interruption = Interruption(cut: nat, kept: Snapshot)

  function LeftBehind(history: seq<Snapshot>, interruption: Interruption): Snapshot
    requires history != []
  {
    Weakened(history[if interruption.cut < |history| then interruption.cut else |history| - 1], interruption.kept)
  }

  /** Each run starts from what the interruption of the one before left behind. */
  predicate Continues(histories: seq<seq<Snapshot>>, interruptions: seq<Interruption>)
    requires |histories| <= |interruptions|
  {
    && (forall i :: 0 <= i < |histories| ==> histories[i] != [])
    && (forall i :: 0 < i < |histories| ==> histories[i][0] == LeftBehind(histories[i - 1], interruptions[i - 1]))
  }

  /** Any number of runs, each interrupted at any point: at every point of every one of them, what carries a token is
      there only while the journal holds that token, and no record is overwritten by one with another token. */
  method RunInterrupted(start: Snapshot, plans: seq<Plan>, interruptions: seq<Interruption>)
      returns (histories: seq<seq<Snapshot>>)
    requires Safe(start) && |interruptions| == |plans|
    requires forall p :: p in plans ==> ValidToken(p.token)
    ensures |histories| == |plans| && Continues(histories, interruptions)
    ensures plans != [] ==> histories[0][0] == start
    ensures forall i :: 0 <= i < |histories| ==> Guarded(histories[i])
  {
    histories := [];
    var current := start;
    for i := 0 to |plans|
      invariant |histories| == i && Safe(current) && Continues(histories, interruptions)
      invariant i == 0 ==> current == start
      invariant i > 0 ==> current == LeftBehind(histories[i - 1], interruptions[i - 1]) && histories[0][0] == start
      invariant forall k :: 0 <= k < i ==> Guarded(histories[k])
    {
      var host := new Host(current, plans[i].reliable);
      assert plans[i] in plans;
      var reconciled, configured, left := RunProgram(host, plans[i]);
      assert host.history[0] == current;
      histories := histories + [host.history];
      var interruption := interruptions[i];
      WeakerIsSafe(host.history[if interruption.cut < |host.history| then interruption.cut else |host.history| - 1],
                   interruption.kept);
      current := LeftBehind(host.history, interruption);
    }
  }

  lemma WeakerIsSafe(s: Snapshot, kept: Snapshot)
    requires Safe(s)
    ensures Safe(Weakened(s, kept))
  {
  }

  /** The gap of the recovery, in one concrete case: a firewalld policy with its zone is what a finished configuration
      leaves; it is not removable with the handle the reconciliation makes. */
  lemma FirewalldIsNotRecovered(token: string)
    requires ValidToken(token)
    ensures var s := Snapshot(ValidJournal(Record(Firewalld, Applied, token)), {token}, {},
                              map[token := Policy("public", true, true)]);
            && Safe(s) && PolicyMatches(s.policies[token], "public", false)
            && !Removable(Handle(Record(Firewalld, Applied, token), true, true, ""), s)
            && !WithoutZone(s)
  {
    var zone := "public";
    assert |zone| == 6 && forall i :: 0 <= i < 6 ==> ZoneCharacter(zone[i]);
  }
}
