/** The route dump of the preflight check: netlink messages (framing: RFC 3549 section 2.3.2) in datagrams
    from the kernel, decoded in place. A dump is also described from the outside, as routes with attributes
    that are laid out in bytes, and the decoder is shown to accept exactly the layouts of dumps in which no
    route meets the Session subnet. */
module RouteDump {
  import opened Wrappers
  import opened Hexadecimal
  import opened Ipv4Prefixes

  datatype Status = Pending | Complete | Collision | NetlinkError | Malformed

  // Constants of the netlink headers the decoder is compiled against.
  const HEADER_LENGTH := 16       // NLMSG_HDRLEN, sizeof(nlmsghdr)
  const ROUTE_LENGTH := 12        // sizeof(rtmsg)
  const ERROR_LENGTH := 20        // sizeof(nlmsgerr)
  const ATTRIBUTE_HEADER := 4     // RTA_LENGTH(0)
  const ERROR_MESSAGE := 2        // NLMSG_ERROR
  const DONE_MESSAGE := 3         // NLMSG_DONE
  const NEW_ROUTE := 24           // RTM_NEWROUTE
  const FAMILY_INET := 2          // AF_INET
  const DESTINATION := 1          // RTA_DST
  const TABLE := 15               // RTA_TABLE

  /** The decoder is only ever given a prefix of a receive buffer of this size. */
  const RECEIVE_BUFFER := 65536

  // ---- Integers in memory (little-endian host; addresses in network order) ----

  function Unsigned16(b: seq<Byte>): (n: nat)
    requires |b| == 2
    ensures n < 0x1_0000
  {
    b[0] as int + 0x100 * b[1] as int
  }

  function Unsigned32(b: seq<Byte>): (n: nat)
    requires |b| == 4
    ensures n < 0x1_0000_0000
  {
    b[0] as int + 0x100 * b[1] as int + 0x1_0000 * b[2] as int + 0x100_0000 * b[3] as int
  }

  function Signed32(b: seq<Byte>): int
    requires |b| == 4
  {
    var n := Unsigned32(b);
    if n < 0x8000_0000 then n else n - 0x1_0000_0000
  }

  /** `ntohl` of four bytes copied from memory. */
  function NetworkOrder(b: seq<Byte>): bv32
    requires |b| == 4
  {
    Unsigned32([b[3], b[2], b[1], b[0]]) as bv32
  }

  function Put16(n: nat): (b: seq<Byte>)
    requires n < 0x1_0000
    ensures |b| == 2 && Unsigned16(b) == n
  {
    [n % 0x100, n / 0x100]
  }

  function Put32(n: nat): (b: seq<Byte>)
    requires n < 0x1_0000_0000
    ensures |b| == 4 && Unsigned32(b) == n
  {
    var low, high := n % 0x1_0000, n / 0x1_0000;
    [low % 0x100, low / 0x100, high % 0x100, high / 0x100]
  }

  lemma Put16Again(b: seq<Byte>)
    requires |b| == 2
    ensures Put16(Unsigned16(b)) == b
  {
  }

  lemma Put32Again(b: seq<Byte>)
    requires |b| == 4
    ensures Put32(Unsigned32(b)) == b
  {
    var low: int, high: int := b[0] as int + 0x100 * b[1] as int, b[2] as int + 0x100 * b[3] as int;
    assert Unsigned32(b) == low + 0x1_0000 * high;
  }

  /** `NLMSG_ALIGN` works in 32 bits and `RTA_ALIGN` in `int`; the sum wraps only in the first. */
  function Aligned(length: nat): nat {
    (length + 3) % 0x1_0000_0000 / 4 * 4
  }

  /** The only lengths for which alignment loses ground are the last three below 2^32. A receive buffer
      keeps them out of reach; a decoder given four gigabytes would not advance over such a message. */
  lemma AlignmentAdvances(length: nat)
    requires length < 0x1_0000_0000
    ensures Aligned(length) >= length <==> length <= 0xffff_fffc
    ensures length > 0xffff_fffc ==> Aligned(length) == 0
  {
  }

  predicate MultiPart(flags: nat) {
    flags / 2 % 2 == 1
  }

  predicate Interrupted(flags: nat) {
    flags / 0x10 % 2 == 1
  }

  /** `copy_object` for an object of `size` bytes. */
  function CopyObject(bytes: seq<Byte>, offset: nat, size: nat): (r: Option<seq<Byte>>)
    ensures r.Some? <==> offset + size <= |bytes|
    ensures r.Some? ==> r.value == bytes[offset..offset + size]
  {
    if offset > |bytes| || |bytes| - offset < size then None else Some(bytes[offset..offset + size])
  }

  // ---- The decoder, as functions of what is left to read ----

  datatype Walk = Rejected | Walked(destination: Option<seq<Byte>>)

  function WalkAttributes(rest: seq<Byte>, destination: Option<seq<Byte>>, hasTable: bool): (w: Walk)
    requires destination.Some? ==> |destination.value| == 4
    ensures w.Walked? && w.destination.Some? ==> |w.destination.value| == 4
    decreases |rest|
  {
    if |rest| == 0 then Walked(destination)
    else if |rest| < 4 then Rejected
    else
      var length, kind := Unsigned16(rest[..2]), Unsigned16(rest[2..4]);
      if length < ATTRIBUTE_HEADER || length > |rest| then Rejected
      else
        var payload := rest[4..length];
        if kind == DESTINATION && (destination.Some? || |payload| != 4) then Rejected
        else if kind == TABLE && (hasTable || |payload| != 4) then Rejected
        else if Aligned(length) > |rest| then Rejected
        else
          WalkAttributes(rest[Aligned(length)..],
                         if kind == DESTINATION then Some(payload) else destination, hasTable || kind == TABLE)
  }

  /** `inspect_route` on a message cut to its own length. */
  function RouteStatus(message: seq<Byte>): (status: Status)
    requires |message| >= HEADER_LENGTH
    ensures status != NetlinkError && status != Complete
  {
    if |message| < HEADER_LENGTH + ROUTE_LENGTH then Malformed
    else if message[16] != FAMILY_INET then Pending
    else if message[17] > 32 then Malformed
    else
      match WalkAttributes(message[28..], None, false)
      case Rejected => Malformed
      case Walked(destination) =>
        if message[17] != 0 && destination.None? then Malformed
        else if message[17] == 0 then Pending
        else if PrefixesOverlap(Ipv4Prefix(NetworkOrder(destination.value), message[17] as bv8), SESSION_SUBNET)
        then Collision
        else Pending
  }

  datatype Reading = Reading(status: Status, error: nat)

  function Magnitude(n: int): nat {
    if n < 0 then -n else n
  }

  datatype Header = Header(length: nat, kind: nat, flags: nat, sequence: nat, port: nat)

  function ReadHeader(b: seq<Byte>): Header
    requires |b| == HEADER_LENGTH
  {
    Header(Unsigned32(b[0..4]), Unsigned16(b[4..6]), Unsigned16(b[6..8]), Unsigned32(b[8..12]), Unsigned32(b[12..16]))
  }

  /** Whether a header may be followed at all: the checks before the message type is looked at. */
  predicate Usable(header: Header, available: nat, sequence: nat, port: nat) {
    && HEADER_LENGTH <= header.length <= available
    && header.sequence == sequence && header.port == port
    && !Interrupted(header.flags)
    && Aligned(header.length) <= available
  }

  function ReadDone(header: Header, message: seq<Byte>, last: bool): Reading
    requires |message| >= HEADER_LENGTH
  {
    if !MultiPart(header.flags) || !last then Reading(Malformed, 0)
    else if |message| == HEADER_LENGTH then Reading(Complete, 0)
    else if |message| < HEADER_LENGTH + 4 then Reading(Malformed, 0)
    else
      var error := Signed32(message[16..20]);
      if error != 0 then Reading(NetlinkError, Magnitude(error)) else Reading(Complete, 0)
  }

  function ReadError(message: seq<Byte>, last: bool): Reading
    requires |message| >= HEADER_LENGTH
  {
    if !last || |message| < HEADER_LENGTH + ERROR_LENGTH then Reading(Malformed, 0)
    else
      var error := Signed32(message[16..20]);
      if error == 0 then Reading(Malformed, 0) else Reading(NetlinkError, Magnitude(error))
  }

  /** What `consume` makes of the rest of a datagram while the decoder is still pending. */
  function ReadMessages(rest: seq<Byte>, sequence: nat, port: nat): Reading
    requires |rest| <= RECEIVE_BUFFER
    decreases |rest|
  {
    if |rest| == 0 then Reading(Pending, 0)
    else if |rest| < HEADER_LENGTH then Reading(Malformed, 0)
    else
      var header := ReadHeader(rest[..16]);
      if !Usable(header, |rest|, sequence, port) then Reading(Malformed, 0)
      else
        var message := rest[..header.length];
        var last := Aligned(header.length) == |rest|;
        if header.kind == DONE_MESSAGE then ReadDone(header, message, last)
        else if header.kind == ERROR_MESSAGE then ReadError(message, last)
        else if header.kind != NEW_ROUTE || !MultiPart(header.flags) then Reading(Malformed, 0)
        else if RouteStatus(message) != Pending then Reading(RouteStatus(message), 0)
        else ReadMessages(rest[Aligned(header.length)..], sequence, port)
  }

  // ---- The decoder itself ----

  /** `inspect_route`, on the span of one message. */
  method InspectRoute(message: seq<Byte>) returns (status: Status)
    requires HEADER_LENGTH <= |message| <= RECEIVE_BUFFER
    ensures status == RouteStatus(message)
  {
    hide PrefixesOverlap, NetworkOrder, Unsigned16, Aligned;
    if |message| < HEADER_LENGTH + ROUTE_LENGTH {
      return Malformed;
    }
    var route := CopyObject(message, HEADER_LENGTH, ROUTE_LENGTH);
    if route.None? {
      return Malformed;
    }
    if route.value[0] != FAMILY_INET {
      return Pending;
    }
    if route.value[1] > 32 {
      return Malformed;
    }
    var destination: seq<Byte> := [0, 0, 0, 0];
    var hasDestination, hasTable := false, false;
    var offset := HEADER_LENGTH + ROUTE_LENGTH;
    var remaining := |message| - offset;
    while remaining != 0
      invariant offset <= |message| && offset + remaining == |message| && |destination| == 4
      invariant WalkAttributes(message[28..], None, false)
                == WalkAttributes(message[offset..], if hasDestination then Some(destination) else None, hasTable)
      decreases remaining
    {
      var attribute := CopyObject(message, offset, 4);
      if attribute.None? {
        return Malformed;
      }
      var length, kind := Unsigned16(attribute.value[..2]), Unsigned16(attribute.value[2..]);
      assert attribute.value[..2] == message[offset..][..2] && attribute.value[2..] == message[offset..][2..4];
      if length < ATTRIBUTE_HEADER || length > remaining {
        return Malformed;
      }
      var payloadLength := length - ATTRIBUTE_HEADER;
      assert |message[offset..][4..length]| == payloadLength;
      if kind == DESTINATION {
        var copied := CopyObject(message, offset + ATTRIBUTE_HEADER, 4);
        if hasDestination || payloadLength != 4 || copied.None? {
          return Malformed;
        }
        assert copied.value == message[offset..][4..length];
        destination := copied.value;
        hasDestination := true;
      } else if kind == TABLE {
        var table := CopyObject(message, offset + ATTRIBUTE_HEADER, 4);
        if hasTable || payloadLength != 4 || table.None? {
          return Malformed;
        }
        hasTable := true;
      }
      var alignedLength := Aligned(length);
      AlignmentAdvances(length);
      if alignedLength > remaining {
        return Malformed;
      }
      assert message[offset..][alignedLength..] == message[offset + alignedLength..];
      offset := offset + alignedLength;
      remaining := remaining - alignedLength;
    }
    if route.value[1] != 0 && !hasDestination {
      return Malformed;
    }
    if route.value[1] == 0 {
      return Pending;
    }
    var prefix := Ipv4Prefix(NetworkOrder(destination), route.value[1] as bv8);
    status := if PrefixesOverlap(prefix, SESSION_SUBNET) then Collision else Pending;
  }

  class RouteDumpDecoder {
    const sequence: nat
    const port: nat
    var status: Status
    var errorNumber: nat

    constructor (sequence: nat, port: nat)
      ensures this.sequence == sequence && this.port == port
      ensures status == Pending && errorNumber == 0
    {
      this.sequence, this.port := sequence, port;
      status, errorNumber := Pending, 0;
    }

    /** The end of the dump, which may report an error of its own. */
    method FinishDump(header: Header, message: seq<Byte>, last: bool)
      requires |message| >= HEADER_LENGTH && status == Pending
      modifies this
      ensures status == ReadDone(header, message, last).status
      ensures status == NetlinkError ==> errorNumber == ReadDone(header, message, last).error
      ensures status != NetlinkError ==> errorNumber == old(errorNumber)
    {
      if !MultiPart(header.flags) || !last {
        status := Malformed;
        return;
      }
      if |message| != HEADER_LENGTH {
        var copied := CopyObject(message, HEADER_LENGTH, 4);
        if copied.None? {
          status := Malformed;
          return;
        }
        var error := Signed32(copied.value);
        if error != 0 {
          errorNumber := if error < 0 then -error else error;
          status := NetlinkError;
          return;
        }
      }
      status := Complete;
    }

    /** An error in place of the dump. */
    method ReportError(message: seq<Byte>, last: bool)
      requires |message| >= HEADER_LENGTH && status == Pending
      modifies this
      ensures status == ReadError(message, last).status
      ensures status == NetlinkError ==> errorNumber == ReadError(message, last).error
      ensures status != NetlinkError ==> errorNumber == old(errorNumber)
    {
      if !last || |message| < HEADER_LENGTH + ERROR_LENGTH {
        status := Malformed;
        return;
      }
      var copied := CopyObject(message, HEADER_LENGTH, 4);
      var error := Signed32(copied.value);
      if error == 0 {
        status := Malformed;
      } else {
        errorNumber := if error < 0 then -error else error;
        status := NetlinkError;
      }
    }

    /** `consume`: only a pending decoder looks at a datagram at all. */
    method Consume(bytes: seq<Byte>) returns (after: Status)
      requires |bytes| <= RECEIVE_BUFFER
      modifies this
      ensures after == status
      ensures old(status) != Pending ==> status == old(status) && errorNumber == old(errorNumber)
      ensures old(status) == Pending ==> status == DatagramReading(bytes, sequence, port).status
      ensures old(status) == Pending ==>
                errorNumber == if status == NetlinkError then DatagramReading(bytes, sequence, port).error
                               else old(errorNumber)
    {
      hide PrefixesOverlap, RouteStatus, ReadHeader, ReadDone, ReadError, MultiPart, Interrupted;
      if status != Pending {
        return status;
      }
      if bytes == [] {
        status := Malformed;
        return status;
      }
      var offset := 0;
      while offset < |bytes|
        invariant offset <= |bytes| && status == Pending && errorNumber == old(errorNumber)
        invariant ReadMessages(bytes, sequence, port) == ReadMessages(bytes[offset..], sequence, port)
      {
        ghost var rest := bytes[offset..];
        if |bytes| - offset < HEADER_LENGTH {
          status := Malformed;
          return status;
        }
        var copied := CopyObject(bytes, offset, HEADER_LENGTH);
        assert copied.value == rest[..16];
        var header := ReadHeader(copied.value);
        if || header.length < HEADER_LENGTH || header.length > |bytes| - offset
           || header.sequence != sequence || header.port != port || Interrupted(header.flags) {
          status := Malformed;
          return status;
        }
        var message := bytes[offset..offset + header.length];
        assert message == rest[..header.length];
        var alignedLength := Aligned(header.length);
        if alignedLength > |bytes| - offset {
          status := Malformed;
          return status;
        }
        if header.kind == DONE_MESSAGE {
          FinishDump(header, message, alignedLength == |bytes| - offset);
          return status;
        }
        if header.kind == ERROR_MESSAGE {
          ReportError(message, alignedLength == |bytes| - offset);
          return status;
        }
        if header.kind != NEW_ROUTE || !MultiPart(header.flags) {
          status := Malformed;
          return status;
        }
        var routeStatus := InspectRoute(message);
        if routeStatus != Pending {
          status := routeStatus;
          return status;
        }
        assert rest[alignedLength..] == bytes[offset + alignedLength..];
        offset := offset + alignedLength;
      }
      return status;
    }
  }

  /** What a pending decoder makes of a whole datagram. */
  function DatagramReading(bytes: seq<Byte>, sequence: nat, port: nat): Reading
    requires |bytes| <= RECEIVE_BUFFER
  {
    if bytes == [] then Reading(Malformed, 0) else ReadMessages(bytes, sequence, port)
  }

  // ---- Dumps described from the outside ----

  datatype Attribute = Attribute(kind: nat, payload: seq<Byte>, padding: seq<Byte>) {

    predicate Fits() {
      && kind < 0x1_0000 && Length() < 0x1_0000
      && Length() + |padding| == Aligned(Length())
    }

    function Length(): nat {
      ATTRIBUTE_HEADER + |payload|
    }

    function Bytes(): (b: seq<Byte>)
      requires Fits()
      ensures |b| == Aligned(Length())
    {
      Put16(Length()) + Put16(kind) + payload + padding
    }
  }

  predicate AttributesFit(attributes: seq<Attribute>) {
    forall a :: a in attributes ==> a.Fits()
  }

  function AttributesBytes(attributes: seq<Attribute>): seq<Byte>
    requires AttributesFit(attributes)
  {
    if attributes == [] then [] else attributes[0].Bytes() + AttributesBytes(attributes[1..])
  }

  function Count(attributes: seq<Attribute>, kind: nat): nat {
    if attributes == [] then 0 else (if attributes[0].kind == kind then 1 else 0) + Count(attributes[1..], kind)
  }

  /** Destination and table appear at most once each, counting those already `seen`, and hold four bytes. */
  predicate Admissible(attributes: seq<Attribute>, seenDestination: bool, seenTable: bool) {
    && (forall a :: a in attributes && a.kind in {DESTINATION, TABLE} ==> |a.payload| == 4)
    && Count(attributes, DESTINATION) + (if seenDestination then 1 else 0) <= 1
    && Count(attributes, TABLE) + (if seenTable then 1 else 0) <= 1
  }

  function Destination(attributes: seq<Attribute>): Option<seq<Byte>> {
    if attributes == [] then None
    else if attributes[0].kind == DESTINATION then Some(attributes[0].payload)
    else Destination(attributes[1..])
  }

  datatype Route =
    | Inet(prefixLength: Byte, fields: seq<Byte>, attributes: seq<Attribute>)
    | Foreign(family: Byte, body: seq<Byte>)
  {
    predicate Fits() {
      match this
      case Inet(_, fields, attributes) => |fields| == ROUTE_LENGTH - 2 && AttributesFit(attributes)
      case Foreign(family, body) => family != FAMILY_INET && |body| >= ROUTE_LENGTH - 1
    }

    function Bytes(): (b: seq<Byte>)
      requires Fits()
      ensures |b| >= ROUTE_LENGTH
    {
      match this
      case Inet(prefixLength, fields, attributes) => [FAMILY_INET, prefixLength] + fields + AttributesBytes(attributes)
      case Foreign(family, body) => [family] + body
    }

    /** What the decoder can make sense of. Other families are never looked into. */
    predicate Legible() {
      Inet? ==>
        && prefixLength <= 32 && Admissible(attributes, false, false)
        && (prefixLength != 0 ==> Destination(attributes).Some?)
    }

    /** A non-default IPv4 route, of any table, with an address in the Session subnet. */
    ghost predicate MeetsSession() {
      && Inet? && 0 < prefixLength <= 32
      && Destination(attributes).Some? && |Destination(attributes).value| == 4
      && ShareAnAddress(Ipv4Prefix(NetworkOrder(Destination(attributes).value), prefixLength as bv8), SESSION_SUBNET)
    }
  }

  /** Walking the layout of a list of attributes finds its destination, or rejects an inadmissible list. */
  lemma {:induction false} WalkOfLayout(attributes: seq<Attribute>, seen: Option<seq<Byte>>, hasTable: bool)
    requires AttributesFit(attributes)
    requires seen.Some? ==> |seen.value| == 4
    ensures WalkAttributes(AttributesBytes(attributes), seen, hasTable)
            == if Admissible(attributes, seen.Some?, hasTable)
               then Walked(if seen.Some? then seen else Destination(attributes)) else Rejected
  {
    if attributes == [] {
    } else {
      var a, rest := attributes[0], attributes[1..];
      var bytes := AttributesBytes(attributes);
      var length := a.Length();
      assert bytes[..2] == Put16(length);
      assert bytes[2..4] == Put16(a.kind);
      assert bytes[4..length] == a.payload;
      assert bytes[Aligned(length)..] == AttributesBytes(rest);
      WalkOfLayout(rest, if a.kind == DESTINATION && |a.payload| == 4 then Some(a.payload) else seen,
                   hasTable || a.kind == TABLE);
      assert forall b :: b in attributes <==> b == a || b in rest;
      NoDestinationCounted(rest);
    }
  }

  lemma {:induction false} NoDestinationCounted(attributes: seq<Attribute>)
    ensures Count(attributes, DESTINATION) == 0 ==> Destination(attributes).None?
  {
    if attributes != [] {
      NoDestinationCounted(attributes[1..]);
    }
  }

  /** Whatever the walk accepts is the layout of some list of attributes. */
  lemma {:induction false} LayoutOfWalk(rest: seq<Byte>, seen: Option<seq<Byte>>, hasTable: bool)
    returns (attributes: seq<Attribute>)
    requires seen.Some? ==> |seen.value| == 4
    requires WalkAttributes(rest, seen, hasTable).Walked?
    ensures AttributesFit(attributes) && AttributesBytes(attributes) == rest
    decreases |rest|
  {
    hide Put16, Unsigned16, Aligned;
    if |rest| == 0 {
      attributes := [];
    } else {
      var length, kind := Unsigned16(rest[..2]), Unsigned16(rest[2..4]);
      AlignmentAdvances(length);
      var a := Attribute(kind, rest[4..length], rest[length..Aligned(length)]);
      var tail := LayoutOfWalk(rest[Aligned(length)..],
                               if kind == DESTINATION then Some(a.payload) else seen, hasTable || kind == TABLE);
      attributes := [a] + tail;
      Put16Again(rest[..2]);
      Put16Again(rest[2..4]);
      assert a.Bytes() == rest[..Aligned(length)];
      assert attributes[1..] == tail;
    }
  }

  /** The status a route message earns is told by the route it lays out. */
  lemma RouteStatusOfLayout(header: seq<Byte>, route: Route)
    requires |header| == HEADER_LENGTH && route.Fits()
    ensures RouteStatus(header + route.Bytes())
            == if !route.Legible() then Malformed else if route.MeetsSession() then Collision else Pending
  {
    hide AttributesBytes, Aligned, PrefixMask;
    var message := header + route.Bytes();
    match route
    case Inet(prefixLength, fields, attributes) =>
      assert message[28..] == AttributesBytes(attributes);
      assert message[16] == FAMILY_INET && message[17] == prefixLength;
      WalkOfLayout(attributes, None, false);
      if route.Legible() && prefixLength != 0 {
        DestinationHasFourBytes(attributes);
        OverlapIsExact(Ipv4Prefix(NetworkOrder(Destination(attributes).value), prefixLength as bv8), SESSION_SUBNET);
      }
    case Foreign(family, body) =>
      assert message[16] == family;
  }

  lemma {:induction false} DestinationHasFourBytes(attributes: seq<Attribute>)
    requires forall a :: a in attributes && a.kind in {DESTINATION, TABLE} ==> |a.payload| == 4
    ensures Destination(attributes).Some? ==> |Destination(attributes).value| == 4
  {
    if attributes != [] {
      assert attributes[0] in attributes;
      DestinationHasFourBytes(attributes[1..]);
    }
  }

  /** Every message that is not malformed lays out a route. */
  lemma LayoutOfRoute(message: seq<Byte>) returns (route: Route)
    requires |message| >= HEADER_LENGTH && RouteStatus(message) != Malformed
    ensures route.Fits() && message == message[..16] + route.Bytes()
  {
    hide AttributesFit, AttributesBytes, PrefixesOverlap;
    if message[16] != FAMILY_INET {
      route := Foreign(message[16], message[17..]);
      assert message[16..] == [message[16]] + message[17..];
    } else {
      var attributes := LayoutOfWalk(message[28..], None, false);
      route := LayoutOfInet(message, attributes);
    }
  }

  lemma LayoutOfInet(message: seq<Byte>, attributes: seq<Attribute>) returns (route: Route)
    requires |message| >= HEADER_LENGTH + ROUTE_LENGTH && message[16] == FAMILY_INET
    requires AttributesFit(attributes) && AttributesBytes(attributes) == message[28..]
    ensures route.Fits() && message == message[..16] + route.Bytes()
  {
    hide AttributesFit, AttributesBytes;
    route := Inet(message[17], message[18..28], attributes);
    assert [FAMILY_INET, message[17]] + message[18..28] == message[16..28];
    assert message[16..28] + message[28..] == message[16..];
  }

  function HeaderBytes(header: Header): (b: seq<Byte>)
    requires header.length < 0x1_0000_0000 && header.sequence < 0x1_0000_0000 && header.port < 0x1_0000_0000
    requires header.kind < 0x1_0000 && header.flags < 0x1_0000
    ensures |b| == HEADER_LENGTH
  {
    Put32(header.length) + Put16(header.kind) + Put16(header.flags) + Put32(header.sequence) + Put32(header.port)
  }

  lemma HeaderRoundTrip(header: Header)
    requires header.length < 0x1_0000_0000 && header.sequence < 0x1_0000_0000 && header.port < 0x1_0000_0000
    requires header.kind < 0x1_0000 && header.flags < 0x1_0000
    ensures ReadHeader(HeaderBytes(header)) == header
  {
    hide Put16, Put32, Unsigned16, Unsigned32;
    var b := HeaderBytes(header);
    assert b[0..4] == Put32(header.length) && b[4..6] == Put16(header.kind) && b[6..8] == Put16(header.flags);
    assert b[8..12] == Put32(header.sequence) && b[12..16] == Put32(header.port);
  }

  lemma HeaderIsCanonical(b: seq<Byte>)
    requires |b| == HEADER_LENGTH
    ensures HeaderBytes(ReadHeader(b)) == b
  {
    Put32Again(b[0..4]);
    Put16Again(b[4..6]);
    Put16Again(b[6..8]);
    Put32Again(b[8..12]);
    Put32Again(b[12..16]);
    hide Put16, Put32, Unsigned16, Unsigned32;
    assert b == b[0..4] + b[4..6] + b[6..8] + b[8..12] + b[12..16];
  }

  /** The identity of the dump that was asked for: every answer carries it. */
  datatype Request = Request(sequence: nat, port: nat) {
    predicate Fits() {
      sequence < 0x1_0000_0000 && port < 0x1_0000_0000
    }
  }

  datatype Message = Message(kind: nat, flags: nat, body: seq<Byte>, padding: seq<Byte>) {

    function Length(): nat {
      HEADER_LENGTH + |body|
    }

    predicate Fits() {
      && kind < 0x1_0000 && flags < 0x1_0000 && Length() < 0x1_0000_0000
      && Length() + |padding| == Aligned(Length())
    }

    function Head(request: Request): Header {
      Header(Length(), kind, flags, request.sequence, request.port)
    }

    function Bytes(request: Request): (b: seq<Byte>)
      requires Fits() && request.Fits()
      ensures |b| == Aligned(Length())
    {
      HeaderBytes(Head(request)) + body + padding
    }

    predicate InDump() {
      MultiPart(flags) && !Interrupted(flags)
    }

    /** One more route of the dump. */
    ghost predicate IsRoute(route: Route) {
      Fits() && InDump() && kind == NEW_ROUTE && route.Fits() && route.Legible() && body == route.Bytes()
    }

    ghost predicate IsQuiet() {
      exists route: Route :: IsRoute(route) && !route.MeetsSession()
    }

    ghost predicate IsColliding() {
      exists route: Route :: IsRoute(route) && route.MeetsSession()
    }

    /** The end of the dump, with no error reported. */
    predicate IsCleanEnd() {
      && Fits() && InDump() && kind == DONE_MESSAGE
      && (body == [] || (|body| >= 4 && Signed32(body[..4]) == 0))
    }
  }

  ghost predicate Quiet(messages: seq<Message>) {
    forall m :: m in messages ==> m.Fits() && m.IsQuiet()
  }

  ghost function MessagesBytes(messages: seq<Message>, request: Request): seq<Byte>
    requires Quiet(messages) && request.Fits()
  {
    if messages == [] then [] else messages[0].Bytes(request) + MessagesBytes(messages[1..], request)
  }

  /** The first message of a buffer is what the decoder reads there. */
  lemma FirstMessage(m: Message, tail: seq<Byte>, request: Request)
    requires m.Fits() && request.Fits() && |m.Bytes(request)| + |tail| <= RECEIVE_BUFFER
    ensures var rest := m.Bytes(request) + tail;
            && |rest| >= HEADER_LENGTH && ReadHeader(rest[..16]) == m.Head(request)
            && m.Length() <= Aligned(m.Length()) <= |rest|
            && rest[..m.Length()] == HeaderBytes(m.Head(request)) + m.body
            && rest[Aligned(m.Length())..] == tail
  {
    hide HeaderBytes, ReadHeader;
    AlignmentAdvances(m.Length());
    HeaderRoundTrip(m.Head(request));
    var rest := m.Bytes(request) + tail;
    assert rest[..16] == HeaderBytes(m.Head(request));
  }

  lemma ReadPastQuiet(m: Message, tail: seq<Byte>, request: Request)
    requires request.Fits() && m.Fits() && m.IsQuiet() && |m.Bytes(request)| + |tail| <= RECEIVE_BUFFER
    ensures ReadMessages(m.Bytes(request) + tail, request.sequence, request.port)
            == ReadMessages(tail, request.sequence, request.port)
  {
    hide RouteStatus, HeaderBytes, ReadHeader, Aligned, Route.MeetsSession, Route.Legible, Route.Bytes;
    FirstMessage(m, tail, request);
    var route: Route :| m.IsRoute(route) && !route.MeetsSession();
    RouteStatusOfLayout(HeaderBytes(m.Head(request)), route);
  }

  lemma ReadCollision(m: Message, tail: seq<Byte>, request: Request)
    requires request.Fits() && m.Fits() && m.IsColliding() && |m.Bytes(request)| + |tail| <= RECEIVE_BUFFER
    ensures ReadMessages(m.Bytes(request) + tail, request.sequence, request.port).status == Collision
  {
    hide RouteStatus, HeaderBytes, ReadHeader, Aligned, Route.MeetsSession, Route.Legible, Route.Bytes;
    FirstMessage(m, tail, request);
    var route: Route :| m.IsRoute(route) && route.MeetsSession();
    RouteStatusOfLayout(HeaderBytes(m.Head(request)), route);
  }

  lemma ReadCleanEnd(m: Message, request: Request)
    requires request.Fits() && m.IsCleanEnd() && |m.Bytes(request)| <= RECEIVE_BUFFER
    ensures ReadMessages(m.Bytes(request), request.sequence, request.port).status == Complete
  {
    hide RouteStatus, HeaderBytes, ReadHeader, Aligned;
    FirstMessage(m, [], request);
    assert m.Bytes(request) + [] == m.Bytes(request);
    var message := HeaderBytes(m.Head(request)) + m.body;
    if m.body != [] {
      assert message[16..20] == m.body[..4];
    }
  }

  // ---- The three verdicts, exactly ----

  /** Datagrams that announce only routes away from the Session subnet, and leave the dump open. */
  ghost predicate OpenPart(bytes: seq<Byte>, request: Request)
    requires request.Fits()
  {
    exists messages :: Quiet(messages) && bytes == MessagesBytes(messages, request)
  }

  /** The same, closed by a clean end of the dump. */
  ghost predicate ClosingPart(bytes: seq<Byte>, request: Request)
    requires request.Fits()
  {
    exists messages, end: Message ::
      Quiet(messages) && end.IsCleanEnd() && bytes == MessagesBytes(messages, request) + end.Bytes(request)
  }

  /** A route that meets the Session subnet, after routes that do not and before anything at all. */
  ghost predicate CollidingPart(bytes: seq<Byte>, request: Request)
    requires request.Fits()
  {
    exists messages, m: Message, more ::
      && Quiet(messages) && m.Fits() && m.IsColliding()
      && bytes == MessagesBytes(messages, request) + (m.Bytes(request) + more)
  }

  lemma {:induction false} ReadPastAllQuiet(messages: seq<Message>, tail: seq<Byte>, request: Request)
    requires request.Fits() && Quiet(messages)
    requires |MessagesBytes(messages, request)| + |tail| <= RECEIVE_BUFFER
    ensures ReadMessages(MessagesBytes(messages, request) + tail, request.sequence, request.port)
            == ReadMessages(tail, request.sequence, request.port)
  {
    hide ReadMessages;
    if messages == [] {
      assert MessagesBytes(messages, request) + tail == tail;
    } else {
      var m := messages[0];
      var rest := MessagesBytes(messages[1..], request) + tail;
      assert MessagesBytes(messages, request) + tail == m.Bytes(request) + rest;
      ReadPastQuiet(m, rest, request);
      ReadPastAllQuiet(messages[1..], tail, request);
    }
  }

  /** A header that may be followed starts the layout of a message. */
  lemma LayoutOfMessage(rest: seq<Byte>, request: Request) returns (m: Message)
    requires request.Fits() && HEADER_LENGTH <= |rest| <= RECEIVE_BUFFER
    requires Usable(ReadHeader(rest[..16]), |rest|, request.sequence, request.port)
    ensures m.Fits() && m.Head(request) == ReadHeader(rest[..16]) && !Interrupted(m.flags)
    ensures Aligned(m.Length()) <= |rest| && m.Bytes(request) == rest[..Aligned(m.Length())]
    ensures rest[..m.Length()] == rest[..16] + m.body
  {
    var header := ReadHeader(rest[..16]);
    AlignmentAdvances(header.length);
    m := Message(header.kind, header.flags, rest[16..header.length], rest[header.length..Aligned(header.length)]);
    HeaderIsCanonical(rest[..16]);
    hide Aligned, ReadHeader, HeaderBytes;
    assert rest[..Aligned(header.length)] == rest[..16] + m.body + m.padding;
  }

  ghost predicate Explains(status: Status, tail: seq<Byte>, request: Request)
    requires request.Fits()
  {
    match status
    case Pending => tail == []
    case Complete => exists end: Message :: end.IsCleanEnd() && tail == end.Bytes(request)
    case Collision => exists m: Message, more :: m.Fits() && m.IsColliding() && tail == m.Bytes(request) + more
    case _ => true
  }

  lemma LayoutOfEnd(rest: seq<Byte>, request: Request, m: Message)
    requires request.Fits() && m.Fits() && !Interrupted(m.flags) && m.kind == DONE_MESSAGE
    requires m.Length() <= |rest| && rest == m.Bytes(request) && rest[..m.Length()] == rest[..16] + m.body
    requires ReadDone(m.Head(request), rest[..m.Length()], true).status == Complete
    ensures Explains(Complete, rest, request)
  {
    hide Aligned;
    if m.body != [] {
      assert rest[..m.Length()][16..20] == m.body[..4];
    }
    assert m.IsCleanEnd();
  }

  lemma LayoutOfRouteMessage(rest: seq<Byte>, request: Request, m: Message)
    requires request.Fits() && m.Fits() && m.InDump() && m.kind == NEW_ROUTE && |rest| >= HEADER_LENGTH
    requires m.Length() <= |rest| && rest[..m.Length()] == rest[..16] + m.body
    requires RouteStatus(rest[..m.Length()]) != Malformed
    ensures RouteStatus(rest[..m.Length()]) == Pending ==> m.IsQuiet()
    ensures RouteStatus(rest[..m.Length()]) == Collision ==> m.IsColliding()
  {
    hide Aligned, RouteStatus;
    var message := rest[..m.Length()];
    var route := LayoutOfRoute(message);
    assert message[..16] == rest[..16];
    assert m.body == message[16..] == route.Bytes();
    RouteStatusOfLayout(rest[..16], route);
    assert m.IsRoute(route);
  }

  /** One step of a reading that is not refused: the message in front explains it, or is quiet. */
  lemma LayoutOfFirst(rest: seq<Byte>, request: Request) returns (m: Message)
    requires request.Fits() && 0 < |rest| <= RECEIVE_BUFFER
    requires ReadMessages(rest, request.sequence, request.port).status in {Pending, Complete, Collision}
    ensures m.Fits() && 0 < Aligned(m.Length()) <= |rest| && m.Bytes(request) == rest[..Aligned(m.Length())]
    ensures || Explains(ReadMessages(rest, request.sequence, request.port).status, rest, request)
            || (m.IsQuiet() && ReadMessages(rest, request.sequence, request.port)
                == ReadMessages(rest[Aligned(m.Length())..], request.sequence, request.port))
  {
    hide Aligned, RouteStatus, ReadHeader, HeaderBytes, Explains, ReadDone, ReadError;
    m := LayoutOfMessage(rest, request);
    AlignmentAdvances(m.Length());
    var message := rest[..m.Length()];
    if m.kind == DONE_MESSAGE {
      DoneIsDecisive(m.Head(request), message, Aligned(m.Length()) == |rest|);
      assert rest == m.Bytes(request);
      LayoutOfEnd(rest, request, m);
    } else if m.kind == ERROR_MESSAGE {
      ErrorIsRefused(message, Aligned(m.Length()) == |rest|);
    } else {
      LayoutOfRouteMessage(rest, request, m);
      if RouteStatus(message) == Collision {
        CollisionExplains(rest, request, m);
      }
    }
  }

  lemma DoneIsDecisive(header: Header, message: seq<Byte>, last: bool)
    requires |message| >= HEADER_LENGTH && ReadDone(header, message, last).status in {Pending, Complete, Collision}
    ensures last && ReadDone(header, message, last).status == Complete
  {
  }

  lemma ErrorIsRefused(message: seq<Byte>, last: bool)
    requires |message| >= HEADER_LENGTH
    ensures ReadError(message, last).status in {Malformed, NetlinkError}
  {
  }

  lemma CollisionExplains(rest: seq<Byte>, request: Request, m: Message)
    requires request.Fits() && m.Fits() && m.IsColliding()
    requires Aligned(m.Length()) <= |rest| && m.Bytes(request) == rest[..Aligned(m.Length())]
    ensures Explains(Collision, rest, request)
  {
    assert rest == m.Bytes(request) + rest[Aligned(m.Length())..];
  }

  lemma {:induction false} LayoutOfReading(rest: seq<Byte>, request: Request)
    returns (messages: seq<Message>, tail: seq<Byte>)
    requires request.Fits() && |rest| <= RECEIVE_BUFFER
    requires ReadMessages(rest, request.sequence, request.port).status in {Pending, Complete, Collision}
    ensures Quiet(messages) && rest == MessagesBytes(messages, request) + tail
    ensures Explains(ReadMessages(rest, request.sequence, request.port).status, tail, request)
    decreases |rest|
  {
    messages, tail := [], rest;
    if |rest| == 0 {
    } else {
      assert MessagesBytes([], request) + rest == rest;
      hide Aligned, RouteStatus, ReadHeader, HeaderBytes, Explains, ReadMessages, Quiet, MessagesBytes;
      var m := LayoutOfFirst(rest, request);
      if !Explains(ReadMessages(rest, request.sequence, request.port).status, rest, request) {
        messages, tail := LayoutOfReading(rest[Aligned(m.Length())..], request);
        MessagesCons(m, messages, tail, rest, request);
        messages := [m] + messages;
      }
    }
  }

  lemma MessagesCons(m: Message, later: seq<Message>, tail: seq<Byte>, rest: seq<Byte>, request: Request)
    requires request.Fits() && m.Fits() && m.IsQuiet() && Quiet(later) && Aligned(m.Length()) <= |rest|
    requires m.Bytes(request) == rest[..Aligned(m.Length())]
    requires rest[Aligned(m.Length())..] == MessagesBytes(later, request) + tail
    ensures Quiet([m] + later) && rest == MessagesBytes([m] + later, request) + tail
  {
    hide Message.IsQuiet, Message.Bytes, Aligned;
    assert ([m] + later)[1..] == later;
    assert rest == m.Bytes(request) + rest[Aligned(m.Length())..];
    assert rest == (m.Bytes(request) + MessagesBytes(later, request)) + tail;
  }

  /** A datagram leaves the decoder waiting, completes the dump or reveals a collision exactly when it is
      laid out as one of the three parts above. Everything else is malformed or a reported error. */
  lemma ReadingIsExact(bytes: seq<Byte>, request: Request)
    requires request.Fits() && 0 < |bytes| <= RECEIVE_BUFFER
    ensures var status := DatagramReading(bytes, request.sequence, request.port).status;
            && (status == Pending <==> OpenPart(bytes, request))
            && (status == Complete <==> ClosingPart(bytes, request))
            && (status == Collision <==> CollidingPart(bytes, request))
  {
    hide Message.Bytes, HeaderBytes, Message.IsColliding;
    var status := DatagramReading(bytes, request.sequence, request.port).status;
    if status in {Pending, Complete, Collision} {
      ReadingExplained(bytes, request);
    }
    if OpenPart(bytes, request) {
      var messages :| Quiet(messages) && bytes == MessagesBytes(messages, request);
      ReadPastAllQuiet(messages, [], request);
      assert bytes + [] == bytes;
    }
    if ClosingPart(bytes, request) {
      var messages, end: Message :|
        Quiet(messages) && end.IsCleanEnd() && bytes == MessagesBytes(messages, request) + end.Bytes(request);
      ReadPastAllQuiet(messages, end.Bytes(request), request);
      ReadCleanEnd(end, request);
    }
    if CollidingPart(bytes, request) {
      var messages, m: Message, more :|
        && Quiet(messages) && m.Fits() && m.IsColliding()
        && bytes == MessagesBytes(messages, request) + (m.Bytes(request) + more);
      ReadPastAllQuiet(messages, m.Bytes(request) + more, request);
      ReadCollision(m, more, request);
    }
  }

  lemma ReadingExplained(bytes: seq<Byte>, request: Request)
    requires request.Fits() && 0 < |bytes| <= RECEIVE_BUFFER
    ensures match DatagramReading(bytes, request.sequence, request.port).status
            case Pending => OpenPart(bytes, request)
            case Complete => ClosingPart(bytes, request)
            case Collision => CollidingPart(bytes, request)
            case _ => true
  {
    hide ReadMessages;
    var status := DatagramReading(bytes, request.sequence, request.port).status;
    if status in {Pending, Complete, Collision} {
      var messages, tail := LayoutOfReading(bytes, request);
      match status
      case Pending =>
        assert bytes == MessagesBytes(messages, request);
      case Complete =>
        var end: Message :| end.IsCleanEnd() && tail == end.Bytes(request);
        assert bytes == MessagesBytes(messages, request) + end.Bytes(request);
      case Collision =>
        var m: Message, more :| m.Fits() && m.IsColliding() && tail == m.Bytes(request) + more;
        assert bytes == MessagesBytes(messages, request) + (m.Bytes(request) + more);
    }
  }

  // ---- Whole dumps ----

  /** The decoder's status after a run of datagrams, as `Consume` leaves it. */
  function DumpStatus(datagrams: seq<seq<Byte>>, request: Request): Status
    requires forall d :: d in datagrams ==> |d| <= RECEIVE_BUFFER
  {
    if datagrams == [] then Pending
    else
      var before := DumpStatus(datagrams[..|datagrams| - 1], request);
      if before != Pending then before
      else DatagramReading(datagrams[|datagrams| - 1], request.sequence, request.port).status
  }

  /** The first `n` datagrams all leave the dump open. */
  ghost predicate OpenUntil(datagrams: seq<seq<Byte>>, n: nat, request: Request)
    requires request.Fits() && n <= |datagrams|
  {
    forall i :: 0 <= i < n ==> datagrams[i] != [] && OpenPart(datagrams[i], request)
  }

  ghost predicate CompletesAt(datagrams: seq<seq<Byte>>, k: nat, request: Request)
    requires request.Fits() && k < |datagrams|
  {
    OpenUntil(datagrams, k, request) && ClosingPart(datagrams[k], request)
  }

  ghost predicate CollidesAt(datagrams: seq<seq<Byte>>, k: nat, request: Request)
    requires request.Fits() && k < |datagrams|
  {
    OpenUntil(datagrams, k, request) && CollidingPart(datagrams[k], request)
  }

  lemma PartsAreNotEmpty(request: Request)
    requires request.Fits()
    ensures !ClosingPart([], request) && !CollidingPart([], request)
  {
    forall messages, m: Message, more | Quiet(messages) && m.Fits()
      ensures MessagesBytes(messages, request) + (m.Bytes(request) + more) != []
    {
      AlignmentAdvances(m.Length());
    }
    forall messages, m: Message | Quiet(messages) && m.Fits()
      ensures MessagesBytes(messages, request) + m.Bytes(request) != []
    {
      AlignmentAdvances(m.Length());
    }
  }

  /** The verdict on a run is the verdict on the first datagram that gets one: the decoder sticks to it. */
  lemma {:induction false} FirstVerdict(datagrams: seq<seq<Byte>>, request: Request) returns (k: nat)
    requires forall d :: d in datagrams ==> |d| <= RECEIVE_BUFFER
    ensures k <= |datagrams|
    ensures forall i :: 0 <= i < k ==> DatagramReading(datagrams[i], request.sequence, request.port).status == Pending
    ensures if k == |datagrams| then DumpStatus(datagrams, request) == Pending
            else && DumpStatus(datagrams, request)
                    == DatagramReading(datagrams[k], request.sequence, request.port).status
                 && DumpStatus(datagrams, request) != Pending
    decreases |datagrams|
  {
    hide DatagramReading;
    k := 0;
    if datagrams != [] {
      k := FirstVerdict(datagrams[..|datagrams| - 1], request);
      if k == |datagrams| - 1 && DumpStatus(datagrams, request) == Pending {
        k := |datagrams|;
      }
    }
  }

  /** What a datagram does to a pending decoder, in terms of its layout. */
  lemma DatagramIsExact(d: seq<Byte>, request: Request)
    requires request.Fits() && |d| <= RECEIVE_BUFFER
    ensures var status := DatagramReading(d, request.sequence, request.port).status;
            && (status == Pending <==> d != [] && OpenPart(d, request))
            && (status == Complete <==> ClosingPart(d, request))
            && (status == Collision <==> CollidingPart(d, request))
  {
    hide OpenPart, ClosingPart, CollidingPart;
    if d == [] {
      PartsAreNotEmpty(request);
    } else {
      ReadingIsExact(d, request);
    }
  }

  /** Over any run of datagrams the verdict is complete exactly when the dump was read to a clean end with
      no route meeting the Session subnet, and a collision exactly when such a route was the first thing
      that ended the reading. Later datagrams change neither. */
  lemma DumpIsExact(datagrams: seq<seq<Byte>>, request: Request)
    requires request.Fits()
    requires forall d :: d in datagrams ==> |d| <= RECEIVE_BUFFER
    ensures DumpStatus(datagrams, request) == Pending <==> OpenUntil(datagrams, |datagrams|, request)
    ensures DumpStatus(datagrams, request) == Complete
            <==> exists k: nat :: k < |datagrams| && CompletesAt(datagrams, k, request)
    ensures DumpStatus(datagrams, request) == Collision
            <==> exists k: nat :: k < |datagrams| && CollidesAt(datagrams, k, request)
  {
    hide OpenPart, ClosingPart, CollidingPart, DatagramReading, DumpStatus;
    var first := FirstVerdict(datagrams, request);
    forall i | 0 <= i < |datagrams|
      ensures var status := DatagramReading(datagrams[i], request.sequence, request.port).status;
              && (status == Pending <==> datagrams[i] != [] && OpenPart(datagrams[i], request))
              && (status == Complete <==> ClosingPart(datagrams[i], request))
              && (status == Collision <==> CollidingPart(datagrams[i], request))
    {
      DatagramIsExact(datagrams[i], request);
    }
    forall k: nat | k < |datagrams| && (CompletesAt(datagrams, k, request) || CollidesAt(datagrams, k, request))
      ensures k == first
    {
    }
    if first < |datagrams| {
      assert OpenUntil(datagrams, first, request);
      if DumpStatus(datagrams, request) == Complete {
        assert CompletesAt(datagrams, first, request);
      } else if DumpStatus(datagrams, request) == Collision {
        assert CollidesAt(datagrams, first, request);
      }
    }
  }
}
