/** IPv4 prefixes (notation: RFC 4632 section 3.1): the mask arithmetic of the route check against the
    address sets that prefixes stand for. */
module Ipv4Prefixes {

  datatype Ipv4Prefix = Ipv4Prefix(address: bv32, length: bv8)

  /** 10.200.0.0/30, the Session subnet. */
  const SESSION_SUBNET := Ipv4Prefix(0x0ac8_0000, 30)

  function PrefixMask(length: bv8): bv32
    requires length <= 32
  {
    if length == 0 then 0 else 0xffff_ffff << (32 - length as bv32)
  }

  function Masked(address: bv32, length: bv8): bv32
    requires length <= 32
  {
    address & PrefixMask(length)
  }

  predicate PrefixesOverlap(left: Ipv4Prefix, right: Ipv4Prefix) {
    if left.length > 32 || right.length > 32 then false
    else
      var commonLength := if right.length < left.length then right.length else left.length;
      Masked(left.address, commonLength) == Masked(right.address, commonLength)
  }

  /** The leading `length` bits of an address, as a number. */
  function Network(address: bv32, length: bv8): bv32
    requires length <= 32
  {
    address >> (32 - length as bv32)
  }

  /** A prefix holds exactly the addresses that share its leading `length` bits. */
  predicate Contains(p: Ipv4Prefix, address: bv32) {
    p.length <= 32 && Network(address, p.length) == Network(p.address, p.length)
  }

  ghost predicate ShareAnAddress(left: Ipv4Prefix, right: Ipv4Prefix) {
    exists address: bv32 :: Contains(left, address) && Contains(right, address)
  }

  lemma MaskedIsShared(shorter: bv32, n: bv8, longer: bv32)
    requires n <= 32
    requires Masked(shorter, n) == Masked(longer, n)
    ensures Network(longer, n) == Network(shorter, n)
  {
  }

  lemma SharedIsMasked(shorter: bv32, n: bv8, address: bv32)
    requires n <= 32
    requires Network(address, n) == Network(shorter, n)
    ensures Masked(shorter, n) == Masked(address, n)
  {
  }

  lemma NarrowerNetwork(longer: bv32, n: bv8, m: bv8, address: bv32)
    requires n <= m <= 32
    requires Network(address, m) == Network(longer, m)
    ensures Network(address, n) == Network(longer, n)
  {
  }

  lemma CommonAddressIsMasked(shorter: bv32, n: bv8, longer: bv32, m: bv8, address: bv32)
    requires n <= m <= 32
    requires Network(address, n) == Network(shorter, n)
    requires Network(address, m) == Network(longer, m)
    ensures Masked(shorter, n) == Masked(longer, n)
  {
    hide Network, Masked;
    NarrowerNetwork(longer, n, m, address);
    SharedIsMasked(shorter, n, address);
    SharedIsMasked(longer, n, address);
  }

  lemma OverlapGivesAddress(left: Ipv4Prefix, right: Ipv4Prefix)
    requires PrefixesOverlap(left, right)
    ensures ShareAnAddress(left, right)
  {
    hide Network, Masked;
    if right.length < left.length {
      MaskedIsShared(right.address, right.length, left.address);
      assert Contains(right, left.address) && Contains(left, left.address);
    } else {
      MaskedIsShared(left.address, left.length, right.address);
      assert Contains(left, right.address) && Contains(right, right.address);
    }
  }

  lemma AddressGivesOverlap(left: Ipv4Prefix, right: Ipv4Prefix, address: bv32)
    requires Contains(left, address) && Contains(right, address)
    ensures PrefixesOverlap(left, right)
  {
    hide Network, Masked;
    if right.length < left.length {
      CommonAddressIsMasked(right.address, right.length, left.address, left.length, address);
    } else {
      CommonAddressIsMasked(left.address, left.length, right.address, right.length, address);
    }
  }

  /** The overlap test holds exactly when the two prefixes, read as address sets, meet. */
  lemma OverlapIsExact(left: Ipv4Prefix, right: Ipv4Prefix)
    ensures PrefixesOverlap(left, right) <==> ShareAnAddress(left, right)
  {
    hide PrefixesOverlap, Contains;
    if PrefixesOverlap(left, right) {
      OverlapGivesAddress(left, right);
    } else if ShareAnAddress(left, right) {
      var address :| Contains(left, address) && Contains(right, address);
      AddressGivesOverlap(left, right, address);
    }
  }

  // ---- From a netmask to its length ----

  /** The bit that is `i`-th from the most significant end. */
  function BitAt(i: bv8): bv32
    requires i < 32
  {
    0x8000_0000 >> i as bv32
  }

  /** Among the leading `at` bits of the mask, exactly the first `length` are set. */
  predicate LeadingOnes(mask: bv32, at: bv8, length: bv8) {
    length <= at <= 32 && mask & PrefixMask(at) == PrefixMask(length)
  }

  lemma OneMore(mask: bv32, at: bv8)
    requires at < 32 && LeadingOnes(mask, at, at)
    requires mask & BitAt(at) != 0
    ensures LeadingOnes(mask, at + 1, at + 1)
  {
  }

  lemma ZeroMore(mask: bv32, at: bv8, length: bv8)
    requires at < 32 && LeadingOnes(mask, at, length)
    requires mask & BitAt(at) == 0
    ensures LeadingOnes(mask, at + 1, length)
  {
  }

  lemma HoleMeansNoMask(mask: bv32, at: bv8, length: bv8, n: bv8)
    requires length < at < 32 && LeadingOnes(mask, at, length)
    requires mask & BitAt(at) != 0
    requires n <= 32
    ensures mask != PrefixMask(n)
  {
  }

  lemma WholeMask(mask: bv32, length: bv8)
    requires LeadingOnes(mask, 32, length)
    ensures length <= 32 && mask == PrefixMask(length)
  {
  }

  lemma NextBit(i: bv8)
    requires i < 32
    ensures BitAt(i) >> 1 == if i == 31 then 0 else BitAt(i + 1)
    ensures BitAt(i) != 0
    ensures BitAt(i) >> 1 < BitAt(i)
  {
  }

  lemma MasksAreDistinct(n: bv8, m: bv8)
    requires n <= 32 && m <= 32
    requires PrefixMask(n) == PrefixMask(m)
    ensures n == m
  {
  }

  ghost predicate NoMask(mask: bv32) {
    forall n: bv8 :: n <= 32 ==> mask != PrefixMask(n)
  }

  lemma HoleMeansNoMaskAtAll(mask: bv32, at: bv8, length: bv8)
    requires length < at < 32 && LeadingOnes(mask, at, length)
    requires mask & BitAt(at) != 0
    ensures NoMask(mask)
  {
    forall n: bv8 | n <= 32 ensures mask != PrefixMask(n) {
      HoleMeansNoMask(mask, at, length, n);
    }
  }

  /** Where the scan of a mask stands when it looks at its bit number `at`, or has seen all 32. */
  ghost predicate Scanning(mask: bv32, bit: bv32, at: bv8, length: bv8, foundZero: bool) {
    && LeadingOnes(mask, at, length)
    && foundZero == (length < at)
    && if at == 32 then bit == 0 else bit == BitAt(at)
  }

  lemma ScanStarts(mask: bv32)
    ensures Scanning(mask, 0x8000_0000, 0, 0, false)
  {
  }

  lemma ScanSeesOne(mask: bv32, bit: bv32, at: bv8, length: bv8, foundZero: bool)
    requires Scanning(mask, bit, at, length, foundZero) && mask & bit != 0
    ensures at < 32
    ensures foundZero ==> NoMask(mask)
    ensures !foundZero ==> length == at && Scanning(mask, bit >> 1, at + 1, length + 1, false)
  {
    NextBit(at);
    if foundZero {
      HoleMeansNoMaskAtAll(mask, at, length);
    } else {
      OneMore(mask, at);
    }
  }

  lemma ScanSeesZero(mask: bv32, bit: bv32, at: bv8, length: bv8, foundZero: bool)
    requires Scanning(mask, bit, at, length, foundZero) && bit != 0 && mask & bit == 0
    ensures at < 32 && Scanning(mask, bit >> 1, at + 1, length, true)
  {
    NextBit(at);
    ZeroMore(mask, at, length);
  }

  /** The mask of one length and of no other. */
  ghost predicate OnlyMaskOf(mask: bv32, length: bv8) {
    length <= 32 && mask == PrefixMask(length) && forall n: bv8 :: n <= 32 && mask == PrefixMask(n) ==> n == length
  }

  lemma ScanEnds(mask: bv32, at: bv8, length: bv8, foundZero: bool)
    requires Scanning(mask, 0, at, length, foundZero)
    ensures OnlyMaskOf(mask, length)
  {
    if at < 32 {
      NextBit(at);
    }
    WholeMask(mask, length);
    forall n: bv8 | n <= 32 && mask == PrefixMask(n) ensures n == length {
      MasksAreDistinct(n, length);
    }
  }

  lemma ShiftShrinks(bit: bv32)
    requires bit != 0
    ensures bit >> 1 < bit
  {
  }

  /** `prefix_length`: accepts exactly the contiguous masks and finds the one length each was made from. */
  method PrefixLength(mask: bv32) returns (contiguous: bool, length: bv8)
    ensures contiguous ==> OnlyMaskOf(mask, length)
    ensures !contiguous ==> NoMask(mask)
  {
    hide OnlyMaskOf, NoMask, Scanning;
    ScanStarts(mask);
    var foundZero := false;
    length := 0;
    var bit: bv32 := 0x8000_0000;
    ghost var at: bv8 := 0;
    while bit != 0
      invariant Scanning(mask, bit, at, length, foundZero)
      decreases bit
    {
      ShiftShrinks(bit);
      if mask & bit != 0 {
        ScanSeesOne(mask, bit, at, length, foundZero);
        if foundZero {
          return false, length;
        }
        length := length + 1;
      } else {
        ScanSeesZero(mask, bit, at, length, foundZero);
        foundZero := true;
      }
      bit := bit >> 1;
      at := at + 1;
    }
    ScanEnds(mask, at, length, foundZero);
    return true, length;
  }
}
