/** The header and address macros of lwIP on the little-endian target, in the machine's own 16 and 32 bits. */
module Addresses {

  /** PP_HTONS and PP_HTONL: network order to host order and back. */
  function Htons(x: bv16): bv16 {
    ((x & 0xff) << 8) | ((x & 0xff00) >> 8)
  }

  function Htonl(x: bv32): bv32 {
    ((x & 0xff) << 24) | ((x & 0xff00) << 8) | ((x & 0xff_0000) >> 8) | ((x & 0xff00_0000) >> 24)
  }

  /** IPH_VHLTOS_SET: version, header length and type of service packed into one word of the header. */
  function Packed(version: bv16, headerLength: bv16, tos: bv16): bv16 {
    Htons((version << 12) | (headerLength << 8) | tos)
  }

  /** IPH_V, IPH_HL and IPH_TOS */
  function Version(word: bv16): bv16 {
    Htons(word) >> 12
  }

  function HeaderLength(word: bv16): bv16 {
    (Htons(word) >> 8) & 0x0f
  }

  function TypeOfService(word: bv16): bv16 {
    Htons(word) & 0xff
  }

  /** Unpacking gives back three fields exactly when they are in range: four bits, four bits and eight bits. Repacking
      what the getters give restores every word. */
  lemma PackingRoundTrip(version: bv16, headerLength: bv16, tos: bv16, word: bv16)
    ensures var w := Packed(version, headerLength, tos);
      Version(w) == version && HeaderLength(w) == headerLength && TypeOfService(w) == tos
      <==> version < 16 && headerLength < 16 && tos < 256
    ensures Packed(Version(word), HeaderLength(word), TypeOfService(word)) == word
  {
  }

  /** Network order: in memory, which the target reads low byte first, version and header length come first. */
  lemma PackedInNetworkOrder(version: bv16, headerLength: bv16, tos: bv16)
    requires version < 16 && headerLength < 16 && tos < 256
    ensures Packed(version, headerLength, tos) & 0xff == (version << 4) | headerLength
    ensures Packed(version, headerLength, tos) >> 8 == tos
  {
  }

  lemma HtonlInvolution(x: bv32)
    ensures Htonl(Htonl(x)) == x
  {
  }

  /** IP4_ADDR on a little-endian target. */
  function Ip4Addr(a: bv32, b: bv32, c: bv32, d: bv32): bv32 {
    ((d & 0xff) << 24) | ((c & 0xff) << 16) | ((b & 0xff) << 8) | (a & 0xff)
  }

  /** The address as section 3.2 of RFC 791 counts its bits: the first number highest. */
  function HostAddress(a: bv32, b: bv32, c: bv32, d: bv32): bv32 {
    (a << 24) | (b << 16) | (c << 8) | d
  }

  /** What IP4_ADDR stores is the address in network order, whatever bits its arguments have above the low eight. */
  lemma AddressInNetworkOrder(a: bv32, b: bv32, c: bv32, d: bv32)
    ensures Ip4Addr(a, b, c, d) == Htonl(HostAddress(a & 0xff, b & 0xff, c & 0xff, d & 0xff))
  {
  }

  /** In the memory of the target, low byte first, IP4_ADDR leaves the four numbers in the order they are written. */
  lemma AddressInMemory(a: bv32, b: bv32, c: bv32, d: bv32)
    requires a < 256 && b < 256 && c < 256 && d < 256
    ensures var x := Ip4Addr(a, b, c, d);
      x & 0xff == a && (x >> 8) & 0xff == b && (x >> 16) & 0xff == c && x >> 24 == d
  {
  }

  /** Htonl reverses the four bytes, Htons the two. */
  lemma BytesReversed(x: bv32, y: bv16)
    ensures var r := Htonl(x);
      && r & 0xff == x >> 24 && (r >> 8) & 0xff == (x >> 16) & 0xff
      && (r >> 16) & 0xff == (x >> 8) & 0xff && r >> 24 == x & 0xff
    ensures Htons(y) & 0xff == y >> 8 && Htons(y) >> 8 == y & 0xff
  {
  }

  /** The class tests, on an address in host order. */
  predicate ClassA(x: bv32) {
    x & 0x8000_0000 == 0
  }

  predicate ClassB(x: bv32) {
    x & 0xc000_0000 == 0x8000_0000
  }

  predicate ClassC(x: bv32) {
    x & 0xe000_0000 == 0xc000_0000
  }

  predicate ClassD(x: bv32) {
    x & 0xf000_0000 == 0xe000_0000
  }

  predicate Experimental(x: bv32) {
    x & 0xf000_0000 == 0xf000_0000
  }

  /** ip_addr_ismulticast, on an address in network order. */
  predicate IsMulticast(x: bv32) {
    x & Htonl(0xf000_0000) == Htonl(0xe000_0000)
  }

  /** Every address is in exactly one class, the one its first number says. */
  lemma ClassesPartition(a: bv32, b: bv32, c: bv32, d: bv32)
    requires a < 256 && b < 256 && c < 256 && d < 256
    ensures var x := HostAddress(a, b, c, d);
      && (ClassA(x) <==> a < 128)
      && (ClassB(x) <==> 128 <= a < 192)
      && (ClassC(x) <==> 192 <= a < 224)
      && (ClassD(x) <==> 224 <= a < 240)
      && (Experimental(x) <==> 240 <= a)
  {
  }

  /** The network-order multicast test is the host-order class D test, for every address: both say that the first number
      is 224 .. 239. */
  lemma MulticastTestsAgree(x: bv32, a: bv32, b: bv32, c: bv32, d: bv32)
    requires a < 256 && b < 256 && c < 256 && d < 256
    ensures IsMulticast(x) <==> ClassD(Htonl(x))
    ensures IsMulticast(Ip4Addr(a, b, c, d)) <==> 224 <= a < 240
  {
  }
}
