/** Packets octet by octet: how identifiers, lengths and integers are spelled, and that
    a packet prints as its parts do. */
module BerOctets {
  import opened BerTypes
  import opened BerIdentifier
  import opened BerLength
  import opened BerInteger
  import opened BerPacket

  // One element with a single identifier octet.
  function Tlv(tag: byte, contents: bytes): bytes
  {
    if |contents| <= MAX_INT then [tag] + EncodeLength(|contents|) + contents else []
  }

  // ------------------------------------------------------------------- the spelling

  /** Lengths: one octet below 128; then the count of the octets that follow, with the
      high bit set, and those most significant first. */
  lemma LengthOctets(n: nat)
    requires n <= MAX_INT
    ensures n < 0x80 ==> EncodeLength(n) == [n]
    ensures 0x80 <= n < 0x100 ==> EncodeLength(n) == [0x81, n]
    ensures 0x100 <= n < 0x1_0000 ==> EncodeLength(n) == [0x82, n / 256, n % 256]
    ensures 0x1_0000 <= n < 0x100_0000 ==> EncodeLength(n) == [0x83, n / 0x1_0000, n / 256 % 256, n % 256]
  {
    if n >= 256 { assert Digits(n) == Digits(n / 256) + [n % 256]; }
    if n >= 0x1_0000 { assert Digits(n / 256) == Digits(n / 256 / 256) + [n / 256 % 256]; }
  }

  /** Identifiers: class, form and number in one octet below 31; then 31 there, and the
      number in groups of seven bits, most significant first, all but the last marked. */
  lemma IdentifierOctets(id: Identifier)
    requires id.Valid()
    ensures var lead := id.cls * 0x40 + (if id.constructed then 0x20 else 0);
            && (id.number < 31 ==> EncodeIdentifier(id) == [lead + id.number])
            && (31 <= id.number < 0x80 ==> EncodeIdentifier(id) == [lead + 0x1F, id.number])
            && (0x80 <= id.number < 0x4000 ==> EncodeIdentifier(id) == [lead + 0x1F, 0x80 + id.number / 128, id.number % 128])
  {
    if 0x80 <= id.number < 0x4000 { assert HighTag(id.number) == ContinuedTag(id.number / 128) + [id.number % 128]; }
  }

  /** Integers: the shortest two's complement, most significant octet first. */
  lemma IntegerOctets(v: int)
    ensures 0 <= v < 0x80 ==> IntegerContents(v) == [v]
    ensures -0x80 <= v < 0 ==> IntegerContents(v) == [v + 0x100]
    ensures 0x80 <= v < 0x8000 ==> IntegerContents(v) == [v / 256, v % 256]
    ensures -0x8000 <= v < -0x80 ==> IntegerContents(v) == [(v + 0x1_0000) / 256, (v + 0x1_0000) % 256]
  {
    if 0x80 <= v < 0x8000 || -0x8000 <= v < -0x80 {
      assert IntegerContents(v) == IntegerContents(v / 256) + [v % 256];
    }
  }

  // The identifier octet of a context tag below 31.
  lemma ContextOctet(id: Identifier)
    requires id.cls == CONTEXT && id.number < 31
    ensures EncodeIdentifier(id) == [(if id.constructed then 0xA0 else 0x80) + id.number]
  {
  }

  lemma UniversalOctets()
    ensures EncodeIdentifier(OCTET_STRING) == [0x04] && EncodeIdentifier(SEQUENCE) == [0x30]
  {
  }

  lemma {:induction false} Appended(ps: seq<Packet>, qs: seq<Packet>)
    ensures PacketSizeAll(ps + qs) == PacketSizeAll(ps) + PacketSizeAll(qs)
    ensures PacketSizeAll(ps + qs) <= MAX_INT ==> EncodePackets(ps + qs) == EncodePackets(ps) + EncodePackets(qs)
  {
    hide PacketSize, EncodePacket;
    if ps == [] {
      assert [] + qs == qs && PacketSizeAll([]) == 0 && EncodePackets([]) == [];
      assert PacketSizeAll(qs) <= MAX_INT ==> [] + EncodePackets(qs) == EncodePackets(qs);
    } else {
      assert (ps + qs)[1..] == ps[1..] + qs;
      Appended(ps[1..], qs);
    }
  }

  lemma Single(p: Packet)
    ensures PacketSizeAll([p]) == PacketSize(p)
    ensures Fits(p) ==> EncodePackets([p]) == EncodePacket(p)
  {
    assert [p][1..] == [];
  }

  // A primitive or constructed element whose identifier is one octet.
  lemma PrimitiveSpelled(id: Identifier, tag: byte, value: bytes)
    requires !id.constructed && EncodeIdentifier(id) == [tag] && Fits(PrimitivePacket(id, value))
    ensures EncodePacket(PrimitivePacket(id, value)) == Tlv(tag, value)
  {
  }

  lemma ConstructedSpelled(id: Identifier, tag: byte, ps: seq<Packet>)
    requires id.constructed && EncodeIdentifier(id) == [tag] && Fits(ConstructedPacket(id, ps))
    ensures PacketSizeAll(ps) <= MAX_INT && EncodePacket(ConstructedPacket(id, ps)) == Tlv(tag, EncodePackets(ps))
  {
    hide EncodePackets;
  }

  // The packets ps print as octets, if they fit at all.
  ghost predicate Prints(ps: seq<Packet>, octets: bytes) { PacketSizeAll(ps) <= MAX_INT ==> EncodePackets(ps) == octets }

  lemma PrintBoth(ps: seq<Packet>, a: bytes, qs: seq<Packet>, b: bytes)
    requires Prints(ps, a) && Prints(qs, b)
    ensures Prints(ps + qs, a + b)
  {
    Appended(ps, qs);
    hide EncodePackets, PacketSizeAll;
  }

  lemma PrintPrimitive(id: Identifier, tag: byte, value: bytes)
    requires !id.constructed && EncodeIdentifier(id) == [tag]
    ensures Prints([PrimitivePacket(id, value)], Tlv(tag, value))
  {
    Single(PrimitivePacket(id, value));
    if Fits(PrimitivePacket(id, value)) { PrimitiveSpelled(id, tag, value); }
    hide EncodePackets, PacketSizeAll, EncodePacket, PacketSize, Tlv;
  }

  // A group around packets that print.
  lemma GroupSpelled(id: Identifier, tag: byte, ps: seq<Packet>, octets: bytes)
    requires id.constructed && EncodeIdentifier(id) == [tag] && Prints(ps, octets) && Fits(ConstructedPacket(id, ps))
    ensures EncodePacket(ConstructedPacket(id, ps)) == Tlv(tag, octets)
  {
    ConstructedSpelled(id, tag, ps);
  }

  lemma PrintGroup(id: Identifier, tag: byte, ps: seq<Packet>, octets: bytes)
    requires id.constructed && EncodeIdentifier(id) == [tag] && Prints(ps, octets)
    ensures Prints([ConstructedPacket(id, ps)], Tlv(tag, octets))
  {
    var p := ConstructedPacket(id, ps);
    Single(p);
    if Fits(p) { GroupSpelled(id, tag, ps, octets); }
    hide EncodePackets, PacketSizeAll, EncodePacket, PacketSize, Tlv;
  }
}
