/** Filters octet by octet: an independent printer that writes the tags of section
    4.5.1.7 of RFC 4511 as the octets they are, the proof that a filter's packet prints
    the same, and that the leading octet decides which alternative is decoded. */
module FilterOctets {
  import opened BerTypes
  import opened BerIdentifier
  import opened BerPacket
  import opened BerCursor
  import opened BerOctets
  import opened Filter
  import opened FilterRoundTrip

  // ------------------------------------------------------------------ the printer

  function Optional(tag: byte, value: Option<bytes>): bytes
  {
    if value.None? then [] else Tlv(tag, value.value)
  }

  function Several(tag: byte, values: seq<bytes>): bytes
  {
    if values == [] then [] else Tlv(tag, values[0]) + Several(tag, values[1..])
  }

  function Unknowns(us: seq<Unknown>): bytes
  {
    if us == [] then [] else us[0].raw + Unknowns(us[1..])
  }

  function SpelledAssertion(a: Assertion): bytes
  {
    Tlv(0x04, a.attribute) + (Tlv(0x04, a.value) + Unknowns(a.extensions))
  }

  function Spelled(f: Filter): bytes
    decreases f, 1
  {
    match f
    case And(fs) => Tlv(0xA0, SpelledAll(fs))
    case Or(fs) => Tlv(0xA1, SpelledAll(fs))
    case Not(g) => Tlv(0xA2, Spelled(g))
    case EqualityMatch(a) => Tlv(0xA3, SpelledAssertion(a))
    case Substrings(attribute, initial, middle, last, extensions) =>
      var parts := Optional(0x80, initial) + (Several(0x81, middle) + (Optional(0x82, last) + Unknowns(extensions)));
      Tlv(0xA4, Tlv(0x04, attribute) + Tlv(0x30, parts))
    case GreaterOrEqual(a) => Tlv(0xA5, SpelledAssertion(a))
    case LessOrEqual(a) => Tlv(0xA6, SpelledAssertion(a))
    case Present(attribute) => Tlv(0x87, attribute)
    case ApproximateMatch(a) => Tlv(0xA8, SpelledAssertion(a))
    case ExtensibleMatch(rule, kind, value, dnAttributes, extensions) =>
      Tlv(0xA9, Optional(0x81, rule) + (Optional(0x82, kind) + (Tlv(0x83, value)
                + ((if dnAttributes then [0x84, 0x01, 0xFF] else []) + Unknowns(extensions)))))
    case UnknownFilter(u) => u.raw
  }

  function SpelledAll(fs: seq<Filter>): bytes
    decreases fs, 0
  {
    if fs == [] then [] else Spelled(fs[0]) + SpelledAll(fs[1..])
  }

  // --------------------------------------------------------- packets print the same

  lemma PrintOptional(id: Identifier, tag: byte, value: Option<bytes>)
    requires !id.constructed && EncodeIdentifier(id) == [tag]
    ensures Prints(OptionalOctets(id, value), Optional(tag, value))
  {
    if value.Some? { PrintPrimitive(id, tag, value.value); }
  }

  lemma {:induction false} PrintSeveral(id: Identifier, tag: byte, values: seq<bytes>)
    requires !id.constructed && EncodeIdentifier(id) == [tag]
    ensures Prints(Octets(id, values), Several(tag, values))
    decreases |values|
  {
    if values != [] {
      hide Prints, EncodeIdentifier, Tlv;
      PrintPrimitive(id, tag, values[0]);
      PrintSeveral(id, tag, values[1..]);
      PrintBoth([PrimitivePacket(id, values[0])], Tlv(tag, values[0]), Octets(id, values[1..]), Several(tag, values[1..]));
    }
  }

  lemma {:induction false} PrintUnknowns(us: seq<Unknown>)
    ensures Prints(Raws(us), Unknowns(us))
    decreases |us|
  {
    if us != [] {
      var p := EncodedPacket(us[0].raw);
      Single(p);
      assert Prints([p], us[0].raw);
      hide Prints;
      PrintUnknowns(us[1..]);
      PrintBoth([p], us[0].raw, Raws(us[1..]), Unknowns(us[1..]));
    }
  }

  lemma PrintAssertion(a: Assertion)
    ensures Prints(AssertionPackets(a), SpelledAssertion(a))
  {
    hide Prints, EncodeIdentifier, Tlv, Raws, Unknowns;
    UniversalOctets();
    PrintPrimitive(OCTET_STRING, 0x04, a.attribute);
    PrintPrimitive(OCTET_STRING, 0x04, a.value);
    PrintUnknowns(a.extensions);
    PrintBoth([PrimitivePacket(OCTET_STRING, a.value)], Tlv(0x04, a.value), Raws(a.extensions), Unknowns(a.extensions));
    PrintBoth([PrimitivePacket(OCTET_STRING, a.attribute)], Tlv(0x04, a.attribute),
              [PrimitivePacket(OCTET_STRING, a.value)] + Raws(a.extensions), Tlv(0x04, a.value) + Unknowns(a.extensions));
  }

  function SpelledParts(initial: Option<bytes>, middle: seq<bytes>, last: Option<bytes>, extensions: seq<Unknown>): bytes
  {
    Optional(0x80, initial) + (Several(0x81, middle) + (Optional(0x82, last) + Unknowns(extensions)))
  }

  lemma PrintParts(initial: Option<bytes>, middle: seq<bytes>, last: Option<bytes>, extensions: seq<Unknown>)
    ensures Prints(PartPackets(initial, middle, last, extensions), SpelledParts(initial, middle, last, extensions))
  {
    hide Prints, EncodeIdentifier, OptionalOctets, Octets, Optional, Several, Raws, Unknowns;
    ContextOctet(Item(0));
    ContextOctet(Item(1));
    ContextOctet(Item(2));
    PrintOptional(Item(0), 0x80, initial);
    PrintSeveral(Item(1), 0x81, middle);
    PrintOptional(Item(2), 0x82, last);
    PrintUnknowns(extensions);
    PrintBoth(OptionalOctets(Item(2), last), Optional(0x82, last), Raws(extensions), Unknowns(extensions));
    PrintBoth(Octets(Item(1), middle), Several(0x81, middle),
              OptionalOctets(Item(2), last) + Raws(extensions), Optional(0x82, last) + Unknowns(extensions));
    PrintBoth(OptionalOctets(Item(0), initial), Optional(0x80, initial),
              Octets(Item(1), middle) + (OptionalOctets(Item(2), last) + Raws(extensions)),
              Several(0x81, middle) + (Optional(0x82, last) + Unknowns(extensions)));
  }

  function SpelledDn(dn: bool): bytes { if dn then [0x84, 0x01, 0xFF] else [] }

  lemma PrintDn(dn: bool)
    ensures Prints(DnPackets(dn), SpelledDn(dn))
  {
    if dn {
      ContextOctet(Item(4));
      PrintPrimitive(Item(4), 0x84, [0xFF]);
      assert Tlv(0x84, [0xFF]) == [0x84, 0x01, 0xFF];
    }
  }

  function SpelledMatch(rule: Option<bytes>, kind: Option<bytes>, value: bytes, dn: bool, extensions: seq<Unknown>): bytes
  {
    Optional(0x81, rule) + (Optional(0x82, kind) + (Tlv(0x83, value) + (SpelledDn(dn) + Unknowns(extensions))))
  }

  lemma PrintMatch(rule: Option<bytes>, kind: Option<bytes>, value: bytes, dn: bool, extensions: seq<Unknown>)
    ensures Prints(MatchPackets(rule, kind, value, dn, extensions), SpelledMatch(rule, kind, value, dn, extensions))
  {
    hide Prints, EncodeIdentifier, OptionalOctets, Optional, Tlv, DnPackets, SpelledDn, Raws, Unknowns;
    ContextOctet(Item(1));
    ContextOctet(Item(2));
    ContextOctet(Item(3));
    PrintOptional(Item(1), 0x81, rule);
    PrintOptional(Item(2), 0x82, kind);
    PrintPrimitive(Item(3), 0x83, value);
    PrintDn(dn);
    PrintUnknowns(extensions);
    var p, a := DnPackets(dn) + Raws(extensions), SpelledDn(dn) + Unknowns(extensions);
    PrintBoth(DnPackets(dn), SpelledDn(dn), Raws(extensions), Unknowns(extensions));
    PrintBoth([PrimitivePacket(Item(3), value)], Tlv(0x83, value), p, a);
    PrintBoth(OptionalOctets(Item(2), kind), Optional(0x82, kind), [PrimitivePacket(Item(3), value)] + p, Tlv(0x83, value) + a);
    PrintBoth(OptionalOctets(Item(1), rule), Optional(0x81, rule),
              OptionalOctets(Item(2), kind) + ([PrimitivePacket(Item(3), value)] + p), Optional(0x82, kind) + (Tlv(0x83, value) + a));
  }

  lemma SubstringsSpelled(f: Filter)
    requires f.Substrings? && Fits(FilterPacket(f))
    ensures EncodeFilter(f) == Tlv(0xA4, Tlv(0x04, f.attribute) + Tlv(0x30, SpelledParts(f.initial, f.middle, f.last, f.extensions)))
  {
    var a, inner := PrimitivePacket(OCTET_STRING, f.attribute), PartPackets(f.initial, f.middle, f.last, f.extensions);
    var octets := SpelledParts(f.initial, f.middle, f.last, f.extensions);
    hide Prints, EncodeIdentifier, Tlv, PartPackets, SpelledParts, EncodePacket, PacketSize;
    UniversalOctets();
    ContextOctet(Group(4));
    PrintParts(f.initial, f.middle, f.last, f.extensions);
    PrintGroup(SEQUENCE, 0x30, inner, octets);
    PrintPrimitive(OCTET_STRING, 0x04, f.attribute);
    PrintBoth([a], Tlv(0x04, f.attribute), [ConstructedPacket(SEQUENCE, inner)], Tlv(0x30, octets));
    assert [a] + [ConstructedPacket(SEQUENCE, inner)] == [a, ConstructedPacket(SEQUENCE, inner)];
    GroupSpelled(Group(4), 0xA4, [a, ConstructedPacket(SEQUENCE, inner)], Tlv(0x04, f.attribute) + Tlv(0x30, octets));
  }

  lemma AssertionSpelled(id: Identifier, tag: byte, a: Assertion)
    requires id.constructed && EncodeIdentifier(id) == [tag] && Fits(ConstructedPacket(id, AssertionPackets(a)))
    ensures EncodePacket(ConstructedPacket(id, AssertionPackets(a))) == Tlv(tag, SpelledAssertion(a))
  {
    hide Prints, EncodeIdentifier, AssertionPackets, SpelledAssertion, EncodePacket, PacketSize, Tlv;
    PrintAssertion(a);
    GroupSpelled(id, tag, AssertionPackets(a), SpelledAssertion(a));
  }

  lemma LeafSpelled(f: Filter)
    requires !f.And? && !f.Or? && !f.Not? && Fits(FilterPacket(f))
    ensures EncodeFilter(f) == Spelled(f)
  {
    hide EncodeIdentifier, AssertionPackets, SpelledAssertion, MatchPackets, PartPackets, EncodePacket, PacketSize, Tlv, Prints;
    match f
    case EqualityMatch(a) => ContextOctet(Group(3)); AssertionSpelled(Group(3), 0xA3, a);
    case GreaterOrEqual(a) => ContextOctet(Group(5)); AssertionSpelled(Group(5), 0xA5, a);
    case LessOrEqual(a) => ContextOctet(Group(6)); AssertionSpelled(Group(6), 0xA6, a);
    case ApproximateMatch(a) => ContextOctet(Group(8)); AssertionSpelled(Group(8), 0xA8, a);
    case Present(attribute) => ContextOctet(Item(7)); PrimitiveSpelled(Item(7), 0x87, attribute);
    case Substrings(_, _, _, _, _) => SubstringsSpelled(f);
    case ExtensibleMatch(rule, kind, value, dn, extensions) =>
      ContextOctet(Group(9));
      PrintMatch(rule, kind, value, dn, extensions);
      GroupSpelled(Group(9), 0xA9, MatchPackets(rule, kind, value, dn, extensions), SpelledMatch(rule, kind, value, dn, extensions));
    case UnknownFilter(u) => RawSpelled(u);
  }

  lemma RawSpelled(u: Unknown)
    requires Fits(EncodedPacket(u.raw))
    ensures EncodePacket(EncodedPacket(u.raw)) == u.raw
  {
  }

  /** The encoding of every filter, of any nesting, is what section 4.5.1.7 of RFC 4511
      spells: the tag of each alternative and of each of its fields is the octet the
      RFC gives it. */
  lemma {:induction false} EncodingSpelled(f: Filter)
    requires Fits(FilterPacket(f))
    ensures EncodeFilter(f) == Spelled(f)
    decreases f, 1
  {
    hide EncodeIdentifier, EncodePacket, PacketSize, Tlv, Prints;
    match f
    case And(fs) => ContextOctet(Group(0)); EncodingsSpelled(fs); GroupSpelled(Group(0), 0xA0, FilterPackets(fs), SpelledAll(fs));
    case Or(fs) => ContextOctet(Group(1)); EncodingsSpelled(fs); GroupSpelled(Group(1), 0xA1, FilterPackets(fs), SpelledAll(fs));
    case Not(g) =>
      ContextOctet(Group(2));
      Single(FilterPacket(g));
      if Fits(FilterPacket(g)) { EncodingSpelled(g); }
      PrintSingle(FilterPacket(g), Spelled(g));
      GroupSpelled(Group(2), 0xA2, [FilterPacket(g)], Spelled(g));
    case _ => LeafSpelled(f);
  }

  lemma PrintSingle(p: Packet, octets: bytes)
    requires Fits(p) ==> EncodePacket(p) == octets
    ensures Prints([p], octets)
  {
    Single(p);
  }

  lemma {:induction false} EncodingsSpelled(fs: seq<Filter>)
    ensures Prints(FilterPackets(fs), SpelledAll(fs))
    decreases fs, 0
  {
    if fs != [] {
      var p := FilterPacket(fs[0]);
      if Fits(p) { EncodingSpelled(fs[0]); }
      PrintSingle(p, Spelled(fs[0]));
      hide Prints, FilterPacket, Spelled;
      EncodingsSpelled(fs[1..]);
      PrintBoth([p], Spelled(fs[0]), FilterPackets(fs[1..]), SpelledAll(fs[1..]));
    }
  }

  // ------------------------------------------------- the leading octet decides

  // The identifier octet of each alternative that the RFC defines.
  function Octet(f: Filter): byte
    requires !f.UnknownFilter?
  {
    match f
    case And(_) => 0xA0
    case Or(_) => 0xA1
    case Not(_) => 0xA2
    case EqualityMatch(_) => 0xA3
    case Substrings(_, _, _, _, _) => 0xA4
    case GreaterOrEqual(_) => 0xA5
    case LessOrEqual(_) => 0xA6
    case Present(_) => 0x87
    case ApproximateMatch(_) => 0xA8
    case ExtensibleMatch(_, _, _, _, _) => 0xA9
  }

  const OCTETS: set<int> := {0xA0, 0xA1, 0xA2, 0xA3, 0xA4, 0xA5, 0xA6, 0x87, 0xA8, 0xA9}

  // The identifier read from one of these octets.
  lemma PeekOctet(c: Cursor, limits: Limits)
    requires Peek(c, limits).Ok?
    ensures c.rest != []
    ensures c.rest[0] % 32 != 31 ==> Peek(c, limits).value == Identifier(c.rest[0] / 64, c.rest[0] / 32 % 2 == 1, c.rest[0] % 32)
    ensures Peek(c, limits).value in FILTER_IDS <==> c.rest[0] in OCTETS
    ensures Peek(c, limits).value.cls == c.rest[0] / 64
  {
    if c.rest != [] && c.rest[0] % 32 == 31 { HighNumber(c.rest, limits.maxTagNumber); }
  }

  lemma HighNumber(data: bytes, maxTag: uint32)
    requires data != [] && data[0] % 32 == 31
    ensures var r := ParseIdentifier(data, maxTag); r.Ok? ==> r.value.0.number >= 31 && r.value.0.cls == data[0] / 64
  {
    TagNumberSound(data, maxTag, Identifier(data[0] / 64, data[0] / 32 % 2 == 1, 31), 1, 0);
  }

  lemma ElementOctet(id: Identifier, c: Cursor, limits: Limits)
    requires id in FILTER_IDS && DecodeElement(id, c, limits).Ok?
    ensures var f := DecodeElement(id, c, limits).value.0;
            !f.UnknownFilter? && id == Identifier(CONTEXT, Octet(f) / 32 % 2 == 1, Octet(f) % 32)
  {
    hide ReadValue, Enter, DecodeFilters, DecodeFilter, AssertionFields, SubstringFields, MatchFields;
    LeafKinds(c, limits);
    if id != Item(7) { LeafKinds(Enter(c, id, limits).value.0, limits); }
  }

  lemma LeafKinds(c: Cursor, limits: Limits)
    ensures SubstringFields(c, limits).Ok? ==> SubstringFields(c, limits).value.0.Substrings?
    ensures MatchFields(c, limits).Ok? ==> MatchFields(c, limits).value.0.ExtensibleMatch?
  {
    hide ReadValue, ReadOptional, ReadSeveral, ReadDn, ReadExtensions, Enter, NonEmpty;
  }

  /** The leading octet decides what is decoded: an accepted encoding starts with 0xA0
      exactly if it is decoded as an AND, with 0xA1 exactly if as an OR, and so on for
      each alternative; any other octet of the context class gives an unknown filter,
      and octets of other classes are refused. */
  lemma OctetDecides(c: Cursor, limits: Limits)
    requires DecodeFilter(c, limits).Ok?
    ensures c.rest != [] && c.rest[0] / 64 == 2
    ensures var f := DecodeFilter(c, limits).value.0;
            if f.UnknownFilter? then c.rest[0] !in OCTETS else c.rest[0] == Octet(f)
  {
    hide Peek, Bounded, DecodeElement, ReadUnknown;
    PeekOctet(c, limits);
    var id := Peek(c, limits).value;
    if id in FILTER_IDS {
      ElementOctet(id, Bounded(c, limits).value, limits);
    }
  }

  /** So the decoder reads what the RFC spells: the spelled octets of a well-formed
      filter within the limits decode to that filter, and an accepted encoding is spelled
      as its filter is, or is longer and was charged for more elements. */
  lemma DecodesSpelled(f: Filter, tail: bytes, depth: nat, elements: nat, limits: Limits)
    requires Good(f, limits, depth) && Fits(FilterPacket(f)) && elements + FilterNodes(f, limits) <= limits.maxElements
    ensures DecodeFilter(Cursor(Spelled(f) + tail, depth, elements), limits)
         == Ok((f, Cursor(tail, depth, elements + FilterNodes(f, limits))))
  {
    hide DecodeFilter, Spelled, Good, FilterNodes, EncodePacket;
    RoundTrip(f, tail, depth, elements, limits);
    EncodingSpelled(f);
  }

  lemma AcceptedIsSpelled(c: Cursor, limits: Limits)
    requires Bounds(c, limits) && DecodeFilter(c, limits).Ok?
    ensures var (f, next) := DecodeFilter(c, limits).value;
            && (c.rest == Spelled(f) + next.rest <==> next.elements == c.elements + FilterNodes(f, limits))
            && (c.rest != Spelled(f) + next.rest ==> |Spelled(f)| + |next.rest| < |c.rest| && next.elements > c.elements + FilterNodes(f, limits))
  {
    hide DecodeFilter, Spelled, Good, FilterNodes, EncodePacket;
    Reencodes(c, [], limits);
    EncodingSpelled(DecodeFilter(c, limits).value.0);
  }
}
