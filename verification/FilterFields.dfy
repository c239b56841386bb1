/** The fields of the filter alternatives: their packets print as plain octets,
    which the decoder reads back, and whatever it accepts is such octets. */
module FilterFields {
  import opened BerTypes
  import opened BerIdentifier
  import opened BerTree
  import opened BerPacket
  import opened BerCursor
  import opened Filter
  import opened FilterWire

  // ------------------------------------------------------------ packets and octets

  // The packets print as these octets, as soon as either is short enough.
  ghost predicate Prints(ps: seq<Packet>, octets: bytes)
  {
    PacketSizeAll(ps) == |octets| && (|octets| <= MAX_INT ==> EncodePackets(ps) == octets)
  }

  lemma {:induction false} PrintsAppend(ps: seq<Packet>, qs: seq<Packet>, a: bytes, b: bytes)
    requires Prints(ps, a) && Prints(qs, b)
    ensures Prints(ps + qs, a + b)
    decreases |ps|
  {
    if ps == [] {
      assert ps + qs == qs && a + b == b;
    } else {
      var p, rest := ps[0], ps[1..];
      assert ps == [p] + rest && ps + qs == [p] + (rest + qs);
      if |a| <= MAX_INT {
        EncodeCons(p, rest);
        var a' := EncodePackets(rest);
        PrintsAppend(rest, qs, a', b);
        if |a + b| <= MAX_INT {
          assert PacketSizeAll([p] + (rest + qs)) == PacketSize(p) + PacketSizeAll(rest + qs);
          EncodeCons(p, rest + qs);
          assert EncodePacket(p) + (a' + b) == (EncodePacket(p) + a') + b;
        }
      }
      SizesAppend(ps, qs);
    }
  }

  lemma {:induction false} SizesAppend(ps: seq<Packet>, qs: seq<Packet>)
    ensures PacketSizeAll(ps + qs) == PacketSizeAll(ps) + PacketSizeAll(qs)
    decreases |ps|
  {
    if ps == [] {
      assert ps + qs == qs;
    } else {
      assert (ps + qs)[1..] == ps[1..] + qs;
      SizesAppend(ps[1..], qs);
    }
  }

  lemma PrintsOne(p: Packet, octets: bytes)
    requires PacketSize(p) == |octets| && (Fits(p) ==> EncodePacket(p) == octets)
    ensures Prints([p], octets)
  {
    assert [p][1..] == [];
  }

  lemma PrimitiveSize(id: Identifier, value: bytes)
    requires !id.constructed
    ensures |value| <= MAX_INT ==> PacketSize(PrimitivePacket(id, value)) == |Elem(id, value)|
    ensures |value| > MAX_INT ==> PacketSize(PrimitivePacket(id, value)) > MAX_INT
    ensures Fits(PrimitivePacket(id, value)) ==> EncodePacket(PrimitivePacket(id, value)) == Elem(id, value)
  {
  }

  lemma PrintsValue(id: Identifier, value: bytes)
    requires !id.constructed && |value| <= MAX_INT
    ensures Prints([PrimitivePacket(id, value)], Elem(id, value))
  {
    PrimitiveSize(id, value);
    PrintsOne(PrimitivePacket(id, value), Elem(id, value));
  }

  lemma PrintsOptional(id: Identifier, value: Option<bytes>)
    requires !id.constructed && (value.Some? ==> |value.value| <= MAX_INT)
    ensures Prints(OptionalOctets(id, value), OptionalBytes(id, value))
  {
    if value.Some? { PrintsValue(id, value.value); }
  }

  lemma {:induction false} PrintsSeveral(id: Identifier, values: seq<bytes>)
    requires !id.constructed && AllFit(values)
    ensures Prints(Octets(id, values), SeveralBytes(id, values))
    decreases |values|
  {
    hide Prints;
    if values == [] {
      assert Prints([], []) by { PrintsNothing(); }
    } else {
      PrintsValue(id, values[0]);
      PrintsSeveral(id, values[1..]);
      PrintsAppend([PrimitivePacket(id, values[0])], Octets(id, values[1..]), Elem(id, values[0]), SeveralBytes(id, values[1..]));
    }
  }

  lemma PrintsNothing()
    ensures Prints([], [])
  {
  }

  lemma {:induction false} PrintsRaws(us: seq<Unknown>)
    ensures Prints(Raws(us), RawBytes(us))
    decreases |us|
  {
    hide Prints;
    if us == [] {
      PrintsNothing();
    } else {
      PrintsOne(EncodedPacket(us[0].raw), us[0].raw);
      PrintsRaws(us[1..]);
      PrintsAppend([EncodedPacket(us[0].raw)], Raws(us[1..]), us[0].raw, RawBytes(us[1..]));
    }
  }

  // ------------------------------------------------------------------- assertions

  function AssertionBytes(a: Assertion): bytes
  {
    Elem(OCTET_STRING, a.attribute) + (Elem(OCTET_STRING, a.value) + RawBytes(a.extensions))
  }

  ghost predicate GoodAssertion(a: Assertion, limits: Limits, depth: nat)
  {
    && a.attribute != [] && Utf8(a.attribute) && |a.attribute| <= MAX_INT && |a.value| <= MAX_INT
    && GoodUnknowns(a.extensions, {}, limits, depth)
  }

  ghost function AssertionNodes(a: Assertion, limits: Limits): nat { 2 + AllNodes(a.extensions, limits) }

  lemma PrintsAssertion(a: Assertion)
    requires |a.attribute| <= MAX_INT && |a.value| <= MAX_INT
    ensures Prints(AssertionPackets(a), AssertionBytes(a))
  {
    hide Prints, Raws, RawBytes, Elem;
    var p, q := PrimitivePacket(OCTET_STRING, a.attribute), PrimitivePacket(OCTET_STRING, a.value);
    PrintsValue(OCTET_STRING, a.attribute);
    PrintsValue(OCTET_STRING, a.value);
    PrintsRaws(a.extensions);
    PrintsAppend([q], Raws(a.extensions), Elem(OCTET_STRING, a.value), RawBytes(a.extensions));
    PrintsAppend([p], [q] + Raws(a.extensions), Elem(OCTET_STRING, a.attribute), Elem(OCTET_STRING, a.value) + RawBytes(a.extensions));
  }

  lemma AssertionBack(a: Assertion, depth: nat, elements: nat, limits: Limits)
    requires GoodAssertion(a, limits, depth) && elements + AssertionNodes(a, limits) <= limits.maxElements
    ensures AssertionFields(Cursor(AssertionBytes(a), depth, elements), limits)
         == Ok((a, Cursor([], depth, elements + AssertionNodes(a, limits))))
  {
    hide Utf8, ReadValue, ReadExtensions, Elem, GoodUnknowns, AllNodes, RawBytes;
    var rest := RawBytes(a.extensions);
    ValueBack(OCTET_STRING, a.attribute, true, Elem(OCTET_STRING, a.value) + rest, depth, elements, limits);
    ValueBack(OCTET_STRING, a.value, false, rest, depth, elements + 1, limits);
    ExtensionsBack(a.extensions, {}, depth, elements + 2, limits);
  }

  lemma AssertionSound(c: Cursor, limits: Limits)
    requires AssertionFields(c, limits).Ok? && c.elements <= limits.maxElements && c.depth <= limits.maxDepth && |c.rest| <= MAX_INT
    ensures var (a, next) := AssertionFields(c, limits).value;
            && c.rest == AssertionBytes(a) && GoodAssertion(a, limits, c.depth)
            && next.elements == c.elements + AssertionNodes(a, limits) <= limits.maxElements
  {
    hide Utf8, ReadValue, ReadExtensions, Elem, GoodUnknowns, AllNodes, RawBytes;
    var c1 := ReadValue(c, OCTET_STRING, true, limits).value.1;
    ValueSound(c, OCTET_STRING, true, limits);
    var c2 := ReadValue(c1, OCTET_STRING, false, limits).value.1;
    ValueSound(c1, OCTET_STRING, false, limits);
    ExtensionsSound(c2, {}, limits);
  }

  // ------------------------------------------------------------------- substrings

  function PartBytes(p: Parts): bytes
  {
    OptionalBytes(Item(0), p.initial)
    + (SeveralBytes(Item(1), p.middle) + (OptionalBytes(Item(2), p.last) + RawBytes(p.extensions)))
  }

  predicate Fitting(o: Option<bytes>) { o.Some? ==> |o.value| <= MAX_INT }

  ghost predicate GoodParts(p: Parts, limits: Limits, depth: nat)
  {
    && Fitting(p.initial) && AllFit(p.middle) && Fitting(p.last)
    && GoodUnknowns(p.extensions, SUBSTRING_IDS, limits, depth)
  }

  function Held(o: Option<bytes>): nat { if o.Some? then 1 else 0 }

  ghost function PartNodes(p: Parts, limits: Limits): nat
  {
    Held(p.initial) + |p.middle| + Held(p.last) + AllNodes(p.extensions, limits)
  }

  lemma PrintsParts(p: Parts)
    requires Fitting(p.initial) && AllFit(p.middle) && Fitting(p.last)
    ensures Prints(PartPackets(p.initial, p.middle, p.last, p.extensions), PartBytes(p))
  {
    hide Prints, Octets, OptionalOctets, Raws, OptionalBytes, SeveralBytes, RawBytes;
    PrintsOptional(Item(0), p.initial);
    PrintsSeveral(Item(1), p.middle);
    PrintsOptional(Item(2), p.last);
    PrintsRaws(p.extensions);
    var p1, b1 := OptionalOctets(Item(2), p.last) + Raws(p.extensions), OptionalBytes(Item(2), p.last) + RawBytes(p.extensions);
    PrintsAppend(OptionalOctets(Item(2), p.last), Raws(p.extensions), OptionalBytes(Item(2), p.last), RawBytes(p.extensions));
    PrintsAppend(Octets(Item(1), p.middle), p1, SeveralBytes(Item(1), p.middle), b1);
    PrintsAppend(OptionalOctets(Item(0), p.initial), Octets(Item(1), p.middle) + p1,
                 OptionalBytes(Item(0), p.initial), SeveralBytes(Item(1), p.middle) + b1);
  }

  // The extensions do not begin like a field of their type.
  lemma ExtensionsElsewhere(us: seq<Unknown>, reserved: set<Identifier>, id: Identifier, depth: nat, elements: nat, limits: Limits)
    requires GoodUnknowns(us, reserved, limits, depth) && id in reserved && elements + AllNodes(us, limits) <= limits.maxElements
    ensures Elsewhere(Cursor(RawBytes(us), depth, elements), id, limits)
  {
    hide Peek, Nodes, GoodUnknown, ReadUnknown;
    if us != [] { UnknownBack(us[0], RawBytes(us[1..]), depth, elements, limits); }
  }

  // Nor does an optional field in front of them, if it is a different one.
  lemma OptionalElsewhere(other: Identifier, value: Option<bytes>, tail: bytes, id: Identifier, depth: nat, elements: nat, limits: Limits)
    requires TagAllowed(other, limits.maxTagNumber) && !other.constructed && Fitting(value) && other != id
    requires value.Some? ==> elements < limits.maxElements
    requires value.None? ==> Elsewhere(Cursor(tail, depth, elements), id, limits)
    ensures Elsewhere(Cursor(OptionalBytes(other, value) + tail, depth, elements), id, limits)
  {
    hide Peek, Elem;
    if value.Some? { ValueBack(other, value.value, false, tail, depth, elements, limits); }
    else { assert [] + tail == tail; }
  }

  lemma SeveralElsewhere(other: Identifier, values: seq<bytes>, tail: bytes, id: Identifier, depth: nat, elements: nat, limits: Limits)
    requires TagAllowed(other, limits.maxTagNumber) && !other.constructed && AllFit(values) && other != id
    requires values != [] ==> elements < limits.maxElements
    requires values == [] ==> Elsewhere(Cursor(tail, depth, elements), id, limits)
    ensures Elsewhere(Cursor(SeveralBytes(other, values) + tail, depth, elements), id, limits)
  {
    hide Peek, Elem, SeveralBytes;
    SeveralFront(other, values, tail);
    if values != [] {
      ValueBack(other, values[0], false, SeveralBytes(other, values[1..]) + tail, depth, elements, limits);
    }
  }

  lemma SeveralFront(id: Identifier, values: seq<bytes>, tail: bytes)
    ensures values == [] ==> SeveralBytes(id, values) + tail == tail
    ensures values != [] ==> SeveralBytes(id, values) + tail == Elem(id, values[0]) + (SeveralBytes(id, values[1..]) + tail)
  {
    hide Elem;
    if values == [] { assert [] + tail == tail; }
    else { Reassociate(Elem(id, values[0]), SeveralBytes(id, values[1..]), tail); }
  }

  lemma PartsBack(p: Parts, depth: nat, elements: nat, limits: Limits)
    requires GoodParts(p, limits, depth) && elements + PartNodes(p, limits) <= limits.maxElements
    ensures PartFields(Cursor(PartBytes(p), depth, elements), limits) == Ok((p, Cursor([], depth, elements + PartNodes(p, limits))))
  {
    hide ReadOptional, ReadSeveral, ReadExtensions, OptionalBytes, SeveralBytes, RawBytes, Elsewhere, GoodUnknowns, AllNodes, AllFit;
    var n1 := elements + Held(p.initial);
    var n2 := n1 + |p.middle|;
    var n3 := n2 + Held(p.last);
    var b3 := RawBytes(p.extensions);
    var b2 := OptionalBytes(Item(2), p.last) + b3;
    var b1 := SeveralBytes(Item(1), p.middle) + b2;
    ExtensionsElsewhere(p.extensions, SUBSTRING_IDS, Item(2), depth, n3, limits);
    ExtensionsElsewhere(p.extensions, SUBSTRING_IDS, Item(1), depth, n2, limits);
    ExtensionsElsewhere(p.extensions, SUBSTRING_IDS, Item(0), depth, n1, limits);
    OptionalElsewhere(Item(2), p.last, b3, Item(1), depth, n2, limits);
    OptionalElsewhere(Item(2), p.last, b3, Item(0), depth, n1, limits);
    SeveralElsewhere(Item(1), p.middle, b2, Item(0), depth, n1, limits);
    OptionalBack(Item(0), p.initial, false, b1, depth, elements, limits);
    SeveralBack(Item(1), p.middle, b2, depth, n1, limits);
    OptionalBack(Item(2), p.last, false, b3, depth, n2, limits);
    ExtensionsBack(p.extensions, SUBSTRING_IDS, depth, n3, limits);
  }

  lemma PartsSound(c: Cursor, limits: Limits)
    requires PartFields(c, limits).Ok? && c.elements <= limits.maxElements && c.depth <= limits.maxDepth && |c.rest| <= MAX_INT
    ensures var (p, next) := PartFields(c, limits).value;
            && c.rest == PartBytes(p) && GoodParts(p, limits, c.depth)
            && next.elements == c.elements + PartNodes(p, limits) <= limits.maxElements
  {
    hide ReadOptional, ReadSeveral, ReadExtensions, OptionalBytes, SeveralBytes, RawBytes, GoodUnknowns, AllNodes, AllFit;
    var c1 := ReadOptional(c, Item(0), false, limits).value.1;
    OptionalSound(c, Item(0), false, limits);
    var c2 := ReadSeveral(c1, Item(1), limits).value.1;
    SeveralSound(c1, Item(1), limits);
    var c3 := ReadOptional(c2, Item(2), false, limits).value.1;
    OptionalSound(c2, Item(2), false, limits);
    ExtensionsSound(c3, SUBSTRING_IDS, limits);
  }

  // ------------------------------------------------------------- extensible match

  datatype Matching = Matching(rule: Option<bytes>, kind: Option<bytes>, value: bytes, dnAttributes: bool, extensions: seq<Unknown>)

  function DnBytes(dn: bool): bytes { if dn then Elem(Item(4), [0xFF]) else [] }

  function MatchBytes(m: Matching): bytes
  {
    OptionalBytes(Item(1), m.rule)
    + (OptionalBytes(Item(2), m.kind) + (Elem(Item(3), m.value) + (DnBytes(m.dnAttributes) + RawBytes(m.extensions))))
  }

  predicate GoodText(o: Option<bytes>) { Fitting(o) && (o.Some? ==> o.value != [] && Utf8(o.value)) }

  ghost predicate GoodMatch(m: Matching, limits: Limits, depth: nat)
  {
    && GoodText(m.rule) && GoodText(m.kind) && (m.rule.Some? || m.kind.Some?) && |m.value| <= MAX_INT
    && GoodUnknowns(m.extensions, MATCH_IDS, limits, depth)
  }

  ghost function MatchNodes(m: Matching, limits: Limits): nat
  {
    Held(m.rule) + Held(m.kind) + 1 + (if m.dnAttributes then 1 else 0) + AllNodes(m.extensions, limits)
  }

  lemma PrintsMatch(m: Matching)
    requires Fitting(m.rule) && Fitting(m.kind) && |m.value| <= MAX_INT
    ensures Prints(MatchPackets(m.rule, m.kind, m.value, m.dnAttributes, m.extensions), MatchBytes(m))
  {
    hide Prints, OptionalOctets, Raws, OptionalBytes, RawBytes, Elem;
    PrintsOptional(Item(1), m.rule);
    PrintsOptional(Item(2), m.kind);
    PrintsValue(Item(3), m.value);
    if m.dnAttributes { PrintsValue(Item(4), [0xFF]); } else { PrintsNothing(); }
    PrintsRaws(m.extensions);
    var p4, b4 := DnPackets(m.dnAttributes) + Raws(m.extensions), DnBytes(m.dnAttributes) + RawBytes(m.extensions);
    PrintsAppend(DnPackets(m.dnAttributes), Raws(m.extensions), DnBytes(m.dnAttributes), RawBytes(m.extensions));
    var p3, b3 := [PrimitivePacket(Item(3), m.value)] + p4, Elem(Item(3), m.value) + b4;
    PrintsAppend([PrimitivePacket(Item(3), m.value)], p4, Elem(Item(3), m.value), b4);
    PrintsAppend(OptionalOctets(Item(2), m.kind), p3, OptionalBytes(Item(2), m.kind), b3);
    PrintsAppend(OptionalOctets(Item(1), m.rule), OptionalOctets(Item(2), m.kind) + p3,
                 OptionalBytes(Item(1), m.rule), OptionalBytes(Item(2), m.kind) + b3);
  }

  lemma DnBack(dn: bool, tail: bytes, depth: nat, elements: nat, limits: Limits)
    requires dn ==> elements < limits.maxElements
    requires !dn ==> Elsewhere(Cursor(tail, depth, elements), Item(4), limits)
    ensures ReadDn(Cursor(DnBytes(dn) + tail, depth, elements), limits) == Ok((dn, Cursor(tail, depth, elements + if dn then 1 else 0)))
  {
    hide Peek, ReadPrimitive;
    if dn {
      ValueBack(Item(4), [0xFF], false, tail, depth, elements, limits);
      ReadPrimitiveBack(Item(4), [0xFF], tail, depth, elements, limits);
    } else {
      assert [] + tail == tail;
    }
  }

  function ToFilter(m: Matching): Filter { ExtensibleMatch(m.rule, m.kind, m.value, m.dnAttributes, m.extensions) }

  lemma MatchBack(m: Matching, depth: nat, elements: nat, limits: Limits)
    requires GoodMatch(m, limits, depth) && elements + MatchNodes(m, limits) <= limits.maxElements
    ensures MatchFields(Cursor(MatchBytes(m), depth, elements), limits) == Ok((ToFilter(m), Cursor([], depth, elements + MatchNodes(m, limits))))
  {
    hide ReadOptional, ReadValue, ReadDn, ReadExtensions, OptionalBytes, RawBytes, DnBytes, Elem, Elsewhere, GoodUnknowns, AllNodes, Utf8;
    var n1 := elements + Held(m.rule);
    var n2 := n1 + Held(m.kind);
    var n4 := n2 + 1 + if m.dnAttributes then 1 else 0;
    var b4 := RawBytes(m.extensions);
    var b3 := DnBytes(m.dnAttributes) + b4;
    var b2 := Elem(Item(3), m.value) + b3;
    var b1 := OptionalBytes(Item(2), m.kind) + b2;
    if !m.dnAttributes { ExtensionsElsewhere(m.extensions, MATCH_IDS, Item(4), depth, n2 + 1, limits); }
    ValueElsewhere(Item(3), m.value, b3, Item(2), depth, n2, limits);
    ValueElsewhere(Item(3), m.value, b3, Item(1), depth, n1, limits);
    OptionalElsewhere(Item(2), m.kind, b2, Item(1), depth, n1, limits);
    OptionalBack(Item(1), m.rule, true, b1, depth, elements, limits);
    OptionalBack(Item(2), m.kind, true, b2, depth, n1, limits);
    ValueBack(Item(3), m.value, false, b3, depth, n2, limits);
    DnBack(m.dnAttributes, b4, depth, n2 + 1, limits);
    ExtensionsBack(m.extensions, MATCH_IDS, depth, n4, limits);
  }

  lemma ValueElsewhere(other: Identifier, value: bytes, tail: bytes, id: Identifier, depth: nat, elements: nat, limits: Limits)
    requires TagAllowed(other, limits.maxTagNumber) && !other.constructed && |value| <= MAX_INT && other != id && elements < limits.maxElements
    ensures Elsewhere(Cursor(Elem(other, value) + tail, depth, elements), id, limits)
  {
    hide Peek, Elem;
    ValueBack(other, value, false, tail, depth, elements, limits);
  }

  // How an encoding compares with the octets it was decoded from: as long as they
  // were charged for as many elements as it has, it is those octets; otherwise they
  // were charged for more, and it is shorter.
  ghost predicate Reprints(octets: bytes, was: bytes, nodes: int, charge: int)
  {
    if charge == nodes then octets == was else charge > nodes && |octets| < |was|
  }

  // The optional boolean: a printed TRUE, or nothing, or an explicit FALSE.
  lemma DnSound(c: Cursor, limits: Limits) returns (was: bytes)
    requires ReadDn(c, limits).Ok? && c.elements <= limits.maxElements
    ensures var (dn, next) := ReadDn(c, limits).value;
            && c.rest == was + next.rest && next.depth == c.depth && next.elements <= limits.maxElements
            && Reprints(DnBytes(dn), was, if dn then 1 else 0, next.elements - c.elements)
  {
    hide Peek, ReadPrimitive, Elem;
    was := [];
    assert c.rest == [] + c.rest;
    if NextIs(c, Item(4), limits) == Ok(true) {
      ReadPrimitiveSound(c, Item(4), limits);
      var value := ReadPrimitive(c, Item(4), limits).value.0;
      was := Wrap(Item(4), value);
      assert value == [value[0]];
      assert was == Elem(Item(4), value) by { ElemIsWrap(Item(4), value); }
    }
  }

  lemma ElemIsWrap(id: Identifier, value: bytes)
    requires |value| <= MAX_INT
    ensures Elem(id, value) == Wrap(id, value)
  {
  }

  lemma MatchSound(c: Cursor, limits: Limits) returns (m: Matching)
    requires MatchFields(c, limits).Ok? && c.elements <= limits.maxElements && c.depth <= limits.maxDepth && |c.rest| <= MAX_INT
    ensures var (f, next) := MatchFields(c, limits).value;
            && f == ToFilter(m) && GoodMatch(m, limits, c.depth) && next.elements <= limits.maxElements
            && Reprints(MatchBytes(m), c.rest, MatchNodes(m, limits), next.elements - c.elements)
  {
    hide ReadOptional, ReadValue, ReadDn, ReadExtensions, OptionalBytes, RawBytes, DnBytes, Elem, GoodUnknowns, AllNodes, Utf8;
    var (rule, c1) := ReadOptional(c, Item(1), true, limits).value;
    OptionalSound(c, Item(1), true, limits);
    var (kind, c2) := ReadOptional(c1, Item(2), true, limits).value;
    OptionalSound(c1, Item(2), true, limits);
    var (value, c3) := ReadValue(c2, Item(3), false, limits).value;
    ValueSound(c2, Item(3), false, limits);
    var (dn, c4) := ReadDn(c3, limits).value;
    var was := DnSound(c3, limits);
    ExtensionsSound(c4, MATCH_IDS, limits);
    var extensions := ReadExtensions(c4, MATCH_IDS, limits).value.0;
    m := Matching(rule, kind, value, dn, extensions);
    assert c.rest == OptionalBytes(Item(1), rule) + (OptionalBytes(Item(2), kind) + (Elem(Item(3), value) + (was + RawBytes(extensions))));
  }
}
