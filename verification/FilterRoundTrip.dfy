/** The filter codec as a whole: a well-formed filter within the limits decodes from
    its encoding to itself, and whatever is accepted re-encodes to octets that decode
    to the same filter. */
module FilterRoundTrip {
  import opened BerTypes
  import opened BerIdentifier
  import opened BerLength
  import opened BerTree
  import opened BerPacket
  import opened BerCursor
  import opened Filter
  import opened FilterWire
  import opened FilterFields

  function AsParts(f: Filter): Parts
    requires f.Substrings?
  {
    Parts(f.initial, f.middle, f.last, f.extensions)
  }

  function AsMatching(f: Filter): Matching
    requires f.ExtensibleMatch?
  {
    Matching(f.rule, f.kind, f.value, f.dnAttributes, f.extensions)
  }

  // A filter of section 4.5.1.7 of RFC 4511 that fits the depth left at this one.
  ghost predicate Good(f: Filter, limits: Limits, depth: nat)
    decreases f, 1
  {
    match f
    case And(fs) => depth < limits.maxDepth && fs != [] && GoodAll(fs, limits, depth + 1)
    case Or(fs) => depth < limits.maxDepth && fs != [] && GoodAll(fs, limits, depth + 1)
    case Not(g) => depth < limits.maxDepth && Good(g, limits, depth + 1)
    case EqualityMatch(a) => depth < limits.maxDepth && GoodAssertion(a, limits, depth + 1)
    case GreaterOrEqual(a) => depth < limits.maxDepth && GoodAssertion(a, limits, depth + 1)
    case LessOrEqual(a) => depth < limits.maxDepth && GoodAssertion(a, limits, depth + 1)
    case ApproximateMatch(a) => depth < limits.maxDepth && GoodAssertion(a, limits, depth + 1)
    case Present(attribute) => attribute != [] && Utf8(attribute) && |attribute| <= MAX_INT
    case Substrings(attribute, _, _, _, _) =>
      && depth + 1 < limits.maxDepth && attribute != [] && Utf8(attribute) && |attribute| <= MAX_INT
      && SomePart(AsParts(f)) && GoodParts(AsParts(f), limits, depth + 2)
    case ExtensibleMatch(_, _, _, _, _) => depth < limits.maxDepth && GoodMatch(AsMatching(f), limits, depth + 1)
    case UnknownFilter(u) => GoodUnknown(u, limits, depth) && u.id.cls == CONTEXT && u.id !in FILTER_IDS
  }

  ghost predicate GoodAll(fs: seq<Filter>, limits: Limits, depth: nat)
    decreases fs, 0
  {
    fs == [] || (Good(fs[0], limits, depth) && GoodAll(fs[1..], limits, depth))
  }

  // How many BER elements a filter's encoding has.
  ghost function FilterNodes(f: Filter, limits: Limits): nat
    decreases f, 1
  {
    match f
    case And(fs) => 1 + FiltersNodes(fs, limits)
    case Or(fs) => 1 + FiltersNodes(fs, limits)
    case Not(g) => 1 + FilterNodes(g, limits)
    case EqualityMatch(a) => 1 + AssertionNodes(a, limits)
    case GreaterOrEqual(a) => 1 + AssertionNodes(a, limits)
    case LessOrEqual(a) => 1 + AssertionNodes(a, limits)
    case ApproximateMatch(a) => 1 + AssertionNodes(a, limits)
    case Present(_) => 1
    case Substrings(_, _, _, _, _) => 3 + PartNodes(AsParts(f), limits)
    case ExtensibleMatch(_, _, _, _, _) => 1 + MatchNodes(AsMatching(f), limits)
    case UnknownFilter(u) => Nodes(u, limits)
  }

  ghost function FiltersNodes(fs: seq<Filter>, limits: Limits): nat
    decreases fs, 0
  {
    if fs == [] then 0 else FilterNodes(fs[0], limits) + FiltersNodes(fs[1..], limits)
  }

  // --------------------------------------------------------------- decoding back

  lemma GroupFits(id: Identifier, ps: seq<Packet>)
    requires id.constructed && Fits(ConstructedPacket(id, ps))
    ensures PacketSizeAll(ps) <= MAX_INT && EncodePacket(ConstructedPacket(id, ps)) == Wrap(id, EncodePackets(ps))
  {
  }

  lemma BoundedBack(id: Identifier, contents: bytes, tail: bytes, depth: nat, elements: nat, limits: Limits)
    requires TagAllowed(id, limits.maxTagNumber) && |contents| <= MAX_INT && elements < limits.maxElements
    ensures Bounded(Cursor(Wrap(id, contents) + tail, depth, elements), limits) == Ok(Cursor(Wrap(id, contents), depth, elements))
  {
    ParseElementComplete(id, contents, tail, limits.maxTagNumber);
    hide ParseElement, Wrap;
  }

  // A group element whose fields decode decodes.
  lemma GroupBack(id: Identifier, contents: bytes, f: Filter, tail: bytes, depth: nat, elements: nat, n: nat, limits: Limits)
    requires id in FILTER_IDS && id.constructed && |contents| <= MAX_INT && elements < limits.maxElements && depth < limits.maxDepth
    requires DecodeInside(id, Cursor(contents, depth + 1, elements + 1), limits) == Ok((f, Cursor([], depth + 1, n)))
    ensures DecodeFilter(Cursor(Wrap(id, contents) + tail, depth, elements), limits) == Ok((f, Cursor(tail, depth, n)))
  {
    hide DecodeInside, Peek, Bounded, Enter, Wrap;
    var w := Wrap(id, contents);
    PeekBack(id, contents, tail, depth, elements, limits);
    BoundedBack(id, contents, tail, depth, elements, limits);
    EnterBack(id, contents, [], depth, elements, limits);
    assert w + [] == w && (w + tail)[|w|..] == tail;
  }

  lemma AssertionInside(id: Identifier, a: Assertion, f: Filter, depth: nat, elements: nat, limits: Limits)
    requires GoodAssertion(a, limits, depth) && elements + AssertionNodes(a, limits) <= limits.maxElements
    requires || (id == Group(3) && f == EqualityMatch(a)) || (id == Group(5) && f == GreaterOrEqual(a))
             || (id == Group(6) && f == LessOrEqual(a)) || (id == Group(8) && f == ApproximateMatch(a))
    ensures DecodeInside(id, Cursor(AssertionBytes(a), depth, elements), limits)
         == Ok((f, Cursor([], depth, elements + AssertionNodes(a, limits))))
  {
    hide AssertionFields, AssertionBytes, GoodAssertion, AssertionNodes, DecodeFilters, DecodeFilter;
    AssertionBack(a, depth, elements, limits);
  }

  lemma AssertionRoundTrip(id: Identifier, a: Assertion, f: Filter, tail: bytes, depth: nat, elements: nat, limits: Limits)
    requires depth < limits.maxDepth && GoodAssertion(a, limits, depth + 1) && elements + 1 + AssertionNodes(a, limits) <= limits.maxElements
    requires || (id == Group(3) && f == EqualityMatch(a)) || (id == Group(5) && f == GreaterOrEqual(a))
             || (id == Group(6) && f == LessOrEqual(a)) || (id == Group(8) && f == ApproximateMatch(a))
    requires Fits(ConstructedPacket(id, AssertionPackets(a)))
    ensures DecodeFilter(Cursor(EncodePacket(ConstructedPacket(id, AssertionPackets(a))) + tail, depth, elements), limits)
         == Ok((f, Cursor(tail, depth, elements + 1 + AssertionNodes(a, limits))))
  {
    hide DecodeFilter, DecodeInside, EncodePacket, EncodePackets, AssertionPackets, AssertionBytes, AssertionNodes, Wrap;
    GroupFits(id, AssertionPackets(a));
    PrintsAssertion(a);
    AssertionInside(id, a, f, depth + 1, elements + 1, limits);
    GroupBack(id, AssertionBytes(a), f, tail, depth, elements, elements + 1 + AssertionNodes(a, limits), limits);
  }

  lemma PresentRoundTrip(f: Filter, tail: bytes, depth: nat, elements: nat, limits: Limits)
    requires f.Present? && Good(f, limits, depth) && elements < limits.maxElements && Fits(FilterPacket(f))
    ensures DecodeFilter(Cursor(EncodeFilter(f) + tail, depth, elements), limits) == Ok((f, Cursor(tail, depth, elements + 1)))
  {
    hide Peek, Bounded, ReadValue, Utf8;
    var id, w := Item(7), Elem(Item(7), f.attribute);
    assert EncodeFilter(f) == w by { PrimitiveSize(id, f.attribute); }
    hide EncodePacket;
    ValueBack(id, f.attribute, true, [], depth, elements, limits);
    ValueBack(id, f.attribute, true, tail, depth, elements, limits);
    BoundedBack(id, f.attribute, tail, depth, elements, limits);
    assert w + [] == w && (w + tail)[|w|..] == tail;
    hide Elem, ReadSpec;
  }

  lemma SubstringsInside(f: Filter, contents: bytes, depth: nat, elements: nat, limits: Limits)
    requires f.Substrings? && f.attribute != [] && Utf8(f.attribute) && |f.attribute| <= MAX_INT
    requires SomePart(AsParts(f)) && GoodParts(AsParts(f), limits, depth + 1) && depth < limits.maxDepth
    requires |PartBytes(AsParts(f))| <= MAX_INT && elements + 2 + PartNodes(AsParts(f), limits) <= limits.maxElements
    requires contents == Elem(OCTET_STRING, f.attribute) + Wrap(SEQUENCE, PartBytes(AsParts(f)))
    ensures DecodeInside(Group(4), Cursor(contents, depth, elements), limits)
         == Ok((f, Cursor([], depth, elements + 2 + PartNodes(AsParts(f), limits))))
  {
    hide ReadValue, Enter, PartFields, PartBytes, PartNodes, GoodParts, Utf8, Wrap, Elem, DecodeFilters, DecodeFilter, SomePart;
    var p := AsParts(f);
    var b := PartBytes(p);
    ValueBack(OCTET_STRING, f.attribute, true, Wrap(SEQUENCE, b), depth, elements, limits);
    EnterBack(SEQUENCE, b, [], depth, elements + 1, limits);
    assert Wrap(SEQUENCE, b) + [] == Wrap(SEQUENCE, b);
    PartsBack(p, depth + 1, elements + 2, limits);
  }

  lemma SubstringsRoundTrip(f: Filter, tail: bytes, depth: nat, elements: nat, limits: Limits)
    requires f.Substrings? && Good(f, limits, depth) && elements + FilterNodes(f, limits) <= limits.maxElements && Fits(FilterPacket(f))
    ensures DecodeFilter(Cursor(EncodeFilter(f) + tail, depth, elements), limits)
         == Ok((f, Cursor(tail, depth, elements + FilterNodes(f, limits))))
  {
    hide DecodeFilter, DecodeInside, EncodePacket, EncodePackets, PartPackets, PartBytes, PartNodes, Wrap, Utf8, GoodParts, SomePart;
    var p := AsParts(f);
    var q := PartPackets(p.initial, p.middle, p.last, p.extensions);
    var a, inner := PrimitivePacket(OCTET_STRING, f.attribute), ConstructedPacket(SEQUENCE, q);
    GroupFits(Group(4), [a, inner]);
    assert [a, inner] == [a] + [inner] && [inner] == [inner] + [];
    EncodeCons(a, [inner]);
    EncodeCons(inner, []);
    GroupFits(SEQUENCE, q);
    PartsFit(p, limits, depth + 2);
    PrintsParts(p);
    PrimitiveSize(OCTET_STRING, f.attribute);
    NoPackets();
    var contents := Elem(OCTET_STRING, f.attribute) + Wrap(SEQUENCE, PartBytes(p));
    assert EncodePackets([a, inner]) == contents;
    SubstringsInside(f, contents, depth + 1, elements + 1, limits);
    GroupBack(Group(4), contents, f, tail, depth, elements, elements + FilterNodes(f, limits), limits);
  }

  lemma NoPackets()
    ensures EncodePackets([]) == []
  {
  }

  lemma PartsFit(p: Parts, limits: Limits, depth: nat)
    requires GoodParts(p, limits, depth)
    ensures Fitting(p.initial) && AllFit(p.middle) && Fitting(p.last)
  {
  }

  lemma MatchRoundTrip(f: Filter, tail: bytes, depth: nat, elements: nat, limits: Limits)
    requires f.ExtensibleMatch? && Good(f, limits, depth) && elements + FilterNodes(f, limits) <= limits.maxElements && Fits(FilterPacket(f))
    ensures DecodeFilter(Cursor(EncodeFilter(f) + tail, depth, elements), limits)
         == Ok((f, Cursor(tail, depth, elements + FilterNodes(f, limits))))
  {
    hide DecodeFilter, EncodePacket, EncodePackets, MatchPackets, MatchBytes, MatchNodes, MatchFields, Wrap, DecodeFilters;
    var m := AsMatching(f);
    GroupFits(Group(9), MatchPackets(m.rule, m.kind, m.value, m.dnAttributes, m.extensions));
    PrintsMatch(m);
    hide GoodMatch;
    MatchBack(m, depth + 1, elements + 1, limits);
    GroupBack(Group(9), MatchBytes(m), f, tail, depth, elements, elements + FilterNodes(f, limits), limits);
  }

  lemma UnknownRoundTrip(f: Filter, tail: bytes, depth: nat, elements: nat, limits: Limits)
    requires f.UnknownFilter? && Good(f, limits, depth) && elements + FilterNodes(f, limits) <= limits.maxElements && Fits(FilterPacket(f))
    ensures DecodeFilter(Cursor(EncodeFilter(f) + tail, depth, elements), limits)
         == Ok((f, Cursor(tail, depth, elements + FilterNodes(f, limits))))
  {
    hide Peek, ReadUnknown, GoodUnknown, Nodes;
    UnknownBack(f.field, tail, depth, elements, limits);
  }

  // The encoding of a good filter is one element.
  lemma FilterElement(f: Filter, limits: Limits, depth: nat) returns (contents: bytes)
    requires Good(f, limits, depth) && Fits(FilterPacket(f))
    ensures |contents| <= MAX_INT && TagAllowed(FilterId(f), limits.maxTagNumber) && EncodeFilter(f) == Wrap(FilterId(f), contents)
    ensures FilterNodes(f, limits) >= 1
  {
    hide Utf8, GoodAssertion, GoodParts, GoodMatch, Wrap;
    if f.UnknownFilter? {
      var u := f.field;
      var t :| Behind(u, t, limits) && Shaped(t, limits.maxTagNumber, limits.maxDepth - depth);
      NodesAre(u, t, limits);
      contents := ContentsOf(t);
    } else {
      contents := if f.Present? then f.attribute else EncodePackets(FilterPacket(f).children);
    }
  }

  lemma LeafRoundTrip(f: Filter, tail: bytes, depth: nat, elements: nat, limits: Limits)
    requires !f.And? && !f.Or? && !f.Not?
    requires Good(f, limits, depth) && Fits(FilterPacket(f)) && elements + FilterNodes(f, limits) <= limits.maxElements
    ensures DecodeFilter(Cursor(EncodeFilter(f) + tail, depth, elements), limits)
         == Ok((f, Cursor(tail, depth, elements + FilterNodes(f, limits))))
  {
    hide DecodeFilter, EncodePacket, AssertionPackets, AssertionNodes, GoodAssertion;
    match f
    case EqualityMatch(a) => AssertionRoundTrip(Group(3), a, f, tail, depth, elements, limits);
    case GreaterOrEqual(a) => AssertionRoundTrip(Group(5), a, f, tail, depth, elements, limits);
    case LessOrEqual(a) => AssertionRoundTrip(Group(6), a, f, tail, depth, elements, limits);
    case ApproximateMatch(a) => AssertionRoundTrip(Group(8), a, f, tail, depth, elements, limits);
    case Present(_) => PresentRoundTrip(f, tail, depth, elements, limits);
    case Substrings(_, _, _, _, _) => SubstringsRoundTrip(f, tail, depth, elements, limits);
    case ExtensibleMatch(_, _, _, _, _) => MatchRoundTrip(f, tail, depth, elements, limits);
    case UnknownFilter(_) => UnknownRoundTrip(f, tail, depth, elements, limits);
  }

  /** Every well-formed filter within the limits, of any nesting and with any unknown
      alternatives and extensions, decodes from its encoding to itself, charging the
      element budget exactly its number of elements and leaving what follows. */
  lemma {:induction false} RoundTrip(f: Filter, tail: bytes, depth: nat, elements: nat, limits: Limits)
    requires Good(f, limits, depth) && Fits(FilterPacket(f)) && elements + FilterNodes(f, limits) <= limits.maxElements
    ensures DecodeFilter(Cursor(EncodeFilter(f) + tail, depth, elements), limits)
         == Ok((f, Cursor(tail, depth, elements + FilterNodes(f, limits))))
    decreases f, 2
  {
    if f.And? || f.Or? {
      SetRoundTrip(f, tail, depth, elements, limits);
    } else if f.Not? {
      NotRoundTrip(f, tail, depth, elements, limits);
    } else {
      LeafRoundTrip(f, tail, depth, elements, limits);
    }
  }

  lemma {:induction false} SetRoundTrip(f: Filter, tail: bytes, depth: nat, elements: nat, limits: Limits)
    requires f.And? || f.Or?
    requires Good(f, limits, depth) && Fits(FilterPacket(f)) && elements + FilterNodes(f, limits) <= limits.maxElements
    ensures DecodeFilter(Cursor(EncodeFilter(f) + tail, depth, elements), limits)
         == Ok((f, Cursor(tail, depth, elements + FilterNodes(f, limits))))
    decreases f, 1
  {
    hide DecodeFilter, DecodeFilters, EncodePacket, EncodePackets, FilterPackets, Wrap, LeafFields;
    var id := FilterId(f);
    var ps := FilterPackets(f.filters);
    GroupFits(id, ps);
    RoundTripAll(f.filters, depth + 1, elements + 1, limits);
    GroupBack(id, EncodePackets(ps), f, tail, depth, elements, elements + FilterNodes(f, limits), limits);
  }

  lemma {:induction false} NotRoundTrip(f: Filter, tail: bytes, depth: nat, elements: nat, limits: Limits)
    requires f.Not?
    requires Good(f, limits, depth) && Fits(FilterPacket(f)) && elements + FilterNodes(f, limits) <= limits.maxElements
    ensures DecodeFilter(Cursor(EncodeFilter(f) + tail, depth, elements), limits)
         == Ok((f, Cursor(tail, depth, elements + FilterNodes(f, limits))))
    decreases f, 1
  {
    hide DecodeFilter, DecodeFilters, EncodePacket, EncodePackets, Wrap, LeafFields;
    var p := FilterPacket(f.filter);
    GroupFits(Group(2), [p]);
    assert [p] == [p] + [];
    EncodeCons(p, []);
    NoPackets();
    assert EncodePackets([p]) == EncodeFilter(f.filter) + [];
    RoundTrip(f.filter, [], depth + 1, elements + 1, limits);
    GroupBack(Group(2), EncodePackets([p]), f, tail, depth, elements, elements + FilterNodes(f, limits), limits);
  }

  // One turn over a set of filters.
  lemma FiltersTurn(id: Identifier, contents: bytes, rest: bytes, f: Filter, n: nat, fs: seq<Filter>, last: Cursor,
                    depth: nat, elements: nat, limits: Limits)
    requires TagAllowed(id, limits.maxTagNumber) && |contents| <= MAX_INT && elements < limits.maxElements
    requires DecodeFilter(Cursor(Wrap(id, contents) + [], depth, elements), limits) == Ok((f, Cursor([], depth, n)))
    requires DecodeFilters(Cursor(rest, depth, n), limits) == Ok((fs, last))
    ensures DecodeFilters(Cursor(Wrap(id, contents) + rest, depth, elements), limits) == Ok(([f] + fs, last))
  {
    hide Bounded, DecodeFilter, Wrap;
    var w := Wrap(id, contents);
    BoundedBack(id, contents, rest, depth, elements, limits);
    assert w + [] == w && (w + rest)[|w|..] == rest;
  }

  lemma {:induction false} RoundTripAll(fs: seq<Filter>, depth: nat, elements: nat, limits: Limits)
    requires GoodAll(fs, limits, depth) && PacketSizeAll(FilterPackets(fs)) <= MAX_INT
    requires elements + FiltersNodes(fs, limits) <= limits.maxElements
    ensures DecodeFilters(Cursor(EncodePackets(FilterPackets(fs)), depth, elements), limits)
         == Ok((fs, Cursor([], depth, elements + FiltersNodes(fs, limits))))
    decreases fs, 0
  {
    hide DecodeFilter, DecodeFilters, EncodePacket, EncodePackets, Good, FilterNodes, Wrap, FilterPacket, PacketSizeAll;
    if fs == [] {
      NoPackets();
      NoFilters(depth, elements, limits);
    } else {
      var f, more := fs[0], FilterPackets(fs[1..]);
      EncodeCons(FilterPacket(f), more);
      var n := elements + FilterNodes(f, limits);
      var contents := FilterElement(f, limits, depth);
      RoundTrip(f, [], depth, elements, limits);
      RoundTripAll(fs[1..], depth, n, limits);
      FiltersTurn(FilterId(f), contents, EncodePackets(more), f, n, fs[1..], Cursor([], depth, elements + FiltersNodes(fs, limits)),
                  depth, elements, limits);
      assert [f] + fs[1..] == fs;
    }
  }

  lemma NoFilters(depth: nat, elements: nat, limits: Limits)
    ensures DecodeFilters(Cursor([], depth, elements), limits) == Ok(([], Cursor([], depth, elements)))
  {
  }

  // ------------------------------------------------------------- what is accepted

  lemma {:induction false} DigitsGrow(m: nat, n: nat)
    requires m <= n
    ensures |Digits(m)| <= |Digits(n)|
    decreases n
  {
    if m >= 256 { DigitsGrow(m / 256, n / 256); }
  }

  lemma ReprintsWrap(id: Identifier, a: bytes, b: bytes, nodes: int, charge: int)
    requires Reprints(a, b, nodes, charge) && |b| <= MAX_INT
    ensures |a| <= MAX_INT && Reprints(Wrap(id, a), Wrap(id, b), nodes + 1, charge + 1)
  {
    if a != b { WrapGrows(id, a, b); }
  }

  lemma WrapGrows(id: Identifier, a: bytes, b: bytes)
    requires |a| < |b| <= MAX_INT
    ensures |Wrap(id, a)| < |Wrap(id, b)|
  {
    DigitsGrow(|a|, |b|);
    hide EncodeIdentifier, Digits;
  }

  lemma ReprintsAppend(a: bytes, b: bytes, m: int, n: int, x: bytes, y: bytes, k: int, l: int)
    requires Reprints(a, b, m, n) && Reprints(x, y, k, l)
    ensures Reprints(a + x, b + y, m + k, n + l)
  {
  }

  // What decoding f left of c, and how its encoding compares with what was read.
  ghost predicate Reads(c: Cursor, f: Filter, next: Cursor, was: bytes, limits: Limits)
  {
    && c.rest == was + next.rest && next.depth == c.depth
    && Good(f, limits, c.depth) && Fits(FilterPacket(f)) && next.elements <= limits.maxElements
    && Reprints(EncodeFilter(f), was, FilterNodes(f, limits), next.elements - c.elements)
  }

  ghost predicate Bounds(c: Cursor, limits: Limits)
  {
    c.elements <= limits.maxElements && c.depth <= limits.maxDepth && |c.rest| <= MAX_INT
  }

  // How the packets of a group compare with the contents that were read.
  ghost predicate Inside(c: Cursor, f: Filter, last: Cursor, limits: Limits)
  {
    && last.rest == [] && last.elements <= limits.maxElements
    && f.UnknownFilter? == false && !f.Present? && c.depth > 0 && Good(f, limits, c.depth - 1)
    && PacketSizeAll(FilterPacket(f).children) <= |c.rest| <= MAX_INT
    && Reprints(EncodePackets(FilterPacket(f).children), c.rest, FilterNodes(f, limits) - 1, last.elements - c.elements)
  }

  lemma GroupSound(c: Cursor, id: Identifier, inner: Cursor, f: Filter, last: Cursor, limits: Limits)
    requires Bounds(c, limits) && id.constructed && Enter(c, id, limits).Ok? && Enter(c, id, limits).value.0 == inner
    requires Inside(inner, f, last, limits) && FilterId(f) == id
    ensures Reads(c, f, Cursor(Enter(c, id, limits).value.1, c.depth, last.elements), Wrap(id, inner.rest), limits)
  {
    EnterSound(c, id, limits);
    hide Enter, Good, FilterNodes, EncodePackets;
    ReprintsWrap(id, EncodePackets(FilterPacket(f).children), inner.rest, FilterNodes(f, limits) - 1, last.elements - inner.elements);
    GroupPacket(f);
    hide Wrap, FilterPacket;
  }

  // A filter that is a group: its packet is its identifier around its children.
  lemma GroupPacket(f: Filter)
    requires !f.UnknownFilter? && !f.Present? && PacketSizeAll(FilterPacket(f).children) <= MAX_INT
    requires |Wrap(FilterId(f), EncodePackets(FilterPacket(f).children))| <= MAX_INT
    ensures Fits(FilterPacket(f)) && EncodeFilter(f) == Wrap(FilterId(f), EncodePackets(FilterPacket(f).children))
  {
    hide FilterPackets, AssertionPackets, PartPackets, MatchPackets, EncodePackets, PacketSizeAll, EncodeIdentifier;
  }

  lemma AssertionInsideSound(id: Identifier, c: Cursor, limits: Limits)
    requires id in {Group(3), Group(5), Group(6), Group(8)} && Bounds(c, limits) && c.depth > 0 && LeafFields(id, c, limits).Ok?
    ensures var (f, last) := LeafFields(id, c, limits).value; Inside(c, f, last, limits) && FilterId(f) == id
  {
    hide AssertionFields, AssertionBytes, AssertionPackets, AssertionNodes, EncodePackets, PacketSizeAll;
    var a := AssertionFields(c, limits).value.0;
    AssertionSound(c, limits);
    PrintsAssertion(a);
    hide GoodAssertion;
  }

  lemma SubstringsInsideSound(c: Cursor, limits: Limits)
    requires Bounds(c, limits) && c.depth > 0 && SubstringFields(c, limits).Ok?
    ensures var (f, last) := SubstringFields(c, limits).value; Inside(c, f, last, limits) && FilterId(f) == Group(4)
  {
    hide ReadValue, Enter, PartFields, PartBytes, PartNodes, PartPackets, Utf8, Wrap, Elem, EncodePackets, EncodePacket, PacketSizeAll, PacketSize;
    var (attribute, c1) := ReadValue(c, OCTET_STRING, true, limits).value;
    ValueSound(c, OCTET_STRING, true, limits);
    var (inner, tail) := Enter(c1, SEQUENCE, limits).value;
    EnterSound(c1, SEQUENCE, limits);
    assert Wrap(SEQUENCE, inner.rest) + [] == Wrap(SEQUENCE, inner.rest);
    PartsSound(inner, limits);
    var p := PartFields(inner, limits).value.0;
    PartsFit(p, limits, inner.depth);
    var (f, last) := SubstringFields(c, limits).value;
    SubstringPackets(attribute, p);
    assert FilterPacket(f).children
        == [PrimitivePacket(OCTET_STRING, attribute), ConstructedPacket(SEQUENCE, PartPackets(p.initial, p.middle, p.last, p.extensions))];
    hide GoodParts, FilterPacket;
    assert AsParts(f) == p;
  }

  lemma SubstringPackets(attribute: bytes, p: Parts)
    requires |attribute| <= MAX_INT && Fitting(p.initial) && AllFit(p.middle) && Fitting(p.last) && |PartBytes(p)| <= MAX_INT
    ensures Prints([PrimitivePacket(OCTET_STRING, attribute), ConstructedPacket(SEQUENCE, PartPackets(p.initial, p.middle, p.last, p.extensions))],
                   Elem(OCTET_STRING, attribute) + Wrap(SEQUENCE, PartBytes(p)))
  {
    var q := PartPackets(p.initial, p.middle, p.last, p.extensions);
    var a, inner := PrimitivePacket(OCTET_STRING, attribute), ConstructedPacket(SEQUENCE, q);
    PrintsParts(p);
    hide PartPackets, PartBytes, Elem, Wrap;
    PrintsValue(OCTET_STRING, attribute);
    assert PacketSize(inner) == |Wrap(SEQUENCE, PartBytes(p))| by { GroupSize(SEQUENCE, q, PartBytes(p)); }
    if Fits(inner) { GroupFits(SEQUENCE, q); }
    PrintsOne(inner, Wrap(SEQUENCE, PartBytes(p)));
    hide Prints;
    PrintsAppend([a], [inner], Elem(OCTET_STRING, attribute), Wrap(SEQUENCE, PartBytes(p)));
    assert [a] + [inner] == [a, inner];
  }

  lemma GroupSize(id: Identifier, ps: seq<Packet>, octets: bytes)
    requires id.constructed && PacketSizeAll(ps) == |octets| <= MAX_INT
    ensures PacketSize(ConstructedPacket(id, ps)) == |Wrap(id, octets)|
  {
  }

  lemma MatchInsideSound(c: Cursor, limits: Limits)
    requires Bounds(c, limits) && c.depth > 0 && MatchFields(c, limits).Ok?
    ensures var (f, last) := MatchFields(c, limits).value; Inside(c, f, last, limits) && FilterId(f) == Group(9)
  {
    hide MatchFields, MatchBytes, MatchPackets, MatchNodes, EncodePackets, PacketSizeAll, Utf8;
    var m := MatchSound(c, limits);
    PrintsMatch(m);
    hide GoodMatch;
    assert AsMatching(MatchFields(c, limits).value.0) == m;
  }

  lemma LeafSound(id: Identifier, c: Cursor, limits: Limits)
    requires id in {Group(3), Group(4), Group(5), Group(6), Group(8), Group(9)} && Bounds(c, limits) && c.depth > 0 && LeafFields(id, c, limits).Ok?
    ensures var (f, last) := LeafFields(id, c, limits).value; Inside(c, f, last, limits) && FilterId(f) == id
  {
    hide Inside, AssertionFields;
    if id == Group(4) { SubstringsInsideSound(c, limits); }
    else if id == Group(9) { MatchInsideSound(c, limits); }
    else { AssertionInsideSound(id, c, limits); }
  }

  // --------------------------------------------------------------- the whole tree

  /** Whatever is accepted is a well-formed filter. Its encoding is what was read if
      that was charged for as many elements as the filter has; otherwise it is shorter
      and has fewer. */
  lemma {:induction false} Accepted(c: Cursor, limits: Limits) returns (was: bytes)
    requires Bounds(c, limits) && DecodeFilter(c, limits).Ok?
    ensures Reads(c, DecodeFilter(c, limits).value.0, DecodeFilter(c, limits).value.1, was, limits)
    decreases |c.rest|, 2
  {
    hide Peek, Bounded, DecodeElement, ReadUnknown, Reads;
    var id := Peek(c, limits).value;
    if id !in FILTER_IDS {
      UnknownAccepted(c, limits);
      was := ReadUnknown(c, limits).value.0.raw;
    } else {
      var b := Bounded(c, limits).value;
      BoundedSound(c, limits);
      was := b.rest;
      ElementSound(id, b, limits);
      var (f, after) := DecodeElement(id, b, limits).value;
      ReadsMore(b, f, after, c, limits);
    }
  }

  lemma UnknownAccepted(c: Cursor, limits: Limits)
    requires Bounds(c, limits) && ReadUnknown(c, limits).Ok?
    requires Peek(c, limits).Ok? && Peek(c, limits).value !in FILTER_IDS && Peek(c, limits).value.cls == CONTEXT
    ensures var (u, next) := ReadUnknown(c, limits).value; Reads(c, UnknownFilter(u), next, u.raw, limits)
  {
    hide Peek, ReadUnknown, GoodUnknown, Nodes;
    UnknownSound(c, limits);
  }

  // Reading one element on its own, and at the front of more.
  lemma ReadsMore(b: Cursor, f: Filter, after: Cursor, c: Cursor, limits: Limits)
    requires Reads(b, f, after, b.rest, limits) && |b.rest| <= |c.rest| && c.rest == b.rest + c.rest[|b.rest|..]
    requires b.depth == c.depth && b.elements == c.elements
    ensures Reads(c, f, Cursor(c.rest[|b.rest|..], c.depth, after.elements), b.rest, limits)
  {
    hide Good, FilterNodes, FilterPacket, EncodePacket;
  }

  lemma BoundedSound(c: Cursor, limits: Limits)
    requires Bounds(c, limits) && Bounded(c, limits).Ok?
    ensures var b := Bounded(c, limits).value; c.rest == b.rest + c.rest[|b.rest|..] && Bounds(b, limits)
  {
    hide ParseElement;
    StandsAlone(c.rest, limits.maxTagNumber);
  }

  // An element of its own that decodes to the end was read whole.
  lemma {:induction false} ElementSound(id: Identifier, b: Cursor, limits: Limits)
    requires Bounds(b, limits) && id in FILTER_IDS && DecodeElement(id, b, limits).Ok? && DecodeElement(id, b, limits).value.1.rest == []
    ensures var (f, after) := DecodeElement(id, b, limits).value; Reads(b, f, after, b.rest, limits)
    decreases |b.rest|, 1
  {
    hide Utf8, Good, FilterNodes, DecodeInside;
    var (f, after) := DecodeElement(id, b, limits).value;
    if id == Item(7) {
      PresentSound(b, limits);
    } else {
      var (inner, tail) := Enter(b, id, limits).value;
      EnterSound(b, id, limits);
      InsideSound(id, inner, limits);
      var last := DecodeInside(id, inner, limits).value.1;
      GroupSound(b, id, inner, f, last, limits);
      hide Enter, Wrap, EncodeFilter, Inside;
      assert Wrap(id, inner.rest) + [] == Wrap(id, inner.rest);
    }
  }

  lemma PresentSound(b: Cursor, limits: Limits)
    requires Bounds(b, limits) && DecodeElement(Item(7), b, limits).Ok? && DecodeElement(Item(7), b, limits).value.1.rest == []
    ensures var (f, after) := DecodeElement(Item(7), b, limits).value; Reads(b, f, after, b.rest, limits)
  {
    hide Utf8, ReadValue;
    ValueSound(b, Item(7), true, limits);
    var attribute := ReadValue(b, Item(7), true, limits).value.0;
    PrimitiveSize(Item(7), attribute);
    hide Elem, EncodePacket, PacketSize;
    assert Elem(Item(7), attribute) + [] == Elem(Item(7), attribute);
  }

  lemma {:induction false} InsideSound(id: Identifier, c: Cursor, limits: Limits)
    requires id in FILTER_IDS && id != Item(7) && Bounds(c, limits) && c.depth > 0 && DecodeInside(id, c, limits).Ok?
    requires DecodeInside(id, c, limits).value.1.rest == []
    ensures var (f, last) := DecodeInside(id, c, limits).value; Inside(c, f, last, limits) && FilterId(f) == id
    decreases |c.rest|, 4
  {
    hide DecodeFilters, DecodeFilter, LeafFields;
    var (f, last) := DecodeInside(id, c, limits).value;
    if id == Group(0) || id == Group(1) {
      FiltersSound(c, limits);
      hide EncodePackets, FilterPackets, GoodAll, FiltersNodes;
    } else if id == Group(2) {
      var was := Accepted(c, limits);
      assert was + [] == was;
      var p := FilterPacket(f.filter);
      PrintsOne(p, EncodeFilter(f.filter));
      hide FilterPacket, EncodePacket, EncodePackets, Good, FilterNodes;
      assert FilterPacket(f).children == [p] by { NotPacket(f); }
      assert Good(f, limits, c.depth - 1) && FilterNodes(f, limits) == 1 + FilterNodes(f.filter, limits) by { NotGood(f, limits, c.depth - 1); }
    } else {
      hide Inside;
      LeafSound(id, c, limits);
    }
  }

  lemma NotPacket(f: Filter)
    requires f.Not?
    ensures FilterPacket(f).children == [FilterPacket(f.filter)]
  {
  }

  lemma NotGood(f: Filter, limits: Limits, depth: nat)
    requires f.Not? && depth < limits.maxDepth && Good(f.filter, limits, depth + 1)
    ensures Good(f, limits, depth) && FilterNodes(f, limits) == 1 + FilterNodes(f.filter, limits)
  {
  }

  lemma {:induction false} FiltersSound(c: Cursor, limits: Limits)
    requires Bounds(c, limits) && DecodeFilters(c, limits).Ok?
    ensures var (fs, last) := DecodeFilters(c, limits).value;
            && last.rest == [] && GoodAll(fs, limits, c.depth) && last.elements <= limits.maxElements && PacketSizeAll(FilterPackets(fs)) <= |c.rest|
            && Reprints(EncodePackets(FilterPackets(fs)), c.rest, FiltersNodes(fs, limits), last.elements - c.elements)
    decreases |c.rest|, 3
  {
    hide DecodeFilter, DecodeFilters, Good, FilterNodes, FilterPacket, Bounded, Reprints;
    if c.rest == [] {
      NoneSound(c, limits);
    } else {
      FiltersTake(c, limits);
      var b := Bounded(c, limits).value;
      BoundedSound(c, limits);
      var was := Accepted(b, limits);
      assert was + [] == was;
      var (f, after) := DecodeFilter(b, limits).value;
      var next := Cursor(c.rest[|b.rest|..], c.depth, after.elements);
      FiltersSound(next, limits);
      var (rest, last) := DecodeFilters(next, limits).value;
      assert ([f] + rest)[1..] == rest;
      FiltersJoin(f, rest, b.rest, next.rest, after.elements - b.elements, last.elements - next.elements, limits);
      hide FilterPackets, FiltersNodes, EncodePackets, PacketSizeAll;
    }
  }

  lemma NoneSound(c: Cursor, limits: Limits)
    requires c.rest == []
    ensures DecodeFilters(c, limits) == Ok(([], c)) && EncodePackets(FilterPackets([])) == [] && FiltersNodes([], limits) == 0
    ensures Reprints([], [], 0, 0)
  {
  }

  // What a successful turn over a set of filters found.
  lemma FiltersTake(c: Cursor, limits: Limits)
    requires c.rest != [] && DecodeFilters(c, limits).Ok?
    ensures Bounded(c, limits).Ok?
    ensures var b := Bounded(c, limits).value;
            && |b.rest| <= |c.rest| && b.depth == c.depth && b.elements == c.elements
            && DecodeFilter(b, limits).Ok? && DecodeFilter(b, limits).value.1.rest == []
            && var (f, after) := DecodeFilter(b, limits).value;
               var next := Cursor(c.rest[|b.rest|..], c.depth, after.elements);
               && |next.rest| < |c.rest| && DecodeFilters(next, limits).Ok?
               && DecodeFilters(c, limits).value == ([f] + DecodeFilters(next, limits).value.0, DecodeFilters(next, limits).value.1)
  {
    hide DecodeFilter;
  }

  lemma FiltersJoin(f: Filter, rest: seq<Filter>, first: bytes, more: bytes, charge: int, charges: int, limits: Limits)
    requires Fits(FilterPacket(f)) && Reprints(EncodeFilter(f), first, FilterNodes(f, limits), charge) && |first| + |more| <= MAX_INT
    requires PacketSizeAll(FilterPackets(rest)) <= |more|
    requires Reprints(EncodePackets(FilterPackets(rest)), more, FiltersNodes(rest, limits), charges)
    ensures var fs := [f] + rest;
            && PacketSizeAll(FilterPackets(fs)) <= |first + more|
            && Reprints(EncodePackets(FilterPackets(fs)), first + more, FiltersNodes(fs, limits), charge + charges)
  {
    hide FilterPacket, FilterNodes, EncodePacket, PacketSizeAll, EncodePackets;
    assert ([f] + rest)[1..] == rest;
    ConsSize(FilterPacket(f), FilterPackets(rest));
    EncodeCons(FilterPacket(f), FilterPackets(rest));
    ReprintsAppend(EncodeFilter(f), first, FilterNodes(f, limits), charge, EncodePackets(FilterPackets(rest)), more, FiltersNodes(rest, limits), charges);
  }

  lemma ConsSize(p: Packet, ps: seq<Packet>)
    ensures PacketSizeAll([p] + ps) == PacketSize(p) + PacketSizeAll(ps)
  {
    assert ([p] + ps)[1..] == ps;
  }

  /** Decoding an accepted filter, encoding it and decoding again gives the same
      filter. The octets are the same exactly when no more elements were charged than
      the filter has, and then so is the charge; otherwise they are fewer. */
  lemma Reencodes(c: Cursor, tail: bytes, limits: Limits)
    requires Bounds(c, limits) && DecodeFilter(c, limits).Ok?
    ensures var (f, next) := DecodeFilter(c, limits).value;
            && Fits(FilterPacket(f)) && c.elements + FilterNodes(f, limits) <= next.elements
            && (EncodeFilter(f) + next.rest == c.rest <==> next.elements == c.elements + FilterNodes(f, limits))
            && (EncodeFilter(f) + next.rest != c.rest ==> |EncodeFilter(f)| + |next.rest| < |c.rest|)
            && DecodeFilter(Cursor(EncodeFilter(f) + tail, c.depth, c.elements), limits)
            == Ok((f, Cursor(tail, c.depth, c.elements + FilterNodes(f, limits))))
  {
    hide DecodeFilter, Good, FilterNodes, FilterPacket, EncodePacket;
    var was := Accepted(c, limits);
    RoundTrip(DecodeFilter(c, limits).value.0, tail, c.depth, c.elements, limits);
  }

  // The contents of an extensible match with a rule, a value and an explicit FALSE.
  function FalseContents(rule: bytes, value: bytes): bytes
  {
    Elem(Item(1), rule) + (Elem(Item(3), value) + Wrap(Item(4), [0]))
  }

  /** The octets do shrink: an explicit FALSE for dnAttributes is accepted, decodes
      as its absence, and is left out of the encoding. */
  lemma ExplicitFalseShrinks(rule: bytes, value: bytes, limits: Limits)
    requires limits.maxElements >= 4 && limits.maxDepth >= 1 && rule != [] && Utf8(rule)
    requires |rule| <= MAX_INT && |value| <= MAX_INT && |FalseContents(rule, value)| + 16 <= MAX_INT
    ensures var f := ExtensibleMatch(Some(rule), None, value, false, []);
            var octets := Wrap(Group(9), FalseContents(rule, value));
            && DecodeFilter(Cursor(octets, 0, 0), limits) == Ok((f, Cursor([], 0, 4)))
            && Fits(FilterPacket(f)) && |EncodeFilter(f)| < |octets|
  {
    hide MatchFields, Wrap, Elem, DecodeFilter, DecodeInside, EncodePacket, FalseContents, FilterPacket, Utf8, PacketSize;
    var f := ExtensibleMatch(Some(rule), None, value, false, []);
    var contents := FalseContents(rule, value);
    FalseEncoding(rule, value);
    FalseFields(rule, value, limits);
    InsideMatch(Cursor(contents, 1, 1), limits);
    GroupBack(Group(9), contents, f, [], 0, 0, 4, limits);
    assert Wrap(Group(9), contents) + [] == Wrap(Group(9), contents);
  }

  lemma InsideMatch(c: Cursor, limits: Limits)
    ensures DecodeInside(Group(9), c, limits) == MatchFields(c, limits)
  {
    hide MatchFields;
  }

  lemma FalseEncoding(rule: bytes, value: bytes)
    requires |rule| <= MAX_INT && |value| <= MAX_INT && |FalseContents(rule, value)| + 16 <= MAX_INT
    ensures var f := ExtensibleMatch(Some(rule), None, value, false, []);
            Fits(FilterPacket(f)) && |EncodeFilter(f)| < |Wrap(Group(9), FalseContents(rule, value))|
  {
    hide Elem, EncodeIdentifier, Wrap;
    var m := Matching(Some(rule), None, value, false, []);
    var f := ExtensibleMatch(Some(rule), None, value, false, []);
    var short, long := Elem(Item(1), rule) + Elem(Item(3), value), FalseContents(rule, value);
    ShortMatch(rule, value);
    PrintsMatch(m);
    hide MatchBytes, MatchPackets, FalseContents;
    var ps := MatchPackets(m.rule, m.kind, m.value, m.dnAttributes, m.extensions);
    assert FilterPacket(f) == ConstructedPacket(Group(9), ps);
    hide FilterPacket;
    GroupSize(Group(9), ps, short);
    WrapGrows(Group(9), short, long);
    WrapSize(Group(9), long);
    GroupFits(Group(9), ps);
    hide EncodePacket, EncodePackets;
  }

  lemma ShortMatch(rule: bytes, value: bytes)
    ensures var short := Elem(Item(1), rule) + Elem(Item(3), value);
            MatchBytes(Matching(Some(rule), None, value, false, [])) == short && |short| < |FalseContents(rule, value)|
  {
    hide Elem;
    assert Elem(Item(3), value) + ([] + []) == Elem(Item(3), value);
    assert Elem(Item(1), rule) + ([] + Elem(Item(3), value)) == Elem(Item(1), rule) + Elem(Item(3), value);
  }

  lemma WrapSize(id: Identifier, contents: bytes)
    requires |contents| <= MAX_INT && id.number < 31
    ensures |Wrap(id, contents)| <= |contents| + 16
  {
    LengthOctetsBound(|contents|);
  }

  lemma NoExtensions(c: Cursor, reserved: set<Identifier>, limits: Limits)
    requires c.rest == []
    ensures ReadExtensions(c, reserved, limits) == Ok(([], c))
  {
  }

  lemma FalseFields(rule: bytes, value: bytes, limits: Limits)
    requires limits.maxElements >= 4 && limits.maxDepth >= 1 && rule != [] && Utf8(rule) && |rule| <= MAX_INT && |value| <= MAX_INT
    ensures MatchFields(Cursor(FalseContents(rule, value), 1, 1), limits)
         == Ok((ExtensibleMatch(Some(rule), None, value, false, []), Cursor([], 1, 4)))
  {
    hide Utf8, Elem, Wrap, ReadOptional, ReadValue, ReadDn, ReadExtensions, Elsewhere;
    var b3 := Wrap(Item(4), [0]);
    var b2 := Elem(Item(3), value) + b3;
    FalseDn(limits);
    NoExtensions(Cursor([], 1, 4), MATCH_IDS, limits);
    OptionalBack(Item(1), Some(rule), true, b2, 1, 1, limits);
    ValueElsewhere(Item(3), value, b3, Item(2), 1, 2, limits);
    OptionalBack(Item(2), None, true, b2, 1, 2, limits);
    assert [] + b2 == b2;
    ValueBack(Item(3), value, false, b3, 1, 2, limits);
  }

  lemma FalseDn(limits: Limits)
    requires limits.maxElements >= 4
    ensures ReadDn(Cursor(Wrap(Item(4), [0]), 1, 3), limits) == Ok((false, Cursor([], 1, 4)))
  {
    hide ReadPrimitive, Peek;
    var b := Wrap(Item(4), [0]);
    ReadPrimitiveBack(Item(4), [0], [], 1, 3, limits);
    PeekBack(Item(4), [0], [], 1, 3, limits);
    hide Wrap;
    assert b + [] == b;
  }
}
