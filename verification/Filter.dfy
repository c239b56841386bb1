/** Search filters (rfc4511/filter.go, assertion.go, types.go): their packets, and
    their decoding by the scoped decoder of ber/decoder.go, whose decoders are
    function values and so become functions on cursors here. */
module Filter {
  import opened BerTypes
  import opened BerTree
  import opened BerPacket
  import opened BerCursor

  // An unknown field keeps its complete encoding.
  datatype Unknown = Unknown(id: Identifier, raw: bytes)

  datatype Assertion = Assertion(attribute: bytes, value: bytes, extensions: seq<Unknown>)

  datatype Filter =
    | And(filters: seq<Filter>)
    | Or(filters: seq<Filter>)
    | Not(filter: Filter)
    | EqualityMatch(assertion: Assertion)
    | GreaterOrEqual(assertion: Assertion)
    | LessOrEqual(assertion: Assertion)
    | ApproximateMatch(assertion: Assertion)
    | Present(attribute: bytes)
    | Substrings(attribute: bytes, initial: Option<bytes>, middle: seq<bytes>, last: Option<bytes>, extensions: seq<Unknown>)
    | ExtensibleMatch(rule: Option<bytes>, kind: Option<bytes>, value: bytes, dnAttributes: bool, extensions: seq<Unknown>)
    | UnknownFilter(field: Unknown)

  function Group(n: uint32): Identifier { Identifier(CONTEXT, true, n) }

  function Item(n: uint32): Identifier { Identifier(CONTEXT, false, n) }

  const FILTER_IDS := {Group(0), Group(1), Group(2), Group(3), Group(4), Group(5), Group(6), Item(7), Group(8), Group(9)}
  const SUBSTRING_IDS := {Item(0), Item(1), Item(2)}
  const MATCH_IDS := {Item(1), Item(2), Item(3), Item(4)}

  function FilterId(f: Filter): Identifier
  {
    match f
    case And(_) => Group(0)
    case Or(_) => Group(1)
    case Not(_) => Group(2)
    case EqualityMatch(_) => Group(3)
    case Substrings(_, _, _, _, _) => Group(4)
    case GreaterOrEqual(_) => Group(5)
    case LessOrEqual(_) => Group(6)
    case Present(_) => Item(7)
    case ApproximateMatch(_) => Group(8)
    case ExtensibleMatch(_, _, _, _, _) => Group(9)
    case UnknownFilter(u) => u.id
  }

  // -------------------------------------------------------------------- packets

  function Raws(us: seq<Unknown>): seq<Packet>
  {
    if us == [] then [] else [EncodedPacket(us[0].raw)] + Raws(us[1..])
  }

  function Octets(id: Identifier, values: seq<bytes>): seq<Packet>
  {
    if values == [] then [] else [PrimitivePacket(id, values[0])] + Octets(id, values[1..])
  }

  function OptionalOctets(id: Identifier, value: Option<bytes>): seq<Packet>
  {
    if value.None? then [] else [PrimitivePacket(id, value.value)]
  }

  function AssertionPackets(a: Assertion): seq<Packet>
  {
    [PrimitivePacket(OCTET_STRING, a.attribute)] + ([PrimitivePacket(OCTET_STRING, a.value)] + Raws(a.extensions))
  }

  function PartPackets(initial: Option<bytes>, middle: seq<bytes>, last: Option<bytes>, extensions: seq<Unknown>): seq<Packet>
  {
    OptionalOctets(Item(0), initial) + (Octets(Item(1), middle) + (OptionalOctets(Item(2), last) + Raws(extensions)))
  }

  // implicitBooleanPacket, which only ever writes TRUE
  function DnPackets(dnAttributes: bool): seq<Packet>
  {
    if dnAttributes then [PrimitivePacket(Item(4), [0xFF])] else []
  }

  function MatchPackets(rule: Option<bytes>, kind: Option<bytes>, value: bytes, dnAttributes: bool, extensions: seq<Unknown>): seq<Packet>
  {
    OptionalOctets(Item(1), rule)
    + (OptionalOctets(Item(2), kind) + ([PrimitivePacket(Item(3), value)] + (DnPackets(dnAttributes) + Raws(extensions))))
  }

  function FilterPacket(f: Filter): Packet
    decreases f, 1
  {
    match f
    case And(fs) => ConstructedPacket(Group(0), FilterPackets(fs))
    case Or(fs) => ConstructedPacket(Group(1), FilterPackets(fs))
    case Not(g) => ConstructedPacket(Group(2), [FilterPacket(g)])
    case EqualityMatch(a) => ConstructedPacket(Group(3), AssertionPackets(a))
    case GreaterOrEqual(a) => ConstructedPacket(Group(5), AssertionPackets(a))
    case LessOrEqual(a) => ConstructedPacket(Group(6), AssertionPackets(a))
    case ApproximateMatch(a) => ConstructedPacket(Group(8), AssertionPackets(a))
    case Present(attribute) => PrimitivePacket(Item(7), attribute)
    case Substrings(attribute, initial, middle, last, extensions) =>
      ConstructedPacket(Group(4), [PrimitivePacket(OCTET_STRING, attribute),
                                   ConstructedPacket(SEQUENCE, PartPackets(initial, middle, last, extensions))])
    case ExtensibleMatch(rule, kind, value, dnAttributes, extensions) =>
      ConstructedPacket(Group(9), MatchPackets(rule, kind, value, dnAttributes, extensions))
    case UnknownFilter(u) => EncodedPacket(u.raw)
  }

  function FilterPackets(fs: seq<Filter>): seq<Packet>
    decreases fs, 0
  {
    if fs == [] then [] else [FilterPacket(fs[0])] + FilterPackets(fs[1..])
  }

  function EncodeFilter(f: Filter): bytes
    requires Fits(FilterPacket(f))
  {
    EncodePacket(FilterPacket(f))
  }

  // ----------------------------------------------------------------------- text

  // The octets of a sequence that starts with lead: how many follow, and the range
  // of the first of them (section 4 of RFC 3629).
  function Follow(lead: byte): Option<(nat, byte, byte)>
  {
    if lead < 0x80 then Some((0, 0, 0))
    else if 0xC2 <= lead <= 0xDF then Some((1, 0x80, 0xBF))
    else if lead == 0xE0 then Some((2, 0xA0, 0xBF))
    else if lead == 0xED then Some((2, 0x80, 0x9F))
    else if 0xE1 <= lead <= 0xEF then Some((2, 0x80, 0xBF))
    else if lead == 0xF0 then Some((3, 0x90, 0xBF))
    else if 0xF1 <= lead <= 0xF3 then Some((3, 0x80, 0xBF))
    else if lead == 0xF4 then Some((3, 0x80, 0x8F))
    else None
  }

  predicate Utf8(s: bytes)
  {
    if s == [] then true else
    match Follow(s[0])
    case None => false
    case Some((n, low, high)) =>
      && n < |s|
      && (n >= 1 ==> low <= s[1] <= high)
      && (forall k :: 2 <= k <= n ==> 0x80 <= s[k] <= 0xBF)
      && Utf8(s[n + 1..])
  }

  // ------------------------------------------------------------- the scoped decoder

  // one: the reader bounded to the next element, without charging the probe.
  function Bounded(c: Cursor, limits: Limits): (r: Result<Cursor>)
    ensures r.Ok? ==> 2 <= |r.value.rest| <= |c.rest| && r.value.depth == c.depth && r.value.elements == c.elements
  {
    match ReadSpec(c.rest, c.elements, limits)
    case Err(e) => Err(e)
    case Ok(e) => Ok(Cursor(e.raw, c.depth, c.elements))
  }

  // one, after its decoder: the bounded element must be used up.
  function Finished<T>(c: Cursor, bounded: Cursor, r: Result<(T, Cursor)>): (next: Result<(T, Cursor)>)
    requires |bounded.rest| <= |c.rest|
    ensures next.Ok? ==> |next.value.1.rest| + |bounded.rest| == |c.rest|
  {
    match r
    case Err(e) => Err(e)
    case Ok((value, after)) =>
      if after.rest != [] then Err(TrailingData)
      else Ok((value, Cursor(c.rest[|bounded.rest|..], c.depth, after.elements)))
  }

  function NextIs(c: Cursor, id: Identifier, limits: Limits): Result<bool>
  {
    if c.rest == [] then Ok(false) else
    match Peek(c, limits)
    case Err(e) => Err(e)
    case Ok(next) => Ok(next == id)
  }

  function CheckText(r: Result<(bytes, Cursor)>): Result<(bytes, Cursor)>
  {
    match r
    case Err(e) => Err(e)
    case Ok((value, next)) => if Utf8(value) then Ok((value, next)) else Err(BadText)
  }

  // Read and ReadAs of byte values and of text.
  function ReadValue(c: Cursor, id: Identifier, text: bool, limits: Limits): (r: Result<(bytes, Cursor)>)
    ensures r.Ok? ==> |r.value.1.rest| < |c.rest|
  {
    match Bounded(c, limits)
    case Err(e) => Err(e)
    case Ok(b) =>
      var r := ReadPrimitive(b, id, limits);
      Finished(c, b, if text then CheckText(r) else r)
  }

  function ReadOptional(c: Cursor, id: Identifier, text: bool, limits: Limits): (r: Result<(Option<bytes>, Cursor)>)
    ensures r.Ok? ==> |r.value.1.rest| <= |c.rest|
  {
    match NextIs(c, id, limits)
    case Err(e) => Err(e)
    case Ok(false) => Ok((None, c))
    case Ok(true) =>
      match ReadValue(c, id, text, limits)
      case Err(e) => Err(e)
      case Ok((value, next)) => Ok((Some(value), next))
  }

  // while NextIs(id)
  function ReadSeveral(c: Cursor, id: Identifier, limits: Limits): (r: Result<(seq<bytes>, Cursor)>)
    ensures r.Ok? ==> |r.value.1.rest| <= |c.rest|
    decreases |c.rest|
  {
    match NextIs(c, id, limits)
    case Err(e) => Err(e)
    case Ok(false) => Ok(([], c))
    case Ok(true) =>
      match ReadValue(c, id, false, limits)
      case Err(e) => Err(e)
      case Ok((value, next)) =>
        match ReadSeveral(next, id, limits)
        case Err(e) => Err(e)
        case Ok((values, last)) => Ok(([value] + values, last))
  }

  function ReadUnknown(c: Cursor, limits: Limits): (r: Result<(Unknown, Cursor)>)
    ensures r.Ok? ==> |r.value.1.rest| < |c.rest|
  {
    match Bounded(c, limits)
    case Err(e) => Err(e)
    case Ok(b) =>
      match Skip(b, limits)
      case Err(e) => Err(e)
      case Ok((e, next)) => Finished(c, b, Ok((Unknown(e.id, e.raw), next)))
  }

  // Extensions: everything that is left, none of it reserved.
  function ReadExtensions(c: Cursor, reserved: set<Identifier>, limits: Limits): (r: Result<(seq<Unknown>, Cursor)>)
    ensures r.Ok? ==> r.value.1.rest == []
    decreases |c.rest|
  {
    if c.rest == [] then Ok(([], c)) else
    match Peek(c, limits)
    case Err(e) => Err(e)
    case Ok(id) =>
      if id in reserved then Err(UnexpectedIdentifier) else
      match ReadUnknown(c, limits)
      case Err(e) => Err(e)
      case Ok((u, next)) =>
        match ReadExtensions(next, reserved, limits)
        case Err(e) => Err(e)
        case Ok((us, last)) => Ok(([u] + us, last))
  }

  // -------------------------------------------------------------------- decoding

  // The contents of an assertion, in the scope of its own element.
  function AssertionFields(c: Cursor, limits: Limits): (r: Result<(Assertion, Cursor)>)
    ensures r.Ok? ==> r.value.1.rest == []
  {
    match ReadValue(c, OCTET_STRING, true, limits)
    case Err(e) => Err(e)
    case Ok((attribute, c1)) =>
      match ReadValue(c1, OCTET_STRING, false, limits)
      case Err(e) => Err(e)
      case Ok((value, c2)) =>
        match ReadExtensions(c2, {}, limits)
        case Err(e) => Err(e)
        case Ok((extensions, c3)) =>
          if attribute == [] then Err(BadValue) else Ok((Assertion(attribute, value, extensions), c3))
  }

  datatype Parts = Parts(initial: Option<bytes>, middle: seq<bytes>, last: Option<bytes>, extensions: seq<Unknown>)

  function PartFields(c: Cursor, limits: Limits): (r: Result<(Parts, Cursor)>)
    ensures r.Ok? ==> r.value.1.rest == []
  {
    match ReadOptional(c, Item(0), false, limits)
    case Err(e) => Err(e)
    case Ok((initial, c1)) =>
      match ReadSeveral(c1, Item(1), limits)
      case Err(e) => Err(e)
      case Ok((middle, c2)) =>
        match ReadOptional(c2, Item(2), false, limits)
        case Err(e) => Err(e)
        case Ok((last, c3)) =>
          match ReadExtensions(c3, SUBSTRING_IDS, limits)
          case Err(e) => Err(e)
          case Ok((extensions, c4)) => Ok((Parts(initial, middle, last, extensions), c4))
  }

  predicate SomePart(p: Parts) { p.initial.Some? || p.middle != [] || p.last.Some? }

  function SubstringFields(c: Cursor, limits: Limits): (r: Result<(Filter, Cursor)>)
    ensures r.Ok? ==> r.value.1.rest == []
  {
    match ReadValue(c, OCTET_STRING, true, limits)
    case Err(e) => Err(e)
    case Ok((attribute, c1)) =>
      match Enter(c1, SEQUENCE, limits)
      case Err(e) => Err(e)
      case Ok((inner, tail)) =>
        match PartFields(inner, limits)
        case Err(e) => Err(e)
        case Ok((p, c2)) =>
          if tail != [] then Err(TrailingData)
          else if attribute == [] || !SomePart(p) then Err(BadValue)
          else Ok((Substrings(attribute, p.initial, p.middle, p.last, p.extensions), Cursor([], c1.depth, c2.elements)))
  }

  // BooleanAs
  function ReadBoolean(c: Cursor, id: Identifier, limits: Limits): (r: Result<(bool, Cursor)>)
    ensures r.Ok? ==> |r.value.1.rest| < |c.rest|
  {
    match ReadPrimitive(c, id, limits)
    case Err(e) => Err(e)
    case Ok((value, next)) =>
      if |value| != 1 || (value[0] != 0 && value[0] != 0xFF) then Err(InvalidBoolean) else Ok((value[0] != 0, next))
  }

  function ReadDn(c: Cursor, limits: Limits): (r: Result<(bool, Cursor)>)
    ensures r.Ok? ==> |r.value.1.rest| <= |c.rest|
  {
    match NextIs(c, Item(4), limits)
    case Err(e) => Err(e)
    case Ok(false) => Ok((false, c))
    case Ok(true) => ReadBoolean(c, Item(4), limits)
  }

  predicate NonEmpty(o: Option<bytes>) { o.Some? ==> o.value != [] }

  function MatchFields(c: Cursor, limits: Limits): (r: Result<(Filter, Cursor)>)
    ensures r.Ok? ==> r.value.1.rest == []
  {
    match ReadOptional(c, Item(1), true, limits)
    case Err(e) => Err(e)
    case Ok((rule, c1)) =>
      match ReadOptional(c1, Item(2), true, limits)
      case Err(e) => Err(e)
      case Ok((kind, c2)) =>
        match ReadValue(c2, Item(3), false, limits)
        case Err(e) => Err(e)
        case Ok((value, c3)) =>
          match ReadDn(c3, limits)
          case Err(e) => Err(e)
          case Ok((dn, c4)) =>
            match ReadExtensions(c4, MATCH_IDS, limits)
            case Err(e) => Err(e)
            case Ok((extensions, c5)) =>
              if (rule.None? && kind.None?) || !NonEmpty(rule) || !NonEmpty(kind) then Err(BadValue)
              else Ok((ExtensibleMatch(rule, kind, value, dn, extensions), c5))
  }

  // The fields inside a filter element that is not a set of filters.
  function LeafFields(id: Identifier, c: Cursor, limits: Limits): (r: Result<(Filter, Cursor)>)
    requires id in {Group(3), Group(4), Group(5), Group(6), Group(8), Group(9)}
    ensures r.Ok? ==> r.value.1.rest == []
  {
    if id == Group(4) then SubstringFields(c, limits)
    else if id == Group(9) then MatchFields(c, limits)
    else
      match AssertionFields(c, limits)
      case Err(e) => Err(e)
      case Ok((a, next)) =>
        var f := if id == Group(3) then EqualityMatch(a) else if id == Group(5) then GreaterOrEqual(a)
                 else if id == Group(6) then LessOrEqual(a) else ApproximateMatch(a);
        Ok((f, next))
  }

  // decodeFilter
  function DecodeFilter(c: Cursor, limits: Limits): (r: Result<(Filter, Cursor)>)
    ensures r.Ok? ==> |r.value.1.rest| < |c.rest|
    decreases |c.rest|, 2
  {
    match Peek(c, limits)
    case Err(e) => Err(e)
    case Ok(id) =>
      if id !in FILTER_IDS then
        if id.cls != CONTEXT then Err(UnexpectedIdentifier) else
        match ReadUnknown(c, limits)
        case Err(e) => Err(e)
        case Ok((u, next)) => Ok((UnknownFilter(u), next))
      else
        match Bounded(c, limits)
        case Err(e) => Err(e)
        case Ok(b) => Finished(c, b, DecodeElement(id, b, limits))
  }

  // UnmarshalBER of one alternative, on an element of its own.
  function DecodeElement(id: Identifier, c: Cursor, limits: Limits): Result<(Filter, Cursor)>
    requires id in FILTER_IDS
    decreases |c.rest|, 1
  {
    if id == Item(7) then
      match ReadValue(c, id, true, limits)
      case Err(e) => Err(e)
      case Ok((attribute, next)) => if attribute == [] then Err(BadValue) else Ok((Present(attribute), next))
    else
      match Enter(c, id, limits)
      case Err(e) => Err(e)
      case Ok((inner, tail)) =>
        match DecodeInside(id, inner, limits)
        case Err(e) => Err(e)
        case Ok((f, last)) => if last.rest != [] then Err(TrailingData) else Ok((f, Cursor(tail, c.depth, last.elements)))
  }

  function DecodeInside(id: Identifier, c: Cursor, limits: Limits): Result<(Filter, Cursor)>
    requires id in FILTER_IDS && id != Item(7)
    decreases |c.rest|, 4
  {
    if id == Group(0) || id == Group(1) then
      match DecodeFilters(c, limits)
      case Err(e) => Err(e)
      case Ok((fs, last)) =>
        if fs == [] then Err(BadValue) else Ok((if id == Group(0) then And(fs) else Or(fs), last))
    else if id == Group(2) then
      match DecodeFilter(c, limits)
      case Err(e) => Err(e)
      case Ok((f, last)) => Ok((Not(f), last))
    else LeafFields(id, c, limits)
  }

  // AllUsing(decodeFilter)
  function DecodeFilters(c: Cursor, limits: Limits): (r: Result<(seq<Filter>, Cursor)>)
    ensures r.Ok? ==> r.value.1.rest == []
    decreases |c.rest|, 3
  {
    if c.rest == [] then Ok(([], c)) else
    match Bounded(c, limits)
    case Err(e) => Err(e)
    case Ok(b) =>
      match Finished(c, b, DecodeFilter(b, limits))
      case Err(e) => Err(e)
      case Ok((f, next)) =>
        match DecodeFilters(next, limits)
        case Err(e) => Err(e)
        case Ok((fs, last)) => Ok(([f] + fs, last))
  }
}
