/** What each typed read of ber/reader.go comes to, as functions on the unread
    bytes, the nesting depth and the shared element budget. */
module BerCursor {
  import opened BerTypes
  import opened BerIdentifier
  import opened BerLength
  import opened BerTree
  import opened BerInteger

  // The unread bytes of a bounded region, its depth, and the elements read so far.
  datatype Cursor = Cursor(rest: bytes, depth: nat, elements: nat)

  const INT64 := IntType(true, 64)

  function Peek(c: Cursor, limits: Limits): Result<Identifier>
  {
    match ParseIdentifier(c.rest, limits.maxTagNumber)
    case Err(e) => Err(e)
    case Ok((id, _)) => Ok(id)
  }

  function After(c: Cursor, e: Element): (d: Cursor)
    requires |e.raw| <= |c.rest|
  {
    Cursor(c.rest[|e.raw|..], c.depth, c.elements + 1)
  }

  function ReadPrimitive(c: Cursor, id: Identifier, limits: Limits): (r: Result<(bytes, Cursor)>)
    ensures r.Ok? ==> |r.value.1.rest| < |c.rest|
  {
    match ReadSpec(c.rest, c.elements, limits)
    case Err(e) => Err(e)
    case Ok(e) =>
      if e.id != id then
        Err(if e.id.cls == id.cls && e.id.number == id.number && e.id.constructed then PrimitiveRequired else UnexpectedIdentifier)
      else if e.id.constructed then Err(PrimitiveRequired)
      else Ok((e.value, After(c, e)))
  }

  // Constructed: the child scope, and the bytes left for the parent.
  function Enter(c: Cursor, id: Identifier, limits: Limits): (r: Result<(Cursor, bytes)>)
    ensures r.Ok? ==> |r.value.0.rest| + 2 <= |c.rest| && |r.value.1| < |c.rest|
  {
    match ReadSpec(c.rest, c.elements, limits)
    case Err(e) => Err(e)
    case Ok(e) =>
      if e.id != id then
        Err(if e.id.cls == id.cls && e.id.number == id.number && !e.id.constructed then ConstructedRequired else UnexpectedIdentifier)
      else if !e.id.constructed then Err(ConstructedRequired)
      else if c.depth == limits.maxDepth then Err(LimitExceeded(Depth))
      else ElementSizes(c.rest, limits.maxTagNumber); Ok((Cursor(e.value, c.depth + 1, c.elements + 1), c.rest[|e.raw|..]))
  }

  // Two header octets at least stand in front of the contents.
  lemma ElementSizes(rest: bytes, maxTag: uint32)
    ensures var r := ParseElement(rest, maxTag); r.Ok? ==> |r.value.value| + 2 <= |r.value.raw|
  {
    ParseElementSound(rest, maxTag);
  }

  function Skip(c: Cursor, limits: Limits): (r: Result<(Element, Cursor)>)
    ensures r.Ok? ==> |r.value.1.rest| < |c.rest|
  {
    match SkipSpec(c.rest, c.depth, c.elements, limits)
    case Err(e) => Err(e)
    case Ok((e, n)) => Ok((e, Cursor(c.rest[|e.raw|..], c.depth, n)))
  }

  function ReadInteger(c: Cursor, id: Identifier, limits: Limits): (r: Result<(int, Cursor)>)
    ensures r.Ok? ==> |r.value.1.rest| < |c.rest|
  {
    match ReadPrimitive(c, id, limits)
    case Err(e) => Err(e)
    case Ok((value, next)) =>
      match ParseInteger(value, limits.maxIntegerBytes, INT64)
      case Err(e) => Err(e)
      case Ok(v) => Ok((v, next))
  }

  // ------------------------------------------------- reads of printed elements

  /** A primitive element with the wanted identifier is read back whole. */
  lemma ReadPrimitiveBack(id: Identifier, contents: bytes, tail: bytes, depth: nat, elements: nat, limits: Limits)
    requires TagAllowed(id, limits.maxTagNumber) && !id.constructed
    requires |contents| <= MAX_INT && elements < limits.maxElements
    ensures ReadPrimitive(Cursor(Wrap(id, contents) + tail, depth, elements), id, limits)
         == Ok((contents, Cursor(tail, depth, elements + 1)))
  {
    var w := Wrap(id, contents);
    ParseElementComplete(id, contents, tail, limits.maxTagNumber);
    assert (w + tail)[|w|..] == tail;
    hide Wrap, ParseElement;
  }

  /** A constructed element with the wanted identifier opens onto its contents. */
  lemma EnterBack(id: Identifier, contents: bytes, tail: bytes, depth: nat, elements: nat, limits: Limits)
    requires TagAllowed(id, limits.maxTagNumber) && id.constructed
    requires |contents| <= MAX_INT && elements < limits.maxElements && depth < limits.maxDepth
    ensures Enter(Cursor(Wrap(id, contents) + tail, depth, elements), id, limits)
         == Ok((Cursor(contents, depth + 1, elements + 1), tail))
  {
    var w := Wrap(id, contents);
    ParseElementComplete(id, contents, tail, limits.maxTagNumber);
    assert (w + tail)[|w|..] == tail;
    hide Wrap, ParseElement;
  }

  lemma PeekBack(id: Identifier, contents: bytes, tail: bytes, depth: nat, elements: nat, limits: Limits)
    requires TagAllowed(id, limits.maxTagNumber) && |contents| <= MAX_INT
    ensures Peek(Cursor(Wrap(id, contents) + tail, depth, elements), limits) == Ok(id)
  {
    var i, l := EncodeIdentifier(id), EncodeLength(|contents|);
    assert Wrap(id, contents) + tail == i + (l + (contents + tail));
    IdentifierComplete(id, l + (contents + tail), limits.maxTagNumber);
  }

  /** What a successful primitive read consumed was one printed element. */
  lemma ReadPrimitiveSound(c: Cursor, id: Identifier, limits: Limits)
    requires ReadPrimitive(c, id, limits).Ok?
    ensures var (contents, next) := ReadPrimitive(c, id, limits).value;
            && TagAllowed(id, limits.maxTagNumber) && !id.constructed && |contents| <= MAX_INT
            && c.rest == Wrap(id, contents) + next.rest
            && next.depth == c.depth && next.elements == c.elements + 1 && c.elements != limits.maxElements
  {
    ParseElementSound(c.rest, limits.maxTagNumber);
    var e := ReadSpec(c.rest, c.elements, limits).value;
    assert c.rest == c.rest[..|e.raw|] + c.rest[|e.raw|..];
  }

  lemma EnterSound(c: Cursor, id: Identifier, limits: Limits)
    requires Enter(c, id, limits).Ok?
    ensures var (child, tail) := Enter(c, id, limits).value;
            && TagAllowed(id, limits.maxTagNumber) && id.constructed && |child.rest| <= MAX_INT
            && c.rest == Wrap(id, child.rest) + tail
            && child.depth == c.depth + 1 && child.elements == c.elements + 1
            && c.elements != limits.maxElements && c.depth != limits.maxDepth
  {
    ParseElementSound(c.rest, limits.maxTagNumber);
    var e := ReadSpec(c.rest, c.elements, limits).value;
    assert c.rest == c.rest[..|e.raw|] + c.rest[|e.raw|..];
  }
}
