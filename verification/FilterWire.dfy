/** The octets of the parts of a filter, and that the scoped decoder reads exactly
    them: what it reads back was there, and what is there it reads back. */
module FilterWire {
  import opened BerTypes
  import opened BerIdentifier
  import opened BerTree
  import opened BerCursor
  import opened Filter

  // --------------------------------------------------------------------- octets

  // One element, for contents that fit.
  function Elem(id: Identifier, contents: bytes): bytes
  {
    if |contents| <= MAX_INT then Wrap(id, contents) else []
  }

  function OptionalBytes(id: Identifier, value: Option<bytes>): bytes
  {
    if value.None? then [] else Elem(id, value.value)
  }

  function SeveralBytes(id: Identifier, values: seq<bytes>): bytes
  {
    if values == [] then [] else Elem(id, values[0]) + SeveralBytes(id, values[1..])
  }

  function RawBytes(us: seq<Unknown>): bytes
  {
    if us == [] then [] else us[0].raw + RawBytes(us[1..])
  }

  // The tree behind an unknown field.
  ghost predicate Behind(u: Unknown, t: Tree, limits: Limits)
  {
    Sized(t) && Formed(t, limits.maxTagNumber) && t.id == u.id && Encode(t) == u.raw
  }

  lemma BehindUnique(u: Unknown, t: Tree, t': Tree, limits: Limits)
    requires Behind(u, t, limits) && Behind(u, t', limits)
    ensures t == t'
  {
    EncodingUnique(t, t', [], [], limits.maxTagNumber);
  }

  // How many elements an unknown field is.
  ghost function Nodes(u: Unknown, limits: Limits): nat
  {
    if exists t :: Behind(u, t, limits) then (var t :| Behind(u, t, limits); Count(t)) else 0
  }

  ghost function AllNodes(us: seq<Unknown>, limits: Limits): nat
  {
    if us == [] then 0 else Nodes(us[0], limits) + AllNodes(us[1..], limits)
  }

  // A complete element, valid to any depth that is left at this one.
  ghost predicate GoodUnknown(u: Unknown, limits: Limits, depth: nat)
  {
    depth <= limits.maxDepth && exists t :: Behind(u, t, limits) && Shaped(t, limits.maxTagNumber, limits.maxDepth - depth)
  }

  ghost predicate GoodUnknowns(us: seq<Unknown>, reserved: set<Identifier>, limits: Limits, depth: nat)
  {
    forall k :: 0 <= k < |us| ==> GoodUnknown(us[k], limits, depth) && us[k].id !in reserved
  }

  // The region is over, or something else comes next.
  predicate Elsewhere(c: Cursor, id: Identifier, limits: Limits)
  {
    c.rest == [] || (Peek(c, limits).Ok? && Peek(c, limits).value != id)
  }

  // ----------------------------------------------------------- values read back

  // Bounding a primitive read to its element changes nothing.
  lemma BoundedPrimitive(c: Cursor, id: Identifier, text: bool, limits: Limits)
    ensures ReadValue(c, id, text, limits) == if text then CheckText(ReadPrimitive(c, id, limits)) else ReadPrimitive(c, id, limits)
  {
    hide ParseElement, Utf8;
    if ParseElement(c.rest, limits.maxTagNumber).Ok? {
      StandsAlone(c.rest, limits.maxTagNumber);
      var e := ParseElement(c.rest, limits.maxTagNumber).value;
      assert e.raw[|e.raw|..] == [];
    }
  }

  lemma ValueBack(id: Identifier, value: bytes, text: bool, tail: bytes, depth: nat, elements: nat, limits: Limits)
    requires TagAllowed(id, limits.maxTagNumber) && !id.constructed && |value| <= MAX_INT && elements < limits.maxElements
    requires text ==> Utf8(value)
    ensures ReadValue(Cursor(Elem(id, value) + tail, depth, elements), id, text, limits) == Ok((value, Cursor(tail, depth, elements + 1)))
    ensures Peek(Cursor(Elem(id, value) + tail, depth, elements), limits) == Ok(id)
    ensures Elem(id, value) != []
  {
    hide ReadValue, Utf8;
    BoundedPrimitive(Cursor(Elem(id, value) + tail, depth, elements), id, text, limits);
    ReadPrimitiveBack(id, value, tail, depth, elements, limits);
    PeekBack(id, value, tail, depth, elements, limits);
    hide Peek, ReadPrimitive;
  }

  lemma ValueSound(c: Cursor, id: Identifier, text: bool, limits: Limits)
    requires ReadValue(c, id, text, limits).Ok? && c.elements <= limits.maxElements
    ensures var (value, next) := ReadValue(c, id, text, limits).value;
            && c.rest == Elem(id, value) + next.rest && |value| <= MAX_INT && (text ==> Utf8(value))
            && next.depth == c.depth && next.elements == c.elements + 1 <= limits.maxElements
  {
    hide Utf8;
    BoundedPrimitive(c, id, text, limits);
    ReadPrimitiveSound(c, id, limits);
    hide ReadValue, ReadPrimitive;
  }

  lemma OptionalBack(id: Identifier, value: Option<bytes>, text: bool, tail: bytes, depth: nat, elements: nat, limits: Limits)
    requires TagAllowed(id, limits.maxTagNumber) && !id.constructed
    requires match value
             case None => Elsewhere(Cursor(tail, depth, elements), id, limits)
             case Some(v) => |v| <= MAX_INT && elements < limits.maxElements && (text ==> Utf8(v))
    ensures ReadOptional(Cursor(OptionalBytes(id, value) + tail, depth, elements), id, text, limits)
         == Ok((value, Cursor(tail, depth, elements + if value.Some? then 1 else 0)))
  {
    hide Utf8, ReadValue, Peek, Elem;
    if value.Some? { ValueBack(id, value.value, text, tail, depth, elements, limits); }
    else { assert [] + tail == tail; }
  }

  lemma OptionalSound(c: Cursor, id: Identifier, text: bool, limits: Limits)
    requires ReadOptional(c, id, text, limits).Ok? && c.elements <= limits.maxElements
    ensures var (value, next) := ReadOptional(c, id, text, limits).value;
            && c.rest == OptionalBytes(id, value) + next.rest && (value.Some? ==> |value.value| <= MAX_INT && (text ==> Utf8(value.value)))
            && next.depth == c.depth && next.elements == c.elements + (if value.Some? then 1 else 0) <= limits.maxElements
  {
    hide Utf8, ReadValue, Peek, Elem;
    var (value, next) := ReadOptional(c, id, text, limits).value;
    if value.Some? { ValueSound(c, id, text, limits); }
    else { assert c.rest == [] + c.rest; }
  }

  predicate AllFit(values: seq<bytes>) { forall k :: 0 <= k < |values| ==> |values[k]| <= MAX_INT }

  lemma SeveralTurn(c: Cursor, id: Identifier, limits: Limits, value: bytes, next: Cursor, values: seq<bytes>, last: Cursor)
    requires NextIs(c, id, limits) == Ok(true) && ReadValue(c, id, false, limits) == Ok((value, next))
    requires ReadSeveral(next, id, limits) == Ok((values, last))
    ensures ReadSeveral(c, id, limits) == Ok(([value] + values, last))
  {
    hide ReadValue, NextIs;
  }

  lemma {:induction false} SeveralBack(id: Identifier, values: seq<bytes>, tail: bytes, depth: nat, elements: nat, limits: Limits)
    requires TagAllowed(id, limits.maxTagNumber) && !id.constructed && AllFit(values) && elements + |values| <= limits.maxElements
    requires Elsewhere(Cursor(tail, depth, elements + |values|), id, limits)
    ensures ReadSeveral(Cursor(SeveralBytes(id, values) + tail, depth, elements), id, limits)
         == Ok((values, Cursor(tail, depth, elements + |values|)))
    decreases |values|
  {
    hide ReadValue, Peek, Elem;
    var c := Cursor(SeveralBytes(id, values) + tail, depth, elements);
    if values == [] {
      assert [] + tail == tail;
    } else {
      var rest := SeveralBytes(id, values[1..]) + tail;
      assert c.rest == Elem(id, values[0]) + rest;
      ValueBack(id, values[0], false, rest, depth, elements, limits);
      SeveralBack(id, values[1..], tail, depth, elements + 1, limits);
      var last := Cursor(tail, depth, elements + |values|);
      SeveralTurn(c, id, limits, values[0], Cursor(rest, depth, elements + 1), values[1..], last);
      assert [values[0]] + values[1..] == values;
    }
  }

  lemma {:induction false} SeveralSound(c: Cursor, id: Identifier, limits: Limits)
    requires ReadSeveral(c, id, limits).Ok? && c.elements <= limits.maxElements
    ensures var (values, next) := ReadSeveral(c, id, limits).value;
            && c.rest == SeveralBytes(id, values) + next.rest && AllFit(values)
            && next.depth == c.depth && next.elements == c.elements + |values| <= limits.maxElements
    decreases |c.rest|
  {
    hide ReadValue, Peek, Elem;
    var (values, next) := ReadSeveral(c, id, limits).value;
    if values == [] {
      assert c.rest == [] + c.rest;
    } else {
      var (value, after) := ReadValue(c, id, false, limits).value;
      ValueSound(c, id, false, limits);
      SeveralSound(after, id, limits);
      assert values[1..] == ReadSeveral(after, id, limits).value.0;
      assert Elem(id, value) + (SeveralBytes(id, values[1..]) + next.rest) == (Elem(id, value) + SeveralBytes(id, values[1..])) + next.rest;
    }
  }

  // ----------------------------------------------------------- unknown fields

  lemma NodesAre(u: Unknown, t: Tree, limits: Limits)
    requires Behind(u, t, limits)
    ensures Nodes(u, limits) == Count(t) >= 1
  {
    var t' :| Behind(u, t', limits) && Nodes(u, limits) == Count(t');
    BehindUnique(u, t, t', limits);
  }

  // Skipping an element that is all there is, and reading it at the front of more.
  lemma UnknownFront(t: Tree, tail: bytes, depth: nat, elements: nat, limits: Limits)
    requires depth <= limits.maxDepth && Within(t, limits, limits.maxDepth - depth) && elements + Count(t) <= limits.maxElements
    ensures var e := Element(t.id, ContentsOf(t), Encode(t));
            && ReadSpec(Encode(t) + tail, elements, limits) == Ok(e)
            && SkipSpec(Encode(t), depth, elements, limits) == Ok((e, elements + Count(t)))
            && Peek(Cursor(Encode(t) + tail, depth, elements), limits) == Ok(t.id)
  {
    var contents := ContentsOf(t);
    assert Encode(t) == Wrap(t.id, contents) && TagAllowed(t.id, limits.maxTagNumber);
    hide SkipSpec, Shaped, Encode, Wrap, ParseElement;
    PeekBack(t.id, contents, tail, depth, elements, limits);
    ParseElementComplete(t.id, contents, tail, limits.maxTagNumber);
    SkipComplete(t, [], depth, elements, limits);
    assert Encode(t) + [] == Encode(t);
  }

  lemma UnknownBack(u: Unknown, tail: bytes, depth: nat, elements: nat, limits: Limits)
    requires GoodUnknown(u, limits, depth) && elements + Nodes(u, limits) <= limits.maxElements
    ensures ReadUnknown(Cursor(u.raw + tail, depth, elements), limits) == Ok((u, Cursor(tail, depth, elements + Nodes(u, limits))))
    ensures Peek(Cursor(u.raw + tail, depth, elements), limits) == Ok(u.id) && u.raw != []
  {
    hide Shaped, ReadSpec, SkipSpec, Peek, Encode, Count, Nodes;
    var t :| Behind(u, t, limits) && Shaped(t, limits.maxTagNumber, limits.maxDepth - depth);
    NodesAre(u, t, limits);
    UnknownFront(t, tail, depth, elements, limits);
    assert u.raw[|u.raw|..] == [] && (u.raw + tail)[|u.raw|..] == tail;
  }

  lemma UnknownSound(c: Cursor, limits: Limits)
    requires ReadUnknown(c, limits).Ok? && c.elements <= limits.maxElements && c.depth <= limits.maxDepth && |c.rest| <= MAX_INT
    ensures var (u, next) := ReadUnknown(c, limits).value;
            && c.rest == u.raw + next.rest && GoodUnknown(u, limits, c.depth) && Peek(c, limits) == Ok(u.id)
            && next.depth == c.depth && next.elements == c.elements + Nodes(u, limits) <= limits.maxElements
  {
    hide SkipSpec, Encode, Count, Nodes, ParseElement, Peek, Shaped, Formed;
    StandsAlone(c.rest, limits.maxTagNumber);
    var b := Bounded(c, limits).value;
    var (e, after) := Skip(b, limits).value;
    var t := ValidateOneSound(b.rest, b.depth, b.elements, limits);
    ShapedIsFormed(t, limits.maxTagNumber, limits.maxDepth - c.depth);
    var u := Unknown(e.id, e.raw);
    assert Behind(u, t, limits);
    NodesAre(u, t, limits);
    SkippedIsRead(b.rest, b.depth, b.elements, limits);
    PeekIsParsed(c, limits);
  }

  lemma SkippedIsRead(rest: bytes, depth: nat, elements: nat, limits: Limits)
    requires SkipSpec(rest, depth, elements, limits).Ok?
    ensures ParseElement(rest, limits.maxTagNumber) == Ok(SkipSpec(rest, depth, elements, limits).value.0)
  {
    hide ParseElement, ValidateContents;
  }

  lemma PeekIsParsed(c: Cursor, limits: Limits)
    requires ParseElement(c.rest, limits.maxTagNumber).Ok?
    ensures Peek(c, limits) == Ok(ParseElement(c.rest, limits.maxTagNumber).value.id)
  {
  }

  lemma ExtensionsTurn(c: Cursor, reserved: set<Identifier>, limits: Limits, u: Unknown, next: Cursor, us: seq<Unknown>, last: Cursor)
    requires c.rest != [] && Peek(c, limits) == Ok(u.id) && u.id !in reserved && ReadUnknown(c, limits) == Ok((u, next))
    requires ReadExtensions(next, reserved, limits) == Ok((us, last))
    ensures ReadExtensions(c, reserved, limits) == Ok(([u] + us, last))
  {
    hide Peek, ReadUnknown;
  }

  lemma {:induction false} ExtensionsBack(us: seq<Unknown>, reserved: set<Identifier>, depth: nat, elements: nat, limits: Limits)
    requires GoodUnknowns(us, reserved, limits, depth) && elements + AllNodes(us, limits) <= limits.maxElements
    ensures ReadExtensions(Cursor(RawBytes(us), depth, elements), reserved, limits)
         == Ok((us, Cursor([], depth, elements + AllNodes(us, limits))))
    decreases |us|
  {
    hide ReadUnknown, Peek, Nodes, GoodUnknown;
    if us != [] {
      var u, rest := us[0], RawBytes(us[1..]);
      var n := elements + Nodes(u, limits);
      UnknownBack(u, rest, depth, elements, limits);
      ExtensionsBack(us[1..], reserved, depth, n, limits);
      ExtensionsTurn(Cursor(RawBytes(us), depth, elements), reserved, limits, u, Cursor(rest, depth, n),
                     us[1..], Cursor([], depth, elements + AllNodes(us, limits)));
      assert [u] + us[1..] == us;
    }
  }

  lemma {:induction false} ExtensionsSound(c: Cursor, reserved: set<Identifier>, limits: Limits)
    requires ReadExtensions(c, reserved, limits).Ok? && c.elements <= limits.maxElements && c.depth <= limits.maxDepth && |c.rest| <= MAX_INT
    ensures var (us, next) := ReadExtensions(c, reserved, limits).value;
            && c.rest == RawBytes(us) && GoodUnknowns(us, reserved, limits, c.depth)
            && next == Cursor([], c.depth, c.elements + AllNodes(us, limits)) && next.elements <= limits.maxElements
    decreases |c.rest|
  {
    hide ReadUnknown, Peek, Nodes, GoodUnknown;
    if c.rest != [] {
      var (u, after) := ReadUnknown(c, limits).value;
      UnknownSound(c, limits);
      ExtensionsSound(after, reserved, limits);
      var us := ReadExtensions(c, reserved, limits).value.0;
      assert us[1..] == ReadExtensions(after, reserved, limits).value.0;
    }
  }

  /** A reserved field identifier is refused wherever it stands among the extensions,
      whatever precedes or follows it. */
  lemma {:induction false} ReservedRefused(us: seq<Unknown>, bad: Unknown, tail: bytes, reserved: set<Identifier>, depth: nat, elements: nat, limits: Limits)
    requires GoodUnknowns(us, {}, limits, depth) && GoodUnknown(bad, limits, depth) && bad.id in reserved
    requires elements + AllNodes(us, limits) + Nodes(bad, limits) <= limits.maxElements
    ensures ReadExtensions(Cursor(RawBytes(us) + bad.raw + tail, depth, elements), reserved, limits).Err?
    decreases |us|
  {
    hide ReadUnknown, Peek, Nodes, GoodUnknown;
    var c := Cursor(RawBytes(us) + bad.raw + tail, depth, elements);
    if us == [] {
      assert c.rest == bad.raw + tail;
      UnknownBack(bad, tail, depth, elements, limits);
    } else {
      var u, rest := us[0], RawBytes(us[1..]) + bad.raw + tail;
      assert c.rest == u.raw + rest;
      UnknownBack(u, rest, depth, elements, limits);
      ReservedRefused(us[1..], bad, tail, reserved, depth, elements + Nodes(u, limits), limits);
    }
  }
}
