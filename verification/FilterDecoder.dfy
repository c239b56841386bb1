/** The scoped first-error decoder as an object (ber/decoder.go), and the filter
    decoders that drive it (rfc4511/filter.go). Reads go on after a failure without
    effect, and only the end of a scope is checked; that comes to the same as stopping
    at the first failure. */
module FilterDecoder {
  import opened BerTypes
  import opened BerTree
  import opened BerCursor
  import opened Filter

  class Decoder {
    const limits: Limits
    var cursor: Cursor
    var err: Option<Error>

    constructor (cursor: Cursor, limits: Limits)
      ensures this.cursor == cursor && this.limits == limits && err == None
    {
      this.cursor, this.limits, err := cursor, limits, None;
    }

    // What a read makes of a scope: the first failure sticks, and a scope that has
    // failed reads nothing.
    ghost predicate After<T>(err0: Option<Error>, cursor0: Cursor, r: Result<(T, Cursor)>, value: T)
      reads this
    {
      if err0.Some? then err == err0 && cursor == cursor0
      else match r
           case Err(e) => err == Some(e)
           case Ok((v, next)) => err == None && cursor == next && value == v
    }

    method Fail(e: Error)
      modifies `err
      ensures err == if old(err).Some? then old(err) else Some(e)
    {
      if err.None? {
        err := Some(e);
      }
    }

    // More
    predicate HasMore()
      reads this
    {
      err.None? && cursor.rest != []
    }

    method IsNext(id: Identifier) returns (yes: bool)
      modifies `err
      ensures yes ==> old(err).None?
      ensures old(err).Some? ==> err == old(err)
      ensures old(err).None? ==>
                match NextIs(cursor, id, limits)
                case Err(e) => err == Some(e) && !yes
                case Ok(b) => err == None && yes == b
    {
      if !HasMore() {
        return false;
      }
      var peeked := Peek(cursor, limits);
      if peeked.Err? {
        Fail(peeked.error);
        return false;
      }
      return peeked.value == id;
    }

    // Read and ReadAs of text and byte values.
    method ReadAs(id: Identifier, text: bool) returns (value: bytes)
      modifies this
      ensures After(old(err), old(cursor), ReadValue(old(cursor), id, text, limits), value)
    {
      if err.Some? {
        return [];
      }
      var probe := ReadSpec(cursor.rest, cursor.elements, limits);
      if probe.Err? {
        Fail(probe.error);
        return [];
      }
      var bounded := Cursor(probe.value.raw, cursor.depth, cursor.elements);
      var read := ReadPrimitive(bounded, id, limits);
      if read.Err? {
        Fail(read.error);
        return [];
      }
      if text && !Utf8(read.value.0) {
        Fail(BadText);
        return [];
      }
      if read.value.1.rest != [] {
        Fail(TrailingData);
        return [];
      }
      cursor := Cursor(cursor.rest[|bounded.rest|..], cursor.depth, read.value.1.elements);
      return read.value.0;
    }

    method ReadOptionalAs(id: Identifier, text: bool) returns (value: Option<bytes>)
      modifies this
      ensures After(old(err), old(cursor), ReadOptional(old(cursor), id, text, limits), value)
    {
      value := None;
      var there := IsNext(id);
      if there {
        var v := ReadAs(id, text);
        if err.None? {
          value := Some(v);
        }
      }
    }

    method BooleanAs(id: Identifier) returns (value: bool)
      modifies this
      ensures After(old(err), old(cursor), ReadBoolean(old(cursor), id, limits), value)
    {
      if err.Some? {
        return false;
      }
      var read := ReadPrimitive(cursor, id, limits);
      if read.Err? {
        Fail(read.error);
        return false;
      }
      var contents := read.value.0;
      if |contents| != 1 || (contents[0] != 0 && contents[0] != 0xFF) {
        Fail(InvalidBoolean);
        return false;
      }
      cursor := read.value.1;
      return contents[0] != 0;
    }

    // Read of an unknown field.
    method ReadField() returns (value: Option<Unknown>)
      modifies this
      ensures old(err).Some? ==> unchanged(this) && value == None
      ensures old(err).None? ==>
                match ReadUnknown(old(cursor), limits)
                case Err(e) => err == Some(e) && value == None
                case Ok((u, next)) => err == None && cursor == next && value == Some(u)
    {
      if err.Some? {
        return None;
      }
      var read := ReadUnknown(cursor, limits);
      if read.Err? {
        Fail(read.error);
        return None;
      }
      cursor := read.value.1;
      return Some(read.value.0);
    }

    /** All the fields that are left, none of them reserved. */
    method Extensions(reserved: set<Identifier>) returns (values: seq<Unknown>)
      modifies this
      ensures After(old(err), old(cursor), ReadExtensions(old(cursor), reserved, limits), values)
    {
      hide ReadExtensions, ReadUnknown, Peek;
      values := [];
      if err.Some? {
        return;
      }
      ghost var c := cursor;
      PrecededByNone(ReadExtensions(c, reserved, limits));
      while HasMore()
        invariant err == None
        invariant ReadExtensions(c, reserved, limits) == Preceded(values, ReadExtensions(cursor, reserved, limits))
        decreases |cursor.rest|
      {
        ExtensionsTurn(cursor, reserved, limits);
        var id := Peek(cursor, limits);
        if id.Err? {
          Fail(id.error);
          return;
        }
        if id.value in reserved {
          Fail(UnexpectedIdentifier);
          return;
        }
        var field := ReadField();
        if err.Some? {
          return;
        }
        PrecededByOneMore(values, field.value, ReadExtensions(cursor, reserved, limits));
        values := values + [field.value];
      }
      ExtensionsOver(cursor, reserved, limits);
      assert values + [] == values;
    }

    // The values of a repeated field, as many as there are.
    method ReadAll(id: Identifier) returns (values: seq<bytes>)
      modifies this
      ensures After(old(err), old(cursor), ReadSeveral(old(cursor), id, limits), values)
    {
      hide ReadSeveral, ReadValue, NextIs;
      values := [];
      if err.Some? {
        return;
      }
      ghost var c := cursor;
      PrecededByNone(ReadSeveral(c, id, limits));
      while true
        invariant err == None
        invariant ReadSeveral(c, id, limits) == Preceded(values, ReadSeveral(cursor, id, limits))
        decreases |cursor.rest|
      {
        SeveralTurn(cursor, id, limits);
        var there := IsNext(id);
        if !there {
          assert values + [] == values;
          return;
        }
        var v := ReadAs(id, false);
        if err.Some? {
          return;
        }
        PrecededByOneMore(values, v, ReadSeveral(cursor, id, limits));
        values := values + [v];
      }
    }
  }

  lemma ExtensionsTurn(c: Cursor, reserved: set<Identifier>, limits: Limits)
    requires c.rest != []
    ensures var r, p, u := ReadExtensions(c, reserved, limits), Peek(c, limits), ReadUnknown(c, limits);
            && (p.Err? ==> r == Err(p.error))
            && (p.Ok? && p.value in reserved ==> r == Err(UnexpectedIdentifier))
            && (p.Ok? && p.value !in reserved && u.Err? ==> r == Err(u.error))
            && (p.Ok? && p.value !in reserved && u.Ok? ==> r == Preceded([u.value.0], ReadExtensions(u.value.1, reserved, limits)))
  {
  }

  lemma ExtensionsOver(c: Cursor, reserved: set<Identifier>, limits: Limits)
    requires c.rest == []
    ensures ReadExtensions(c, reserved, limits) == Ok(([], c))
  {
  }

  lemma SeveralTurn(c: Cursor, id: Identifier, limits: Limits)
    ensures var r, n, v := ReadSeveral(c, id, limits), NextIs(c, id, limits), ReadValue(c, id, false, limits);
            && (n.Err? ==> r == Err(n.error))
            && (n == Ok(false) ==> r == Ok(([], c)))
            && (n == Ok(true) && v.Err? ==> r == Err(v.error))
            && (n == Ok(true) && v.Ok? ==> r == Preceded([v.value.0], ReadSeveral(v.value.1, id, limits)))
  {
  }

  // ------------------------------------------------------------- the alternatives

  // AttributeValueAssertion.UnmarshalAs, inside its element
  method UnmarshalAssertion(c: Cursor, limits: Limits) returns (r: Result<(Assertion, Cursor)>)
    ensures r == AssertionFields(c, limits)
  {
    hide ReadValue, ReadExtensions;
    var d := new Decoder(c, limits);
    var attribute := d.ReadAs(OCTET_STRING, true);
    var value := d.ReadAs(OCTET_STRING, false);
    var extensions := d.Extensions({});
    if d.err.Some? {
      return Err(d.err.value);
    }
    if |attribute| == 0 {
      return Err(BadValue);
    }
    return Ok((Assertion(attribute, value, extensions), d.cursor));
  }

  method UnmarshalParts(c: Cursor, limits: Limits) returns (r: Result<(Parts, Cursor)>)
    ensures r == PartFields(c, limits)
  {
    hide ReadOptional, ReadSeveral, ReadExtensions;
    var d := new Decoder(c, limits);
    var initial := d.ReadOptionalAs(Item(0), false);
    var middle := d.ReadAll(Item(1));
    var last := d.ReadOptionalAs(Item(2), false);
    var extensions := d.Extensions(SUBSTRING_IDS);
    if d.err.Some? {
      return Err(d.err.value);
    }
    return Ok((Parts(initial, middle, last, extensions), d.cursor));
  }

  method UnmarshalSubstrings(c: Cursor, limits: Limits) returns (r: Result<(Filter, Cursor)>)
    ensures r == SubstringFields(c, limits)
  {
    hide ReadValue, Enter, PartFields;
    var d := new Decoder(c, limits);
    var attribute := d.ReadAs(OCTET_STRING, true);
    if d.err.Some? {
      return Err(d.err.value);
    }
    var entered := Enter(d.cursor, SEQUENCE, limits);
    if entered.Err? {
      return Err(entered.error);
    }
    var parts := UnmarshalParts(entered.value.0, limits);
    if parts.Err? {
      return Err(parts.error);
    }
    if entered.value.1 != [] {
      return Err(TrailingData);
    }
    var p := parts.value.0;
    if |attribute| == 0 {
      return Err(BadValue);
    }
    if p.initial.None? && |p.middle| == 0 && p.last.None? {
      return Err(BadValue);
    }
    return Ok((Substrings(attribute, p.initial, p.middle, p.last, p.extensions),
               Cursor([], d.cursor.depth, parts.value.1.elements)));
  }

  method UnmarshalMatch(c: Cursor, limits: Limits) returns (r: Result<(Filter, Cursor)>)
    ensures r == MatchFields(c, limits)
  {
    hide ReadOptional, ReadValue, ReadBoolean, ReadExtensions, NextIs;
    var d := new Decoder(c, limits);
    var rule := d.ReadOptionalAs(Item(1), true);
    var kind := d.ReadOptionalAs(Item(2), true);
    var value := d.ReadAs(Item(3), false);
    var dnAttributes := false;
    var there := d.IsNext(Item(4));
    if there {
      dnAttributes := d.BooleanAs(Item(4));
    }
    var extensions := d.Extensions(MATCH_IDS);
    if d.err.Some? {
      return Err(d.err.value);
    }
    if rule.None? && kind.None? {
      return Err(BadValue);
    }
    if (rule.Some? && |rule.value| == 0) || (kind.Some? && |kind.value| == 0) {
      return Err(BadValue);
    }
    return Ok((ExtensibleMatch(rule, kind, value, dnAttributes, extensions), d.cursor));
  }

  method UnmarshalLeaf(id: Identifier, c: Cursor, limits: Limits) returns (r: Result<(Filter, Cursor)>)
    requires id in {Group(3), Group(4), Group(5), Group(6), Group(8), Group(9)}
    ensures r == LeafFields(id, c, limits)
  {
    hide SubstringFields, MatchFields, AssertionFields;
    if id == Group(4) {
      r := UnmarshalSubstrings(c, limits);
      return;
    }
    if id == Group(9) {
      r := UnmarshalMatch(c, limits);
      return;
    }
    var a := UnmarshalAssertion(c, limits);
    if a.Err? {
      return Err(a.error);
    }
    var f := if id == Group(3) then EqualityMatch(a.value.0) else if id == Group(5) then GreaterOrEqual(a.value.0)
             else if id == Group(6) then LessOrEqual(a.value.0) else ApproximateMatch(a.value.0);
    return Ok((f, a.value.1));
  }

  /** decodeFilter: one filter of any nesting, bounded to its own element. */
  method UnmarshalFilter(c: Cursor, limits: Limits) returns (r: Result<(Filter, Cursor)>)
    ensures r == DecodeFilter(c, limits)
    decreases |c.rest|, 2
  {
    hide Peek, ReadUnknown, Bounded, DecodeElement;
    var peeked := Peek(c, limits);
    if peeked.Err? {
      return Err(peeked.error);
    }
    var id := peeked.value;
    if id !in FILTER_IDS {
      if id.cls != CONTEXT {
        return Err(UnexpectedIdentifier);
      }
      var field := ReadUnknown(c, limits);
      if field.Err? {
        return Err(field.error);
      }
      return Ok((UnknownFilter(field.value.0), field.value.1));
    }
    var bounded := Bounded(c, limits);
    if bounded.Err? {
      return Err(bounded.error);
    }
    var b := bounded.value;
    var element := UnmarshalElement(id, b, limits);
    if element.Err? {
      return Err(element.error);
    }
    if element.value.1.rest != [] {
      return Err(TrailingData);
    }
    return Ok((element.value.0, Cursor(c.rest[|b.rest|..], c.depth, element.value.1.elements)));
  }

  method UnmarshalElement(id: Identifier, c: Cursor, limits: Limits) returns (r: Result<(Filter, Cursor)>)
    requires id in FILTER_IDS
    ensures r == DecodeElement(id, c, limits)
    decreases |c.rest|, 1
  {
    hide ReadValue, Enter, DecodeInside;
    if id == Item(7) {
      var d := new Decoder(c, limits);
      var attribute := d.ReadAs(id, true);
      if d.err.Some? {
        return Err(d.err.value);
      }
      if |attribute| == 0 {
        return Err(BadValue);
      }
      return Ok((Present(attribute), d.cursor));
    }
    var entered := Enter(c, id, limits);
    if entered.Err? {
      return Err(entered.error);
    }
    var inside := UnmarshalInside(id, entered.value.0, limits);
    if inside.Err? {
      return Err(inside.error);
    }
    if inside.value.1.rest != [] {
      return Err(TrailingData);
    }
    return Ok((inside.value.0, Cursor(entered.value.1, c.depth, inside.value.1.elements)));
  }

  method UnmarshalInside(id: Identifier, c: Cursor, limits: Limits) returns (r: Result<(Filter, Cursor)>)
    requires id in FILTER_IDS && id != Item(7)
    ensures r == DecodeInside(id, c, limits)
    decreases |c.rest|, 4
  {
    hide DecodeFilters, DecodeFilter, LeafFields;
    if id == Group(0) || id == Group(1) {
      var all := UnmarshalAll(c, limits);
      if all.Err? {
        return Err(all.error);
      }
      if |all.value.0| == 0 {
        return Err(BadValue);
      }
      return Ok((if id == Group(0) then And(all.value.0) else Or(all.value.0), all.value.1));
    }
    if id == Group(2) {
      var one := UnmarshalFilter(c, limits);
      if one.Err? {
        return Err(one.error);
      }
      return Ok((Not(one.value.0), one.value.1));
    }
    r := UnmarshalLeaf(id, c, limits);
  }

  // AllUsing(decodeFilter)
  method UnmarshalAll(c: Cursor, limits: Limits) returns (r: Result<(seq<Filter>, Cursor)>)
    ensures r == DecodeFilters(c, limits)
    decreases |c.rest|, 3
  {
    hide DecodeFilters, DecodeFilter, Bounded;
    var d := c;
    var filters: seq<Filter> := [];
    PrecededByNone(DecodeFilters(c, limits));
    while d.rest != []
      invariant |d.rest| <= |c.rest|
      invariant DecodeFilters(c, limits) == Preceded(filters, DecodeFilters(d, limits))
      decreases |d.rest|
    {
      FiltersUnfold(d, limits);
      var bounded := Bounded(d, limits);
      if bounded.Err? {
        return Err(bounded.error);
      }
      var b := bounded.value;
      var one := UnmarshalFilter(b, limits);
      if one.Err? {
        return Err(one.error);
      }
      if one.value.1.rest != [] {
        return Err(TrailingData);
      }
      d := Cursor(d.rest[|b.rest|..], d.depth, one.value.1.elements);
      PrecededByOneMore(filters, one.value.0, DecodeFilters(d, limits));
      filters := filters + [one.value.0];
    }
    FiltersOver(d, limits);
    assert filters + [] == filters;
    return Ok((filters, d));
  }

  lemma FiltersUnfold(c: Cursor, limits: Limits)
    requires c.rest != []
    ensures var r, b := DecodeFilters(c, limits), Bounded(c, limits);
            && (b.Err? ==> r == Err(b.error))
            && (b.Ok? ==>
                  var f := DecodeFilter(b.value, limits);
                  && (f.Err? ==> r == Err(f.error))
                  && (f.Ok? && f.value.1.rest != [] ==> r == Err(TrailingData))
                  && (f.Ok? && f.value.1.rest == [] ==>
                        r == Preceded([f.value.0], DecodeFilters(Cursor(c.rest[|b.value.rest|..], c.depth, f.value.1.elements), limits))))
  {
    hide DecodeFilter, Bounded;
  }

  lemma FiltersOver(c: Cursor, limits: Limits)
    requires c.rest == []
    ensures DecodeFilters(c, limits) == Ok(([], c))
  {
  }
}
