/** The bounded cursor of ber/reader.go: an object that advances its position and
    an element counter it shares with every reader nested inside it. */
module BerReader {
  import opened BerTypes
  import opened BerIdentifier
  import opened BerLength
  import opened BerTree
  import opened BerInteger
  import opened BerCursor

  class ReaderState {
    var elements: nat

    constructor ()
      ensures elements == 0
    {
      elements := 0;
    }
  }

  class Reader {
    const data: bytes
    var pos: nat
    const depth: nat
    const limits: Limits
    const state: ReaderState

    ghost predicate Valid()
      reads this, state
    {
      && pos <= |data| <= MAX_INT
      && limits.Valid()
      && depth <= limits.maxDepth
      && state.elements <= limits.maxElements
    }

    ghost function View(): (c: Cursor)
      requires Valid()
      reads this, state
    {
      Cursor(data[pos..], depth, state.elements)
    }

    constructor (data: bytes, depth: nat, limits: Limits, state: ReaderState)
      requires |data| <= MAX_INT && limits.Valid() && depth <= limits.maxDepth && state.elements <= limits.maxElements
      ensures this.data == data && this.depth == depth && this.limits == limits && this.state == state
      ensures Valid() && View() == Cursor(data, depth, state.elements)
    {
      this.data := data;
      this.pos := 0;
      this.depth := depth;
      this.limits := limits;
      this.state := state;
    }

    predicate Empty()
      reads this
    {
      pos == |data|
    }

    method PeekIdentifier() returns (r: Result<Identifier>)
      requires Valid()
      ensures r == Peek(View(), limits)
    {
      var d := DecodeIdentifier(data[pos..], limits.maxTagNumber);
      match d
      case Err(e) => return Err(e);
      case Ok(p) => return Ok(p.0);
    }

    // Advances only after the identifier, length and bounded value are valid.
    method ReadElement() returns (r: Result<Element>)
      requires Valid()
      modifies this`pos, state
      ensures Valid()
      ensures r == ReadSpec(old(View()).rest, old(state.elements), limits)
      ensures View() == if r.Ok? then After(old(View()), r.value) else old(View())
    {
      hide ParseIdentifier, ParseLength;
      var start := pos;
      var id := DecodeIdentifier(data[start..], limits.maxTagNumber);
      if id.Err? { return Err(id.error); }
      var idBytes := id.value.1;
      assert data[start..][idBytes..] == data[start + idBytes..];
      var length := DecodeLength(data[start + idBytes..]);
      if length.Err? { return Err(length.error); }
      var header := idBytes + length.value.1;
      if length.value.0 > |data| - start - header { return Err(Truncated); }
      var end := start + header + length.value.0;
      if state.elements == limits.maxElements { return Err(LimitExceeded(Elements)); }
      state.elements := state.elements + 1;
      var e := Element(id.value.0, data[start + header..end], data[start..end]);
      assert data[start..][..header + length.value.0] == e.raw;
      assert data[start..][header..header + length.value.0] == e.value;
      pos := end;
      return Ok(e);
    }

    // Reads one element and validates everything nested in it.
    method SkipElement() returns (r: Result<Element>)
      requires Valid()
      modifies this`pos, state
      ensures Valid() && state.elements >= old(state.elements)
      ensures match old(SkipSpec(View().rest, depth, state.elements, limits))
              case Err(e) => r == Err(e)
              case Ok((e, n)) => r == Ok(e) && View() == Cursor(old(View()).rest[|e.raw|..], depth, n)
      decreases |data| - pos, 0
    {
      var e := ReadElement();
      if e.Err? { return Err(e.error); }
      var failed := this.ValidateNested(e.value);
      if failed.Some? { return Err(failed.value); }
      return Ok(e.value);
    }

    // validateContents; on failure the budget keeps what was charged.
    method ValidateNested(e: Element) returns (failed: Option<Error>)
      requires Valid() && |e.value| <= MAX_INT
      modifies state
      ensures Valid() && state.elements >= old(state.elements)
      ensures match old(ValidateContents(e.id, e.value, depth, state.elements, limits))
              case Err(x) => failed == Some(x)
              case Ok(n) => failed == None && state.elements == n
      decreases |e.value|, 2
    {
      ValidateInside(e.id, e.value, depth, state.elements, limits);
      if !e.id.constructed { return None; }
      if depth == limits.maxDepth { return Some(LimitExceeded(Depth)); }
      var child := new Reader(e.value, depth + 1, limits, state);
      assert child.View().rest == e.value;
      failed := child.SkipRemaining();
    }

    // The loop of validateContents over a child reader.
    method SkipRemaining() returns (failed: Option<Error>)
      requires Valid()
      modifies this`pos, state
      ensures Valid() && state.elements >= old(state.elements)
      ensures match old(ValidateAll(View().rest, depth, state.elements, limits))
              case Err(x) => failed == Some(x)
              case Ok(n) => failed == None && state.elements == n
      decreases |data| - pos, 1
    {
      hide ValidateAll, ValidateContents, SkipSpec;
      ghost var goal := ValidateAll(View().rest, depth, state.elements, limits);
      while !Empty()
        invariant Valid() && pos >= old(pos) && state.elements >= old(state.elements)
        invariant ValidateAll(View().rest, depth, state.elements, limits) == goal
        decreases |data| - pos
      {
        ghost var rest := View().rest;
        ValidateTurn(rest, depth, state.elements, limits);
        var nested := SkipElement();
        if nested.Err? { return Some(nested.error); }
        assert |View().rest| < |rest|;
      }
      assert View().rest == [];
      ValidateNothing(depth, state.elements, limits);
      return None;
    }

    // On an identifier mismatch the reader is put back where it was.
    method Primitive(id: Identifier) returns (r: Result<bytes>)
      requires Valid()
      modifies this`pos, state
      ensures Valid()
      ensures match ReadPrimitive(old(View()), id, limits)
              case Err(e) => r == Err(e) && View() == old(View())
              case Ok((value, next)) => r == Ok(value) && View() == next
    {
      var start, elements := pos, state.elements;
      var e := this.ReadElement();
      if e.Err? { return Err(e.error); }
      if e.value.id != id {
        pos := start;
        state.elements := elements;
        if e.value.id.cls == id.cls && e.value.id.number == id.number && e.value.id.constructed {
          return Err(PrimitiveRequired);
        }
        return Err(UnexpectedIdentifier);
      }
      if e.value.id.constructed {
        pos := start;
        state.elements := elements;
        return Err(PrimitiveRequired);
      }
      return Ok(e.value.value);
    }

    // The parent is already past the child when the child is returned.
    method Constructed(id: Identifier) returns (r: Result<Reader>)
      requires Valid()
      modifies this`pos, state
      ensures Valid()
      ensures match Enter(old(View()), id, limits)
              case Err(e) => r == Err(e) && View() == old(View())
              case Ok((scope, tail)) =>
                && r.Ok? && fresh(r.value) && r.value.Valid() && r.value.View() == scope
                && r.value.state == state && r.value.limits == limits
                && View() == Cursor(tail, depth, scope.elements)
    {
      var start, elements := pos, state.elements;
      ghost var before := View();
      var e := this.ReadElement();
      if e.Err? { return Err(e.error); }
      if e.value.id != id {
        pos := start;
        state.elements := elements;
        if e.value.id.cls == id.cls && e.value.id.number == id.number && !e.value.id.constructed {
          return Err(ConstructedRequired);
        }
        return Err(UnexpectedIdentifier);
      }
      if !e.value.id.constructed {
        pos := start;
        state.elements := elements;
        return Err(ConstructedRequired);
      }
      if depth == limits.maxDepth {
        pos := start;
        state.elements := elements;
        return Err(LimitExceeded(Depth));
      }
      var child := new Reader(e.value.value, depth + 1, limits, state);
      return Ok(child);
    }

    method Integer() returns (r: Result<int>)
      requires Valid()
      modifies this`pos, state
      ensures Valid()
      ensures match ReadInteger(old(View()), INTEGER, limits)
              case Err(e) => r == Err(e) && View() == old(View())
              case Ok((v, next)) => r == Ok(v) && View() == next
    {
      var start, elements := pos, state.elements;
      var value := this.Primitive(INTEGER);
      if value.Err? { return Err(value.error); }
      var v := DecodeInteger(value.value, limits.maxIntegerBytes, INT64);
      if v.Err? {
        pos := start;
        state.elements := elements;
      }
      return v;
    }
  }

  // NewReader: the top-level reader of a bounded frame.
  method NewReader(data: bytes, limits: Limits) returns (r: Result<Reader>)
    requires |data| <= MAX_INT
    ensures r.Ok? <==> limits.Valid() && |data| <= limits.maxFrameBytes
    ensures r.Err? ==> r.error == if limits.Valid() then LimitExceeded(FrameBytes) else BadLimits
    ensures r.Ok? ==> && fresh(r.value) && fresh(r.value.state) && r.value.limits == limits
                      && r.value.Valid() && r.value.View() == Cursor(data, 0, 0)
  {
    if !limits.Valid() { return Err(BadLimits); }
    if |data| > limits.maxFrameBytes { return Err(LimitExceeded(FrameBytes)); }
    var state := new ReaderState();
    var reader := new Reader(data, 0, limits, state);
    return Ok(reader);
  }

  /** Reading one whole value: the verdict, and the node count the budget was
      charged, for every byte string. */
  method SkipWhole(data: bytes, limits: Limits) returns (ok: bool, charged: nat)
    requires |data| <= MAX_INT
    ensures ok <==> Accepts(data, limits)
    ensures ok <==> limits.Valid() && |data| <= limits.maxFrameBytes && exists t :: EncodesTree(data, limits, t)
    ensures ok ==> forall t :: EncodesTree(data, limits, t) ==> charged == Count(t)
  {
    if limits.Valid() && |data| <= limits.maxFrameBytes {
      AcceptsIffEncodesTree(data, limits);
    }
    var reader := NewReader(data, limits);
    if reader.Err? { return false, 0; }
    var r := reader.value;
    var e := r.SkipElement();
    if e.Err? { return false, 0; }
    hide SkipSpec;
    assert r.Empty() <==> r.View().rest == [];
    assert r.View().rest == data[|e.value.raw|..];
    return r.Empty(), r.state.elements;
  }
}
