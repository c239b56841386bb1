/** BER values as trees, their one definite-length encoding, and the theorem that
    the schema-free validation of ber/reader.go accepts exactly the encodings of
    trees inside the configured limits. */
module BerTree {
  import opened BerTypes
  import opened BerIdentifier
  import opened BerLength

  datatype Tree =
    | Primitive(id: Identifier, contents: bytes)
    | Constructed(id: Identifier, children: seq<Tree>)

  // ------------------------------------------------------------------- encoding

  function Header(id: Identifier, length: nat): (r: bytes)
    requires length <= MAX_INT
    ensures |r| >= 2
  {
    EncodeIdentifier(id) + EncodeLength(length)
  }

  // One element: identifier octets, length octets, contents octets.
  function Wrap(id: Identifier, contents: bytes): (r: bytes)
    requires |contents| <= MAX_INT
    ensures |r| >= |contents| + 2
  {
    Header(id, |contents|) + contents
  }

  function LengthSize(n: nat): (r: nat)
    ensures r >= 1
    ensures n <= MAX_INT ==> r == |EncodeLength(n)|
  {
    if n < 128 then 1 else 1 + |Digits(n)|
  }

  // Encoded sizes, computed without encoding anything.
  function Size(t: Tree): (n: nat)
    ensures n >= ContentSize(t) + 2
    decreases t, 2
  {
    |EncodeIdentifier(t.id)| + LengthSize(ContentSize(t)) + ContentSize(t)
  }

  function ContentSize(t: Tree): nat
    decreases t, 1
  {
    match t
    case Primitive(_, contents) => |contents|
    case Constructed(_, children) => SizeAll(children)
  }

  function SizeAll(ts: seq<Tree>): nat
    decreases ts, 0
  {
    if ts == [] then 0 else Size(ts[0]) + SizeAll(ts[1..])
  }

  // Contents short enough for a Go slice, at this level and so at every level.
  predicate Sized(t: Tree) { ContentSize(t) <= MAX_INT }

  predicate SizedAll(ts: seq<Tree>) { SizeAll(ts) <= MAX_INT }

  function Encode(t: Tree): (r: bytes)
    requires Sized(t)
    ensures |r| == Size(t)
    decreases t, 1
  {
    match t
    case Primitive(id, contents) => Wrap(id, contents)
    case Constructed(id, children) => Wrap(id, EncodeAll(children))
  }

  function EncodeAll(ts: seq<Tree>): (r: bytes)
    requires SizedAll(ts)
    ensures |r| == SizeAll(ts)
    decreases ts, 0
  {
    if ts == [] then [] else Encode(ts[0]) + EncodeAll(ts[1..])
  }

  // --------------------------------------------------------------------- limits

  function Count(t: Tree): (n: nat)
    ensures n >= 1
    decreases t, 1
  {
    match t
    case Primitive(_, _) => 1
    case Constructed(_, children) => 1 + CountAll(children)
  }

  function CountAll(ts: seq<Tree>): nat
    decreases ts, 0
  {
    if ts == [] then 0 else Count(ts[0]) + CountAll(ts[1..])
  }

  // Identifiers the reader can return, constructed levels at most depth deep.
  predicate Shaped(t: Tree, maxTag: uint32, depth: nat)
    decreases t, 1
  {
    && TagAllowed(t.id, maxTag)
    && (match t
        case Primitive(id, _) => !id.constructed
        case Constructed(id, children) => id.constructed && depth > 0 && ShapedAll(children, maxTag, depth - 1))
  }

  predicate ShapedAll(ts: seq<Tree>, maxTag: uint32, depth: nat)
    decreases ts, 0
  {
    ts == [] || (Shaped(ts[0], maxTag, depth) && ShapedAll(ts[1..], maxTag, depth))
  }

  predicate Within(t: Tree, limits: Limits, depth: nat)
  {
    Sized(t) && Shaped(t, limits.maxTagNumber, depth)
  }

  predicate WithinAll(ts: seq<Tree>, limits: Limits, depth: nat)
  {
    SizedAll(ts) && ShapedAll(ts, limits.maxTagNumber, depth)
  }

  // ------------------------------------------------------------ reading elements

  // ReadElement on the unread bytes, before the element budget is looked at.
  function ParseElement(rest: bytes, maxTag: uint32): (r: Result<Element>)
    ensures r.Ok? ==> 2 <= |r.value.raw| <= |rest| && |r.value.value| < |r.value.raw|
  {
    match ParseIdentifier(rest, maxTag)
    case Err(e) => Err(e)
    case Ok((id, idBytes)) =>
      match ParseLength(rest[idBytes..])
      case Err(e) => Err(e)
      case Ok((length, lengthBytes)) =>
        var header := idBytes + lengthBytes;
        if length > |rest| - header then Err(Truncated)
        else Ok(Element(id, rest[header..header + length], rest[..header + length]))
  }

  function ReadSpec(rest: bytes, elements: nat, limits: Limits): (r: Result<Element>)
    ensures r.Ok? ==> 2 <= |r.value.raw| <= |rest| && |r.value.value| < |r.value.raw|
  {
    match ParseElement(rest, limits.maxTagNumber)
    case Err(e) => Err(e)
    case Ok(e) => if elements == limits.maxElements then Err(LimitExceeded(Elements)) else Ok(e)
  }

  /** The element at the front of rest is one Wrap, and any Wrap at the front is
      the element found there. */
  lemma {:induction false} ParseElementSound(rest: bytes, maxTag: uint32)
    ensures var r := ParseElement(rest, maxTag);
            r.Ok? ==> var e := r.value;
                      && TagAllowed(e.id, maxTag)
                      && |e.value| <= MAX_INT
                      && e.raw == Wrap(e.id, e.value)
                      && e.raw == rest[..|e.raw|]
  {
    var r := ParseElement(rest, maxTag);
    if r.Ok? {
      IdentifierSound(rest, maxTag);
      var idBytes := ParseIdentifier(rest, maxTag).value.1;
      LengthSound(rest[idBytes..]);
      var (length, lengthBytes) := ParseLength(rest[idBytes..]).value;
      SplitThree(rest, idBytes, lengthBytes, length);
    }
  }

  lemma SplitThree(s: bytes, i: nat, j: nat, k: nat)
    requires i + j + k <= |s|
    ensures s[..i + j + k] == s[..i] + s[i..][..j] + s[i + j..i + j + k]
  {
  }

  lemma {:induction false} ParseElementComplete(id: Identifier, contents: bytes, rest: bytes, maxTag: uint32)
    requires TagAllowed(id, maxTag) && |contents| <= MAX_INT
    ensures ParseElement(Wrap(id, contents) + rest, maxTag) == Ok(Element(id, contents, Wrap(id, contents)))
  {
    var data := Wrap(id, contents) + rest;
    var i, l := EncodeIdentifier(id), EncodeLength(|contents|);
    assert data == i + (l + (contents + rest));
    IdentifierComplete(id, l + (contents + rest), maxTag);
    assert data[|i|..] == l + (contents + rest);
    LengthComplete(|contents|, contents + rest);
  }

  // An element read at the front of more is read the same on its own.
  lemma StandsAlone(rest: bytes, maxTag: uint32)
    requires ParseElement(rest, maxTag).Ok?
    ensures var e := ParseElement(rest, maxTag).value; ParseElement(e.raw, maxTag) == Ok(e) && rest == e.raw + rest[|e.raw|..]
  {
    ParseElementSound(rest, maxTag);
    var e := ParseElement(rest, maxTag).value;
    ParseElementComplete(e.id, e.value, [], maxTag);
    assert Wrap(e.id, e.value) + [] == e.raw;
  }

  // --------------------------------------------------- schema-free deep validation

  // SkipElement: the element and the budget after it.
  function SkipSpec(rest: bytes, depth: nat, elements: nat, limits: Limits): (r: Result<(Element, nat)>)
    ensures r.Ok? ==> 2 <= |r.value.0.raw| <= |rest|
    decreases |rest|, 0
  {
    match ReadSpec(rest, elements, limits)
    case Err(e) => Err(e)
    case Ok(e) =>
      match ValidateContents(e.id, e.value, depth, elements + 1, limits)
      case Err(x) => Err(x)
      case Ok(n) => Ok((e, n))
  }

  // validateContents: depth is that of the reader that read the element.
  function ValidateContents(id: Identifier, value: bytes, depth: nat, elements: nat, limits: Limits): (r: Result<nat>)
    decreases |value|, 2
  {
    if !id.constructed then Ok(elements)
    else if depth == limits.maxDepth then Err(LimitExceeded(Depth))
    else ValidateAll(value, depth + 1, elements, limits)
  }

  function ValidateAll(rest: bytes, depth: nat, elements: nat, limits: Limits): (r: Result<nat>)
    decreases |rest|, 1
  {
    if rest == [] then Ok(elements) else
    match SkipSpec(rest, depth, elements, limits)
    case Err(e) => Err(e)
    case Ok((e, n)) => ValidateAll(rest[|e.raw|..], depth, n, limits)
  }

  /** Validated contents are the encoding of some trees inside the limits, and the
      budget was charged one unit for each node. */
  lemma {:induction false} ValidateAllSound(rest: bytes, depth: nat, elements: nat, limits: Limits) returns (ts: seq<Tree>)
    requires depth <= limits.maxDepth && |rest| <= MAX_INT
    requires elements <= limits.maxElements
    requires ValidateAll(rest, depth, elements, limits).Ok?
    ensures WithinAll(ts, limits, limits.maxDepth - depth)
    ensures EncodeAll(ts) == rest
    ensures ValidateAll(rest, depth, elements, limits).value == elements + CountAll(ts) <= limits.maxElements
    decreases |rest|, 1
  {
    if rest == [] {
      return [];
    }
    var (e, n) := SkipSpec(rest, depth, elements, limits).value;
    var t := ValidateOneSound(rest, depth, elements, limits);
    var tail := ValidateAllSound(rest[|e.raw|..], depth, n, limits);
    ts := [t] + tail;
    assert ts[1..] == tail;
    assert rest == e.raw + rest[|e.raw|..];
  }

  lemma {:induction false} ValidateOneSound(rest: bytes, depth: nat, elements: nat, limits: Limits) returns (t: Tree)
    requires depth <= limits.maxDepth && |rest| <= MAX_INT
    requires elements <= limits.maxElements
    requires SkipSpec(rest, depth, elements, limits).Ok?
    ensures Within(t, limits, limits.maxDepth - depth)
    ensures var (e, n) := SkipSpec(rest, depth, elements, limits).value;
            e.raw == Encode(t) && e.id == t.id && e.raw == rest[..|e.raw|] && n == elements + Count(t) <= limits.maxElements
    decreases |rest|, 0
  {
    ParseElementSound(rest, limits.maxTagNumber);
    var e := ReadSpec(rest, elements, limits).value;
    if e.id.constructed {
      var ts := ValidateAllSound(e.value, depth + 1, elements + 1, limits);
      t := Constructed(e.id, ts);
    } else {
      t := Primitive(e.id, e.value);
    }
  }

  // What skipping an encoded element comes to, once its contents are validated.
  lemma SkipWrapped(id: Identifier, contents: bytes, rest: bytes, depth: nat, elements: nat, limits: Limits, n: nat)
    requires TagAllowed(id, limits.maxTagNumber) && |contents| <= MAX_INT && elements != limits.maxElements
    requires ValidateContents(id, contents, depth, elements + 1, limits) == Ok(n)
    ensures SkipSpec(Wrap(id, contents) + rest, depth, elements, limits) == Ok((Element(id, contents, Wrap(id, contents)), n))
  {
    ParseElementComplete(id, contents, rest, limits.maxTagNumber);
  }

  /** Every tree inside the limits is accepted, whatever follows it. */
  lemma {:induction false} SkipComplete(t: Tree, rest: bytes, depth: nat, elements: nat, limits: Limits)
    requires depth <= limits.maxDepth && Within(t, limits, limits.maxDepth - depth)
    requires elements + Count(t) <= limits.maxElements
    ensures SkipSpec(Encode(t) + rest, depth, elements, limits)
         == Ok((Element(t.id, ContentsOf(t), Encode(t)), elements + Count(t)))
    decreases t, 1
  {
    hide SkipSpec, ValidateAll, Header;
    var contents := ContentsOf(t);
    var n := elements + Count(t);
    assert ValidateContents(t.id, contents, depth, elements + 1, limits) == Ok(n) by {
      if t.Constructed? {
        ValidateAllComplete(t.children, depth + 1, elements + 1, limits);
      }
    }
    SkipWrapped(t.id, contents, rest, depth, elements, limits, n);
  }

  lemma ValidateInside(id: Identifier, value: bytes, depth: nat, elements: nat, limits: Limits)
    ensures ValidateContents(id, value, depth, elements, limits)
         == if !id.constructed then Ok(elements)
            else if depth == limits.maxDepth then Err(LimitExceeded(Depth))
            else ValidateAll(value, depth + 1, elements, limits)
  {
  }

  // One turn of the validation loop.
  lemma ValidateTurn(rest: bytes, depth: nat, elements: nat, limits: Limits)
    requires rest != []
    ensures match SkipSpec(rest, depth, elements, limits)
            case Err(e) => ValidateAll(rest, depth, elements, limits) == Err(e)
            case Ok((e, n)) => ValidateAll(rest, depth, elements, limits) == ValidateAll(rest[|e.raw|..], depth, n, limits)
  {
  }

  lemma ValidateNothing(depth: nat, elements: nat, limits: Limits)
    ensures ValidateAll([], depth, elements, limits) == Ok(elements)
  {
  }

  lemma ValidateStep(first: bytes, rest: bytes, depth: nat, elements: nat, limits: Limits, e: Element, n: nat, m: nat)
    requires first != [] && SkipSpec(first + rest, depth, elements, limits) == Ok((e, n)) && e.raw == first
    requires ValidateAll(rest, depth, n, limits) == Ok(m)
    ensures ValidateAll(first + rest, depth, elements, limits) == Ok(m)
  {
    assert (first + rest)[|first|..] == rest;
  }

  lemma {:induction false} ValidateAllComplete(ts: seq<Tree>, depth: nat, elements: nat, limits: Limits)
    requires depth <= limits.maxDepth && WithinAll(ts, limits, limits.maxDepth - depth)
    requires elements + CountAll(ts) <= limits.maxElements
    ensures ValidateAll(EncodeAll(ts), depth, elements, limits) == Ok(elements + CountAll(ts))
    decreases ts, 0
  {
    hide SkipSpec, ValidateAll, Header;
    if ts == [] {
      ValidateNothing(depth, elements, limits);
    } else {
      var t, tail := ts[0], ts[1..];
      var first, rest := Encode(t), EncodeAll(tail);
      var n := elements + Count(t);
      SkipComplete(t, rest, depth, elements, limits);
      ValidateAllComplete(tail, depth, n, limits);
      ValidateStep(first, rest, depth, elements, limits, Element(t.id, ContentsOf(t), first), n, n + CountAll(tail));
    }
  }

  function ContentsOf(t: Tree): (r: bytes)
    requires Sized(t)
    ensures |r| <= MAX_INT
  {
    match t
    case Primitive(_, contents) => contents
    case Constructed(_, children) => EncodeAll(children)
  }

  // ------------------------------------------------------------------- uniqueness

  // Trees whose form bit matches their shape: the ones a packet can build.
  predicate Formed(t: Tree, maxTag: uint32)
    decreases t, 1
  {
    && TagAllowed(t.id, maxTag)
    && (match t
        case Primitive(id, _) => !id.constructed
        case Constructed(id, children) => id.constructed && FormedAll(children, maxTag))
  }

  predicate FormedAll(ts: seq<Tree>, maxTag: uint32)
    decreases ts, 0
  {
    ts == [] || (Formed(ts[0], maxTag) && FormedAll(ts[1..], maxTag))
  }

  /** No encoding is a proper prefix of another, and equal encodings come from
      equal trees: the tree behind accepted bytes is unique. */
  lemma {:induction false} EncodingUnique(t: Tree, u: Tree, x: bytes, y: bytes, maxTag: uint32)
    requires Sized(t) && Sized(u) && Formed(t, maxTag) && Formed(u, maxTag)
    requires Encode(t) + x == Encode(u) + y
    ensures t == u && x == y
    decreases t, 1
  {
    ParseElementComplete(t.id, ContentsOf(t), x, maxTag);
    ParseElementComplete(u.id, ContentsOf(u), y, maxTag);
    assert Encode(t) == Encode(u) && ContentsOf(t) == ContentsOf(u);
    assert x == (Encode(t) + x)[|Encode(t)|..];
    assert y == (Encode(u) + y)[|Encode(u)|..];
    if t.Constructed? {
      EncodingsUnique(t.children, u.children, maxTag);
    }
  }

  lemma {:induction false} EncodingsUnique(ts: seq<Tree>, us: seq<Tree>, maxTag: uint32)
    requires SizedAll(ts) && SizedAll(us) && FormedAll(ts, maxTag) && FormedAll(us, maxTag)
    requires EncodeAll(ts) == EncodeAll(us)
    ensures ts == us
    decreases ts, 0
  {
    if ts != [] && us != [] {
      EncodingUnique(ts[0], us[0], EncodeAll(ts[1..]), EncodeAll(us[1..]), maxTag);
      EncodingsUnique(ts[1..], us[1..], maxTag);
      assert ts == [ts[0]] + ts[1..] && us == [us[0]] + us[1..];
    }
  }

  lemma {:induction false} ShapedIsFormed(t: Tree, maxTag: uint32, depth: nat)
    requires Shaped(t, maxTag, depth)
    ensures Formed(t, maxTag)
    decreases t, 1
  {
    if t.Constructed? { ShapedAllIsFormed(t.children, maxTag, depth - 1); }
  }

  lemma {:induction false} ShapedAllIsFormed(ts: seq<Tree>, maxTag: uint32, depth: nat)
    requires ShapedAll(ts, maxTag, depth)
    ensures FormedAll(ts, maxTag)
    decreases ts, 0
  {
    if ts != [] {
      ShapedIsFormed(ts[0], maxTag, depth);
      ShapedAllIsFormed(ts[1..], maxTag, depth);
    }
  }

  // ------------------------------------------------------------------ main theorem

  // A complete byte string: NewReader, SkipElement, RequireEmpty all succeed.
  predicate Accepts(data: bytes, limits: Limits)
  {
    && limits.Valid()
    && |data| <= limits.maxFrameBytes
    && var r := SkipSpec(data, 0, 0, limits);
       r.Ok? && |r.value.0.raw| == |data|
  }

  ghost predicate EncodesTree(data: bytes, limits: Limits, t: Tree)
  {
    limits.Valid() && Within(t, limits, limits.maxDepth) && Count(t) <= limits.maxElements && Encode(t) == data
  }

  /** A byte string is accepted exactly when it is the encoding of a tree inside
      the depth, element and tag limits; the tree is unique and the budget charged
      is its node count. */
  lemma {:induction false} AcceptsIffEncodesTree(data: bytes, limits: Limits)
    requires limits.Valid() && |data| <= limits.maxFrameBytes && |data| <= MAX_INT
    ensures Accepts(data, limits) <==> exists t :: EncodesTree(data, limits, t)
    ensures forall t :: EncodesTree(data, limits, t) ==> SkipSpec(data, 0, 0, limits).Ok? && SkipSpec(data, 0, 0, limits).value.1 == Count(t)
    ensures forall t, u :: EncodesTree(data, limits, t) && EncodesTree(data, limits, u) ==> t == u
  {
    hide SkipSpec, Encode, Shaped, Formed, Count;
    if Accepts(data, limits) {
      var t := ValidateOneSound(data, 0, 0, limits);
      assert data[..|data|] == data;
      assert EncodesTree(data, limits, t);
    }
    forall t | EncodesTree(data, limits, t)
      ensures Accepts(data, limits) && SkipSpec(data, 0, 0, limits).value.1 == Count(t)
    {
      SkipComplete(t, [], 0, 0, limits);
      assert Encode(t) + [] == data;
    }
    forall t, u | EncodesTree(data, limits, t) && EncodesTree(data, limits, u)
      ensures t == u
    {
      ShapedIsFormed(t, limits.maxTagNumber, limits.maxDepth);
      ShapedIsFormed(u, limits.maxTagNumber, limits.maxDepth);
      EncodingUnique(t, u, [], [], limits.maxTagNumber);
    }
  }
}
