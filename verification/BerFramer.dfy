/** The incremental framer of ber/framer.go. It collects a header octet by octet
    from a stream and must find the frames that the slice reader finds. */
module BerFramer {
  import opened BerTypes
  import opened BerIdentifier
  import opened BerLength
  import opened BerTree

  // Panics: len(header)+length wraps below zero and the allocation is refused.
  datatype Outcome = Framed(frame: bytes) | Failed(error: Error) | Panics

  // The sizes announced by the header at the front of the stream.
  function HeaderSizes(input: bytes, maxTag: uint32): (r: Result<(nat, nat)>)
    ensures r.Ok? ==> r.value.0 <= |input|
  {
    match ParseIdentifier(input, maxTag)
    case Err(e) => Err(e)
    case Ok((_, idBytes)) =>
      match ParseLength(input[idBytes..])
      case Err(e) => Err(e)
      case Ok((length, lengthBytes)) => Ok((idBytes + lengthBytes, length))
  }

  // The frame that a reader over the whole stream would find at its front.
  function FrontElement(input: bytes, limits: Limits): (r: Option<bytes>)
    ensures r.Some? ==> 2 <= |r.value| <= |input| && |r.value| <= limits.maxFrameBytes
  {
    match ParseElement(input, limits.maxTagNumber)
    case Err(_) => None
    case Ok(e) => if |e.raw| <= limits.maxFrameBytes then Some(e.raw) else None
  }

  lemma FrontIsPrefix(input: bytes, limits: Limits)
    ensures var r := FrontElement(input, limits);
            && (r.Some? ==> r.value == input[..|r.value|])
            && (match HeaderSizes(input, limits.maxTagNumber)
                case Err(_) => r == None
                case Ok((header, length)) =>
                  r == if header + length <= |input| && header + length <= limits.maxFrameBytes
                       then Some(input[..header + length]) else None)
  {
  }

  // ------------------------------------------------------------- header collection

  // An identifier that the framer stops reading after: one octet, or a first
  // septet without the continuation bit after continued ones.
  ghost predicate Collected(h: bytes)
  {
    && h != []
    && if h[0] % 32 != 31 then |h| == 1
       else 2 <= |h| <= 6 && h[|h| - 1] < 128 && forall k :: 1 <= k < |h| - 1 ==> h[k] >= 128
  }

  lemma {:induction false} ContinuedShape(n: nat)
    ensures forall k :: 0 <= k < |ContinuedTag(n)| ==> ContinuedTag(n)[k] >= 128
  {
    if n >= 128 { ContinuedShape(n / 128); }
  }

  lemma {:induction false} ContinuedLength(n: nat, k: nat)
    requires k <= 4 && n < SeptetBound(k)
    ensures |ContinuedTag(n)| <= k
  {
    if n >= 128 { ContinuedLength(n / 128, k - 1); }
  }

  ghost function SeptetBound(k: nat): nat
  {
    if k == 0 then 0 else if k == 1 then 0x80 else if k == 2 then 0x4000 else if k == 3 then 0x20_0000 else 0x1000_0000
  }

  // A printed identifier is one that the framer stops reading after.
  lemma IdentifierCollected(id: Identifier)
    ensures Collected(EncodeIdentifier(id))
  {
    var h := EncodeIdentifier(id);
    assert h[0] % 32 == if id.number < 31 then id.number else 31;
    hide LeadingOctet;
    if id.number >= 128 {
      ContinuedShape(id.number / 128);
      ContinuedLength(id.number / 128, 4);
    }
  }

  // The front of the stream has only one place where the framer can stop.
  lemma CollectedUnique(a: bytes, b: bytes, input: bytes)
    requires Collected(a) && Collected(b) && a <= input && b <= input
    ensures a == b
  {
    var m := if |a| <= |b| then |a| else |b|;
    assert a[m - 1] == input[m - 1] == b[m - 1];
  }

  /** Decoding only the collected octets gives what decoding the stream gives. */
  lemma CollectedDecodes(h: bytes, input: bytes, maxTag: uint32)
    requires Collected(h) && h <= input
    ensures ParseIdentifier(h, maxTag).Ok? <==> ParseIdentifier(input, maxTag).Ok?
    ensures ParseIdentifier(input, maxTag).Ok? ==> ParseIdentifier(input, maxTag).value.1 == |h|
    ensures ParseIdentifier(input, maxTag).Ok? ==> ParseIdentifier(h, maxTag) == ParseIdentifier(input, maxTag)
  {
    IdentifierSound(input, maxTag);
    IdentifierSound(h, maxTag);
    hide EncodeIdentifier, ParseIdentifier;
    if ParseIdentifier(h, maxTag).Ok? {
      var (id, n) := ParseIdentifier(h, maxTag).value;
      var p := EncodeIdentifier(id);
      assert input == p + input[n..];
      IdentifierComplete(id, input[n..], maxTag);
    }
    if ParseIdentifier(input, maxTag).Ok? {
      var (id, n) := ParseIdentifier(input, maxTag).value;
      var p := EncodeIdentifier(id);
      IdentifierCollected(id);
      CollectedUnique(p, h, input);
      assert p + [] == h;
      IdentifierComplete(id, [], maxTag);
    }
  }

  // A stream that starts with an identifier has octets to collect.
  lemma SomethingCollected(input: bytes, maxTag: uint32)
    ensures ParseIdentifier(input, maxTag).Ok? ==> exists h :: h <= input && Collected(h)
  {
    IdentifierSound(input, maxTag);
    if ParseIdentifier(input, maxTag).Ok? {
      var h := EncodeIdentifier(ParseIdentifier(input, maxTag).value.0);
      IdentifierCollected(ParseIdentifier(input, maxTag).value.0);
      assert h <= input && Collected(h);
    }
  }

  // The octets after an unterminated run cannot complete an identifier.
  lemma Unterminated(input: bytes, k: nat)
    requires 1 <= k <= |input| && input[0] % 32 == 31
    requires forall j :: 1 <= j < k ==> input[j] >= 128
    requires k == |input| || k == 6
    ensures forall h :: h <= input ==> !Collected(h)
  {
    forall h | h <= input ensures !Collected(h)
    {
      if h != [] {
        assert h[|h| - 1] == input[|h| - 1] && h[0] == input[0];
      }
    }
  }

  // lengthByteCount
  function Announced(first: byte): nat { if first < 128 then 0 else first - 128 }

  // Only the announced length octets matter to decodeLength.
  lemma LengthLocal(data: bytes, n: nat)
    requires data != [] && n == Announced(data[0])
    ensures 1 + n <= |data| ==> ParseLength(data[..1 + n]) == ParseLength(data)
    ensures 1 + n > |data| ==> ParseLength(data).Err?
  {
    if 1 + n <= |data| {
      assert data[..1 + n][1..n + 1] == data[1..n + 1];
    }
  }

  class Framer {
    // The octets the stream will still deliver, and whether it then ends cleanly.
    var input: bytes
    const clean: bool
    const limits: Limits

    constructor (input: bytes, clean: bool, limits: Limits)
      requires limits.Valid()
      ensures this.input == input && this.clean == clean && this.limits == limits
    {
      this.input := input;
      this.clean := clean;
      this.limits := limits;
    }

    method ReadByte() returns (r: Result<byte>)
      modifies this`input
      ensures old(input) == [] ==> r == Err(if clean then EndOfStream else TransportFailure) && input == []
      ensures old(input) != [] ==> r == Ok(old(input)[0]) && input == old(input)[1..]
    {
      if |input| == 0 { return Err(if clean then EndOfStream else TransportFailure); }
      r := Ok(input[0]);
      input := input[1..];
    }

    // Inside a frame the end of the stream means a truncated value.
    method ReadInside() returns (r: Result<byte>)
      modifies this`input
      ensures old(input) == [] ==> r == Err(if clean then Truncated else TransportFailure) && input == []
      ensures old(input) != [] ==> r == Ok(old(input)[0]) && input == old(input)[1..]
    {
      r := this.ReadByte();
      if r == Err(EndOfStream) { return Err(Truncated); }
    }

    // The identifier octets, without interpreting them.
    method CollectIdentifier() returns (r: Result<bytes>)
      modifies this`input
      ensures r.Ok? ==> Collected(r.value) && old(input) == r.value + input
      ensures r.Err? ==> forall h :: h <= old(input) ==> !Collected(h)
      ensures old(input) == [] ==> r == Err(if clean then EndOfStream else TransportFailure)
      ensures clean && old(input) != [] && r.Err? ==> r.error != EndOfStream
    {
      var first := this.ReadByte();
      if first.Err? { return Err(first.error); }
      var header := [first.value];
      if first.value % 32 == 31 {
        while true
          invariant 1 <= |header| <= 5 && header[0] % 32 == 31
          invariant forall k :: 1 <= k < |header| ==> header[k] >= 128
          invariant old(input) == header + input
          decreases |input|
        {
          ghost var before := header + input;
          var b := this.ReadInside();
          if b.Err? {
            Unterminated(old(input), |header|);
            return Err(b.error);
          }
          assert before == header + [b.value] + input;
          header := header + [b.value];
          if b.value < 128 { break; }
          if |header| == 6 {
            Unterminated(old(input), 6);
            return Err(InvalidIdentifier);
          }
        }
      }
      return Ok(header);
    }

    // The length octets: the first one and as many as it announces.
    method CollectLength() returns (r: Result<bytes>)
      modifies this`input
      ensures r.Ok? ==> old(input) == r.value + input && ParseLength(r.value) == ParseLength(old(input))
      ensures r.Ok? ==> r.value != [] && |r.value| == 1 + Announced(r.value[0])
      ensures r.Err? ==> ParseLength(old(input)).Err? && (clean ==> r.error != EndOfStream)
    {
      var first := this.ReadInside();
      if first.Err? { return Err(first.error); }
      var header := [first.value];
      ghost var n := Announced(first.value);
      LengthLocal(old(input), n);
      if first.value >= 128 {
        if first.value == 128 { return Err(IndefiniteLength); }
        for i := 0 to first.value - 128
          invariant |header| == 1 + i && old(input) == header + input
          invariant header[0] == first.value
        {
          ghost var before := header + input;
          var b := this.ReadInside();
          if b.Err? {
            assert |old(input)| == |header|;
            return Err(b.error);
          }
          assert before == header + [b.value] + input;
          header := header + [b.value];
        }
      }
      assert old(input)[..1 + n] == header;
      return Ok(header);
    }

    // The whole header, checked by the same decoders as the slice reader's.
    method CollectHeader() returns (r: Result<(bytes, nat)>)
      modifies this`input
      ensures r.Ok? ==> old(input) == r.value.0 + input
                        && HeaderSizes(old(input), limits.maxTagNumber) == Ok((|r.value.0|, r.value.1))
      ensures r.Err? ==> HeaderSizes(old(input), limits.maxTagNumber).Err?
      ensures old(input) == [] ==> r == Err(if clean then EndOfStream else TransportFailure)
      ensures clean && old(input) != [] ==> r != Err(EndOfStream)
    {
      hide ParseIdentifier, ParseLength, Collected;
      SomethingCollected(old(input), limits.maxTagNumber);
      var id := this.CollectIdentifier();
      if id.Err? { return Err(id.error); }
      var header := id.value;
      CollectedDecodes(header, old(input), limits.maxTagNumber);
      assert old(input)[|header|..] == input;
      var decoded := DecodeIdentifier(header, limits.maxTagNumber);
      if decoded.Err? {
        DecodeErrors(header, limits.maxTagNumber);
        return Err(decoded.error);
      }
      ghost var rest := input;
      var octets := this.CollectLength();
      if octets.Err? { return Err(octets.error); }
      var length := DecodeLength(octets.value);
      if length.Err? {
        LengthErrors(octets.value);
        return Err(length.error);
      }
      assert octets.value <= rest;
      LengthTaken(octets.value, rest);
      return Ok((header + octets.value, length.value.0));
    }

    /** One frame. It is the element a slice reader finds at the front of the
        stream, and the framer fails or panics exactly when there is none that
        fits; the panic is confined to announced sizes beyond a Go int. */
    method Next() returns (r: Outcome)
      requires limits.maxFrameBytes <= MAX_INT
      modifies this`input
      ensures match FrontElement(old(input), limits)
              case Some(frame) => r == Framed(frame) && input == old(input)[|frame|..]
              case None => !r.Framed?
      ensures r.Panics? <==> var s := HeaderSizes(old(input), limits.maxTagNumber);
                             s.Ok? && s.value.0 + s.value.1 > MAX_INT
      ensures old(input) == [] ==> r == Failed(if clean then EndOfStream else TransportFailure)
      ensures clean && old(input) != [] ==> r != Failed(EndOfStream)
    {
      FrontIsPrefix(old(input), limits);
      hide FrontElement, HeaderSizes;
      var h := this.CollectHeader();
      if h.Err? { return Failed(h.error); }
      var (header, length) := h.value;
      var total := |header| + length;
      if total > MAX_INT { return Panics; }
      if total > limits.maxFrameBytes { return Failed(LimitExceeded(FrameBytes)); }
      if |input| < length {
        return Failed(if clean then Truncated else TransportFailure);
      }
      var frame := header + input[..length];
      assert frame == old(input)[..total];
      input := input[length..];
      assert input == old(input)[total..];
      return Framed(frame);
    }
  }

  lemma DecodeErrors(h: bytes, maxTag: uint32)
    ensures ParseIdentifier(h, maxTag) != Err(EndOfStream)
  {
    if h != [] { TagErrors(h, maxTag, Identifier(h[0] / 64, h[0] / 32 % 2 == 1, h[0] % 32), 1, 0); }
  }

  lemma {:induction false} TagErrors(h: bytes, maxTag: uint32, id: Identifier, i: nat, number: nat)
    requires 1 <= i <= |h|
    ensures ParseTagNumber(h, maxTag, id, i, number) != Err(EndOfStream)
    decreases |h| - i
  {
    if i < |h| && number * 128 + h[i] % 128 <= maxTag { TagErrors(h, maxTag, id, i + 1, number * 128 + h[i] % 128); }
  }

  lemma LengthErrors(s: bytes)
    ensures ParseLength(s) != Err(EndOfStream)
  {
  }

  // A length that decodes uses every octet that was collected for it.
  lemma LengthTaken(s: bytes, rest: bytes)
    requires s != [] && s <= rest && ParseLength(s) == ParseLength(rest)
    requires ParseLength(s).Ok? && |s| == 1 + Announced(s[0])
    ensures ParseLength(rest).value.1 == |s|
  {
  }

  /** The guard compares a wrapped sum: a header announcing more than a Go int
      passes it, so such a stream panics instead of failing. */
  lemma OversizedHeaderPanics(limits: Limits)
    requires limits.Valid()
    ensures var input := [0x30, 0x88, 0x7F, 255, 255, 255, 255, 255, 255, 255];
            var s := HeaderSizes(input, limits.maxTagNumber);
            s == Ok((10, MAX_INT)) && s.value.0 + s.value.1 > MAX_INT
  {
    var input: bytes := [0x30, 0x88, 0x7F, 255, 255, 255, 255, 255, 255, 255];
    var octets: bytes := [0x7F, 255, 255, 255, 255, 255, 255, 255];
    assert input[1..][1..9] == octets;
    assert octets[..7] == [0x7F, 255, 255, 255, 255, 255, 255];
    assert Value([0x7F]) == 0x7F by { assert [0x7F][..0] == []; }
    assert Value([0x7F, 255]) == 0x7FFF by { assert [0x7F, 255][..1] == [0x7F]; }
    assert Value([0x7F, 255, 255]) == 0x7F_FFFF by { assert [0x7F, 255, 255][..2] == [0x7F, 255]; }
    assert Value([0x7F, 255, 255, 255]) == 0x7FFF_FFFF by { assert [0x7F, 255, 255, 255][..3] == [0x7F, 255, 255]; }
    assert Value([0x7F, 255, 255, 255, 255]) == 0x7F_FFFF_FFFF by { assert [0x7F, 255, 255, 255, 255][..4] == [0x7F, 255, 255, 255]; }
    assert Value([0x7F, 255, 255, 255, 255, 255]) == 0x7FFF_FFFF_FFFF by { assert [0x7F, 255, 255, 255, 255, 255][..5] == [0x7F, 255, 255, 255, 255]; }
    assert Value(octets[..7]) == 0x7F_FFFF_FFFF_FFFF by { assert octets[..7][..6] == [0x7F, 255, 255, 255, 255, 255]; }
  }
}
