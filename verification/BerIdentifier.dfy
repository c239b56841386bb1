/** Identifier octets: the printer of ber/identifier.go, the parser of
    ber/reader.go, and the proof that the parser accepts exactly what the printer
    can produce (section 8.1.2 of X.690, in the minimal form). */
module BerIdentifier {
  import opened BerTypes

  // The septets of n, most significant first, all marked as continued.
  function ContinuedTag(n: nat): (r: bytes)
    ensures r != []
  {
    if n < 128 then [n + 128] else ContinuedTag(n / 128) + [n % 128 + 128]
  }

  function HighTag(n: nat): bytes
  {
    if n < 128 then [n] else ContinuedTag(n / 128) + [n % 128]
  }

  function LeadingOctet(id: Identifier): (b: byte)
    ensures id.Valid() ==> b / 64 == id.cls && (b / 32 % 2 == 1 <==> id.constructed)
    ensures b % 32 == if id.number < 31 then id.number else 31
  {
    id.cls % 4 * 64 + (if id.constructed then 32 else 0) + (if id.number < 31 then id.number else 31)
  }

  function EncodeIdentifier(id: Identifier): (r: bytes)
    ensures r != []
  {
    if id.number < 31 then [LeadingOctet(id)] else [LeadingOctet(id)] + HighTag(id.number)
  }

  // What decodeIdentifier can return: the limit is tested in high-tag form only.
  predicate TagAllowed(id: Identifier, maxTag: uint32)
  {
    id.Valid() && (id.number >= 31 ==> id.number <= maxTag)
  }

  function ParseIdentifier(data: bytes, maxTag: uint32): (r: Result<(Identifier, nat)>)
    ensures r.Ok? ==> 0 < r.value.1 <= |data|
  {
    if data == [] then Err(Truncated) else
    var id := Identifier(data[0] / 64, data[0] / 32 % 2 == 1, data[0] % 32);
    if id.number != 31 then Ok((id, 1)) else ParseTagNumber(data, maxTag, id, 1, 0)
  }

  // The leading octet is recovered from the fields read out of it.
  lemma LeadingOctetOf(b: byte, number: uint32)
    requires b % 32 == if number < 31 then number else 31
    ensures LeadingOctet(Identifier(b / 64, b / 32 % 2 == 1, number)) == b
  {
    assert b / 64 <= 3;
    assert b == b / 64 * 64 + b / 32 % 2 * 32 + b % 32;
  }

  // The septets from data[i] on, with number accumulated so far.
  function ParseTagNumber(data: bytes, maxTag: uint32, id: Identifier, i: nat, number: nat): (r: Result<(Identifier, nat)>)
    requires 1 <= i <= |data|
    ensures r.Ok? ==> i < r.value.1 <= |data|
    decreases |data| - i
  {
    if i == |data| then Err(Truncated) else
    var b := data[i];
    if i == 1 && b % 128 == 0 then Err(InvalidIdentifier) else
    if number > MAX_UINT32 / 128 then Err(InvalidIdentifier) else
    var next := number * 128 + b % 128;
    if next > maxTag then Err(LimitExceeded(TagNumber)) else
    if b >= 128 then ParseTagNumber(data, maxTag, id, i + 1, next) else
    if next < 31 then Err(InvalidIdentifier) else Ok((id.(number := next), i + 1))
  }

  // One continued septet d.
  lemma ParseSeptet(data: bytes, maxTag: uint32, id: Identifier, i: nat, number: nat, d: nat)
    requires 1 <= i < |data| && d < 128 && data[i] == d + 128
    requires i == 1 ==> d != 0
    requires number <= MAX_UINT32 / 128 && number * 128 + d <= maxTag
    ensures ParseTagNumber(data, maxTag, id, i, number) == ParseTagNumber(data, maxTag, id, i + 1, number * 128 + d)
  {
  }

  // The septet d that ends the number.
  lemma ParseLastSeptet(data: bytes, maxTag: uint32, id: Identifier, i: nat, number: nat, d: nat)
    requires 1 <= i < |data| && d < 128 && data[i] == d
    requires i == 1 ==> d != 0
    requires number <= MAX_UINT32 / 128 && 31 <= number * 128 + d <= maxTag
    ensures ParseTagNumber(data, maxTag, id, i, number) == Ok((id.(number := number * 128 + d), i + 1))
  {
  }

  lemma {:induction false} ParseContinued(data: bytes, maxTag: uint32, id: Identifier, m: nat)
    requires 1 <= m <= MAX_UINT32 / 128 && m <= maxTag
    requires 1 + |ContinuedTag(m)| <= |data|
    requires data[1..1 + |ContinuedTag(m)|] == ContinuedTag(m)
    ensures ParseTagNumber(data, maxTag, id, 1, 0)
         == ParseTagNumber(data, maxTag, id, 1 + |ContinuedTag(m)|, m)
  {
    var c := ContinuedTag(m);
    hide ParseTagNumber;
    if m < 128 {
      assert data[1] == data[1..1 + |c|][0] == m + 128;
      ParseSeptet(data, maxTag, id, 1, 0, m);
    } else {
      var h := ContinuedTag(m / 128);
      assert c == h + [m % 128 + 128];
      assert data[1..1 + |h|] == data[1..1 + |c|][..|h|];
      ParseContinued(data, maxTag, id, m / 128);
      assert data[1 + |h|] == data[1..1 + |c|][|h|] == m % 128 + 128;
      ParseSeptet(data, maxTag, id, 1 + |h|, m / 128, m % 128);
    }
  }

  lemma TagNumberComplete(data: bytes, maxTag: uint32, id: Identifier, n: nat)
    requires 31 <= n <= maxTag
    requires 1 + |HighTag(n)| <= |data| && data[1..1 + |HighTag(n)|] == HighTag(n)
    ensures ParseTagNumber(data, maxTag, id, 1, 0) == Ok((id.(number := n), 1 + |HighTag(n)|))
  {
    hide ParseTagNumber, ContinuedTag;
    var t := data[1..1 + |HighTag(n)|];
    if n < 128 {
      assert data[1] == t[0] == n;
      ParseLastSeptet(data, maxTag, id, 1, 0, n);
    } else {
      var h := ContinuedTag(n / 128);
      assert data[1..1 + |h|] == t[..|h|] == h;
      ParseContinued(data, maxTag, id, n / 128);
      assert data[1 + |h|] == t[|h|] == n % 128;
      ParseLastSeptet(data, maxTag, id, 1 + |h|, n / 128, n % 128);
    }
  }

  /** Every printed identifier is read back whole, whatever follows it. */
  lemma {:induction false} IdentifierComplete(id: Identifier, rest: bytes, maxTag: uint32)
    requires TagAllowed(id, maxTag)
    ensures ParseIdentifier(EncodeIdentifier(id) + rest, maxTag) == Ok((id, |EncodeIdentifier(id)|))
  {
    hide LeadingOctet, HighTag, ParseTagNumber;
    var data := EncodeIdentifier(id) + rest;
    assert data[0] == LeadingOctet(id);
    if id.number >= 31 {
      var base := Identifier(data[0] / 64, data[0] / 32 % 2 == 1, data[0] % 32);
      assert data[1..1 + |HighTag(id.number)|] == HighTag(id.number);
      TagNumberComplete(data, maxTag, base, id.number);
    }
  }

  // A septet d after the septets of n, continued and last.
  lemma NextSeptet(n: nat, d: nat)
    requires d < 128 && (n > 0 || d > 0)
    ensures ContinuedTag(n * 128 + d) == (if n == 0 then [] else ContinuedTag(n)) + [d + 128]
    ensures HighTag(n * 128 + d) == (if n == 0 then [] else ContinuedTag(n)) + [d]
  {
    assert (n * 128 + d) / 128 == n && (n * 128 + d) % 128 == d;
  }

  // One turn of the septet loop, when it ends well.
  lemma TagTurn(data: bytes, maxTag: uint32, id: Identifier, i: nat, number: nat)
    requires 1 <= i <= |data|
    ensures var r := ParseTagNumber(data, maxTag, id, i, number);
            r.Ok? ==>
              && i < |data|
              && (i == 1 ==> data[i] % 128 != 0)
              && var next := number * 128 + data[i] % 128;
              && next <= maxTag
              && if data[i] >= 128 then r == ParseTagNumber(data, maxTag, id, i + 1, next)
                 else 31 <= next && r == Ok((id.(number := next), i + 1))
  {
  }

  lemma {:induction false} TagNumberSound(data: bytes, maxTag: uint32, id: Identifier, i: nat, number: nat)
    requires 1 <= i <= |data|
    requires (i == 1 && number == 0) || (i > 1 && number >= 1 && data[1..i] == ContinuedTag(number))
    ensures var r := ParseTagNumber(data, maxTag, id, i, number);
            r.Ok? ==> var n := r.value.0.number;
                      && r.value.0 == id.(number := n)
                      && 31 <= n <= maxTag
                      && data[1..r.value.1] == HighTag(n)
    decreases |data| - i
  {
    hide *;
    TagTurn(data, maxTag, id, i, number);
    if ParseTagNumber(data, maxTag, id, i, number).Ok? {
      NextSeptet(number, data[i] % 128);
      assert data[1..i + 1] == data[1..i] + [data[i]];
      if data[i] >= 128 { TagNumberSound(data, maxTag, id, i + 1, number * 128 + data[i] % 128); }
    }
  }

  /** Whatever decodeIdentifier accepts is the printed form of what it returns. */
  lemma {:induction false} IdentifierSound(data: bytes, maxTag: uint32)
    ensures var r := ParseIdentifier(data, maxTag);
            r.Ok? ==> TagAllowed(r.value.0, maxTag) && data[..r.value.1] == EncodeIdentifier(r.value.0)
  {
    var r := ParseIdentifier(data, maxTag);
    if r.Ok? {
      hide LeadingOctet;
      var base := Identifier(data[0] / 64, data[0] / 32 % 2 == 1, data[0] % 32);
      LeadingOctetOf(data[0], r.value.0.number) by {
        if base.number == 31 { TagNumberSound(data, maxTag, base, 1, 0); }
      }
      if base.number == 31 {
        TagNumberSound(data, maxTag, base, 1, 0);
        assert data[..r.value.1] == [data[0]] + data[1..r.value.1];
      }
    }
  }

  method AppendIdentifier(dst: bytes, id: Identifier) returns (r: bytes)
    ensures r == dst + EncodeIdentifier(id)
  {
    var first := id.cls % 4 * 64;
    if id.constructed { first := first + 32; }
    if id.number < 31 {
      return dst + [first + id.number];
    }
    first := first + 31;
    var encoded := new byte[5](_ => 0);
    var n := FillSeptets(encoded, id.number);
    MarkContinued(encoded, n);
    r := dst + [first] + encoded[n..];
    assert r == dst + ([first] + encoded[n..]);
  }

  // The low septets of number, right-aligned in the fixed array.
  method FillSeptets(encoded: array<byte>, number: uint32) returns (n: nat)
    requires encoded.Length == 5
    modifies encoded
    ensures n < 5 && Septets(encoded[n..]) && Marked(encoded[n..]) == HighTag(number)
  {
    n := encoded.Length;
    var value := number;
    // value still has to be printed in front of encoded[n..].
    while true
      invariant 0 < n <= 5
      invariant 0 <= value < SeptetCapacity(n)
      invariant n == 5 ==> value == number
      invariant n < 5 ==> value > 0
      invariant Septets(encoded[n..])
      invariant n < 5 ==> HighTag(number) == ContinuedTag(value) + Marked(encoded[n..])
      decreases n
    {
      ghost var tail := encoded[n..];
      MarkedStep(number, value, tail);
      n := n - 1;
      encoded[n] := value % 128;
      assert encoded[n..] == [value % 128] + tail;
      value := value / 128;
      if value == 0 { break; }
    }
  }

  method MarkContinued(encoded: array<byte>, n: nat)
    requires encoded.Length == 5 && n < 5 && Septets(encoded[n..])
    modifies encoded
    ensures encoded[n..] == Marked(old(encoded[n..]))
  {
    var i := n;
    while i < encoded.Length - 1
      invariant n <= i <= 4
      invariant forall k :: i <= k < 5 ==> encoded[k] == old(encoded[k])
      invariant forall k :: n <= k < i ==> encoded[k] == old(encoded[k]) + 128
    {
      assert old(encoded[i]) == old(encoded[n..])[i - n];
      encoded[i] := encoded[i] + 128;
      i := i + 1;
    }
    MarkedAt(old(encoded[n..]));
  }

  ghost predicate Septets(s: bytes)
  {
    forall k :: 0 <= k < |s| ==> s[k] < 128
  }

  // What n septets can hold, capped at the range of a uint32.
  ghost function SeptetCapacity(n: nat): int
  {
    if n == 0 then 1 else if n == 1 then 16 else if n == 2 then 0x800 else
    if n == 3 then 0x4_0000 else if n == 4 then 0x200_0000 else 0x1_0000_0000
  }

  // Every septet but the last carries the continuation bit.
  ghost function Marked(s: bytes): bytes
    requires Septets(s)
  {
    if |s| <= 1 then s else [s[0] + 128] + Marked(s[1..])
  }

  lemma {:induction false} MarkedAt(s: bytes)
    requires Septets(s)
    ensures |Marked(s)| == |s|
    ensures forall k :: 0 <= k < |s| ==> Marked(s)[k] == if k < |s| - 1 then s[k] + 128 else s[k]
  {
    if |s| > 1 { MarkedAt(s[1..]); }
  }

  lemma MarkedCons(d: byte, tail: bytes)
    requires d < 128 && Septets(tail) && tail != []
    ensures Marked([d] + tail) == [d + 128] + Marked(tail)
  {
    assert ([d] + tail)[1..] == tail;
  }

  // Moving the low septet of value into the printed tail.
  lemma MarkedStep(number: nat, value: nat, tail: bytes)
    requires Septets(tail)
    requires if tail == [] then value == number else value > 0 && HighTag(number) == ContinuedTag(value) + Marked(tail)
    ensures value < 128 ==> HighTag(number) == Marked([value % 128] + tail)
    ensures value >= 128 ==> HighTag(number) == ContinuedTag(value / 128) + Marked([value % 128] + tail)
  {
    var d := value % 128;
    if tail == [] {
      assert [d] + tail == [d];
    } else {
      MarkedCons(d, tail);
      hide Marked;
      if value >= 128 {
        Reassociate(ContinuedTag(value / 128), [d + 128], Marked(tail));
      }
    }
  }

  method DecodeIdentifier(data: bytes, maxTag: uint32) returns (r: Result<(Identifier, nat)>)
    ensures r == ParseIdentifier(data, maxTag)
  {
    if |data| == 0 { return Err(Truncated); }
    var first := data[0];
    var id := Identifier(first / 64, first / 32 % 2 == 1, first % 32);
    if id.number != 31 { return Ok((id, 1)); }
    if |data| == 1 { return Err(Truncated); }
    var number := 0;
    var i := 1;
    while true
      invariant 1 <= i <= |data| && number >= 0
      invariant ParseIdentifier(data, maxTag) == ParseTagNumber(data, maxTag, id, i, number)
      decreases |data| - i
    {
      if i == |data| { return Err(Truncated); }
      var b := data[i];
      if i == 1 && b % 128 == 0 { return Err(InvalidIdentifier); }
      if number > MAX_UINT32 / 128 { return Err(InvalidIdentifier); }
      number := number * 128 + b % 128;
      if number > maxTag { return Err(LimitExceeded(TagNumber)); }
      if b < 128 {
        if number < 31 { return Err(InvalidIdentifier); }
        return Ok((id.(number := number), i + 1));
      }
      i := i + 1;
    }
  }
}
