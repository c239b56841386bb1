/** INTEGER contents: the printer of ber/packet.go emits the shortest two's
    complement form, the parser of ber/reader.go reads every form of at most eight
    octets (or nine with a leading zero) and checks the destination's range. */
module BerInteger {
  import opened BerTypes
  import opened BerLength

  function Signed(b: byte): int { if b >= 128 then b - 256 else b }

  // The number a nonempty contents string denotes (section 8.3 of X.690).
  function TwosComplement(s: bytes): int
    requires s != []
  {
    if |s| == 1 then Signed(s[0]) else TwosComplement(s[..|s| - 1]) * 256 + s[|s| - 1]
  }

  function IntegerContents(v: int): (s: bytes)
    ensures s != []
    decreases if v < 0 then -v else v
  {
    if -128 <= v < 128 then [v % 256] else IntegerContents(v / 256) + [v % 256]
  }

  // The first nine bits are not all equal.
  predicate Minimal(s: bytes)
  {
    s != [] && (|s| > 1 ==> !(s[0] == 0 && s[1] < 128) && !(s[0] == 255 && s[1] >= 128))
  }

  lemma {:induction false} ContentsDenote(v: int)
    ensures TwosComplement(IntegerContents(v)) == v
    ensures Minimal(IntegerContents(v))
    decreases if v < 0 then -v else v
  {
    if !(-128 <= v < 128) {
      var h := IntegerContents(v / 256);
      ContentsDenote(v / 256);
      assert IntegerContents(v)[..|h|] == h;
      if |h| == 1 {
        assert TwosComplement(h) == Signed(h[0]) == v / 256;
      }
    }
  }

  /** Any string denoting the same number is at least as long. */
  lemma {:induction false} ContentsShortest(v: int, s: bytes)
    requires s != [] && TwosComplement(s) == v
    ensures |IntegerContents(v)| <= |s|
    decreases |s|
  {
    if |s| > 1 && !(-128 <= v < 128) {
      ContentsShortest(v / 256, s[..|s| - 1]);
    }
  }

  /** A minimal string is the contents printed for the number it denotes. */
  lemma {:induction false} MinimalUnique(s: bytes)
    requires Minimal(s)
    ensures IntegerContents(TwosComplement(s)) == s
    decreases |s|
  {
    if |s| > 1 {
      var p := s[..|s| - 1];
      MinimalUnique(p);
      assert s == p + [s[|s| - 1]];
      var v := TwosComplement(s);
      assert v / 256 == TwosComplement(p) && v % 256 == s[|s| - 1];
      if -128 <= v < 128 {
        ShortPrefix(s);
      }
    }
  }

  // A value of one octet written in two or more starts with nine equal bits.
  lemma {:induction false} ShortPrefix(s: bytes)
    requires |s| > 1 && -128 <= TwosComplement(s) < 128
    ensures !Minimal(s)
    decreases |s|
  {
    var p := s[..|s| - 1];
    assert TwosComplement(p) == 0 || TwosComplement(p) == -1;
    if |p| > 1 {
      ShortPrefix(p);
    } else {
      assert p[0] == s[0];
    }
  }

  // The relation to the unsigned big-endian value of the octets.
  lemma {:induction false} DenotesValue(s: bytes)
    requires s != []
    ensures TwosComplement(s) == Value(s) - (if s[0] >= 128 then Pow256(|s|) else 0)
    decreases |s|
  {
    if |s| == 1 {
      assert s[..0] == [];
      assert Pow256(1) == 256 by { Pow256Eight(); }
    } else {
      DenotesValue(s[..|s| - 1]);
    }
  }

  lemma {:induction false} ValueCons(b: byte, s: bytes)
    ensures Value([b] + s) == b * Pow256(|s|) + Value(s)
    decreases |s|
  {
    if s == [] {
      assert ([b] + s)[..0] == [];
    } else {
      var p := s[..|s| - 1];
      ValueCons(b, p);
      assert ([b] + s)[..|s|] == [b] + p;
      var q := Pow256(|p|);
      assert (b * q + Value(p)) * 256 == b * (256 * q) + Value(p) * 256;
    }
  }

  // Dropping a leading octet of sign bits does not change the number.
  lemma DropSign(s: bytes)
    requires |s| > 1
    requires (s[0] == 255 && s[1] >= 128) || (s[0] == 0 && s[1] < 128)
    ensures TwosComplement(s[1..]) == TwosComplement(s)
  {
    var tail := s[1..];
    assert s == [s[0]] + tail && tail[0] == s[1];
    ValueCons(s[0], tail);
    DenotesValue(s);
    DenotesValue(tail);
    assert Pow256(|s|) == 256 * Pow256(|tail|);
    hide Value, TwosComplement, Pow256;
    var p := Pow256(|tail|);
    assert Value(s) == s[0] * p + Value(tail);
  }

  // ------------------------------------------------------------------- printing

  method IntegerBytes(value: int) returns (r: bytes)
    requires -0x8000_0000_0000_0000 <= value <= MAX_UINT64
    ensures r == IntegerContents(value)
  {
    if value < 0 {
      r := NegativeBytes(value);
    } else {
      r := NonnegativeBytes(value);
    }
    MinimalUnique(r);
  }

  method NegativeBytes(value: int) returns (r: bytes)
    requires -0x8000_0000_0000_0000 <= value < 0
    ensures Minimal(r) && TwosComplement(r) == value
  {
    var raw := new byte[8](_ => 0);
    FillOctets(raw, value);
    Pow256Eight();
    DenotesValue(raw[..]);
    FirstOctet(raw[..]);
    var start := 0;
    assert raw[0..] == raw[..];
    while start < raw.Length - 1 && raw[start] == 255 && raw[start + 1] >= 128
      invariant 0 <= start <= 7
      invariant TwosComplement(raw[start..]) == value
      invariant raw[start] >= 128
    {
      DropSign(raw[start..]);
      assert raw[start..][1..] == raw[start + 1..];
      start := start + 1;
    }
    r := raw[start..];
  }

  // The high bit says in which half of the range the value lies.
  lemma FirstOctet(s: bytes)
    requires |s| == 8
    ensures s[0] >= 128 <==> Value(s) >= 0x8000_0000_0000_0000
  {
    Pow256Eight();
    assert s == [s[0]] + s[1..];
    ValueCons(s[0], s[1..]);
    ValueBound(s[1..]);
  }

  // The low eight octets of n, shifted out arithmetically.
  method FillOctets(raw: array<byte>, value: int)
    requires raw.Length == 8 && -0x8000_0000_0000_0000 <= value < 0
    modifies raw
    ensures Value(raw[..]) == value + MAX_UINT64 + 1
  {
    Pow256Eight();
    var n := value;
    var i := raw.Length - 1;
    while i >= 0
      invariant -1 <= i <= 7
      invariant value == n * Pow256(7 - i) + Value(raw[i + 1..])
    {
      ghost var tail := raw[i + 1..];
      raw[i] := n % 256;
      assert raw[i..] == [n % 256] + tail;
      ValueCons(n % 256, tail);
      ShiftOut(n, Pow256(7 - i));
      n := n / 256;
      i := i - 1;
    }
    assert raw[0..] == raw[..];
    ValueBound(raw[..]);
  }

  lemma ShiftOut(n: int, p: nat)
    ensures n * p == n / 256 * (256 * p) + n % 256 * p
  {
    assert n == n / 256 * 256 + n % 256;
  }

  method NonnegativeBytes(value: int) returns (r: bytes)
    requires 0 <= value <= MAX_UINT64
    ensures Minimal(r) && TwosComplement(r) == value
  {
    var raw := new byte[9](_ => 0);
    var start := FillDigits(raw, value);
    DenotesValue(raw[start..]);
    if raw[start] >= 128 {
      ghost var s := raw[start..];
      start := start - 1;
      raw[start] := 0;
      assert raw[start..] == [0] + s;
      ValueCons(0, s);
      DenotesValue(raw[start..]);
    }
    r := raw[start..];
  }

  // The digits of value, right-aligned, one octet always left in front.
  method FillDigits(raw: array<byte>, value: int) returns (start: nat)
    requires raw.Length == 9 && 0 <= value <= MAX_UINT64
    modifies raw
    ensures 1 <= start < 9 && Value(raw[start..]) == value
    ensures raw[start] == 0 ==> start == 8
  {
    start := raw.Length;
    var n := value;
    Pow256Eight();
    while true
      invariant 1 <= start <= 9
      invariant 0 <= n < Pow256(start - 1)
      invariant start < 9 ==> n > 0
      invariant value == n * Pow256(9 - start) + Value(raw[start..])
      decreases start
    {
      ghost var tail := raw[start..];
      start := start - 1;
      raw[start] := n % 256;
      assert raw[start..] == [n % 256] + tail;
      ValueCons(n % 256, tail);
      ShiftOut(n, Pow256(8 - start));
      if n / 256 == 0 { break; }
      n := n / 256;
    }
  }

  // -------------------------------------------------------------------- parsing

  // A Go integer type: its signedness and width.
  datatype IntType = IntType(signed: bool, bits: nat) {
    predicate Valid() { bits == 8 || bits == 16 || bits == 32 || bits == 64 }
    function Span(): (m: nat)
      ensures m > 0 && m % 2 == 0
    {
      if bits == 8 then 0x100 else if bits == 16 then 0x1_0000 else
      if bits == 32 then 0x1_0000_0000 else MAX_UINT64 + 1
    }
    predicate Holds(v: int) {
      if signed then -(Span() / 2) <= v < Span() / 2 else 0 <= v < Span()
    }
    // Conversion of an integer to this type keeps the low bits.
    function Convert(v: int): int {
      if signed then (v + Span() / 2) % Span() - Span() / 2 else v % Span()
    }
  }

  function ParseInteger(value: bytes, maxBytes: int, t: IntType): Result<int>
  {
    if value == [] then Err(InvalidInteger) else
    if |value| > maxBytes then Err(LimitExceeded(IntegerOctets)) else
    if |value| > 9 || (|value| == 9 && value[0] != 0) then Err(InvalidInteger) else
    if t.Holds(TwosComplement(value)) then Ok(TwosComplement(value)) else Err(InvalidInteger)
  }

  method DecodeInteger(value: bytes, maxBytes: int, t: IntType) returns (r: Result<int>)
    requires t.Valid()
    ensures r == ParseInteger(value, maxBytes, t)
  {
    if |value| == 0 { return Err(InvalidInteger); }
    if |value| > maxBytes { return Err(LimitExceeded(IntegerOctets)); }
    var negative := value[0] >= 128;
    if |value| > 9 || (|value| == 9 && (negative || value[0] != 0)) { return Err(InvalidInteger); }
    Pow256Eight();
    DenotesValue(value);
    var bits := 0;
    for i := 0 to |value|
      invariant bits == Value(value[..i])
    {
      PrefixSmall(value, i);
      if bits > MAX_UINT64 / 256 { return Err(InvalidInteger); }
      assert value[..i + 1][..i] == value[..i];
      bits := bits * 256 + value[i];
    }
    assert value[..|value|] == value;
    if negative {
      if |value| < 8 {
        bits := bits + (MAX_UINT64 + 1 - Pow256(|value|));
        SmallPower(value);
      } else {
        FirstOctet(value);
      }
      assert bits - (MAX_UINT64 + 1) == TwosComplement(value);
      var n := bits - (MAX_UINT64 + 1);
      ValueBound(value);
      var converted := t.Convert(n);
      if converted >= 0 || converted != n {
        ConvertExact(t, n);
        return Err(InvalidInteger);
      }
      ConvertExact(t, n);
      return Ok(converted);
    }
    var converted := t.Convert(bits);
    ConvertExact(t, bits);
    if converted < 0 || converted != bits { return Err(InvalidInteger); }
    return Ok(converted);
  }

  // Sign extension by or-ing ones is addition because the high octets are zero.
  lemma SmallPower(value: bytes)
    requires 0 < |value| < 8
    ensures Value(value) < Pow256(|value|) <= MAX_UINT64
  {
    ValueBound(value);
    Pow256Eight();
    PowMonotone(|value|, 7);
  }

  lemma {:induction false} PowMonotone(a: nat, b: nat)
    requires a <= b
    ensures Pow256(a) <= Pow256(b)
    decreases b
  {
    if a < b { PowMonotone(a, b - 1); }
  }

  // A prefix that still has an octet to come cannot overflow the accumulator.
  lemma PrefixSmall(value: bytes, i: nat)
    requires i < |value| <= 9 && (|value| == 9 ==> value[0] == 0)
    ensures Value(value[..i]) <= MAX_UINT64 / 256
  {
    Pow256Eight();
    var p := value[..i];
    ValueBound(p);
    if i <= 7 {
      PowMonotone(i, 7);
    } else {
      assert p == [p[0]] + p[1..];
      ValueCons(p[0], p[1..]);
      ValueBound(p[1..]);
    }
  }

  /** A conversion gives the number back exactly when the type holds it. */
  lemma ConvertExact(t: IntType, v: int)
    requires t.Valid()
    ensures t.Convert(v) == v <==> t.Holds(v)
  {
    var m := t.Span();
    assert t.signed ==> 0 <= (v + m / 2) % m < m;
    if t.Holds(v) {
      if t.signed { SmallModulus(v + m / 2, m); } else { SmallModulus(v, m); }
    }
  }

  lemma SmallModulus(x: int, m: nat)
    requires 0 <= x < m
    ensures x % m == x
  {
  }

  /** Reading back what was printed, for every value its type holds. */
  lemma IntegerRoundTrip(v: int, maxBytes: int, t: IntType)
    requires t.Valid() && t.Holds(v)
    ensures |IntegerContents(v)| <= 9
    ensures |IntegerContents(v)| <= maxBytes ==> ParseInteger(IntegerContents(v), maxBytes, t) == Ok(v)
    ensures |IntegerContents(v)| > maxBytes ==> ParseInteger(IntegerContents(v), maxBytes, t) == Err(LimitExceeded(IntegerOctets))
  {
    ContentsDenote(v);
    NineOctets(v);
  }

  // Sixty-four bit values need at most nine octets, and then the first is zero.
  lemma NineOctets(v: int)
    requires -0x8000_0000_0000_0000 <= v <= MAX_UINT64
    ensures |IntegerContents(v)| <= 9
    ensures |IntegerContents(v)| == 9 ==> IntegerContents(v)[0] == 0
  {
    var s := IntegerContents(v);
    ContentsDenote(v);
    DenotesValue(s);
    ValueBound(s);
    Pow256Eight();
    assert Pow256(9) == 256 * Pow256(8);
    OctetCount(v, 9);
    if |s| == 9 {
      if s[0] >= 128 {
        assert s == [s[0]] + s[1..];
        ValueCons(s[0], s[1..]);
        ValueBound(s[1..]);
        assert s[0] == 255;
        FirstOctet(s[1..]);
      } else {
        assert s[0] == 0;
      }
    }
  }

  lemma {:induction false} OctetCount(v: int, k: nat)
    requires k >= 1 && -(Pow256(k) / 2) <= v < Pow256(k) / 2
    ensures |IntegerContents(v)| <= k
    decreases k
  {
    if k == 1 {
      Pow256Eight();
    } else {
      assert Pow256(k) == 256 * Pow256(k - 1);
      EvenPower(k - 1);
      OctetCount(v / 256, k - 1);
    }
  }

  lemma {:induction false} EvenPower(k: nat)
    requires k >= 1
    ensures Pow256(k) % 2 == 0
  {
  }
}
