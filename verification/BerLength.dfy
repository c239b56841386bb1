/** Length octets: the printer of ber/length.go, the parser of ber/reader.go, and
    the proof that the parser accepts exactly what the printer can produce (section
    8.1.3 of X.690, with the minimal definite form that section 5.1 of RFC 4511
    asks for). */
module BerLength {
  import opened BerTypes

  // Big-endian base-256 value, and its minimal digits.
  function Value(s: bytes): (v: nat)
  {
    if s == [] then 0 else Value(s[..|s| - 1]) * 256 + s[|s| - 1]
  }

  function Digits(n: nat): (s: bytes)
    ensures s != []
  {
    if n < 256 then [n] else Digits(n / 256) + [n % 256]
  }

  function Pow256(k: nat): (p: nat)
    ensures p >= 1
  {
    if k == 0 then 1 else 256 * Pow256(k - 1)
  }

  lemma {:induction false} ValueBound(s: bytes)
    ensures Value(s) < Pow256(|s|)
    ensures s != [] ==> s[0] * Pow256(|s| - 1) <= Value(s)
  {
    if |s| == 1 {
      assert s[..0] == [];
    } else if s != [] {
      ValueBound(s[..|s| - 1]);
    }
  }

  /** Digits is the inverse of Value on strings without a leading zero. */
  lemma {:induction false} DigitsValue(s: bytes)
    requires s != [] && (s[0] != 0 || |s| == 1)
    ensures Digits(Value(s)) == s
  {
    if |s| == 1 {
      assert s[..0] == [];
    } else {
      var p := s[..|s| - 1];
      DigitsValue(p);
      ValueBound(p);
      assert Value(p) >= 1 by {
        if p[0] >= 1 { LemmaScale(p[0], Pow256(|p| - 1)); }
      }
      assert s == p + [s[|s| - 1]];
    }
  }

  lemma LemmaScale(a: nat, b: nat)
    requires a >= 1
    ensures a * b >= b
  {
  }

  lemma {:induction false} ValueDigits(n: nat)
    ensures Value(Digits(n)) == n
    ensures n > 0 ==> Digits(n)[0] > 0
    ensures n >= 256 ==> |Digits(n)| >= 2
  {
    if n < 256 {
      assert Digits(n)[..0] == [];
    } else {
      ValueDigits(n / 256);
      assert Digits(n)[..|Digits(n)| - 1] == Digits(n / 256);
    }
  }

  lemma {:induction false} DigitsLength(n: nat, k: nat)
    requires n < Pow256(k) && k >= 1
    ensures |Digits(n)| <= k
  {
    if n >= 256 {
      DigitsLength(n / 256, k - 1);
    }
  }

  lemma Pow256Eight()
    ensures Pow256(1) == 256 && Pow256(7) == 0x100_0000_0000_0000 && Pow256(8) == MAX_UINT64 + 1
  {
    assert Pow256(2) == 0x1_0000;
    assert Pow256(4) == 0x1_0000_0000;
    assert Pow256(6) == 0x1_0000_0000_0000;
  }

  function EncodeLength(n: nat): (r: bytes)
    requires n <= MAX_INT
    ensures r != []
  {
    if n < 128 then [n] else
    LengthOctetsBound(n);
    [128 + |Digits(n)|] + Digits(n)
  }

  lemma LengthOctetsBound(n: nat)
    requires n <= MAX_INT
    ensures 1 <= |Digits(n)| <= 8
  {
    Pow256Eight();
    DigitsLength(n, 8);
  }

  function ParseLength(data: bytes): (r: Result<(nat, nat)>)
    ensures r.Ok? ==> 0 < r.value.1 <= |data| && r.value.0 <= MAX_INT
  {
    if data == [] then Err(Truncated) else
    if data[0] < 128 then Ok((data[0], 1)) else
    var n := data[0] - 128;
    if n == 0 then Err(IndefiniteLength) else
    if n > |data| - 1 then Err(Truncated) else
    if n > 8 || (n > 1 && data[1] == 0) then Err(InvalidLength) else
    var v := Value(data[1..n + 1]);
    if v > MAX_INT then Err(LengthOverflow) else
    if v < 128 then Err(InvalidLength) else
    Ok((v, n + 1))
  }

  /** Every printed length is read back whole, whatever follows it. */
  lemma {:induction false} LengthComplete(n: nat, rest: bytes)
    requires n <= MAX_INT
    ensures ParseLength(EncodeLength(n) + rest) == Ok((n, |EncodeLength(n)|))
  {
    if n >= 128 {
      LengthOctetsBound(n);
      ValueDigits(n);
      var data := EncodeLength(n) + rest;
      assert data[1..|Digits(n)| + 1] == Digits(n);
    }
  }

  /** Whatever decodeLength accepts is the printed form of what it returns. */
  lemma {:induction false} LengthSound(data: bytes)
    ensures var r := ParseLength(data);
            r.Ok? ==> data[..r.value.1] == EncodeLength(r.value.0)
  {
    var r := ParseLength(data);
    if r.Ok? && data[0] >= 128 {
      var s := data[1..data[0] - 128 + 1];
      DigitsValue(s);
      assert data[..r.value.1] == [data[0]] + s;
    }
  }

  method AppendLength(dst: bytes, length: nat) returns (r: bytes)
    requires length <= MAX_INT
    ensures r == dst + EncodeLength(length)
  {
    if length < 128 {
      return dst + [length];
    }
    LengthOctetsBound(length);
    // bits.Len rounded up to whole octets.
    var n := 0;
    var left := length;
    while left > 0
      invariant left >= 0
      invariant left > 0 ==> |Digits(length)| == n + |Digits(left)|
      invariant left == 0 ==> n == |Digits(length)|
    {
      n := n + 1;
      left := left / 256;
    }
    ghost var d := Digits(length);
    var octets: bytes := [];
    var shift := n - 1;
    while shift >= 0
      invariant -1 <= shift < n == |d|
      invariant octets == d[..n - 1 - shift]
    {
      DigitAt(length, shift);
      octets := octets + [length / Pow256(shift) % 256];
      shift := shift - 1;
    }
    assert octets == d;
    r := dst + [128 + n] + octets;
    assert r == dst + ([128 + n] + d);
  }

  // The digit at distance k from the end is what shifting by k octets leaves.
  lemma {:induction false} DigitAt(n: nat, k: nat)
    requires k < |Digits(n)|
    ensures Digits(n)[|Digits(n)| - 1 - k] == n / Pow256(k) % 256
  {
    if k > 0 {
      DigitAt(n / 256, k - 1);
      DivTwice(n, Pow256(k - 1));
    }
  }

  lemma DivTwice(n: nat, p: nat)
    requires p > 0
    ensures n / 256 / p == n / (256 * p)
  {
    var q := n / (256 * p);
    var r := n % (256 * p);
    assert n == 256 * p * q + r;
    assert n / 256 == p * q + r / 256;
    assert r / 256 < p;
    assert (p * q + r / 256) / p == q by { Euclid(p, q, r / 256); }
  }

  lemma Euclid(p: nat, q: nat, r: nat)
    requires r < p
    ensures (p * q + r) / p == q
  {
    var d := (p * q + r) / p;
    assert p * d <= p * q + r < p * (d + 1);
    if d > q {
      MulMonotone(p, q + 1, d);
    } else if d < q {
      MulMonotone(p, d + 1, q);
    }
  }

  lemma MulMonotone(p: nat, a: nat, b: nat)
    requires a <= b
    ensures p * a <= p * b
  {
  }

  method DecodeLength(data: bytes) returns (r: Result<(nat, nat)>)
    ensures r == ParseLength(data)
  {
    if |data| == 0 { return Err(Truncated); }
    var first := data[0];
    if first < 128 { return Ok((first, 1)); }
    var n := first - 128;
    if n == 0 { return Err(IndefiniteLength); }
    if n > |data| - 1 { return Err(Truncated); }
    if n > 8 || (n > 1 && data[1] == 0) { return Err(InvalidLength); }
    var value := 0;
    var i := 0;
    ghost var octets := data[1..n + 1];
    while i < n
      invariant 0 <= i <= n
      invariant value == Value(octets[..i])
      invariant value <= MAX_INT
    {
      if value > MAX_INT / 256 {
        OverflowIsFinal(octets, i);
        return Err(LengthOverflow);
      }
      assert octets[..i + 1][..i] == octets[..i];
      value := value * 256 + data[1 + i];
      i := i + 1;
    }
    assert octets[..n] == octets;
    if value < 128 { return Err(InvalidLength); }
    if value > MAX_INT { return Err(LengthOverflow); }
    return Ok((value, n + 1));
  }

  // Once a prefix is too large to shift, so is the whole number.
  lemma {:induction false} OverflowIsFinal(s: bytes, i: nat)
    requires i < |s| && Value(s[..i]) > MAX_INT / 256
    ensures Value(s) > MAX_INT
    decreases |s|
  {
    var p := s[..|s| - 1];
    if i == |s| - 1 {
    } else {
      assert p[..i] == s[..i];
      OverflowIsFinal(p, i);
    }
  }
}
