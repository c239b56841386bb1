/** Text in filters: the decoder's test for UTF-8 accepts exactly the encodings of
    Unicode scalar values. */
module FilterText {
  import opened BerTypes
  import opened Filter

  // A Unicode scalar value: a code point that is not a surrogate.
  predicate Scalar(c: int) { 0 <= c < 0xD800 || 0xE000 <= c <= 0x10FFFF }

  // Its octets (section 3 of RFC 3629).
  function Utf8Octets(c: int): bytes
    requires Scalar(c)
  {
    if c < 0x80 then [c]
    else if c < 0x800 then [0xC0 + c / 64, 0x80 + c % 64]
    else if c < 0x1_0000 then [0xE0 + c / 4096, 0x80 + c / 64 % 64, 0x80 + c % 64]
    else [0xF0 + c / 262144, 0x80 + c / 4096 % 64, 0x80 + c / 64 % 64, 0x80 + c % 64]
  }

  predicate AllScalar(cs: seq<int>) { forall k :: 0 <= k < |cs| ==> Scalar(cs[k]) }

  function TextOctets(cs: seq<int>): bytes
    requires AllScalar(cs)
  {
    if cs == [] then [] else Utf8Octets(cs[0]) + TextOctets(cs[1..])
  }

  // One more digit in base 64.
  lemma Digit(n: nat, d: nat)
    requires d < 64
    ensures (n * 64 + d) / 64 == n && (n * 64 + d) % 64 == d
  {
  }

  lemma Two(a: nat, b: nat)
    requires 2 <= a < 32 && b < 64
    ensures Scalar(a * 64 + b) && Utf8Octets(a * 64 + b) == [0xC0 + a, 0x80 + b]
  {
    Digit(a, b);
  }

  lemma Three(a: nat, b: nat, c: nat)
    requires a < 16 && b < 64 && c < 64 && (a == 0 ==> b >= 32) && (a == 13 ==> b < 32)
    ensures Scalar((a * 64 + b) * 64 + c) && Utf8Octets((a * 64 + b) * 64 + c) == [0xE0 + a, 0x80 + b, 0x80 + c]
  {
    var n := (a * 64 + b) * 64 + c;
    Digit(a, b);
    Digit(a * 64 + b, c);
    assert n / 4096 == n / 64 / 64;
  }

  lemma Four(a: nat, b: nat, c: nat, d: nat)
    requires a < 5 && b < 64 && c < 64 && d < 64 && (a == 0 ==> b >= 16) && (a == 4 ==> b < 16)
    ensures var n := ((a * 64 + b) * 64 + c) * 64 + d;
            Scalar(n) && Utf8Octets(n) == [0xF0 + a, 0x80 + b, 0x80 + c, 0x80 + d]
  {
    var n := ((a * 64 + b) * 64 + c) * 64 + d;
    Digit(a, b);
    Digit(a * 64 + b, c);
    Digit((a * 64 + b) * 64 + c, d);
    assert n / 4096 == n / 64 / 64 && n / 262144 == n / 4096 / 64;
  }

  // The digits of a character, by how many octets it takes.
  lemma Digits64(c: int)
    requires Scalar(c)
    ensures 0x80 <= c < 0x800 ==> 2 <= c / 64 < 32
    ensures 0x800 <= c < 0x1_0000 ==>
              var (a, b) := (c / 4096, c / 64 % 64); a < 16 && (a == 0 ==> b >= 32) && (a == 13 ==> b < 32)
    ensures 0x1_0000 <= c ==>
              var (a, b) := (c / 262144, c / 4096 % 64); a < 5 && (a == 0 ==> b >= 16) && (a == 4 ==> b < 16)
  {
  }

  // Its lead octet says how many follow, and in which range the first of them is.
  lemma Leads(c: int)
    requires Scalar(c)
    ensures var s := Utf8Octets(c);
            && s != [] && Follow(s[0]).Some? && Follow(s[0]).value.0 + 1 == |s|
            && (|s| > 1 ==> Follow(s[0]).value.1 <= s[1] <= Follow(s[0]).value.2)
            && forall k :: 2 <= k < |s| ==> 0x80 <= s[k] <= 0xBF
  {
    Digits64(c);
  }

  lemma CharAccepted(c: int, rest: bytes)
    requires Scalar(c)
    ensures Utf8(Utf8Octets(c) + rest) <==> Utf8(rest)
  {
    Leads(c);
    hide Utf8Octets, Follow;
    var s := Utf8Octets(c) + rest;
    assert s[|Utf8Octets(c)|..] == rest;
  }

  predicate Tails(s: bytes, n: nat) { n < |s| && forall k :: 1 <= k <= n ==> 0x80 <= s[k] <= 0xBF }

  // What accepted text starts with, in numbers.
  lemma StartsWith(s: bytes) returns (n: nat)
    requires s != [] && Utf8(s)
    ensures n <= 3 && Tails(s, n)
    ensures n == 0 ==> s[0] < 0x80
    ensures n == 1 ==> 0xC2 <= s[0] < 0xE0
    ensures n == 2 ==> 0xE0 <= s[0] < 0xF0 && (s[0] == 0xE0 ==> s[1] >= 0xA0) && (s[0] == 0xED ==> s[1] < 0xA0)
    ensures n == 3 ==> 0xF0 <= s[0] <= 0xF4 && (s[0] == 0xF0 ==> s[1] >= 0x90) && (s[0] == 0xF4 ==> s[1] < 0x90)
  {
    n := Follow(s[0]).value.0;
  }

  // The octets of c at the front of s.
  ghost predicate Begins(s: bytes, c: int) { Scalar(c) && |Utf8Octets(c)| <= |s| && s == Utf8Octets(c) + s[|Utf8Octets(c)|..] }

  lemma Fronts(s: bytes, n: nat, c: int)
    requires n <= |s| && Scalar(c) && Utf8Octets(c) == s[..n]
    ensures Begins(s, c)
  {
    hide Utf8Octets;
    assert s == s[..n] + s[n..];
  }

  lemma TwoFound(s: bytes) returns (c: int)
    requires Tails(s, 1) && 0xC2 <= s[0] < 0xE0
    ensures Begins(s, c)
  {
    hide Utf8Octets;
    var first: int, x: int := s[0], s[1];
    c := (first - 0xC0) * 64 + (x - 0x80);
    Two(first - 0xC0, x - 0x80);
    assert s[..2] == [s[0], s[1]];
    Fronts(s, 2, c);
  }

  lemma ThreeFound(s: bytes) returns (c: int)
    requires Tails(s, 2) && 0xE0 <= s[0] < 0xF0 && (s[0] == 0xE0 ==> s[1] >= 0xA0) && (s[0] == 0xED ==> s[1] < 0xA0)
    ensures Begins(s, c)
  {
    hide Utf8Octets;
    var first: int, x: int, y: int := s[0], s[1], s[2];
    c := ((first - 0xE0) * 64 + (x - 0x80)) * 64 + (y - 0x80);
    Three(first - 0xE0, x - 0x80, y - 0x80);
    assert s[..3] == [s[0], s[1], s[2]];
    Fronts(s, 3, c);
  }

  lemma FourFound(s: bytes) returns (c: int)
    requires Tails(s, 3) && 0xF0 <= s[0] <= 0xF4 && (s[0] == 0xF0 ==> s[1] >= 0x90) && (s[0] == 0xF4 ==> s[1] < 0x90)
    ensures Begins(s, c)
  {
    hide Utf8Octets;
    var first: int, x: int, y: int, z: int := s[0], s[1], s[2], s[3];
    c := (((first - 0xF0) * 64 + (x - 0x80)) * 64 + (y - 0x80)) * 64 + (z - 0x80);
    Four(first - 0xF0, x - 0x80, y - 0x80, z - 0x80);
    assert s[..4] == [s[0], s[1], s[2], s[3]];
    Fronts(s, 4, c);
  }

  // The character that a lead octet and its followers stand for.
  lemma CharFound(s: bytes) returns (c: int)
    requires s != [] && Utf8(s)
    ensures Begins(s, c)
  {
    hide Utf8, Begins;
    var n := StartsWith(s);
    if n == 0 {
      c := s[0];
      assert s[..1] == [s[0]];
      Fronts(s, 1, c);
    } else if n == 1 {
      c := TwoFound(s);
    } else if n == 2 {
      c := ThreeFound(s);
    } else {
      c := FourFound(s);
    }
  }

  /** Text is accepted exactly if it is the UTF-8 encoding of some Unicode scalar values:
      no overlong form, no surrogate and nothing beyond U+10FFFF. */
  lemma {:induction false} TextIsUtf8(s: bytes)
    ensures Utf8(s) <==> exists cs :: AllScalar(cs) && TextOctets(cs) == s
    decreases |s|
  {
    hide Utf8, Utf8Octets;
    if Utf8(s) {
      var cs := CharsOf(s);
      assert AllScalar(cs) && TextOctets(cs) == s;
    }
    if cs :| AllScalar(cs) && TextOctets(cs) == s { CharsAccepted(cs); }
  }

  lemma {:induction false} CharsOf(s: bytes) returns (cs: seq<int>)
    requires Utf8(s)
    ensures AllScalar(cs) && TextOctets(cs) == s
    decreases |s|
  {
    hide Utf8, Utf8Octets, Scalar;
    if s == [] {
      cs := [];
    } else {
      var c := CharFound(s);
      var n := |Utf8Octets(c)|;
      SomeOctets(c);
      CharAccepted(c, s[n..]);
      var more := CharsOf(s[n..]);
      cs := [c] + more;
      assert cs[1..] == more;
    }
  }

  lemma SomeOctets(c: int)
    requires Scalar(c)
    ensures Utf8Octets(c) != []
  {
  }

  lemma {:induction false} CharsAccepted(cs: seq<int>)
    requires AllScalar(cs)
    ensures Utf8(TextOctets(cs))
  {
    if cs != [] {
      CharsAccepted(cs[1..]);
      hide Utf8, Utf8Octets;
      CharAccepted(cs[0], TextOctets(cs[1..]));
    }
  }
}
