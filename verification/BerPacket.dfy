/** The packet printer of ber/packet.go: structured packets, contents supplied
    as they are, and complete encodings, printed by one recursive append. */
module BerPacket {
  import opened BerTypes
  import opened BerIdentifier
  import opened BerLength
  import opened BerTree

  // literal: value is the contents as they are; encoded: value is the whole element.
  datatype Packet = Packet(identifier: Identifier, value: bytes, children: seq<Packet>, encoded: bool, literal: bool)

  function PrimitivePacket(id: Identifier, value: bytes): Packet
  {
    Packet(id.(constructed := false), value, [], false, false)
  }

  function ConstructedPacket(id: Identifier, children: seq<Packet>): Packet
  {
    Packet(id.(constructed := true), [], children, false, false)
  }

  function EncodedPacket(value: bytes): Packet
  {
    Packet(Identifier(UNIVERSAL, false, 0), value, [], true, false)
  }

  predicate Flat(p: Packet) { !p.identifier.constructed || p.literal }

  function PacketSize(p: Packet): (n: nat)
    ensures !p.encoded ==> n >= PacketContentSize(p) + 2
    decreases p, 2
  {
    if p.encoded then |p.value|
    else |EncodeIdentifier(p.identifier)| + LengthSize(PacketContentSize(p)) + PacketContentSize(p)
  }

  function PacketContentSize(p: Packet): nat
    decreases p, 1
  {
    if Flat(p) then |p.value| else PacketSizeAll(p.children)
  }

  function PacketSizeAll(ps: seq<Packet>): nat
    decreases ps, 0
  {
    if ps == [] then 0 else PacketSize(ps[0]) + PacketSizeAll(ps[1..])
  }

  // Everything fits in memory, so no length overflows a Go int.
  predicate Fits(p: Packet) { PacketSize(p) <= MAX_INT }

  function EncodePacket(p: Packet): (r: bytes)
    requires Fits(p)
    ensures |r| == PacketSize(p)
    decreases p, 1
  {
    if p.encoded then p.value
    else if Flat(p) then Wrap(p.identifier, p.value)
    else Wrap(p.identifier, EncodePackets(p.children))
  }

  function EncodePackets(ps: seq<Packet>): (r: bytes)
    requires PacketSizeAll(ps) <= MAX_INT
    ensures |r| == PacketSizeAll(ps)
    decreases ps, 0
  {
    if ps == [] then [] else EncodePacket(ps[0]) + EncodePackets(ps[1..])
  }

  lemma EncodeCons(p: Packet, ps: seq<Packet>)
    requires PacketSizeAll([p] + ps) <= MAX_INT
    ensures Fits(p) && PacketSizeAll(ps) <= MAX_INT
    ensures EncodePackets([p] + ps) == EncodePacket(p) + EncodePackets(ps)
  {
    assert ([p] + ps)[1..] == ps;
  }

  // --------------------------------------------------------- the recursive printer

  method IdentifierLength(id: Identifier) returns (length: nat)
    ensures length == |EncodeIdentifier(id)|
  {
    if id.number < 31 { return 1; }
    length := 1;
    var number := id.number;
    ghost var total := |HighTag(id.number)|;
    // Every septet counted so far is followed by those of number.
    while true
      invariant number >= 0 && length >= 1
      invariant length - 1 + |ContinuedTag(number)| == total
      decreases number
    {
      length := length + 1;
      if number < 128 { break; }
      number := number / 128;
    }
  }

  method LengthLength(length: nat) returns (r: nat)
    ensures r == LengthSize(length)
  {
    if length < 128 { return 1; }
    var octets := 0;
    var left := length;
    while left > 0
      invariant left >= 0
      invariant left > 0 ==> octets + |Digits(left)| == |Digits(length)|
      invariant left == 0 ==> octets == |Digits(length)|
    {
      octets := octets + 1;
      left := left / 256;
    }
    return 1 + octets;
  }

  method ContentLength(p: Packet) returns (length: nat)
    ensures length == PacketContentSize(p)
    decreases p, 0
  {
    if Flat(p) { return |p.value|; }
    length := 0;
    for i := 0 to |p.children|
      invariant length + PacketSizeAll(p.children[i..]) == PacketSizeAll(p.children)
    {
      var n := EncodedLength(p.children[i]);
      assert p.children[i..][1..] == p.children[i + 1..];
      length := length + n;
    }
  }

  method EncodedLength(p: Packet) returns (length: nat)
    ensures length == PacketSize(p)
    decreases p, 1
  {
    if p.encoded { return |p.value|; }
    var content := ContentLength(p);
    var i := IdentifierLength(p.identifier);
    var l := LengthLength(content);
    return i + l + content;
  }

  method AppendTo(p: Packet, dst: bytes) returns (r: bytes)
    requires Fits(p)
    ensures r == dst + EncodePacket(p)
    decreases p, 1
  {
    if p.encoded { return dst + p.value; }
    var content := ContentLength(p);
    r := AppendIdentifier(dst, p.identifier);
    r := AppendLength(r, content);
    assert r == dst + Header(p.identifier, content);
    ghost var head := Header(p.identifier, content);
    if Flat(p) {
      Reassociate(dst, head, p.value);
      return r + p.value;
    }
    Reassociate(dst, head, EncodePackets(p.children));
    r := AppendChildren(p.children, r);
  }

  // The loop of AppendTo over the children.
  method AppendChildren(ps: seq<Packet>, dst: bytes) returns (r: bytes)
    requires PacketSizeAll(ps) <= MAX_INT
    ensures r == dst + EncodePackets(ps)
    decreases ps, 0
  {
    r := dst;
    for i := 0 to |ps|
      invariant PacketSizeAll(ps[i..]) <= MAX_INT
      invariant r + EncodePackets(ps[i..]) == dst + EncodePackets(ps)
    {
      assert ps[i..][0] == ps[i] && ps[i..][1..] == ps[i + 1..];
      Reassociate(r, EncodePacket(ps[i]), EncodePackets(ps[i + 1..]));
      r := AppendTo(ps[i], r);
    }
  }

  /** Encode: the exact bytes, and exactly as many as were reserved for them. */
  method EncodeNew(p: Packet) returns (r: bytes, reserved: nat)
    requires Fits(p)
    ensures r == EncodePacket(p) && reserved == |r|
  {
    reserved := EncodedLength(p);
    r := AppendTo(p, []);
  }

  // ------------------------------------------------------------ packets of trees

  // The packet that the constructors build for a tree.
  function TreePacket(t: Tree): Packet
    decreases t, 1
  {
    match t
    case Primitive(id, contents) => PrimitivePacket(id, contents)
    case Constructed(id, children) => ConstructedPacket(id, TreePackets(children))
  }

  function TreePackets(ts: seq<Tree>): (ps: seq<Packet>)
    decreases ts, 0
  {
    if ts == [] then [] else [TreePacket(ts[0])] + TreePackets(ts[1..])
  }

  lemma {:induction false} PacketOfTree(t: Tree, maxTag: uint32)
    requires Formed(t, maxTag)
    ensures PacketSize(TreePacket(t)) == Size(t)
    ensures Sized(t) && Fits(TreePacket(t)) ==> EncodePacket(TreePacket(t)) == Encode(t)
    decreases t, 1
  {
    if t.Constructed? { PacketsOfTrees(t.children, maxTag); }
  }

  lemma {:induction false} PacketsOfTrees(ts: seq<Tree>, maxTag: uint32)
    requires FormedAll(ts, maxTag)
    ensures PacketSizeAll(TreePackets(ts)) == SizeAll(ts)
    ensures SizeAll(ts) <= MAX_INT ==> EncodePackets(TreePackets(ts)) == EncodeAll(ts)
    decreases ts, 0
  {
    if ts != [] {
      PacketOfTree(ts[0], maxTag);
      PacketsOfTrees(ts[1..], maxTag);
      assert TreePackets(ts)[1..] == TreePackets(ts[1..]);
    }
  }

  /** Whatever the deep validator accepts, the printer reproduces byte for byte
      from the tree that was read. */
  lemma {:induction false} AcceptedBytesReprint(data: bytes, limits: Limits) returns (t: Tree)
    requires |data| <= MAX_INT && Accepts(data, limits)
    ensures EncodesTree(data, limits, t)
    ensures PacketSize(TreePacket(t)) == |data|
    ensures EncodePacket(TreePacket(t)) == data
  {
    AcceptsIffEncodesTree(data, limits);
    t :| EncodesTree(data, limits, t);
    ShapedIsFormed(t, limits.maxTagNumber, limits.maxDepth);
    PacketOfTree(t, limits.maxTagNumber);
  }
}
