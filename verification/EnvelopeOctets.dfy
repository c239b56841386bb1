/** Envelopes octet by octet: the tags of section 4.1.1 of RFC 4511, and of its Bind,
    Unbind and Abandon requests, as the octets they are. */
module EnvelopeOctets {
  import opened BerTypes
  import opened BerIdentifier
  import opened BerTree
  import opened BerInteger
  import opened BerPacket
  import opened BerOctets
  import opened Envelope
  import opened EnvelopeLayout
  import opened ConnMessages

  lemma EnvelopeTags()
    ensures EncodeIdentifier(SEQUENCE) == [0x30] && EncodeIdentifier(INTEGER) == [0x02] && EncodeIdentifier(CONTROLS) == [0xA0]
    ensures EncodeIdentifier(ABANDON_REQUEST) == [0x50] && EncodeIdentifier(UNBIND_REQUEST) == [0x42] && EncodeIdentifier(BIND_REQUEST) == [0x60]
  {
  }

  lemma WrapSpelled(id: Identifier, tag: byte, contents: bytes)
    requires EncodeIdentifier(id) == [tag] && |contents| <= MAX_INT
    ensures Wrap(id, contents) == Tlv(tag, contents)
  {
  }

  // ---------------------------------------------------------------- what is accepted

  function SpelledControls(cs: Option<seq<Tree>>): bytes
    requires ControlsSized(cs)
  {
    if cs.None? then [] else Tlv(0xA0, EncodeAll(cs.value))
  }

  /** An accepted message is a 0x30 around a 0x02 with its ID, an element whose leading
      octet is of application class, perhaps a 0xA0 around 0x30s, and elements that are
      not 0xA0. */
  lemma AcceptedOctets(message: bytes, l: Layout, limits: Limits)
    requires IsLayout(message, l, limits)
    ensures message == Tlv(0x30, Tlv(0x02, l.idContents) + (l.protocol.raw + (SpelledControls(l.controls) + EncodeAll(l.extensions))))
    ensures 0x40 <= l.protocol.raw[0] < 0x80
    ensures l.controls.Some? ==> forall k :: 0 <= k < |l.controls.value| ==> EncodeIdentifier(l.controls.value[k].id) == [0x30]
    ensures forall k :: 0 <= k < |l.extensions| ==> EncodeIdentifier(l.extensions[k].id) != [0xA0]
  {
    EnvelopeTags();
    WrapSpelled(INTEGER, 0x02, l.idContents);
    WrapSpelled(SEQUENCE, 0x30, Contents(l));
    if l.controls.Some? { WrapSpelled(CONTROLS, 0xA0, EncodeAll(l.controls.value)); }
    LeadingClass(l.protocol.id, l.protocol.value);
    hide EncodeIdentifier, Wrap, ParseInteger, CountAll, EncodeAll, Tlv;
    forall k | 0 <= k < |l.extensions| ensures EncodeIdentifier(l.extensions[k].id) != [0xA0] {
      ShapedAt(l.extensions, limits.maxTagNumber, limits.maxDepth - 1, k);
      OnlyControls(l.extensions[k].id);
    }
  }

  lemma LeadingClass(id: Identifier, contents: bytes)
    requires id.Valid() && id.cls == APPLICATION && |contents| <= MAX_INT
    ensures 0x40 <= Wrap(id, contents)[0] < 0x80
  {
    IdentifierOctets(id);
  }

  lemma OnlyControls(id: Identifier)
    requires id.Valid()
    ensures EncodeIdentifier(id) == [0xA0] <==> id == CONTROLS
  {
  }

  lemma {:induction false} ShapedAt(ts: seq<Tree>, maxTag: uint32, depth: nat, k: nat)
    requires ShapedAll(ts, maxTag, depth) && k < |ts|
    ensures ts[k].id.Valid()
    decreases k
  {
    if k > 0 { ShapedAt(ts[1..], maxTag, depth, k - 1); }
  }

  // ------------------------------------------------------------------- what is written

  // The packets in order, if they fit at all.
  function Printed(ps: seq<Packet>): bytes { if PacketSizeAll(ps) <= MAX_INT then EncodePackets(ps) else [] }

  /** A request is written as a 0x30 around a 0x02 with its ID, its operation, and a 0xA0
      around its controls when it has any. */
  lemma RequestSpelled(id: int, op: Request)
    requires Fits(RequestPacket(id, op))
    ensures EncodePacket(RequestPacket(id, op))
         == Tlv(0x30, Tlv(0x02, IntegerContents(id)) + (Printed([op.protocol]) + (if op.controls == [] then [] else Tlv(0xA0, Printed(op.controls)))))
  {
    EnvelopeTags();
    hide EncodeIdentifier, IntegerContents, Tlv, EncodePacket, Fits, Printed;
    var head, tail := PrimitivePacket(INTEGER, IntegerContents(id)), ControlPackets(op);
    var controls := if op.controls == [] then [] else Tlv(0xA0, Printed(op.controls));
    PrintPrimitive(INTEGER, 0x02, IntegerContents(id));
    PrintAny([op.protocol]);
    assert Prints(tail, controls) by {
      PrintAny(op.controls);
      PrintGroup(CONTROLS, 0xA0, op.controls, Printed(op.controls));
    }
    hide Prints, ControlPackets;
    PrintBoth([op.protocol], Printed([op.protocol]), tail, controls);
    PrintBoth([head], Tlv(0x02, IntegerContents(id)), [op.protocol] + tail, Printed([op.protocol]) + controls);
    assert [head] + ([op.protocol] + tail) == [head, op.protocol] + tail;
    GroupSpelled(SEQUENCE, 0x30, [head, op.protocol] + tail, Tlv(0x02, IntegerContents(id)) + (Printed([op.protocol]) + controls));
  }

  lemma PrintAny(ps: seq<Packet>)
    ensures Prints(ps, Printed(ps))
  {
  }

  lemma InternalSpelled(id: int32, protocolId: Identifier, tag: byte, value: bytes)
    requires protocolId.number < 31 && |value| <= 4 && !protocolId.constructed && EncodeIdentifier(protocolId) == [tag]
    ensures InternalMessage(id, protocolId, value) == Tlv(0x30, Tlv(0x02, IntegerContents(id)) + Tlv(tag, value))
  {
    var op := InternalRequest(protocolId, value);
    InternalFits(id, protocolId, value);
    RequestSpelled(id, op);
    PrintPrimitive(protocolId, tag, value);
    assert PacketSizeAll([op.protocol]) <= MAX_INT by { Single(op.protocol); }
    hide IntegerContents, Tlv, EncodePacket, RequestPacket;
    assert Tlv(tag, value) + [] == Tlv(tag, value);
  }

  /** An Abandon is a 0x50 with the target's ID, an Unbind the octets 0x42 0x00. */
  lemma InternalOctets(id: int32, target: int32)
    ensures AbandonMessage(id, target) == Tlv(0x30, Tlv(0x02, IntegerContents(id)) + Tlv(0x50, IntegerContents(target)))
    ensures UnbindMessage(id) == Tlv(0x30, Tlv(0x02, IntegerContents(id)) + [0x42, 0x00])
  {
    EnvelopeTags();
    SmallContents(target);
    InternalSpelled(id, ABANDON_REQUEST, 0x50, IntegerContents(target));
    InternalSpelled(id, UNBIND_REQUEST, 0x42, []);
    assert Tlv(0x42, []) == [0x42, 0x00];
  }

  /** Callers may submit anything but a 0x60, Bind, and a 0x42, Unbind. */
  lemma AssociationOctets(id: Identifier)
    requires id.Valid()
    ensures IsAssociationChanging(id) <==> EncodeIdentifier(id) == [0x60] || EncodeIdentifier(id) == [0x42]
  {
  }
}
