/** The messages a connection writes: the requests of its callers, checked by
    encodeLDAPRequest, and its own Abandon and Unbind requests, which
    encodeInternalRequest does not check; and what a reader makes of each. */
module ConnMessages {
  import opened BerTypes
  import opened BerTree
  import opened BerInteger
  import opened BerCursor
  import opened BerPacket
  import opened Envelope
  import opened EnvelopeLayout

  const BIND_REQUEST := Identifier(APPLICATION, true, 0)
  const UNBIND_REQUEST := Identifier(APPLICATION, false, 2)
  const ABANDON_REQUEST := Identifier(APPLICATION, false, 16)

  predicate IsAssociationChanging(id: Identifier) { id == BIND_REQUEST || id == UNBIND_REQUEST }

  // ---------------------------------------------------------------- caller requests

  // What encodeLDAPRequest makes of a request under this message ID, if it accepts it.
  function Encoding(id: int32, op: Request, limits: Limits): Option<bytes>
  {
    if Fits(RequestPacket(id, op)) && EncodeRequest(id, op, limits).Ok? then Some(EncodeRequest(id, op, limits).value) else None
  }

  // A reader with these limits takes message for this request.
  ghost predicate ReadAs(message: bytes, id: int, protocolId: Identifier, limits: Limits)
  {
    && ParseMessage(message, limits).Ok?
    && var r := ParseMessage(message, limits).value;
       r.messageId == id && r.protocolId == protocolId && r.message == message && r.extensions == []
  }

  /** What is written for a request reads as that request: under the message ID it
      was given and with the identifier it declared. */
  lemma RequestReads(id: int32, op: Request, limits: Limits)
    requires Encoding(id, op, limits).Some?
    ensures ReadAs(Encoding(id, op, limits).value, id, op.declared, limits)
  {
    hide EncodeRequest, ParseMessage;
    AcceptedHeader(id, op, limits);
  }

  // --------------------------------------------------------------- internal requests

  function InternalRequest(id: Identifier, value: bytes): Request { Request(PrimitivePacket(id, value), id, []) }

  lemma SmallContents(v: int32)
    ensures |IntegerContents(v)| <= 4
  {
    assert -0x80_0000 <= v / 256 < 0x80_0000;
    assert -0x8000 <= v / 256 / 256 < 0x8000;
    assert -0x80 <= v / 256 / 256 / 256 < 0x80;
    assert |IntegerContents(v / 256 / 256 / 256)| == 1;
    assert |IntegerContents(v / 256 / 256)| <= 2;
    assert |IntegerContents(v / 256)| <= 3;
  }

  // encodeInternalRequest of a small primitive operation
  function InternalMessage(id: int32, protocolId: Identifier, value: bytes): (r: bytes)
    requires protocolId.number < 31 && |value| <= 4
    ensures |r| <= 14
  {
    InternalFits(id, protocolId, value);
    EncodePacket(RequestPacket(id, InternalRequest(protocolId, value)))
  }

  lemma InternalFits(id: int32, protocolId: Identifier, value: bytes)
    requires protocolId.number < 31 && |value| <= 4
    ensures PacketSize(RequestPacket(id, InternalRequest(protocolId, value))) <= 14
  {
    SmallContents(id);
    hide IntegerContents;
    var a, b := PrimitivePacket(INTEGER, IntegerContents(id)), PrimitivePacket(protocolId, value);
    assert PacketSize(a) <= 6 && PacketSize(b) <= 6;
    assert [a, b][1..] == [b] && [b][1..] == [];
    assert PacketSizeAll([b]) == PacketSize(b);
    assert PacketSizeAll([a, b]) == PacketSize(a) + PacketSize(b);
    assert [a, b] + [] == [a, b];
  }

  function AbandonMessage(aid: int32, target: int32): bytes
  {
    SmallContents(target);
    InternalMessage(aid, ABANDON_REQUEST, IntegerContents(target))
  }

  function UnbindMessage(uid: int32): bytes { InternalMessage(uid, UNBIND_REQUEST, []) }

  // Limits under which the connection's own requests can be read.
  predicate Roomy(limits: Limits)
  {
    limits.Valid() && limits.maxFrameBytes >= 14 && limits.maxElements >= 3 && limits.maxIntegerBytes >= 4
  }

  /** An internal request is read back whole: its message ID, its identifier and its
      contents. */
  lemma InternalReads(id: int32, protocolId: Identifier, value: bytes, limits: Limits)
    requires 0 <= id && protocolId.cls == APPLICATION && !protocolId.constructed && protocolId.number < 31 && |value| <= 4 && Roomy(limits)
    ensures var message := InternalMessage(id, protocolId, value);
            ParseMessage(message, limits) == Ok(Response(id, protocolId, message, Wrap(protocolId, value), [], []))
  {
    var op := InternalRequest(protocolId, value);
    InternalFits(id, protocolId, value);
    SmallContents(id);
    hide IntegerContents, ParseMessage, RequestPacket, EncodePackets, Wrap, PacketSizeAll;
    InternalIsSingle(protocolId, value, limits);
    FitsIsLayout(id, op, [], limits);
    var l := LayoutOf(id, op, [], limits);
    MessageBack(InternalMessage(id, protocolId, value), l, limits);
    IntegerRoundTrip(id, limits.maxIntegerBytes, INT64);
  }

  // encodeLDAPRequest would accept it too.
  lemma InternalEncodes(id: int32, protocolId: Identifier, value: bytes, limits: Limits)
    requires 0 <= id && protocolId.cls == APPLICATION && !protocolId.constructed && protocolId.number < 31 && |value| <= 4 && Roomy(limits)
    ensures Encoding(id, InternalRequest(protocolId, value), limits) == Some(InternalMessage(id, protocolId, value))
  {
    hide ParseMessage, RequestPacket, Wrap, EncodePacket;
    InternalReads(id, protocolId, value, limits);
    InternalFits(id, protocolId, value);
  }

  lemma InternalIsSingle(protocolId: Identifier, value: bytes, limits: Limits)
    requires protocolId.cls == APPLICATION && !protocolId.constructed && protocolId.number < 31 && |value| <= 4
    ensures var op := InternalRequest(protocolId, value);
            && WellFormedRequest(op, limits) && EncodePacket(op.protocol) == Wrap(protocolId, value)
            && ParseElement(EncodePacket(op.protocol), limits.maxTagNumber) == Ok(Element(protocolId, value, Wrap(protocolId, value)))
  {
    ElementIsSingle(Element(protocolId, value, Wrap(protocolId, value)), limits.maxTagNumber);
    hide ParseElement, Wrap;
  }

  /** An Abandon names its target: it reads as an AbandonRequest under its own ID,
      and its contents are the target's ID and no other. */
  lemma AbandonReads(aid: int32, target: int32, limits: Limits)
    requires 0 <= aid && Roomy(limits)
    ensures |IntegerContents(target)| <= MAX_INT
    ensures var message := AbandonMessage(aid, target);
            ParseMessage(message, limits) == Ok(Response(aid, ABANDON_REQUEST, message, Wrap(ABANDON_REQUEST, IntegerContents(target)), [], []))
    ensures TwosComplement(IntegerContents(target)) == target
  {
    hide IntegerContents, ParseMessage, Wrap;
    SmallContents(target);
    InternalReads(aid, ABANDON_REQUEST, IntegerContents(target), limits);
    ContentsDenote(target);
  }

  lemma UnbindReads(uid: int32, limits: Limits)
    requires 0 <= uid && Roomy(limits)
    ensures var message := UnbindMessage(uid);
            ParseMessage(message, limits) == Ok(Response(uid, UNBIND_REQUEST, message, Wrap(UNBIND_REQUEST, []), [], []))
  {
    hide ParseMessage, Wrap;
    InternalReads(uid, UNBIND_REQUEST, [], limits);
  }
}
