/** The LDAPMessage envelope: the parser of response.go, the request encoder of
    connection.go, and the journey of a request through a byte stream and back
    (section 4.1.1 of RFC 4511). */
module Envelope {
  import opened BerTypes
  import opened BerTree
  import opened BerInteger
  import opened BerCursor
  import opened BerReader
  import opened BerPacket

  const MAX_MESSAGE_ID: int := 0x7FFF_FFFF

  const CONTROLS := Identifier(CONTEXT, true, 0)

  datatype Response = Response(
    messageId: int,
    protocolId: Identifier,
    message: bytes,
    protocol: bytes,
    controls: seq<Element>,
    extensions: seq<Element>)

  // ---------------------------------------------------------- what parsing means

  function ParseControls(c: Cursor, limits: Limits): Result<(seq<Element>, nat)>
    decreases |c.rest|
  {
    if c.rest == [] then Ok(([], c.elements)) else
    match Skip(c, limits)
    case Err(e) => Err(e)
    case Ok((e, next)) =>
      if e.id != SEQUENCE then Err(BadEnvelope) else
      match ParseControls(next, limits)
      case Err(x) => Err(x)
      case Ok((es, n)) => Ok(([e] + es, n))
  }

  function ParseExtensions(c: Cursor, limits: Limits): Result<seq<Element>>
    decreases |c.rest|
  {
    if c.rest == [] then Ok([]) else
    match Peek(c, limits)
    case Err(e) => Err(e)
    case Ok(id) =>
      if id == CONTROLS then Err(BadEnvelope) else
      match Skip(c, limits)
      case Err(e) => Err(e)
      case Ok((e, next)) =>
        match ParseExtensions(next, limits)
        case Err(x) => Err(x)
        case Ok(es) => Ok([e] + es)
  }

  // Optional controls, then extensions.
  function ParseTail(c: Cursor, limits: Limits): Result<(seq<Element>, seq<Element>)>
  {
    if c.rest == [] then Ok(([], [])) else
    match Peek(c, limits)
    case Err(e) => Err(e)
    case Ok(id) =>
      if id != CONTROLS then
        match ParseExtensions(c, limits)
        case Err(e) => Err(e)
        case Ok(es) => Ok(([], es))
      else
        match Enter(c, CONTROLS, limits)
        case Err(e) => Err(e)
        case Ok((scope, tail)) =>
          match ParseControls(scope, limits)
          case Err(e) => Err(e)
          case Ok((cs, n)) =>
            match ParseExtensions(Cursor(tail, c.depth, n), limits)
            case Err(e) => Err(e)
            case Ok(es) => Ok((cs, es))
  }

  // The contents of the envelope, without the complete message bytes.
  function ParseContents(c: Cursor, limits: Limits): Result<Response>
  {
    match ReadInteger(c, INTEGER, limits)
    case Err(e) => Err(e)
    case Ok((id, next)) =>
      if !(0 <= id <= MAX_MESSAGE_ID) then Err(BadEnvelope) else
      match ReadSpec(next.rest, next.elements, limits)
      case Err(e) => Err(e)
      case Ok(p) =>
        if p.id.cls != APPLICATION then Err(BadEnvelope) else
        match ParseTail(After(next, p), limits)
        case Err(e) => Err(e)
        case Ok((cs, es)) => Ok(Response(id, p.id, [], p.raw, cs, es))
  }

  function ParseMessage(message: bytes, limits: Limits): Result<Response>
  {
    if !limits.Valid() then Err(BadLimits) else
    if |message| > limits.maxFrameBytes then Err(LimitExceeded(FrameBytes)) else
    match Enter(Cursor(message, 0, 0), SEQUENCE, limits)
    case Err(e) => Err(e)
    case Ok((scope, tail)) =>
      if tail != [] then Err(TrailingData) else
      match ParseContents(scope, limits)
      case Err(e) => Err(e)
      case Ok(r) => Ok(r.(message := message))
  }

  // ------------------------------------------------------------ the parser itself

  // One turn of the controls loop.
  lemma ControlsTurn(c: Cursor, limits: Limits)
    requires c.rest != []
    ensures var s := Skip(c, limits);
            && (s.Err? ==> ParseControls(c, limits) == Err(s.error))
            && (s.Ok? && s.value.0.id != SEQUENCE ==> ParseControls(c, limits) == Err(BadEnvelope))
            && (s.Ok? && s.value.0.id == SEQUENCE ==>
                  ParseControls(c, limits) == Preceded([s.value.0], ParseControls(s.value.1, limits)))
  {
  }

  lemma NoControls(c: Cursor, limits: Limits)
    requires c.rest == []
    ensures ParseControls(c, limits) == Ok(([], c.elements))
  {
  }

  method ReadControls(controls: Reader) returns (r: Result<seq<Element>>)
    requires controls.Valid()
    modifies controls`pos, controls.state
    ensures controls.Valid()
    ensures match ParseControls(old(controls.View()), controls.limits)
            case Err(e) => r == Err(e)
            case Ok((cs, n)) => r == Ok(cs) && controls.state.elements == n
  {
    hide ParseControls, SkipSpec;
    var limits := controls.limits;
    ghost var goal := ParseControls(controls.View(), limits);
    var found: seq<Element> := [];
    PrecededByNone(goal);
    while !controls.Empty()
      invariant controls.Valid()
      invariant goal == Preceded(found, ParseControls(controls.View(), limits))
      decreases |controls.data| - controls.pos
    {
      ghost var before := controls.View();
      ControlsTurn(before, limits);
      var control := controls.SkipElement();
      if control.Err? { return Err(control.error); }
      if control.value.id != SEQUENCE { return Err(BadEnvelope); }
      assert |controls.View().rest| < |before.rest|;
      PrecededByOneMore(found, control.value, ParseControls(controls.View(), limits));
      found := found + [control.value];
    }
    NoControls(controls.View(), limits);
    assert found + [] == found;
    return Ok(found);
  }

  ghost function Paired(r: Result<seq<Element>>): Result<(seq<Element>, bool)>
  {
    match r
    case Err(e) => Err(e)
    case Ok(es) => Ok((es, true))
  }

  // One turn of the extensions loop.
  lemma ExtensionsTurn(c: Cursor, limits: Limits)
    requires c.rest != []
    ensures var p, s := Peek(c, limits), Skip(c, limits);
            && (p.Err? ==> ParseExtensions(c, limits) == Err(p.error))
            && (p == Ok(CONTROLS) ==> ParseExtensions(c, limits) == Err(BadEnvelope))
            && (p.Ok? && p.value != CONTROLS && s.Err? ==> ParseExtensions(c, limits) == Err(s.error))
            && (p.Ok? && p.value != CONTROLS && s.Ok? ==>
                  Paired(ParseExtensions(c, limits)) == Preceded([s.value.0], Paired(ParseExtensions(s.value.1, limits))))
  {
  }

  lemma NoExtensions(c: Cursor, limits: Limits)
    requires c.rest == []
    ensures ParseExtensions(c, limits) == Ok([])
  {
  }

  method ReadExtensions(envelope: Reader) returns (r: Result<seq<Element>>)
    requires envelope.Valid()
    modifies envelope`pos, envelope.state
    ensures r == ParseExtensions(old(envelope.View()), envelope.limits)
  {
    hide ParseExtensions, SkipSpec, Peek;
    var limits := envelope.limits;
    ghost var goal := Paired(ParseExtensions(envelope.View(), limits));
    var found: seq<Element> := [];
    PrecededByNone(goal);
    while !envelope.Empty()
      invariant envelope.Valid()
      invariant goal == Preceded(found, Paired(ParseExtensions(envelope.View(), limits)))
      decreases |envelope.data| - envelope.pos
    {
      ghost var before := envelope.View();
      ExtensionsTurn(before, limits);
      var id := envelope.PeekIdentifier();
      if id.Err? { return Err(id.error); }
      if id.value == CONTROLS { return Err(BadEnvelope); }
      var extension := envelope.SkipElement();
      if extension.Err? { return Err(extension.error); }
      assert |envelope.View().rest| < |before.rest|;
      PrecededByOneMore(found, extension.value, Paired(ParseExtensions(envelope.View(), limits)));
      found := found + [extension.value];
    }
    NoExtensions(envelope.View(), limits);
    assert found + [] == found;
    return Ok(found);
  }

  method ReadTail(envelope: Reader) returns (r: Result<(seq<Element>, seq<Element>)>)
    requires envelope.Valid()
    modifies envelope`pos, envelope.state
    ensures r == ParseTail(old(envelope.View()), envelope.limits)
  {
    hide Enter, Peek, ParseControls;
    var found: seq<Element> := [];
    assert envelope.Empty() <==> envelope.View().rest == [];
    if !envelope.Empty() {
      var id := envelope.PeekIdentifier();
      if id.Err? { return Err(id.error); }
      if id.value == CONTROLS {
        var controls := envelope.Constructed(CONTROLS);
        if controls.Err? { return Err(controls.error); }
        var cs := ReadControls(controls.value);
        if cs.Err? { return Err(cs.error); }
        found := cs.value;
      }
    }
    var extensions := ReadExtensions(envelope);
    if extensions.Err? { return Err(extensions.error); }
    return Ok((found, extensions.value));
  }

  method ReadContents(envelope: Reader) returns (r: Result<Response>)
    requires envelope.Valid()
    modifies envelope`pos, envelope.state
    ensures r == ParseContents(old(envelope.View()), envelope.limits)
  {
    hide ReadInteger, ReadSpec, ParseTail;
    var messageId := envelope.Integer();
    if messageId.Err? { return Err(messageId.error); }
    if messageId.value < 0 || messageId.value > MAX_MESSAGE_ID { return Err(BadEnvelope); }
    var protocol := envelope.ReadElement();
    if protocol.Err? { return Err(protocol.error); }
    if protocol.value.id.cls != APPLICATION { return Err(BadEnvelope); }
    var tail := ReadTail(envelope);
    if tail.Err? { return Err(tail.error); }
    return Ok(Response(messageId.value, protocol.value.id, [], protocol.value.raw, tail.value.0, tail.value.1));
  }

  method ParseOwnedResponse(message: bytes, limits: Limits) returns (r: Result<Response>)
    requires |message| <= MAX_INT
    ensures r == ParseMessage(message, limits)
  {
    hide Enter, ParseContents;
    var reader := NewReader(message, limits);
    if reader.Err? { return Err(reader.error); }
    var envelope := reader.value.Constructed(SEQUENCE);
    if envelope.Err? { return Err(envelope.error); }
    assert reader.value.Empty() <==> reader.value.View().rest == [];
    if !reader.value.Empty() { return Err(TrailingData); }
    var contents := ReadContents(envelope.value);
    if contents.Err? { return Err(contents.error); }
    return Ok(contents.value.(message := message));
  }

  // ------------------------------------------------------------- sending a request

  // The parts of an operation that reach the wire.
  datatype Request = Request(protocol: Packet, declared: Identifier, controls: seq<Packet>)

  // The packets of the controls field: none, or one.
  function ControlPackets(op: Request): seq<Packet>
  {
    if op.controls == [] then [] else [ConstructedPacket(CONTROLS, op.controls)]
  }

  function RequestPacket(id: int, op: Request): Packet
  {
    ConstructedPacket(SEQUENCE, [PrimitivePacket(INTEGER, IntegerContents(id)), op.protocol] + ControlPackets(op))
  }

  function EncodeRequest(id: int, op: Request, limits: Limits): Result<bytes>
    requires Fits(RequestPacket(id, op))
  {
    var encoded := EncodePacket(RequestPacket(id, op));
    if |encoded| > limits.maxFrameBytes then Err(LimitExceeded(FrameBytes)) else
    match ParseMessage(encoded, limits)
    case Err(e) => Err(e)
    case Ok(envelope) =>
      if envelope.protocolId != op.declared then Err(BadEnvelope) else
      if |envelope.controls| != |op.controls| || envelope.extensions != [] then Err(BadEnvelope) else
      Ok(encoded)
  }

  method EncodeLDAPRequest(id: int, op: Request, limits: Limits) returns (r: Result<bytes>)
    requires 1 <= id <= MAX_MESSAGE_ID && Fits(RequestPacket(id, op))
    ensures r == EncodeRequest(id, op, limits)
  {
    var contents := IntegerBytes(id);
    var children := [PrimitivePacket(INTEGER, contents), op.protocol];
    if |op.controls| != 0 {
      children := children + [ConstructedPacket(CONTROLS, op.controls)];
    }
    assert ConstructedPacket(SEQUENCE, children) == RequestPacket(id, op);
    var encoded, _ := EncodeNew(ConstructedPacket(SEQUENCE, children));
    if |encoded| > limits.maxFrameBytes { return Err(LimitExceeded(FrameBytes)); }
    var envelope := ParseOwnedResponse(encoded, limits);
    if envelope.Err? { return Err(envelope.error); }
    if envelope.value.protocolId != op.declared { return Err(BadEnvelope); }
    if |envelope.value.controls| != |op.controls| || |envelope.value.extensions| != 0 { return Err(BadEnvelope); }
    return Ok(encoded);
  }

  // The tests that an accepted request has passed.
  lemma AcceptedRequest(id: int, op: Request, limits: Limits)
    requires Fits(RequestPacket(id, op)) && EncodeRequest(id, op, limits).Ok?
    ensures var message := EncodeRequest(id, op, limits).value;
            && message == EncodePacket(RequestPacket(id, op))
            && |message| <= limits.maxFrameBytes
            && ParseMessage(message, limits).Ok?
            && var r := ParseMessage(message, limits).value;
               r.protocolId == op.declared && |r.controls| == |op.controls| && r.extensions == []
  {
  }
}
