/** What the envelope parser accepts: exactly the messages laid out as section
    4.1.1 of RFC 4511 says, inside the limits; and from that, exactly when a
    request is accepted for sending and what it is read back as. */
module EnvelopeLayout {
  import opened BerTypes
  import opened BerIdentifier
  import opened BerTree
  import opened BerInteger
  import opened BerCursor
  import opened BerPacket
  import opened Envelope

  // ------------------------------------------------------------------- layouts

  // The parts of a message: the octets of its ID, its operation, and its controls
  // field and extensions as trees.
  datatype Layout = Layout(idContents: bytes, protocol: Element, controls: Option<seq<Tree>>, extensions: seq<Tree>)

  function ElementOf(t: Tree): Element
    requires Sized(t)
  {
    Element(t.id, ContentsOf(t), Encode(t))
  }

  function ElementsOf(ts: seq<Tree>): (es: seq<Element>)
    requires SizedAll(ts)
    ensures |es| == |ts|
  {
    if ts == [] then [] else [ElementOf(ts[0])] + ElementsOf(ts[1..])
  }

  predicate ControlsSized(cs: Option<seq<Tree>>) { cs.Some? ==> SizedAll(cs.value) }

  function ControlOctets(cs: Option<seq<Tree>>): bytes
    requires ControlsSized(cs)
  {
    if cs.None? then [] else Wrap(CONTROLS, EncodeAll(cs.value))
  }

  function ControlElements(cs: Option<seq<Tree>>): seq<Element>
    requires ControlsSized(cs)
  {
    if cs.None? then [] else ElementsOf(cs.value)
  }

  // Elements that the controls field is charged for.
  function ControlCount(cs: Option<seq<Tree>>): nat
  {
    if cs.None? then 0 else 1 + CountAll(cs.value)
  }

  ghost predicate AllSequences(ts: seq<Tree>) { forall k :: 0 <= k < |ts| ==> ts[k].id == SEQUENCE }

  ghost predicate NoControlsField(ts: seq<Tree>) { forall k :: 0 <= k < |ts| ==> ts[k].id != CONTROLS }

  // The controls field and the extensions after it, in a scope of the given depth.
  ghost predicate TailWithin(cs: Option<seq<Tree>>, es: seq<Tree>, depth: nat, elements: nat, limits: Limits)
  {
    && depth <= limits.maxDepth
    && (cs.Some? ==> depth < limits.maxDepth && WithinAll(cs.value, limits, limits.maxDepth - depth - 1) && AllSequences(cs.value))
    && WithinAll(es, limits, limits.maxDepth - depth) && NoControlsField(es)
    && elements + ControlCount(cs) + CountAll(es) <= limits.maxElements
  }

  predicate IsElement(e: Element, maxTag: uint32)
  {
    TagAllowed(e.id, maxTag) && |e.value| <= MAX_INT && e.raw == Wrap(e.id, e.value)
  }

  // The message ID, the operation and the tail are in order.
  ghost predicate PartsWithin(l: Layout, depth: nat, elements: nat, limits: Limits)
  {
    && |l.idContents| <= MAX_INT
    && ParseInteger(l.idContents, limits.maxIntegerBytes, INT64).Ok?
    && 0 <= ParseInteger(l.idContents, limits.maxIntegerBytes, INT64).value <= MAX_MESSAGE_ID
    && IsElement(l.protocol, limits.maxTagNumber) && l.protocol.id.cls == APPLICATION
    && TailWithin(l.controls, l.extensions, depth, elements + 2, limits)
  }

  function Tail(l: Layout): bytes
    requires ControlsSized(l.controls) && SizedAll(l.extensions)
  {
    ControlOctets(l.controls) + EncodeAll(l.extensions)
  }

  function Contents(l: Layout): bytes
    requires |l.idContents| <= MAX_INT && ControlsSized(l.controls) && SizedAll(l.extensions)
  {
    Wrap(INTEGER, l.idContents) + (l.protocol.raw + Tail(l))
  }

  function Parts(l: Layout, limits: Limits): Response
    requires ParseInteger(l.idContents, limits.maxIntegerBytes, INT64).Ok? && ControlsSized(l.controls) && SizedAll(l.extensions)
  {
    Response(ParseInteger(l.idContents, limits.maxIntegerBytes, INT64).value, l.protocol.id, [], l.protocol.raw,
             ControlElements(l.controls), ElementsOf(l.extensions))
  }

  // message is laid out as l, inside the limits.
  ghost predicate IsLayout(message: bytes, l: Layout, limits: Limits)
  {
    && limits.Valid() && |message| <= limits.maxFrameBytes
    && PartsWithin(l, 1, 1, limits)
    && |Contents(l)| <= MAX_INT && message == Wrap(SEQUENCE, Contents(l))
  }

  // ---------------------------------------------------- elements, one after another

  lemma SkipBack(t: Tree, rest: bytes, depth: nat, elements: nat, limits: Limits)
    requires depth <= limits.maxDepth && Within(t, limits, limits.maxDepth - depth) && elements + Count(t) <= limits.maxElements
    ensures Skip(Cursor(Encode(t) + rest, depth, elements), limits) == Ok((ElementOf(t), Cursor(rest, depth, elements + Count(t))))
    ensures Peek(Cursor(Encode(t) + rest, depth, elements), limits) == Ok(t.id)
  {
    SkipComplete(t, rest, depth, elements, limits);
    PeekBack(t.id, ContentsOf(t), rest, depth, elements, limits);
    hide SkipSpec, Peek;
    assert (Encode(t) + rest)[|Encode(t)|..] == rest;
  }

  lemma SkipSound(c: Cursor, limits: Limits) returns (t: Tree)
    requires c.depth <= limits.maxDepth && c.elements <= limits.maxElements && |c.rest| <= MAX_INT && Skip(c, limits).Ok?
    ensures Within(t, limits, limits.maxDepth - c.depth) && c.elements + Count(t) <= limits.maxElements
    ensures var (e, next) := Skip(c, limits).value;
            e == ElementOf(t) && c.rest == Encode(t) + next.rest && next == Cursor(next.rest, c.depth, c.elements + Count(t))
    ensures Peek(c, limits) == Ok(t.id)
  {
    t := ValidateOneSound(c.rest, c.depth, c.elements, limits);
    var (e, next) := Skip(c, limits).value;
    assert c.rest == c.rest[..|e.raw|] + c.rest[|e.raw|..];
    SkipBack(t, next.rest, c.depth, c.elements, limits);
    hide SkipSpec, Peek;
    assert Cursor(Encode(t) + next.rest, c.depth, c.elements) == c;
  }

  lemma {:induction false} ControlsBack(ts: seq<Tree>, depth: nat, elements: nat, limits: Limits)
    requires depth <= limits.maxDepth && WithinAll(ts, limits, limits.maxDepth - depth) && AllSequences(ts)
    requires elements + CountAll(ts) <= limits.maxElements
    ensures ParseControls(Cursor(EncodeAll(ts), depth, elements), limits) == Ok((ElementsOf(ts), elements + CountAll(ts)))
  {
    hide ParseControls, Skip, ElementOf;
    var c := Cursor(EncodeAll(ts), depth, elements);
    if ts == [] {
      NoControls(c, limits);
    } else {
      SkipBack(ts[0], EncodeAll(ts[1..]), depth, elements, limits);
      ControlsTurn(c, limits);
      ControlsBack(ts[1..], depth, elements + Count(ts[0]), limits);
      assert ElementOf(ts[0]).id == SEQUENCE by { ElementIds(ts[0]); }
    }
  }

  lemma ElementIds(t: Tree)
    requires Sized(t)
    ensures ElementOf(t).id == t.id && ElementOf(t).raw == Encode(t)
  {
  }

  lemma {:induction false} ControlsSound(c: Cursor, limits: Limits) returns (ts: seq<Tree>)
    requires c.depth <= limits.maxDepth && c.elements <= limits.maxElements && |c.rest| <= MAX_INT && ParseControls(c, limits).Ok?
    ensures WithinAll(ts, limits, limits.maxDepth - c.depth) && AllSequences(ts) && c.rest == EncodeAll(ts)
    ensures ParseControls(c, limits) == Ok((ElementsOf(ts), c.elements + CountAll(ts)))
    ensures c.elements + CountAll(ts) <= limits.maxElements
    decreases |c.rest|
  {
    hide ParseControls, Skip, Peek, ElementOf;
    if c.rest == [] {
      NoControls(c, limits);
      ts := [];
    } else {
      ControlsTurn(c, limits);
      var t := SkipSound(c, limits);
      ElementIds(t);
      var next := Skip(c, limits).value.1;
      var tail := ControlsSound(next, limits);
      ts := [t] + tail;
      assert ts[1..] == tail;
    }
  }

  lemma {:induction false} ExtensionsBack(ts: seq<Tree>, depth: nat, elements: nat, limits: Limits)
    requires depth <= limits.maxDepth && WithinAll(ts, limits, limits.maxDepth - depth) && NoControlsField(ts)
    requires elements + CountAll(ts) <= limits.maxElements
    ensures ParseExtensions(Cursor(EncodeAll(ts), depth, elements), limits) == Ok(ElementsOf(ts))
  {
    hide ParseExtensions, Skip, Peek, ElementOf;
    var c := Cursor(EncodeAll(ts), depth, elements);
    if ts == [] {
      NoExtensions(c, limits);
    } else {
      SkipBack(ts[0], EncodeAll(ts[1..]), depth, elements, limits);
      ExtensionsTurn(c, limits);
      ExtensionsBack(ts[1..], depth, elements + Count(ts[0]), limits);
    }
  }

  lemma {:induction false} ExtensionsSound(c: Cursor, limits: Limits) returns (ts: seq<Tree>)
    requires c.depth <= limits.maxDepth && c.elements <= limits.maxElements && |c.rest| <= MAX_INT && ParseExtensions(c, limits).Ok?
    ensures WithinAll(ts, limits, limits.maxDepth - c.depth) && NoControlsField(ts) && c.rest == EncodeAll(ts)
    ensures ParseExtensions(c, limits) == Ok(ElementsOf(ts)) && c.elements + CountAll(ts) <= limits.maxElements
    decreases |c.rest|
  {
    hide ParseExtensions, Skip, Peek, ElementOf;
    if c.rest == [] {
      NoExtensions(c, limits);
      ts := [];
    } else {
      ExtensionsTurn(c, limits);
      var t := SkipSound(c, limits);
      var next := Skip(c, limits).value.1;
      var tail := ExtensionsSound(next, limits);
      ts := [t] + tail;
      assert ts[1..] == tail;
    }
  }

  // ------------------------------------------------------------------ the envelope

  // The tail of a scope, by its first identifier.
  lemma TailTurn(c: Cursor, limits: Limits)
    requires c.rest != [] && Peek(c, limits).Ok?
    ensures Peek(c, limits).value != CONTROLS && ParseExtensions(c, limits).Ok? ==>
              ParseTail(c, limits) == Ok(([], ParseExtensions(c, limits).value))
    ensures Peek(c, limits).value == CONTROLS && Enter(c, CONTROLS, limits).Ok? ==>
              var (scope, tail) := Enter(c, CONTROLS, limits).value;
              ParseControls(scope, limits).Ok? ==>
                var (cs, n) := ParseControls(scope, limits).value;
                ParseExtensions(Cursor(tail, c.depth, n), limits).Ok? ==>
                  ParseTail(c, limits) == Ok((cs, ParseExtensions(Cursor(tail, c.depth, n), limits).value))
  {
  }

  lemma ControlsTag(maxTag: uint32, ts: seq<Tree>)
    requires SizedAll(ts)
    ensures TagAllowed(CONTROLS, maxTag) && CONTROLS.constructed && SizeAll(ts) <= MAX_INT
  {
  }

  lemma ControlsTailBack(ts: seq<Tree>, es: seq<Tree>, depth: nat, elements: nat, limits: Limits)
    requires depth < limits.maxDepth && WithinAll(ts, limits, limits.maxDepth - depth - 1) && AllSequences(ts)
    requires WithinAll(es, limits, limits.maxDepth - depth) && NoControlsField(es) && SizedAll(ts) && SizedAll(es)
    requires elements + 1 + CountAll(ts) + CountAll(es) <= limits.maxElements
    ensures ParseTail(Cursor(Wrap(CONTROLS, EncodeAll(ts)) + EncodeAll(es), depth, elements), limits) == Ok((ElementsOf(ts), ElementsOf(es)))
  {
    hide *;
    ControlsTag(limits.maxTagNumber, ts);
    var inner, tail := EncodeAll(ts), EncodeAll(es);
    var c := Cursor(Wrap(CONTROLS, inner) + tail, depth, elements);
    PeekBack(CONTROLS, inner, tail, depth, elements, limits);
    EnterBack(CONTROLS, inner, tail, depth, elements, limits);
    ControlsBack(ts, depth + 1, elements + 1, limits);
    ExtensionsBack(es, depth, elements + 1 + CountAll(ts), limits);
    TailTurn(c, limits);
  }

  lemma PlainTailBack(es: seq<Tree>, depth: nat, elements: nat, limits: Limits)
    requires TailWithin(None, es, depth, elements, limits)
    ensures ParseTail(Cursor(EncodeAll(es), depth, elements), limits) == Ok(([], ElementsOf(es)))
  {
    hide Peek, Enter, ParseControls, ParseExtensions, Wrap, ElementOf, Encode;
    if es != [] {
      SkipBack(es[0], EncodeAll(es[1..]), depth, elements, limits);
      hide ParseTail;
      ExtensionsBack(es, depth, elements, limits);
      TailTurn(Cursor(EncodeAll(es), depth, elements), limits);
    }
  }

  lemma TailBack(cs: Option<seq<Tree>>, es: seq<Tree>, depth: nat, elements: nat, limits: Limits)
    requires TailWithin(cs, es, depth, elements, limits)
    ensures ParseTail(Cursor(ControlOctets(cs) + EncodeAll(es), depth, elements), limits) == Ok((ControlElements(cs), ElementsOf(es)))
  {
    hide ParseTail, EncodeAll, ElementsOf, Wrap, CountAll, ShapedAll, SizeAll;
    if cs.Some? {
      ControlsTailBack(cs.value, es, depth, elements, limits);
    } else {
      assert [] + EncodeAll(es) == EncodeAll(es);
      PlainTailBack(es, depth, elements, limits);
    }
  }

  lemma TailSound(c: Cursor, limits: Limits) returns (cs: Option<seq<Tree>>, es: seq<Tree>)
    requires c.depth <= limits.maxDepth && c.elements <= limits.maxElements && |c.rest| <= MAX_INT && ParseTail(c, limits).Ok?
    ensures TailWithin(cs, es, c.depth, c.elements, limits) && c.rest == ControlOctets(cs) + EncodeAll(es)
    ensures ParseTail(c, limits) == Ok((ControlElements(cs), ElementsOf(es)))
  {
    hide Peek, Enter, ParseControls, ParseExtensions, Count, Encode, Wrap, ElementOf;
    cs, es := None, [];
    if c.rest == [] {
    } else if Peek(c, limits) == Ok(CONTROLS) {
      EnterSound(c, CONTROLS, limits);
      var (scope, tail) := Enter(c, CONTROLS, limits).value;
      var ts := ControlsSound(scope, limits);
      es := ExtensionsSound(Cursor(tail, c.depth, ParseControls(scope, limits).value.1), limits);
      cs := Some(ts);
    } else {
      es := ExtensionsSound(c, limits);
      assert [] + EncodeAll(es) == EncodeAll(es);
    }
  }

  lemma ReadOperation(e: Element, rest: bytes, depth: nat, elements: nat, limits: Limits)
    requires IsElement(e, limits.maxTagNumber) && elements < limits.maxElements
    ensures var c := Cursor(e.raw + rest, depth, elements);
            ReadSpec(c.rest, elements, limits) == Ok(e) && BerCursor.After(c, e) == Cursor(rest, depth, elements + 1)
  {
    ParseElementComplete(e.id, e.value, rest, limits.maxTagNumber);
    hide ParseElement, Wrap;
    assert (e.raw + rest)[|e.raw|..] == rest;
  }

  lemma ReadId(idContents: bytes, rest: bytes, depth: nat, elements: nat, limits: Limits)
    requires |idContents| <= MAX_INT && elements < limits.maxElements && ParseInteger(idContents, limits.maxIntegerBytes, INT64).Ok?
    ensures ReadInteger(Cursor(Wrap(INTEGER, idContents) + rest, depth, elements), INTEGER, limits)
         == Ok((ParseInteger(idContents, limits.maxIntegerBytes, INT64).value, Cursor(rest, depth, elements + 1)))
  {
    hide ParseInteger;
    ReadPrimitiveBack(INTEGER, idContents, rest, depth, elements, limits);
    hide ReadPrimitive;
  }

  lemma ContentsBack(l: Layout, depth: nat, elements: nat, limits: Limits)
    requires PartsWithin(l, depth, elements, limits) && |Contents(l)| <= MAX_INT
    ensures ParseContents(Cursor(Contents(l), depth, elements), limits) == Ok(Parts(l, limits))
  {
    hide ReadInteger, ReadSpec, ParseTail, ParseInteger, Wrap, EncodeAll, ElementsOf, ControlOctets, CountAll, IsElement, ControlElements;
    ReadId(l.idContents, l.protocol.raw + Tail(l), depth, elements, limits);
    ReadOperation(l.protocol, Tail(l), depth, elements + 1, limits);
    TailBack(l.controls, l.extensions, depth, elements + 2, limits);
  }

  lemma ContentsSound(c: Cursor, limits: Limits) returns (l: Layout)
    requires c.depth <= limits.maxDepth && c.elements <= limits.maxElements && |c.rest| <= MAX_INT && ParseContents(c, limits).Ok?
    ensures PartsWithin(l, c.depth, c.elements, limits) && c.rest == Contents(l)
    ensures ParseContents(c, limits) == Ok(Parts(l, limits))
  {
    var (id, next) := ReadInteger(c, INTEGER, limits).value;
    ReadPrimitiveSound(c, INTEGER, limits);
    var idContents := ReadPrimitive(c, INTEGER, limits).value.0;
    hide ReadPrimitive, ParseInteger;
    var p := ReadSpec(next.rest, next.elements, limits).value;
    ParseElementSound(next.rest, limits.maxTagNumber);
    StandsAlone(next.rest, limits.maxTagNumber);
    hide ReadInteger, ParseElement, ParseTail, Wrap, ControlOctets, EncodeAll, CountAll;
    var cs, es := TailSound(BerCursor.After(next, p), limits);
    l := Layout(idContents, p, cs, es);
  }

  /** A message is accepted exactly when it is laid out as section 4.1.1 of RFC 4511
      says inside the limits, and the response then has exactly the parts of that
      layout. */
  lemma AcceptedIffLaidOut(message: bytes, limits: Limits)
    requires |message| <= MAX_INT
    ensures ParseMessage(message, limits).Ok? <==> exists l :: IsLayout(message, l, limits)
    ensures forall l :: IsLayout(message, l, limits) ==> ParseMessage(message, limits) == Ok(Parts(l, limits).(message := message))
  {
    hide Contents, Parts, ParseContents, Enter, Wrap, ParseMessage;
    if ParseMessage(message, limits).Ok? { var l := MessageSound(message, limits); }
    forall l | IsLayout(message, l, limits) ensures ParseMessage(message, limits) == Ok(Parts(l, limits).(message := message)) {
      MessageBack(message, l, limits);
    }
  }

  // The first tests of the parser, for an envelope that fills the message.
  lemma MessageTurn(contents: bytes, limits: Limits)
    requires |contents| <= MAX_INT && limits.Valid() && |Wrap(SEQUENCE, contents)| <= limits.maxFrameBytes
    ensures var message := Wrap(SEQUENCE, contents);
            ParseContents(Cursor(contents, 1, 1), limits).Ok? ==>
              ParseMessage(message, limits) == Ok(ParseContents(Cursor(contents, 1, 1), limits).value.(message := message))
  {
    hide ParseContents, Enter, Wrap;
    assert Wrap(SEQUENCE, contents) + [] == Wrap(SEQUENCE, contents);
    EnterBack(SEQUENCE, contents, [], 0, 0, limits);
  }

  lemma MessageBack(message: bytes, l: Layout, limits: Limits)
    requires IsLayout(message, l, limits)
    ensures ParseMessage(message, limits) == Ok(Parts(l, limits).(message := message))
  {
    hide Contents, Parts, ParseContents, ParseMessage, Wrap, ParseInteger, IsElement, ShapedAll, SizeAll, CountAll;
    MessageTurn(Contents(l), limits);
    ContentsBack(l, 1, 1, limits);
  }

  lemma MessageSound(message: bytes, limits: Limits) returns (l: Layout)
    requires |message| <= MAX_INT && ParseMessage(message, limits).Ok?
    ensures IsLayout(message, l, limits) && ParseMessage(message, limits) == Ok(Parts(l, limits).(message := message))
  {
    var c := Cursor(message, 0, 0);
    EnterSound(c, SEQUENCE, limits);
    var (scope, tail) := Enter(c, SEQUENCE, limits).value;
    hide Enter, Wrap, ParseContents, PartsWithin, Parts, Contents;
    assert Wrap(SEQUENCE, scope.rest) + [] == Wrap(SEQUENCE, scope.rest);
    l := ContentsSound(scope, limits);
  }

  // ------------------------------------------------------- what a request looks like

  // A packet that prints exactly one element.
  predicate SingleElement(data: bytes, maxTag: uint32)
  {
    var r := ParseElement(data, maxTag);
    r.Ok? && r.value.raw == data
  }

  predicate WellFormedRequest(op: Request, limits: Limits)
  {
    && Fits(op.protocol) && SingleElement(EncodePacket(op.protocol), limits.maxTagNumber)
    && PacketSizeAll(op.controls) <= MAX_INT
    && forall k :: 0 <= k < |op.controls| ==>
         Fits(op.controls[k]) && SingleElement(EncodePacket(op.controls[k]), limits.maxTagNumber)
  }

  // Two ways of reading the same front element agree on it and on what follows.
  lemma WrapFront(id: Identifier, a: bytes, b: bytes, x: bytes, y: bytes, maxTag: uint32)
    requires TagAllowed(id, maxTag) && |a| <= MAX_INT && |b| <= MAX_INT
    requires Wrap(id, a) + x == Wrap(id, b) + y
    ensures a == b && x == y
  {
    ParseElementComplete(id, a, x, maxTag);
    ParseElementComplete(id, b, y, maxTag);
    hide ParseElement, Wrap;
    Cut(Wrap(id, a), x, y);
  }

  lemma Cut(w: bytes, x: bytes, y: bytes)
    requires w + x == w + y
    ensures x == y
  {
    assert x == (w + x)[|w|..] && y == (w + y)[|w|..];
  }

  // Equal elements have equal contents.
  lemma WrapInjective(id: Identifier, a: bytes, b: bytes, maxTag: uint32)
    requires TagAllowed(id, maxTag) && |a| <= MAX_INT && |b| <= MAX_INT && Wrap(id, a) == Wrap(id, b)
    ensures a == b
  {
    hide Wrap;
    WrapFront(id, a, b, [], [], maxTag);
  }

  lemma SingleFront(a: bytes, b: bytes, x: bytes, y: bytes, maxTag: uint32)
    requires SingleElement(a, maxTag) && SingleElement(b, maxTag) && a + x == b + y
    ensures a == b && x == y
  {
    var e, f := ParseElement(a, maxTag).value, ParseElement(b, maxTag).value;
    ParseElementSound(a, maxTag);
    ParseElementSound(b, maxTag);
    ParseElementComplete(e.id, e.value, x, maxTag);
    ParseElementComplete(f.id, f.value, y, maxTag);
    hide ParseElement, Wrap;
    Cut(a, x, y);
  }

  // The octets after the message ID of a request.
  function RequestRest(op: Request): bytes
    requires PacketSizeAll([op.protocol] + ControlPackets(op)) <= MAX_INT
  {
    EncodePackets([op.protocol] + ControlPackets(op))
  }

  lemma RequestOctets(id: int, op: Request)
    requires Fits(RequestPacket(id, op))
    ensures PacketSizeAll([op.protocol] + ControlPackets(op)) <= MAX_INT && |IntegerContents(id)| <= MAX_INT
    ensures var contents := Wrap(INTEGER, IntegerContents(id)) + RequestRest(op);
            |contents| <= MAX_INT && EncodePacket(RequestPacket(id, op)) == Wrap(SEQUENCE, contents)
  {
    var i, rest := PrimitivePacket(INTEGER, IntegerContents(id)), [op.protocol] + ControlPackets(op);
    var packet := RequestPacket(id, op);
    assert packet.children == [i] + rest;
    hide IntegerContents, EncodePackets, Wrap;
    EncodeCons(i, rest);
  }

  /** Whatever packets it is made of, a request that was accepted is read back with
      its own message ID, the identifier it declared, as many controls as it has, and
      no extensions. */
  lemma AcceptedHeader(id: int, op: Request, limits: Limits)
    requires Fits(RequestPacket(id, op)) && EncodeRequest(id, op, limits).Ok?
    ensures 0 <= id <= MAX_MESSAGE_ID
    ensures var message := EncodeRequest(id, op, limits).value;
            && ParseMessage(message, limits).Ok?
            && var r := ParseMessage(message, limits).value;
               && r.messageId == id && r.protocolId == op.declared && r.message == message
               && |r.controls| == |op.controls| && r.extensions == []
  {
    hide EncodeRequest, RequestPacket, ParseMessage, Wrap, ControlPackets, EncodePacket, IntegerContents, PacketSize;
    AcceptedRequest(id, op, limits);
    var message := EncodeRequest(id, op, limits).value;
    RequestOctets(id, op);
    hide RequestRest;
    var l := MessageSound(message, limits);
    hide ShapedAll, SizeAll, CountAll, IsElement, ControlElements, ElementsOf, Tail;
    WrapInjective(SEQUENCE, Contents(l), Wrap(INTEGER, IntegerContents(id)) + RequestRest(op), limits.maxTagNumber);
    WrapFront(INTEGER, l.idContents, IntegerContents(id), l.protocol.raw + Tail(l), RequestRest(op), limits.maxTagNumber);
    ContentsDenote(id);
  }

  // ------------------------------------------------ exactly when a request is accepted

  // The octets of the controls field of a request.
  ghost function ControlField(op: Request): bytes
    requires PacketSizeAll(op.controls) <= MAX_INT
  {
    if op.controls == [] then [] else Wrap(CONTROLS, EncodePackets(op.controls))
  }

  lemma RestLayout(op: Request)
    requires PacketSizeAll([op.protocol] + ControlPackets(op)) <= MAX_INT && Fits(op.protocol) && PacketSizeAll(op.controls) <= MAX_INT
    ensures RequestRest(op) == EncodePacket(op.protocol) + ControlField(op)
  {
    hide Wrap, EncodePacket, EncodePackets;
    EncodeCons(op.protocol, ControlPackets(op));
    if op.controls == [] {
      NoPackets();
    } else {
      OnePacket(ConstructedPacket(CONTROLS, op.controls));
      ControlsPacket(op.controls);
    }
  }

  lemma NoPackets()
    ensures EncodePackets([]) == []
  {
  }

  lemma OnePacket(p: Packet)
    requires PacketSizeAll([p]) <= MAX_INT
    ensures Fits(p) && EncodePackets([p]) == EncodePacket(p)
  {
  }

  lemma ControlsPacket(ps: seq<Packet>)
    requires Fits(ConstructedPacket(CONTROLS, ps)) && PacketSizeAll(ps) <= MAX_INT
    ensures EncodePacket(ConstructedPacket(CONTROLS, ps)) == Wrap(CONTROLS, EncodePackets(ps))
  {
  }

  // The controls print as these trees, one each.
  ghost predicate Print(ts: seq<Tree>, ps: seq<Packet>)
  {
    |ts| == |ps| && forall k :: 0 <= k < |ts| ==> Sized(ts[k]) && Fits(ps[k]) && Encode(ts[k]) == EncodePacket(ps[k])
  }

  lemma {:induction false} PrintAll(ts: seq<Tree>, ps: seq<Packet>)
    requires Print(ts, ps) && PacketSizeAll(ps) <= MAX_INT
    ensures SizedAll(ts) && EncodeAll(ts) == EncodePackets(ps)
  {
    hide Encode, EncodePacket, Size, PacketSize;
    if ts != [] {
      forall k | 0 <= k < |ts[1..]| ensures Sized(ts[1..][k]) && Fits(ps[1..][k]) && Encode(ts[1..][k]) == EncodePacket(ps[1..][k]) {
        assert ts[1..][k] == ts[k + 1] && ps[1..][k] == ps[k + 1];
      }
      PrintAll(ts[1..], ps[1..]);
      assert Size(ts[0]) == |Encode(ts[0])| == PacketSize(ps[0]);
    }
  }

  lemma TreeIsSingle(t: Tree, maxTag: uint32)
    requires Sized(t) && Formed(t, maxTag)
    ensures SingleElement(Encode(t), maxTag)
  {
    ParseElementComplete(t.id, ContentsOf(t), [], maxTag);
    hide ParseElement;
    assert Wrap(t.id, ContentsOf(t)) + [] == Encode(t);
  }

  lemma {:induction false} TreesMatch(ts: seq<Tree>, ps: seq<Packet>, maxTag: uint32)
    requires |ts| == |ps| && SizedAll(ts) && FormedAll(ts, maxTag) && PacketSizeAll(ps) <= MAX_INT
    requires forall k :: 0 <= k < |ps| ==> Fits(ps[k]) && SingleElement(EncodePacket(ps[k]), maxTag)
    requires EncodeAll(ts) == EncodePackets(ps)
    ensures Print(ts, ps)
  {
    hide SingleElement, Encode, EncodePacket, PacketSize, Size;
    if ts != [] {
      TreeIsSingle(ts[0], maxTag);
      SingleFront(Encode(ts[0]), EncodePacket(ps[0]), EncodeAll(ts[1..]), EncodePackets(ps[1..]), maxTag);
      assert forall k :: 0 <= k < |ps| - 1 ==> ps[1..][k] == ps[k + 1];
      TreesMatch(ts[1..], ps[1..], maxTag);
      forall k | 0 <= k < |ts| ensures Sized(ts[k]) && Encode(ts[k]) == EncodePacket(ps[k]) {
        if k > 0 { assert ts[1..][k - 1] == ts[k] && ps[1..][k - 1] == ps[k]; }
      }
    }
  }

  // The request and its controls are inside the limits, and its operation is what
  // it was declared to be.
  ghost predicate RequestFits(id: int, op: Request, ts: seq<Tree>, limits: Limits)
    requires WellFormedRequest(op, limits)
  {
    && 0 <= id <= MAX_MESSAGE_ID
    && limits.Valid() && PacketSize(RequestPacket(id, op)) <= limits.maxFrameBytes
    && |IntegerContents(id)| <= limits.maxIntegerBytes
    && ParseElement(EncodePacket(op.protocol), limits.maxTagNumber).value.id == op.declared && op.declared.cls == APPLICATION
    && Print(ts, op.controls)
    && TailWithin(if op.controls == [] then None else Some(ts), [], 1, 3, limits)
  }

  function LayoutOf(id: int, op: Request, ts: seq<Tree>, limits: Limits): Layout
    requires WellFormedRequest(op, limits)
  {
    Layout(IntegerContents(id), ParseElement(EncodePacket(op.protocol), limits.maxTagNumber).value,
           if op.controls == [] then None else Some(ts), [])
  }

  lemma FitsIsLayout(id: int, op: Request, ts: seq<Tree>, limits: Limits)
    requires WellFormedRequest(op, limits) && Fits(RequestPacket(id, op)) && RequestFits(id, op, ts, limits)
    ensures IsLayout(EncodePacket(RequestPacket(id, op)), LayoutOf(id, op, ts, limits), limits)
  {
    hide RequestPacket, EncodePacket, Wrap, IntegerContents, ControlPackets, ParseElement, EncodeAll, CountAll, PacketSize, PacketSizeAll, ShapedAll;
    IntegerRoundTrip(id, limits.maxIntegerBytes, INT64);
    ParseElementSound(EncodePacket(op.protocol), limits.maxTagNumber);
    RequestOctets(id, op);
    RestLayout(op);
    PrintAll(ts, op.controls);
    var l := LayoutOf(id, op, ts, limits);
    assert Tail(l) == ControlField(op) by { NoTrees(); }
    hide RequestRest, ControlField, Tail;
    assert l.protocol.raw == EncodePacket(op.protocol);
  }

  lemma NoTrees()
    ensures EncodeAll([]) == [] && CountAll([]) == 0
  {
  }

  lemma ElementIsSingle(e: Element, maxTag: uint32)
    requires IsElement(e, maxTag)
    ensures ParseElement(e.raw, maxTag) == Ok(e)
  {
    ParseElementComplete(e.id, e.value, [], maxTag);
    hide ParseElement, Wrap;
    assert e.raw + [] == e.raw;
  }

  // The controls field that was found is the one that was printed.
  lemma ControlsFit(op: Request, cs: Option<seq<Tree>>, limits: Limits) returns (ts: seq<Tree>)
    requires WellFormedRequest(op, limits) && TailWithin(cs, [], 1, 3, limits)
    requires ControlOctets(cs) == ControlField(op) && |ControlElements(cs)| == |op.controls|
    ensures Print(ts, op.controls) && TailWithin(if op.controls == [] then None else Some(ts), [], 1, 3, limits)
  {
    hide EncodePacket, EncodePackets, Wrap, SingleElement, EncodeAll, CountAll, PacketSizeAll, SizeAll, ShapedAll, ElementsOf;
    if op.controls == [] {
      ts := [];
    } else {
      ts := cs.value;
      WrapInjective(CONTROLS, EncodeAll(ts), EncodePackets(op.controls), limits.maxTagNumber);
      ShapedAllIsFormed(ts, limits.maxTagNumber, limits.maxDepth - 2);
      TreesMatch(ts, op.controls, limits.maxTagNumber);
    }
  }

  lemma SameParts(l: Layout, id: int, op: Request, limits: Limits)
    requires WellFormedRequest(op, limits) && Fits(RequestPacket(id, op)) && IsLayout(EncodePacket(RequestPacket(id, op)), l, limits)
    ensures l.idContents == IntegerContents(id) && l.protocol.raw == EncodePacket(op.protocol) && Tail(l) == ControlField(op)
  {
    var maxTag := limits.maxTagNumber;
    ElementIsSingle(l.protocol, maxTag);
    hide RequestPacket, EncodePacket, Wrap, IntegerContents, ControlPackets, ParseElement, PacketSize, PacketSizeAll, ParseInteger,
         SizeAll, ShapedAll, CountAll, IsElement, Tail, ControlField;
    RequestOctets(id, op);
    RestLayout(op);
    WrapInjective(SEQUENCE, Contents(l), Wrap(INTEGER, IntegerContents(id)) + RequestRest(op), maxTag);
    hide RequestRest;
    WrapFront(INTEGER, l.idContents, IntegerContents(id), l.protocol.raw + Tail(l), RequestRest(op), maxTag);
    SingleFront(l.protocol.raw, EncodePacket(op.protocol), Tail(l), ControlField(op), maxTag);
  }

  lemma AcceptedFits(id: int, op: Request, limits: Limits) returns (ts: seq<Tree>)
    requires WellFormedRequest(op, limits)
    requires Fits(RequestPacket(id, op)) && EncodeRequest(id, op, limits).Ok?
    ensures RequestFits(id, op, ts, limits)
  {
    hide RequestPacket, EncodePacket, EncodePackets, Wrap, IntegerContents, ControlPackets, ParseElement, EncodeAll, CountAll, PacketSize, PacketSizeAll,
         SizeAll, ShapedAll, ParseMessage, EncodeRequest, ElementsOf, SingleElement, ControlField, Contents, ControlElements, ControlOctets;
    AcceptedHeader(id, op, limits);
    AcceptedRequest(id, op, limits);
    var l := MessageSound(EncodeRequest(id, op, limits).value, limits);
    SameParts(l, id, op, limits);
    ElementIsSingle(l.protocol, limits.maxTagNumber);
    hide IsElement;
    assert l.extensions == [];
    assert Tail(l) == ControlOctets(l.controls) by { NoTrees(); }
    ts := ControlsFit(op, l.controls, limits);
  }

  /** encodeLDAPRequest accepts a request whose packets print one element each
      exactly when it fits the limits, controls included, and is declared as what it is. */
  lemma RequestAccepted(id: int, op: Request, limits: Limits)
    requires WellFormedRequest(op, limits) && Fits(RequestPacket(id, op))
    ensures EncodeRequest(id, op, limits).Ok? <==> exists ts :: RequestFits(id, op, ts, limits)
  {
    hide WellFormedRequest, RequestFits, IsLayout, LayoutOf, RequestPacket, Fits, EncodeRequest;
    if EncodeRequest(id, op, limits).Ok? { var ts := AcceptedFits(id, op, limits); }
    if ts :| RequestFits(id, op, ts, limits) { FitsAccepted(id, op, ts, limits); }
  }

  lemma FitsAccepted(id: int, op: Request, ts: seq<Tree>, limits: Limits)
    requires WellFormedRequest(op, limits) && Fits(RequestPacket(id, op)) && RequestFits(id, op, ts, limits)
    ensures EncodeRequest(id, op, limits) == Ok(EncodePacket(RequestPacket(id, op)))
  {
    hide ParseMessage, IsLayout, RequestPacket, SingleElement, IntegerContents, ParseElement, PacketSize, ParseInteger;
    FitsIsLayout(id, op, ts, limits);
    var l := LayoutOf(id, op, ts, limits);
    MessageBack(EncodePacket(RequestPacket(id, op)), l, limits);
  }

  // The response an arriving request is parsed into.
  ghost predicate Carries(r: Response, id: int, op: Request, limits: Limits)
    requires WellFormedRequest(op, limits)
  {
    && r.messageId == id
    && r.protocolId == op.declared
    && r.protocol == EncodePacket(op.protocol)
    && |r.controls| == |op.controls|
    && (forall k :: 0 <= k < |op.controls| ==> r.controls[k].raw == EncodePacket(op.controls[k]))
    && r.extensions == []
  }

  /** A request that encodeLDAPRequest accepts comes back out of the envelope
      parser with its message ID, protocol bytes and control bytes. */
  lemma RequestRoundTrip(id: int, op: Request, limits: Limits)
    requires WellFormedRequest(op, limits)
    requires Fits(RequestPacket(id, op)) && EncodeRequest(id, op, limits).Ok?
    ensures var message := EncodeRequest(id, op, limits).value;
            && ParseMessage(message, limits).Ok?
            && ParseMessage(message, limits).value.message == message
            && Carries(ParseMessage(message, limits).value, id, op, limits)
  {
    hide ParseMessage, EncodeRequest, RequestPacket, SingleElement, IntegerContents, EncodePacket, PacketSize, PacketSizeAll, Encode, ElementsOf,
         EncodePackets, EncodeAll, ParseElement, Wrap, ParseInteger, CountAll, ShapedAll, SizeAll, IsElement, Contents;
    var ts := AcceptedFits(id, op, limits);
    AcceptedHeader(id, op, limits);
    FitsIsLayout(id, op, ts, limits);
    FitsAccepted(id, op, ts, limits);
    var l := LayoutOf(id, op, ts, limits);
    MessageBack(EncodePacket(RequestPacket(id, op)), l, limits);
    SameParts(l, id, op, limits);
    if op.controls != [] {
      forall k | 0 <= k < |ts| ensures ElementsOf(ts)[k].raw == EncodePacket(op.controls[k]) { ElementAt(ts, k); }
    }
  }

  lemma {:induction false} ElementAt(ts: seq<Tree>, k: nat)
    requires SizedAll(ts) && k < |ts|
    ensures Sized(ts[k]) && ElementsOf(ts)[k] == ElementOf(ts[k])
  {
    hide Encode, Size;
    if k > 0 { ElementAt(ts[1..], k - 1); }
  }
}
