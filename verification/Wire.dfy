/** The read loop of connection.go without routing: frames from the stream, one
    envelope for each, until the first failure. */
module Wire {
  import opened BerTypes
  import opened BerTree
  import opened BerPacket
  import opened BerFramer
  import opened Envelope
  import opened EnvelopeLayout

  // The responses a stream delivers before the read loop gives up.
  function Delivered(input: bytes, limits: Limits): (rs: seq<Response>)
    decreases |input|
  {
    match FrontElement(input, limits)
    case None => []
    case Some(frame) =>
      match ParseMessage(frame, limits)
      case Err(_) => []
      case Ok(r) => [r] + Delivered(input[|frame|..], limits)
  }

  lemma DeliveredTurn(input: bytes, limits: Limits)
    ensures var f := FrontElement(input, limits);
            && (f == None ==> Delivered(input, limits) == [])
            && (f.Some? && ParseMessage(f.value, limits).Err? ==> Delivered(input, limits) == [])
            && (f.Some? && ParseMessage(f.value, limits).Ok? ==>
                  Delivered(input, limits) == [ParseMessage(f.value, limits).value] + Delivered(input[|f.value|..], limits))
  {
  }

  method ReadLoop(framer: Framer) returns (rs: seq<Response>)
    requires framer.limits.maxFrameBytes <= MAX_INT
    modifies framer`input
    ensures rs == Delivered(old(framer.input), framer.limits)
  {
    hide Delivered, FrontElement, ParseMessage, HeaderSizes;
    rs := [];
    var limits := framer.limits;
    ghost var goal := Delivered(framer.input, limits);
    assert [] + goal == goal;
    while true
      invariant goal == rs + Delivered(framer.input, limits)
      decreases |framer.input|
    {
      ghost var input := framer.input;
      DeliveredTurn(input, limits);
      var frame := framer.Next();
      if !frame.Framed? { break; }
      var response := ParseOwnedResponse(frame.frame, limits);
      if response.Err? { break; }
      assert (rs + [response.value]) + Delivered(framer.input, limits) == rs + ([response.value] + Delivered(framer.input, limits));
      rs := rs + [response.value];
    }
    assert rs + [] == rs;
  }

  // ------------------------------------------------------- messages back to back

  function Joined(ms: seq<bytes>): bytes
  {
    if ms == [] then [] else ms[0] + Joined(ms[1..])
  }

  ghost predicate AllParse(ms: seq<bytes>, limits: Limits)
  {
    forall k :: 0 <= k < |ms| ==> |ms[k]| <= MAX_INT && ParseMessage(ms[k], limits).Ok?
  }

  ghost function Parsed(ms: seq<bytes>, limits: Limits): (rs: seq<Response>)
    requires AllParse(ms, limits)
    ensures |rs| == |ms|
  {
    seq(|ms|, k requires 0 <= k < |ms| => ParseMessage(ms[k], limits).value)
  }

  // A message that parses is the front element of any stream that begins with it.
  lemma MessageIsFrame(m: bytes, rest: bytes, limits: Limits)
    requires |m| <= MAX_INT && ParseMessage(m, limits).Ok?
    ensures |m| >= 2 && ParseElement(m + rest, limits.maxTagNumber).Ok? && ParseElement(m + rest, limits.maxTagNumber).value.raw == m
    ensures FrontElement(m + rest, limits) == Some(m)
  {
    hide ParseMessage, ParseElement, Wrap, PartsWithin;
    var l := MessageSound(m, limits);
    ParseElementComplete(SEQUENCE, Contents(l), rest, limits.maxTagNumber);
  }

  /** Any messages that parse, written back to back, are delivered one by one as
      what they parse as, whatever follows on the stream. */
  lemma {:induction false} StreamDelivers(ms: seq<bytes>, rest: bytes, limits: Limits)
    requires AllParse(ms, limits)
    ensures Delivered(Joined(ms) + rest, limits) == Parsed(ms, limits) + Delivered(rest, limits)
  {
    hide ParseMessage, FrontElement, Delivered;
    if ms == [] {
      assert Joined(ms) + rest == rest;
    } else {
      var m, input := ms[0], Joined(ms) + rest;
      assert input == m + (Joined(ms[1..]) + rest);
      MessageIsFrame(m, Joined(ms[1..]) + rest, limits);
      StreamDelivers(ms[1..], rest, limits);
      DeliveredTurn(input, limits);
      assert input[|m|..] == Joined(ms[1..]) + rest;
      assert Parsed(ms, limits) == [ParseMessage(m, limits).value] + Parsed(ms[1..], limits);
    }
  }

  /** What is only a part of a message is never delivered. */
  lemma PartDeliversNothing(m: bytes, n: nat, limits: Limits)
    requires |m| <= MAX_INT && ParseMessage(m, limits).Ok? && n < |m|
    ensures Delivered(m[..n], limits) == []
  {
    hide ParseMessage, ParseElement;
    if FrontElement(m[..n], limits).Some? {
      var e := ParseElement(m[..n], limits.maxTagNumber).value;
      ParseElementSound(m[..n], limits.maxTagNumber);
      assert e.raw + m[|e.raw|..] == m;
      ParseElementComplete(e.id, e.value, m[|e.raw|..], limits.maxTagNumber);
      assert m + [] == m;
      MessageIsFrame(m, [], limits);
      assert false;
    }
  }

  // -------------------------------------------------------------- accepted requests

  datatype Outgoing = Outgoing(id: int, op: Request)

  ghost predicate Accepted(s: Outgoing, limits: Limits)
  {
    && WellFormedRequest(s.op, limits)
    && Fits(RequestPacket(s.id, s.op))
    && EncodeRequest(s.id, s.op, limits).Ok?
  }

  ghost function Octets(s: Outgoing, limits: Limits): bytes
    requires Accepted(s, limits)
  {
    EncodeRequest(s.id, s.op, limits).value
  }

  ghost function Messages(sent: seq<Outgoing>, limits: Limits): (ms: seq<bytes>)
    requires forall k :: 0 <= k < |sent| ==> Accepted(sent[k], limits)
    ensures |ms| == |sent|
  {
    seq(|sent|, k requires 0 <= k < |sent| => Octets(sent[k], limits))
  }

  /** Any run of accepted requests written back to back is delivered in order:
      the same message IDs, protocol bytes and control bytes, each frame the
      request's own octets, whatever follows on the stream. */
  lemma StreamRoundTrip(sent: seq<Outgoing>, rest: bytes, limits: Limits)
    requires forall k :: 0 <= k < |sent| ==> Accepted(sent[k], limits)
    ensures var rs := Delivered(Joined(Messages(sent, limits)) + rest, limits);
            && |rs| == |sent| + |Delivered(rest, limits)|
            && rs[|sent|..] == Delivered(rest, limits)
            && forall k :: 0 <= k < |sent| ==>
                 Carries(rs[k], sent[k].id, sent[k].op, limits) && rs[k].message == Octets(sent[k], limits)
  {
    hide Octets, Accepted, Carries, ParseMessage, Delivered;
    var ms := Messages(sent, limits);
    forall k | 0 <= k < |ms|
      ensures |ms[k]| <= MAX_INT && ParseMessage(ms[k], limits).Ok? && OneCarries(ParseMessage(ms[k], limits).value, sent[k], limits)
    {
      OneRequest(sent[k], limits);
    }
    StreamDelivers(ms, rest, limits);
  }

  ghost predicate OneCarries(r: Response, s: Outgoing, limits: Limits)
    requires Accepted(s, limits)
  {
    Carries(r, s.id, s.op, limits) && r.message == Octets(s, limits)
  }

  lemma OneRequest(s: Outgoing, limits: Limits)
    requires Accepted(s, limits)
    ensures |Octets(s, limits)| <= MAX_INT && ParseMessage(Octets(s, limits), limits).Ok?
    ensures OneCarries(ParseMessage(Octets(s, limits), limits).value, s, limits)
  {
    hide ParseMessage, EncodeRequest, RequestPacket;
    AcceptedRequest(s.id, s.op, limits);
    RequestRoundTrip(s.id, s.op, limits);
  }
}
