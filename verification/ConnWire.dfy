/** What a connection writes, in every run: whole messages one after another, each
    the request of its operation or one of the connection's own, and what a reader
    of the wire makes of them. */
module ConnWire {
  import opened BerTypes
  import opened BerTree
  import opened Envelope
  import opened EnvelopeLayout
  import opened Wire
  import opened ConnMessages
  import opened ConnCore
  import opened ConnOps
  import opened ConnMachine
  import opened ConnInv
  import opened ConnWorkers
  import opened ConnHistory
  import opened ConnRuns
  import opened ConnClaims

  // --------------------------------------------------------------- blocks on the wire

  ghost predicate AppearsAt(wire: bytes, at: nat, m: bytes)
  {
    at + |m| <= |wire| && wire[at..at + |m|] == m
  }

  // The block of one call sits after the blocks of the earlier ones.
  lemma {:induction false} BlockInPlace(calls: seq<Call>, c: nat)
    requires c < |calls| && calls[c].accepted <= |calls[c].message|
    ensures AppearsAt(WireOf(calls), |WireOf(calls[..c])|, calls[c].message[..calls[c].accepted])
    decreases |calls|
  {
    var n := |calls| - 1;
    var rest := calls[..n];
    if c < n {
      BlockInPlace(rest, c);
      assert rest[..c] == calls[..c];
    }
  }

  /** The wire is the accepted prefixes of the writeAll calls, one call after the
      other, and no goroutine makes two; a partial block was reported ambiguous.
      A write reported as sent has put its whole
      message on the wire in one piece; an operation whose write, or whose
      retirement, was reported definitely unsent has put nothing there. */
  lemma WireOutcomes(states: seq<State>, events: seq<Event>, n: nat, i: nat)
    requires IsRun(states, events) && n < |states| && i < |states[n].core.ops|
    ensures states[n].wire == WireOf(states[n].calls)
    ensures forall c, d :: 0 <= c < d < |states[n].calls| ==> states[n].calls[c].owner != states[n].calls[d].owner
    ensures forall c :: 0 <= c < |states[n].calls| ==> CallOk(states[n].calls[c])
    ensures var s, p := states[n], states[n].core.ops[i];
            && (p.wrote == Some(Sent) ==> p.message.Some? && exists at: nat :: AppearsAt(s.wire, at, p.message.value))
            && (p.wrote == Some(Unsent(DefinitelyUnsent)) || ReportedUnsent(p) ==>
                  forall c :: 0 <= c < |s.calls| && s.calls[c].owner == Doing(i) ==> s.calls[c].accepted == 0)
  {
    hide Encoding;
    hide IsRun, CoreInv, OwnedInv, TokenInv, BusyInv, LastInv, TasksInv, AbandonCallsInv, SpoiledInv, UnbindCallsInv, ReadyInv, WireOf, AppearsAt;
    RunInv(states, events, n);
    var s, p := states[n], states[n].core.ops[i];
    OpFact(s.core, i);
    if p.wrote == Some(Sent) {
      assert HasCall(s.calls, Doing(i));
      var c :| 0 <= c < |s.calls| && s.calls[c].owner == Doing(i);
      var call := s.calls[c];
      assert RequestOk(call, p) && CallOk(call);
      assert call.message[..call.accepted] == p.message.value;
      BlockInPlace(s.calls, c);
    }
  }

  // Calls of which nothing was accepted leave the wire as it was.
  lemma {:induction false} WireStops(calls: seq<Call>, c: nat)
    requires c <= |calls| && forall d :: c <= d < |calls| ==> calls[d].accepted == 0
    ensures WireOf(calls) == WireOf(calls[..c])
    decreases |calls|
  {
    if c < |calls| {
      WireStops(calls[..|calls| - 1], c);
      assert calls[..|calls| - 1][..c] == calls[..c];
    } else {
      assert calls[..c] == calls;
    }
  }

  /** A request whose context ended, or whose connection was ending, before the writer
      was its own is reported unsent, and nothing of it is ever written. */
  lemma EndedUnwritten(states: seq<State>, events: seq<Event>, n: nat, m: nat, i: nat)
    requires IsRun(states, events) && n < |events| && n < m < |states|
    requires || events[n] == Writer(i, AcquireFails) || events[n] == Writer(i, CheckToken(true))
             || (events[n] == Writer(i, CheckToken(false)) && (states[n].core.err.Some? || states[n].core.closing))
    ensures i < |states[m].core.ops| && states[m].core.ops[i].wrote == Some(Unsent(DefinitelyUnsent))
    ensures forall c :: 0 <= c < |states[m].calls| && states[m].calls[c].owner == Doing(i) ==> states[m].calls[c].accepted == 0
  {
    hide Inv, Initial, Evolves;
    GivesUp(states[n], i, events[n].writer);
    assert states[n + 1] == WriterApply(states[n], i, events[n].writer);
    RunEvolves(states, events, n + 1, m);
    WroteStays(states[n + 1].core.ops[i], states[m].core.ops[i]);
    hide Enabled, Apply;
    WireOutcomes(states, events, m, i);
  }

  lemma GivesUp(s: State, i: nat, e: WriterStep)
    requires WriterEnabled(s, i, e) && (e.AcquireFails? || (e.CheckToken? && (e.ctxDone || s.core.err.Some? || s.core.closing)))
    ensures i < |WriterApply(s, i, e).core.ops| && WriterApply(s, i, e).core.ops[i].wrote == Some(Unsent(DefinitelyUnsent))
  {
  }

  lemma WroteStays(p: Op, q: Op)
    requires Evolves(p, q) && p.wrote.Some?
    ensures q.wrote == p.wrote
  {
  }

  /** A block that is not a whole message is the last on the wire, and the
      connection has retired, unless cancellation won the race for that very Write. */
  lemma PartialIsLast(states: seq<State>, events: seq<Event>, n: nat, c: nat)
    requires IsRun(states, events) && n < |states| && c < |states[n].calls|
    requires var call := states[n].calls[c]; call.phase.Returned? && 0 < call.accepted < |call.message| && !call.raced
    ensures states[n].core.err.Some?
    ensures states[n].wire == WireOf(states[n].calls[..c + 1])
    ensures forall d :: c < d < |states[n].calls| ==> states[n].calls[d].accepted == 0
  {
    hide IsRun, CoreInv, WorkersInv, RequestsInv, TasksInv, AbandonCallsInv, UnbindCallsInv, ReadyInv, WireOf;
    RunInv(states, events, n);
    var s := states[n];
    assert CallOk(s.calls[c]) && Spoiled(s.calls[c]);
    WireStops(s.calls, c + 1);
  }

  // ------------------------------------------------------------- what the messages are

  lemma OwnRequest(s: State, c: nat)
    requires Inv(s) && c < |s.calls| && s.calls[c].owner.Doing?
    ensures s.calls[c].owner.op < |s.core.ops|
    ensures var p := s.core.ops[s.calls[c].owner.op];
            && IsInstalled(p) && ScopeOk(p)
            && Encoding(p.spec.id, p.spec.op, s.core.cfg.limits) == Some(s.calls[c].message)
  {
    hide Encoding, OpsInv, IdsInv, LinksInv, LiveInv, EndInv, OwnedInv, TokenInv, BusyInv, LastInv, CallsInv, TasksInv, AbandonCallsInv, SpoiledInv, UnbindCallsInv, ReadyInv;
    assert Entered(Pos(s, s.calls[c].owner));
    OpFact(s.core, s.calls[c].owner.op);
  }

  /** Every message an operation's goroutine hands to the transport is the request it
      was given: it is read under the operation's ID and with the declared identifier,
      and with its very protocol and control octets if each of its packets prints one
      element. A caller's was submitted in the ready state and is never read as a Bind
      or an Unbind. */
  lemma WritesItsRequest(states: seq<State>, events: seq<Event>, n: nat, c: nat)
    requires IsRun(states, events) && n < |states| && c < |states[n].calls| && states[n].calls[c].owner.Doing?
    ensures states[n].calls[c].owner.op < |states[n].core.ops|
    ensures var s, call := states[n], states[n].calls[c];
            var p, limits := s.core.ops[call.owner.op], s.core.cfg.limits;
            && ReadAs(call.message, p.spec.id, p.spec.op.declared, limits)
            && (WellFormedRequest(p.spec.op, limits) ==> Carries(ParseMessage(call.message, limits).value, p.spec.id, p.spec.op, limits))
            && (p.spec.scope == Application ==>
                  p.installedIn == Some(Ready) && !IsAssociationChanging(ParseMessage(call.message, limits).value.protocolId))
  {
    hide IsRun, Inv, ParseMessage, EncodeRequest, WellFormedRequest, Carries, RequestPacket;
    RunInv(states, events, n);
    OwnRequest(states[n], c);
    var p, limits := states[n].core.ops[states[n].calls[c].owner.op], states[n].core.cfg.limits;
    RequestReads(p.spec.id, p.spec.op, limits);
    if WellFormedRequest(p.spec.op, limits) { RequestRoundTrip(p.spec.id, p.spec.op, limits); }
  }

  /** An Unbind is written only by closing, and it is the last message: no call
      follows it, now or later. Any reader with room for it takes it for an Unbind. */
  lemma UnbindIsLast(states: seq<State>, events: seq<Event>, n: nat, c: nat)
    requires IsRun(states, events) && n < |states| && c < |states[n].calls| && states[n].calls[c].owner == Closer
    ensures c == |states[n].calls| - 1 && states[n].core.closing
    ensures exists uid :: 1 <= uid <= states[n].core.cfg.maxId && ReadsAsUnbind(states[n].calls[c].message, uid)
  {
    hide IsRun, CoreInv, OwnedInv, TokenInv, BusyInv, OnceInv, CallsInv, RequestsInv, TasksInv, AbandonCallsInv, SpoiledInv, ReadyInv,
         UnbindMessage, ReadsAsUnbind, NobodyCommitted;
    RunInv(states, events, n);
    var s := states[n];
    assert IsUnbind(s.calls[c].message, s.core.cfg.maxId);
    var uid: int32 :| 1 <= uid <= s.core.cfg.maxId && s.calls[c].message == UnbindMessage(uid);
    UnbindIsRead(uid);
  }

  ghost predicate ReadsAsUnbind(message: bytes, uid: int)
  {
    forall limits :: Roomy(limits) ==>
      ParseMessage(message, limits) == Ok(Response(uid, UNBIND_REQUEST, message, Wrap(UNBIND_REQUEST, []), [], []))
  }

  lemma UnbindIsRead(uid: int32)
    requires 0 <= uid
    ensures ReadsAsUnbind(UnbindMessage(uid), uid)
  {
    hide ParseMessage, UnbindMessage, Wrap, Roomy;
    forall limits | Roomy(limits)
      ensures ParseMessage(UnbindMessage(uid), limits) == Ok(Response(uid, UNBIND_REQUEST, UnbindMessage(uid), Wrap(UNBIND_REQUEST, []), [], []))
    {
      UnbindReads(uid, limits);
    }
  }

  // ------------------------------------------------------------ what the peer reads

  predicate Partial(c: Call) { 0 < c.accepted < |c.message| }

  // The messages of which every byte was accepted, oldest first.
  function Whole(calls: seq<Call>): seq<bytes>
  {
    if calls == [] then []
    else Whole(calls[..|calls| - 1]) + (if calls[|calls| - 1].accepted == |calls[|calls| - 1].message| then [calls[|calls| - 1].message] else [])
  }

  // Nothing was accepted after a partial block.
  ghost predicate BreaksOnce(calls: seq<Call>)
  {
    forall c, d :: 0 <= c < d < |calls| && Partial(calls[c]) ==> calls[d].accepted == 0
  }

  ghost predicate CallsParse(calls: seq<Call>, limits: Limits)
  {
    forall c :: 0 <= c < |calls| ==>
      |calls[c].message| <= MAX_INT && calls[c].accepted <= |calls[c].message| && ParseMessage(calls[c].message, limits).Ok?
  }

  lemma {:induction false} JoinedEnd(ms: seq<bytes>, m: bytes)
    ensures Joined(ms + [m]) == Joined(ms) + m
  {
    if ms == [] {
      assert [] + [m] == [m];
    } else {
      JoinedEnd(ms[1..], m);
      assert (ms + [m])[1..] == ms[1..] + [m];
    }
  }

  lemma {:induction false} WholeParse(calls: seq<Call>, limits: Limits)
    requires CallsParse(calls, limits)
    ensures AllParse(Whole(calls), limits)
    decreases |calls|
  {
    hide ParseMessage;
    if calls != [] { WholeParse(calls[..|calls| - 1], limits); }
  }

  // The wire is the whole messages and then, at most, a part of one more.
  lemma {:induction false} WireIsWhole(calls: seq<Call>, limits: Limits) returns (rest: bytes)
    requires CallsParse(calls, limits) && BreaksOnce(calls)
    ensures WireOf(calls) == Joined(Whole(calls)) + rest
    ensures rest != [] ==> exists c :: 0 <= c < |calls| && Partial(calls[c]) && rest == calls[c].message[..calls[c].accepted]
    decreases |calls|
  {
    hide ParseMessage, Joined;
    if calls == [] {
      NothingJoined();
      return [];
    }
    var n := |calls| - 1;
    var last, front := calls[n], calls[..n];
    assert forall c :: 0 <= c < n ==> front[c] == calls[c];
    rest := WireIsWhole(front, limits);
    MessageIsFrame(last.message, [], limits);
    assert Whole(front) + [] == Whole(front);
    if last.accepted == 0 {
      assert last.message[..0] == [] && WireOf(front) + [] == WireOf(front);
    } else {
      assert rest == [];
      assert Joined(Whole(front)) + [] == Joined(Whole(front));
      if Partial(last) {
        rest := last.message[..last.accepted];
      } else {
        JoinedEnd(Whole(front), last.message);
        assert last.message[..last.accepted] == last.message;
      }
    }
  }

  lemma NothingJoined()
    ensures Joined([]) == []
  {
  }

  lemma WireReads(calls: seq<Call>, limits: Limits)
    requires CallsParse(calls, limits) && BreaksOnce(calls)
    ensures AllParse(Whole(calls), limits) && Delivered(WireOf(calls), limits) == Parsed(Whole(calls), limits)
  {
    hide ParseMessage, Delivered, Joined, Whole, WireOf, BreaksOnce;
    WholeParse(calls, limits);
    var rest := WireIsWhole(calls, limits);
    StreamDelivers(Whole(calls), rest, limits);
    assert Delivered(rest, limits) == [] by {
      if rest == [] {
        NothingDelivered(limits);
      } else {
        var c :| 0 <= c < |calls| && Partial(calls[c]) && rest == calls[c].message[..calls[c].accepted];
        PartDeliversNothing(calls[c].message, calls[c].accepted, limits);
      }
    }
    assert Parsed(Whole(calls), limits) + [] == Parsed(Whole(calls), limits);
  }

  lemma NothingDelivered(limits: Limits)
    ensures Delivered([], limits) == []
  {
  }

  lemma CallParses(s: State, c: nat)
    requires Inv(s) && c < |s.calls| && Roomy(s.core.cfg.limits)
    ensures |s.calls[c].message| <= MAX_INT && ParseMessage(s.calls[c].message, s.core.cfg.limits).Ok?
  {
    hide CoreInv, WorkersInv, CallsInv, RequestsInv, TasksInv, SpoiledInv, ReadyInv, ParseMessage, AbandonMessage, UnbindMessage, EncodeRequest, RequestPacket, Roomy;
    var m, limits := s.calls[c].message, s.core.cfg.limits;
    match s.calls[c].owner
    case Doing(i) =>
      OwnRequest(s, c);
      RequestReads(s.core.ops[i].spec.id, s.core.ops[i].spec.op, limits);
      AcceptedRequest(s.core.ops[i].spec.id, s.core.ops[i].spec.op, limits);
    case Abandoner(t) =>
      TaskKnown(s, c);
      var p := s.core.ops[s.abandons[t].target];
      var aid: int32 :| 1 <= aid <= s.core.cfg.maxId && m == AbandonMessage(aid, p.spec.id);
      AbandonReads(aid, p.spec.id, limits);
      AbandonSize(aid, p.spec.id);
    case Closer =>
      assert IsUnbind(m, s.core.cfg.maxId);
      var uid: int32 :| 1 <= uid <= s.core.cfg.maxId && m == UnbindMessage(uid);
      UnbindReads(uid, limits);
      UnbindSize(uid);
  }

  lemma TaskKnown(s: State, c: nat)
    requires Inv(s) && c < |s.calls| && s.calls[c].owner.Abandoner?
    ensures s.calls[c].owner.task < |s.abandons|
  {
    hide CoreInv, OwnedInv, TokenInv, BusyInv, LastInv, CallsInv, RequestsInv, TasksInv, AbandonCallsInv, SpoiledInv, UnbindCallsInv, ReadyInv;
    assert Entered(Pos(s, s.calls[c].owner));
  }

  lemma AbandonSize(aid: int32, target: int32)
    ensures |AbandonMessage(aid, target)| <= 14
  {
  }

  lemma UnbindSize(uid: int32)
    ensures |UnbindMessage(uid)| <= 14
  {
  }

  /** Unless cancellation has won a race for a Write, a peer that reads the wire of a
      connection from its first byte gets exactly the messages that were accepted whole,
      in the order their goroutines wrote them, and nothing else: no part of a message
      is ever taken for one, and none is lost behind it. */
  lemma PeerReads(states: seq<State>, events: seq<Event>, n: nat)
    requires IsRun(states, events) && n < |states| && Roomy(states[n].core.cfg.limits)
    requires forall c :: 0 <= c < |states[n].calls| ==> !states[n].calls[c].raced
    ensures var s := states[n];
            && AllParse(Whole(s.calls), s.core.cfg.limits)
            && Delivered(s.wire, s.core.cfg.limits) == Parsed(Whole(s.calls), s.core.cfg.limits)
  {
    hide IsRun, Inv, Delivered, ParseMessage, Whole, WireOf, Roomy;
    RunInv(states, events, n);
    var s := states[n];
    WireFacts(s);
    forall c | 0 <= c < |s.calls|
      ensures |s.calls[c].message| <= MAX_INT && ParseMessage(s.calls[c].message, s.core.cfg.limits).Ok?
    {
      CallParses(s, c);
    }
    WireReads(s.calls, s.core.cfg.limits);
  }

  lemma WireFacts(s: State)
    requires Inv(s) && forall c :: 0 <= c < |s.calls| ==> !s.calls[c].raced
    ensures s.wire == WireOf(s.calls) && BreaksOnce(s.calls)
    ensures forall c :: 0 <= c < |s.calls| ==> s.calls[c].accepted <= |s.calls[c].message|
  {
    hide CoreInv, WorkersInv, RequestsInv, TasksInv, AbandonCallsInv, UnbindCallsInv, ReadyInv, WireOf;
    forall c, d | 0 <= c < d < |s.calls| && Partial(s.calls[c]) ensures s.calls[d].accepted == 0 {
      assert CallOk(s.calls[c]) && s.calls[c].phase.Returned?;
      assert Spoiled(s.calls[c]) && Unaccepted(s.calls, c);
    }
  }
}
