/** The one way a part of a message comes to stand in front of others on the wire:
    the goroutine that cancels a Write has won the race for it and has not retired
    the connection yet, while the writer has already let go of the token. */
module ConnRace {
  import opened BerTypes
  import opened Protocol
  import opened ConnMessages
  import opened ConnCore
  import opened ConnMachine

  // The last state of some run.
  ghost predicate Reachable(s: State)
  {
    exists states, events :: IsRun(states, events) && states[|events|] == s
  }

  lemma Begins(s: State)
    requires Initial(s)
    ensures Reachable(s)
  {
    var events: seq<Event> := [];
    assert IsRun([s], events) && [s][|events|] == s;
  }

  lemma Reaches(s: State, e: Event)
    requires Reachable(s) && Enabled(s, e)
    ensures Reachable(Apply(s, e))
  {
    hide Initial, Enabled, Apply;
    var states, events :| IsRun(states, events) && states[|events|] == s;
    var states', events' := states + [Apply(s, e)], events + [e];
    forall k | 0 <= k < |events'| ensures Enabled(states'[k], events'[k]) && states'[k + 1] == Apply(states'[k], events'[k]) {
      if k < |events| { assert states'[k] == states[k] && states'[k + 1] == states[k + 1]; }
    }
    assert IsRun(states', events') && states'[|events'|] == Apply(s, e);
  }

  // ---------------------------------------------------------- starting an operation

  // A caller's request that can be sent under the next free ID.
  ghost predicate Sendable(k: Core, spec: Spec, m: bytes)
  {
    && k.phase == Ready && k.err == None && !k.closing
    && spec.scope == Application && !IsAssociationChanging(spec.op.declared)
    && TryReserve(k) == Some(spec.id) && spec.id !in k.reserved
    && Encoding(spec.id, spec.op, k.cfg.limits) == Some(m)
  }

  function Prepared(spec: Spec, m: bytes): Op { InstalledOp(NewOp(spec).(message := Some(m)), Ready) }

  function WithInstalled(k: Core, spec: Spec, m: bytes): Core
  {
    k.(nextId := spec.id, pending := k.pending[spec.id := |k.ops|], ops := k.ops + [Prepared(spec, m)])
  }

  lemma Encoded(s: State, spec: Spec, m: bytes)
    requires Reachable(s) && Sendable(s.core, spec, m)
    ensures Reachable(s.(core := ReserveId(s.core, spec.id).(ops := s.core.ops + [NewOp(spec).(message := Some(m))])))
  {
    hide Reachable, TryReserve, Encoding;
    var i, s1 := |s.core.ops|, Begin(s, spec);
    Reaches(s, Start(spec));
    Reaches(s1, Setup(i, EncodeMessage));
    assert s1.core.ops[i := NewOp(spec).(message := Some(m))] == s.core.ops + [NewOp(spec).(message := Some(m))];
  }

  lemma Installs(s: State, spec: Spec, m: bytes)
    requires Reachable(s) && Sendable(s.core, spec, m)
    ensures Reachable(s.(core := WithInstalled(s.core, spec, m)))
  {
    hide Reachable, TryReserve, Encoding;
    Encoded(s, spec, m);
    var i, p := |s.core.ops|, NewOp(spec).(message := Some(m));
    var k := ReserveId(s.core, spec.id).(ops := s.core.ops + [p]);
    Reaches(s.(core := k), Setup(i, TryInstall));
    assert k.ops[i := InstalledOp(p, Ready)] == s.core.ops + [InstalledOp(p, Ready)];
    assert Install(k, i) == WithInstalled(s.core, spec, m) by { assert k.reserved - {spec.id} == s.core.reserved; }
  }

  // ----------------------------------------------------------------------- writing

  // Operation i alone has moved.
  ghost predicate MovedOp(k: Core, k': Core, i: nat)
  {
    && k' == k.(ops := k'.ops) && i < |k'.ops| == |k.ops|
    && forall j :: 0 <= j < |k.ops| && j != i ==> k'.ops[j] == k.ops[j]
  }

  lemma Enters(s: State, i: nat) returns (s': State)
    requires Reachable(s) && i < |s.core.ops| && s.core.ops[i].stage == Installed && s.core.ops[i].message.Some?
    requires s.token == None && s.core.err == None && !s.core.closing
    ensures Reachable(s') && MovedOp(s.core, s'.core, i) && s'.core.ops[i].stage == Writing
    ensures s'.wire == s.wire && s'.calls == s.calls + [NewCall(Doing(i), s.core.ops[i].message.value)]
  {
    hide Reachable;
    Reaches(s, Writer(i, TakeToken));
    var s1 := WriterApply(s, i, TakeToken);
    Reaches(s1, Writer(i, CheckToken(false)));
    var s2 := WriterApply(s1, i, CheckToken(false));
    Reaches(s2, Writer(i, StartWriting));
    s' := WriterApply(s2, i, StartWriting);
  }

  // A fresh call takes n bytes of its message.
  lemma Accepts(s: State, n: nat) returns (s': State)
    requires Reachable(s) && s.calls != [] && s.core.open
    requires var c := s.calls[|s.calls| - 1]; c.phase == AtTop && c.accepted == 0 && 1 <= n <= |c.message|
    ensures Reachable(s') && s'.core == s.core
    ensures var c := s.calls[|s.calls| - 1];
            s'.calls == s.calls[|s.calls| - 1 := c.(accepted := n, phase := InWrite(0))] && s'.wire == s.wire + c.message[..n]
  {
    hide Reachable;
    Reaches(s, Write(BeginWrite));
    var s1 := CallApply(s, BeginWrite);
    Reaches(s1, Write(Accept(n)));
    s' := CallApply(s1, Accept(n));
  }

  // Cancellation wins the race for the Write, and the writer leaves.
  lemma Leaves(s: State, i: nat) returns (s': State)
    requires Reachable(s) && s.calls != [] && i < |s.core.ops| && s.core.ops[i].stage == Writing
    requires s.calls[|s.calls| - 1].phase.InWrite? && !s.calls[|s.calls| - 1].raced
    ensures Reachable(s') && MovedOp(s.core, s'.core, i) && s'.token == None && s'.wire == s.wire
    ensures s'.calls == s.calls[|s.calls| - 1 := s.calls[|s.calls| - 1].(raced := true, phase := Returned(Unsent(Ambiguous)))]
  {
    hide Reachable;
    Reaches(s, Write(CancelRace));
    var s1 := CallApply(s, CancelRace);
    Reaches(s1, Write(WriteReturns(true, true)));
    var s2 := CallApply(s1, WriteReturns(true, true));
    Reaches(s2, Writer(i, LeaveWrite));
    s' := WriterApply(s2, i, LeaveWrite);
  }

  // ------------------------------------------------------------------------ the run

  function NewCore(cfg: Config): Core { Core(cfg, Ready, false, None, true, 0, {}, map[], map[], []) }

  lemma BothInstalled(cfg: Config, first: Spec, second: Spec, m: bytes, m': bytes) returns (s: State)
    requires cfg.Valid()
    requires Sendable(NewCore(cfg), first, m) && Sendable(WithInstalled(NewCore(cfg), first, m), second, m')
    ensures Reachable(s) && MayBothWrite(s, m, m')
  {
    hide Reachable, Sendable, InstalledOp;
    var k := NewCore(cfg);
    s := State(k, None, [], [], [], NotStarted);
    Begins(s);
    Installs(s, first, m);
    s := s.(core := WithInstalled(k, first, m));
    Installs(s, second, m');
    PreparedStage(first, m);
    PreparedStage(second, m');
    hide Prepared;
    s := s.(core := WithInstalled(s.core, second, m'));
  }

  lemma PreparedStage(spec: Spec, m: bytes)
    ensures Prepared(spec, m).stage == Installed && Prepared(spec, m).message == Some(m)
  {
  }

  // Two operations, ready to write, on a connection that has written nothing.
  ghost predicate MayBothWrite(s: State, m: bytes, m': bytes)
  {
    && s.token == None && s.core.err == None && !s.core.closing && s.core.open && s.calls == [] && s.wire == [] && |s.core.ops| == 2
    && s.core.ops[0].stage == Installed && s.core.ops[0].message == Some(m)
    && s.core.ops[1].stage == Installed && s.core.ops[1].message == Some(m')
  }

  // The first writes one octet, loses the race and leaves.
  lemma FirstLeaves(s: State, m: bytes, m': bytes) returns (s': State)
    requires Reachable(s) && MayBothWrite(s, m, m') && |m| >= 2
    ensures Reachable(s') && s'.token == None && s'.core.err == None && !s'.core.closing && s'.core.open && |s'.core.ops| == 2
    ensures s'.core.ops[1].stage == Installed && s'.core.ops[1].message == Some(m')
    ensures s'.calls == [Call(Doing(0), m, 1, true, Returned(Unsent(Ambiguous)))] && s'.wire == m[..1]
  {
    hide Reachable;
    var s1 := Enters(s, 0);
    var s2 := Accepts(s1, 1);
    s' := Leaves(s2, 0);
    assert [] + m[..1] == m[..1];
  }

  /** With any configuration and any two requests of callers that can be sent one
      after the other, there is a run in which only the first octet of the first is on
      the wire, its write was reported ambiguous, the whole of the second follows, and
      the connection has not retired. */
  lemma RacedRun(cfg: Config, first: Spec, second: Spec, m: bytes, m': bytes) returns (s: State)
    requires cfg.Valid() && |m| >= 2 && m' != []
    requires Sendable(NewCore(cfg), first, m) && Sendable(WithInstalled(NewCore(cfg), first, m), second, m')
    ensures Reachable(s) && s.core.err == None && s.wire == m[..1] + m'
    ensures s.calls == [Call(Doing(0), m, 1, true, Returned(Unsent(Ambiguous))), Call(Doing(1), m', |m'|, false, InWrite(0))]
  {
    hide Reachable, Sendable, WithInstalled, MayBothWrite;
    var s0 := BothInstalled(cfg, first, second, m, m');
    var s1 := FirstLeaves(s0, m, m');
    var s2 := Enters(s1, 1);
    s := Accepts(s2, |m'|);
    assert m'[..|m'|] == m';
  }

  const DELETE_REQUEST := Identifier(APPLICATION, false, 10)

  // A Delete of the entry with an empty name.
  function Deletion(id: int32, pattern: FramingPattern): Spec
  {
    Spec(id, Application, InternalRequest(DELETE_REQUEST, []), pattern, CancelDrain)
  }

  lemma FirstIds(cfg: Config, spec: Spec, m: bytes)
    requires cfg.Valid() && cfg.maxId >= 2 && spec.id == 1
    ensures TryReserve(NewCore(cfg)) == Some(1) && TryReserve(WithInstalled(NewCore(cfg), spec, m)) == Some(2)
  {
    hide Prepared;
    var k, k1 := NewCore(cfg), WithInstalled(NewCore(cfg), spec, m);
    assert Successor(0, cfg.maxId) == 1 && !Occupied(k, 1) && Scan(k, 0, cfg.maxId) == Some(1);
    assert |k1.pending| == 1 && Successor(1, cfg.maxId) == 2 && !Occupied(k1, 2) && Scan(k1, 1, cfg.maxId) == Some(2);
  }

  /** So it happens on any connection that allows two operations: a part of a message
      is followed by another message. */
  lemma PartIsFollowed(cfg: Config, pattern: FramingPattern) returns (s: State)
    requires cfg.Valid() && cfg.maxId >= 2 && Roomy(cfg.limits)
    ensures Reachable(s) && |s.calls| == 2 && 0 < s.calls[0].accepted < |s.calls[0].message| && s.calls[1].accepted > 0
    ensures s.calls[0].phase == Returned(Unsent(Ambiguous)) && s.calls[0].raced && s.core.err == None
  {
    hide Reachable, Encoding, TryReserve, Roomy, InternalRequest, WithInstalled;
    var m, m' := InternalMessage(1, DELETE_REQUEST, []), InternalMessage(2, DELETE_REQUEST, []);
    InternalEncodes(1, DELETE_REQUEST, [], cfg.limits);
    InternalEncodes(2, DELETE_REQUEST, [], cfg.limits);
    InternalNotEmpty(1);
    InternalNotEmpty(2);
    hide InternalMessage;
    FirstIds(cfg, Deletion(1, pattern), m);
    SecondSendable(cfg, pattern, m);
    s := RacedRun(cfg, Deletion(1, pattern), Deletion(2, pattern), m, m');
  }

  lemma SecondSendable(cfg: Config, pattern: FramingPattern, m: bytes)
    ensures var k := WithInstalled(NewCore(cfg), Deletion(1, pattern), m);
            k.cfg == cfg && k.phase == Ready && k.err == None && !k.closing && k.reserved == {}
    ensures InternalRequest(DELETE_REQUEST, []).declared == DELETE_REQUEST
  {
  }

  lemma InternalNotEmpty(id: int32)
    ensures |InternalMessage(id, DELETE_REQUEST, [])| >= 2
  {
  }
}
