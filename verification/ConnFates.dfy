/** What becomes of every response the reader takes, in every session, and of an early
    one in particular. */
module ConnFates {
  import opened BerTypes
  import opened Protocol
  import opened Envelope
  import opened ConnMessages
  import opened ConnCore
  import opened ConnOps
  import opened ConnMachine
  import opened ConnInv
  import opened ConnWorkers
  import opened ConnHistory
  import opened ConnRuns
  import opened ConnClaims
  import opened ConnRace
  import opened ConnReader

  // ---------------------------------------------------------------------- induction

  /** The invariant holds in every state of every session. */
  lemma {:induction false} SessionHolds(xs: seq<Session>, ts: seq<Act>, n: nat)
    requires IsSession(xs, ts) && n < |xs|
    ensures SessionInv(xs[n])
  {
    hide SessionInv, Opening, ActEnabled, ActApply, AllEvolve;
    if n == 0 {
      OpeningInv(xs[0]);
    } else {
      SessionHolds(xs, ts, n - 1);
      ActKeeps(xs[n - 1], ts[n - 1]);
    }
  }

  /** The connection of a session behaves as one on its own: each of its states is
      reached by a run of the connection's steps. */
  lemma {:induction false} SessionIsRun(xs: seq<Session>, ts: seq<Act>, n: nat)
    requires IsSession(xs, ts) && n < |xs|
    ensures Reachable(xs[n].conn)
  {
    hide Reachable, Initial, Enabled, Apply, ArrivalApply, Retire, Verdict;
    if n == 0 {
      Begins(xs[0].conn);
    } else {
      SessionIsRun(xs, ts, n - 1);
      var x := xs[n - 1];
      match ts[n - 1]
      case Elsewhere(e) => Reaches(x.conn, e);
      case Look => if Verdict(x.conn.core, x.reader.r).Accepted? { ArrivalReaches(x.conn, x.reader.r); }
      case StopReading => RetireReaches(x.conn, x.reader.reason);
      case _ =>
    }
  }

  lemma ArrivalReaches(s: State, r: Response)
    requires Reachable(s) && Verdict(s.core, r).Accepted?
    ensures Enabled(s, Arrival(r)) && Reachable(ArrivalApply(s, r))
  {
    hide Reachable;
    AcceptedArrives(s, r);
    hide Verdict, ArrivalApply;
    Reaches(s, Arrival(r));
  }

  lemma RetireReaches(s: State, reason: Failure)
    requires Reachable(s)
    ensures Reachable(s.(core := Retire(s.core, reason)))
  {
    hide Reachable, Retire;
    Reaches(s, RetireWith(reason));
  }

  /** Every response taken off the transport is accounted for, in order: what arrived for
      an operation is exactly the responses whose fate it was, all fates are settled but
      that of the response in hand, and only an operation with a response's ID gets it. */
  lemma ResponsesAccounted(xs: seq<Session>, ts: seq<Act>, n: nat)
    requires IsSession(xs, ts) && n < |xs|
    ensures |xs[n].received| == |xs[n].fates| + (if InHand(xs[n].reader) then 1 else 0)
    ensures forall i :: 0 <= i < |xs[n].conn.core.ops| ==>
              && xs[n].conn.core.ops[i].inbox.routed == Share(xs[n].received, xs[n].fates, i)
              && forall j :: 0 <= j < |xs[n].conn.core.ops[i].inbox.routed| ==>
                   xs[n].conn.core.ops[i].inbox.routed[j].messageId == xs[n].conn.core.ops[i].spec.id
    ensures forall j :: 0 <= j < |xs[n].fates| && xs[n].fates[j].To? ==> xs[n].fates[j].op < |xs[n].conn.core.ops|
  {
    hide IsSession, Share, Inv;
    SessionHolds(xs, ts, n);
    forall i | 0 <= i < |xs[n].conn.core.ops|
      ensures forall j :: 0 <= j < |xs[n].conn.core.ops[i].inbox.routed| ==>
                xs[n].conn.core.ops[i].inbox.routed[j].messageId == xs[n].conn.core.ops[i].spec.id
    {
      CarriesId(xs[n].conn, i);
    }
  }

  lemma CarriesId(s: State, i: nat)
    requires Inv(s) && i < |s.core.ops|
    ensures forall j :: 0 <= j < |s.core.ops[i].inbox.routed| ==> s.core.ops[i].inbox.routed[j].messageId == s.core.ops[i].spec.id
  {
    InvCore(s);
    OpFact(s.core, i);
    hide Inv, CoreInv, Encoding;
  }

  // ---------------------------------------------------------------- an early response

  // What is left of an operation before retirement, once its write was observed and
  // with nothing arrived for it.
  lemma AwaitedFact(k: Core, r: Response, i: nat)
    requires CoreInv(k) && WaitedFor(k, r, i) && k.ops[i].writeObserved && k.err.None?
    requires Listed(k.ops[i].spec.pattern, r.protocolId)
    ensures k.ops[i].abandoned ==> r.messageId in k.tombstones && k.tombstones[r.messageId] == k.ops[i].spec.pattern
    ensures !k.ops[i].abandoned ==> r.messageId in k.pending && k.pending[r.messageId] == i
  {
    hide Encoding, IdsInv, EndInv;
    assert OpInv(k.ops[i], k.cfg);
    assert !k.ops[i].inbox.completed;
    assert k.ops[i].lifecycleDone ==> HasEnded(k.ops[i]);
    hide OpInv;
    assert !k.ops[i].lifecycleDone ==> IsPending(k, i);
    assert IsPending(k, i) ==> !k.ops[i].lifecycleDone;
    assert k.ops[i].abandoned ==> k.ops[i].lifecycleDone by { assert OpInv(k.ops[i], k.cfg); AbandonedIsDone(k.ops[i], k.cfg); }
  }

  lemma AbandonedIsDone(p: Op, cfg: Config)
    requires OpInv(p, cfg)
    ensures p.abandoned ==> p.lifecycleDone
  {
    hide Encoding;
  }

  // After retirement nobody is found.
  lemma NobodyFound(k: Core, r: Response)
    requires EndInv(k) && k.err.Some?
    ensures Verdict(k, r) == Unexpected
  {
  }

  lemma WokenVerdict(k: Core, r: Response, i: nat)
    requires CoreInv(k) && WaitedFor(k, r, i) && k.ops[i].writeObserved && Listed(k.ops[i].spec.pattern, r.protocolId)
    ensures k.err.Some? ==> Verdict(k, r).Unexpected?
    ensures k.err.None? && k.ops[i].abandoned ==> Verdict(k, r).Discarded?
    ensures k.err.None? && !k.ops[i].abandoned ==> Verdict(k, r).Accepted? && r.messageId in k.pending && k.pending[r.messageId] == i
  {
    hide Listed, Verdict, WaitedFor;
    VerdictMeans(k, r);
    if k.err.None? {
      AwaitedFact(k, r, i);
      LookFacts(k, r);
    } else {
      EndFact(k);
      NobodyFound(k, r);
    }
    hide CoreInv;
  }

  // Routing the first response hands it to the consumer, unless delivery has stopped or
  // it is larger than the queue may get.
  lemma FirstIsNext(p: Op, r: Response, cfg: Config)
    requires OpInv(p, cfg) && CanRoute(p, r) && p.inbox.routed == [] && cfg.Valid()
    ensures NextOf(RouteOp(p, r, cfg)) == Item(r) <==> !p.inbox.canceled && |r.message| <= cfg.maxQueuedBytes
    ensures RouteOp(p, r, cfg).inbox.routed == [r]
  {
    hide Encoding;
    assert !p.inbox.canceled ==> p.inbox.queue == [] && p.inbox.queuedBytes == 0;
    assert p.inbox.canceled ==> p.inbox.queue == [];
    hide OpInv, Trace.Send;
  }

  /** A response that came early and waited for operation i is routed, once the write is
      observed, as one that came in time: to that operation and nobody else, as its
      first response, exactly when the connection has not ended, the operation was not
      abandoned and its pattern lists the identifier; Next then yields it, unless the
      operation was canceled or the response is larger than its queue may get. For an
      abandoned operation it is late. */
  lemma EarlyIsRouted(xs: seq<Session>, ts: seq<Act>, n: nat, i: nat)
    requires IsSession(xs, ts) && n < |ts| && ts[n] == Look && xs[n].reader.Holding? && xs[n].reader.waited == Some(i)
    ensures i < |xs[n].conn.core.ops| && i < |xs[n + 1].conn.core.ops|
    ensures var k, p, r := xs[n].conn.core, xs[n].conn.core.ops[i], xs[n].reader.r;
            && p.writeObserved && p.spec.id == r.messageId && p.inbox.routed == []
            && (Listed(p.spec.pattern, r.protocolId) ==>
                  xs[n + 1].fates == xs[n].fates + [if k.err.Some? then Refused else if p.abandoned then Late else To(i)])
            && (!Listed(p.spec.pattern, r.protocolId) ==> xs[n + 1].fates == xs[n].fates || xs[n + 1].fates[|xs[n].fates|] != To(i))
            && (Listed(p.spec.pattern, r.protocolId) && k.err.None? && !p.abandoned ==>
                  && xs[n + 1].conn.core.ops[i].inbox.routed == [r]
                  && (NextOf(xs[n + 1].conn.core.ops[i]) == Item(r) <==> !p.inbox.canceled && |r.message| <= k.cfg.maxQueuedBytes))
  {
    hide SessionInv, Opening, NextOf, Listed, WaitedFor;
    SessionHolds(xs, ts, n);
    WokenFact(xs[n]);
    LookIs(xs, ts, n);
    hide IsSession, LookApply;
    LookGrows(xs[n]);
    if Listed(xs[n].conn.core.ops[i].spec.pattern, xs[n].reader.r.protocolId) {
      WokenListed(xs[n], xs[n + 1], i);
    } else {
      WokenUnlisted(xs[n], xs[n + 1], i);
    }
  }

  lemma WokenFact(x: Session)
    requires SessionInv(x) && x.reader.Holding? && x.reader.waited.Some?
    ensures x.reader.waited.value < |x.conn.core.ops|
    ensures WaitedFor(x.conn.core, x.reader.r, x.reader.waited.value) && x.conn.core.ops[x.reader.waited.value].writeObserved
    ensures var p := x.conn.core.ops[x.reader.waited.value]; p.spec.id == x.reader.r.messageId && p.inbox.routed == []
    ensures Inv(x.conn) && CoreInv(x.conn.core)
  {
    hide SharesInv, WorkersInv, CallsInv, RequestsInv, TasksInv, AbandonCallsInv, SpoiledInv, UnbindCallsInv, ReadyInv;
  }

  lemma WokenListed(x: Session, x': Session, i: nat)
    requires x.reader.Holding? && x.reader.waited == Some(i) && i < |x.conn.core.ops| == |x'.conn.core.ops| && x' == LookApply(x)
    requires Listed(x.conn.core.ops[i].spec.pattern, x.reader.r.protocolId)
    requires SessionInv(x)
    ensures var k, p, r := x.conn.core, x.conn.core.ops[i], x.reader.r;
            && x'.fates == x.fates + [if k.err.Some? then Refused else if p.abandoned then Late else To(i)]
            && (k.err.None? && !p.abandoned ==>
                  && x'.conn.core.ops[i].inbox.routed == [r]
                  && (NextOf(x'.conn.core.ops[i]) == Item(r) <==> !p.inbox.canceled && |r.message| <= k.cfg.maxQueuedBytes))
  {
    hide SessionInv, NextOf, Listed, WaitedFor, CoreInv, Inv;
    WokenFact(x);
    WokenVerdict(x.conn.core, x.reader.r, i);
    if Verdict(x.conn.core, x.reader.r).Accepted? {
      AcceptedArrives(x.conn, x.reader.r);
      hide Verdict, RouteOp, TasksInv;
      InvTasks(x.conn);
      RoutedOps(x.conn, x.reader.r);
      RoutesFirst(x.conn, x.reader.r, x.conn.core.ops[i], x'.conn.core.ops[i]);
    }
  }

  lemma WokenUnlisted(x: Session, x': Session, i: nat)
    requires x.reader.Holding? && x.reader.waited == Some(i) && i < |x.conn.core.ops| && x' == LookApply(x)
    requires !Listed(x.conn.core.ops[i].spec.pattern, x.reader.r.protocolId)
    requires SessionInv(x)
    ensures x'.fates == x.fates || (|x'.fates| == |x.fates| + 1 && x'.fates[|x.fates|] != To(i))
  {
    hide SessionInv, Listed, WaitedFor, CoreInv, Inv;
    WokenFact(x);
    VerdictMeans(x.conn.core, x.reader.r);
  }

  lemma LookIs(xs: seq<Session>, ts: seq<Act>, n: nat)
    requires IsSession(xs, ts) && n < |ts| && ts[n] == Look
    ensures xs[n].reader.Holding? && xs[n + 1] == LookApply(xs[n])
  {
    hide LookApply, Opening;
  }

  lemma LookGrows(x: Session)
    requires ActEnabled(x, Look)
    ensures |x.conn.core.ops| == |LookApply(x).conn.core.ops|
  {
    hide RouteOp, RouteAbandons, Verdict;
    if Verdict(x.conn.core, x.reader.r).Accepted? { AcceptedArrives(x.conn, x.reader.r); }
  }

  lemma RoutesFirst(s: State, r: Response, p: Op, q: Op)
    requires Enabled(s, Arrival(r)) && p == s.core.ops[s.core.pending[r.messageId]] && q == RouteOp(p, r, s.core.cfg)
    requires CoreInv(s.core) && TasksInv(s) && p.inbox.routed == []
    ensures q.inbox.routed == [r] && (NextOf(q) == Item(r) <==> !p.inbox.canceled && |r.message| <= s.core.cfg.maxQueuedBytes)
  {
    hide RouteOp, RouteAbandons, NextOf, CoreInv, TasksInv, OpInv;
    ArrivalFacts(s, r, p);
    CfgFact(s.core);
    FirstIsNext(p, r, s.core.cfg);
  }

  lemma RoutedOps(s: State, r: Response)
    requires Enabled(s, Arrival(r))
    ensures var i := s.core.pending[r.messageId];
            ArrivalApply(s, r).core.ops == s.core.ops[i := RouteOp(s.core.ops[i], r, s.core.cfg)]
  {
    hide RouteOp, RouteAbandons;
  }

  lemma CfgFact(k: Core)
    requires CoreInv(k)
    ensures k.cfg.Valid()
  {
    hide OpInv;
  }

  lemma InvTasks(s: State)
    requires Inv(s)
    ensures TasksInv(s)
  {
    hide CoreInv, WorkersInv, CallsInv, RequestsInv, TasksInv, AbandonCallsInv, SpoiledInv, UnbindCallsInv, ReadyInv;
  }

  // -------------------------------------------------------------- over a whole session

  // Fates stay settled, and a connection that has ended stays so.
  lemma ActOnward(x: Session, t: Act)
    requires SessionInv(x) && ActEnabled(x, t)
    ensures x.fates <= ActApply(x, t).fates && (x.conn.core.err.Some? ==> ActApply(x, t).conn.core.err.Some?)
  {
    hide SharesInv, HandInv, Inv, Apply, Enabled, Verdict;
    match t
    case Elsewhere(e) => PhaseStep(x.conn, e);
    case Look => if Verdict(x.conn.core, x.reader.r).Accepted? { AcceptedArrives(x.conn, x.reader.r); ArrivalStays(x.conn, x.reader.r); }
    case StopReading => hide RetireOps;
    case _ =>
  }

  // The response waits for operation i, or has just been woken.
  predicate Waits(x: Session, r: Response, i: nat) { x.reader == Parked(r, i) || x.reader == Holding(r, Some(i)) }

  // It went to the operation, as its first response; or the connection has ended; or it
  // was late for an abandoned operation.
  predicate Settled(x: Session, n: nat, r: Response, i: nat)
  {
    && n < |x.fates| && i < |x.conn.core.ops|
    && (|| (x.fates[n] == To(i) && x.conn.core.ops[i].inbox.routed != [] && x.conn.core.ops[i].inbox.routed[0] == r)
        || (x.fates[n] == Late && x.conn.core.ops[i].abandoned)
        || x.conn.core.err.Some?)
  }

  lemma SettledStays(x: Session, t: Act, n: nat, r: Response, i: nat)
    requires SessionInv(x) && ActEnabled(x, t) && Settled(x, n, r, i)
    ensures Settled(ActApply(x, t), n, r, i)
  {
    hide SessionInv, ActEnabled, ActApply;
    ActOnward(x, t);
    ActKeeps(x, t);
    assert Evolves(x.conn.core.ops[i], ActApply(x, t).conn.core.ops[i]);
  }

  lemma WaitsOrSettles(x: Session, t: Act, r: Response, i: nat)
    requires SessionInv(x) && ActEnabled(x, t) && Waits(x, r, i) && i < |x.conn.core.ops|
    requires Listed(x.conn.core.ops[i].spec.pattern, r.protocolId)
    ensures var x' := ActApply(x, t); (Waits(x', r, i) && x'.fates == x.fates) || Settled(x', |x.fates|, r, i)
  {
    hide SessionInv, LookApply, Listed, Apply, Enabled, Retire;
    if t.Look? {
      LookGrows(x);
      WokenListed(x, LookApply(x), i);
      LookKeepsAbandoned(x, i);
    }
  }

  lemma LookKeepsAbandoned(x: Session, i: nat)
    requires SessionInv(x) && ActEnabled(x, Look) && i < |x.conn.core.ops|
    ensures i < |LookApply(x).conn.core.ops|
    ensures x.conn.core.ops[i].abandoned ==> LookApply(x).conn.core.ops[i].abandoned
    ensures x.conn.core.err.Some? ==> LookApply(x).conn.core.err.Some?
  {
    hide SessionInv, LookApply;
    LookKeeps(x);
    ActOnward(x, Look);
    assert Evolves(x.conn.core.ops[i], LookApply(x).conn.core.ops[i]);
  }

  /** An early response that its operation lists is never lost: it stays in the reader's
      hand, with nothing taken after it, until the operation gets it as its first
      response, unless the operation is abandoned or the connection ends. */
  lemma {:induction false} EarlyNotLost(xs: seq<Session>, ts: seq<Act>, m: nat, n: nat, i: nat)
    requires IsSession(xs, ts) && m <= n < |xs| && xs[m].reader.Parked? && xs[m].reader.op == i && i < |xs[m].conn.core.ops|
    requires Listed(xs[m].conn.core.ops[i].spec.pattern, xs[m].reader.r.protocolId)
    ensures i < |xs[n].conn.core.ops| && xs[n].conn.core.ops[i].spec == xs[m].conn.core.ops[i].spec
    ensures (Waits(xs[n], xs[m].reader.r, i) && xs[n].fates == xs[m].fates) || Settled(xs[n], |xs[m].fates|, xs[m].reader.r, i)
    decreases n - m
  {
    hide SessionInv, Opening, ActEnabled, ActApply, Listed, Settled;
    if m < n {
      EarlyNotLost(xs, ts, m, n - 1, i);
      SessionHolds(xs, ts, n - 1);
      ActKeeps(xs[n - 1], ts[n - 1]);
      assert Evolves(xs[n - 1].conn.core.ops[i], xs[n].conn.core.ops[i]);
      if Settled(xs[n - 1], |xs[m].fates|, xs[m].reader.r, i) {
        SettledStays(xs[n - 1], ts[n - 1], |xs[m].fates|, xs[m].reader.r, i);
      } else {
        WaitsOrSettles(xs[n - 1], ts[n - 1], xs[m].reader.r, i);
      }
    }
  }

  // ------------------------------------------- an early response to an unsent request

  // The request's write is over and it was not sent.
  predicate NotSent(p: Op) { p.wrote.Some? && p.wrote.value.Unsent? }

  lemma UnsentUnobserved(s: State, i: nat)
    requires Inv(s) && i < |s.core.ops| && NotSent(s.core.ops[i])
    ensures !s.core.ops[i].writeObserved
  {
    InvCore(s);
    OpFact(s.core, i);
    hide Inv, CoreInv, Encoding;
  }

  lemma StaysParked(x: Session, t: Act, i: nat)
    requires SessionInv(x) && ActEnabled(x, t) && x.reader.Parked? && x.reader.op == i && i < |x.conn.core.ops| && NotSent(x.conn.core.ops[i])
    ensures (ActApply(x, t).reader == x.reader && ActApply(x, t).fates == x.fates) || x.conn.core.err.Some?
  {
    hide Inv, Apply, Enabled, Retire;
    UnsentUnobserved(x.conn, i);
  }

  /** What is awaited is the write being observed, not its end: a response that waits for
      a request that turns out not to be sent keeps the reader waiting until the
      connection ends. */
  lemma {:induction false} WaitsInVain(xs: seq<Session>, ts: seq<Act>, m: nat, n: nat, i: nat)
    requires IsSession(xs, ts) && m <= n < |xs| && xs[m].reader.Parked? && xs[m].reader.op == i
    requires i < |xs[m].conn.core.ops| && NotSent(xs[m].conn.core.ops[i])
    ensures i < |xs[n].conn.core.ops| && NotSent(xs[n].conn.core.ops[i])
    ensures (xs[n].reader == xs[m].reader && xs[n].fates == xs[m].fates) || xs[n].conn.core.err.Some?
    decreases n - m
  {
    hide SessionInv, Opening, ActEnabled, ActApply;
    if m < n {
      WaitsInVain(xs, ts, m, n - 1, i);
      SessionHolds(xs, ts, n - 1);
      ActKeeps(xs[n - 1], ts[n - 1]);
      ActOnward(xs[n - 1], ts[n - 1]);
      assert Evolves(xs[n - 1].conn.core.ops[i], xs[n].conn.core.ops[i]);
      if xs[n - 1].conn.core.err.None? { StaysParked(xs[n - 1], ts[n - 1], i); }
    }
  }

  // The last state of some session.
  ghost predicate Met(x: Session) { exists xs, ts :: IsSession(xs, ts) && xs[|ts|] == x }

  lemma Opens(x: Session)
    requires Opening(x)
    ensures Met(x)
  {
    var ts: seq<Act> := [];
    assert IsSession([x], ts) && [x][|ts|] == x;
  }

  lemma Meets(x: Session, t: Act)
    requires Met(x) && ActEnabled(x, t)
    ensures Met(ActApply(x, t))
  {
    hide Opening, ActEnabled, ActApply;
    var xs, ts :| IsSession(xs, ts) && xs[|ts|] == x;
    var xs', ts' := xs + [ActApply(x, t)], ts + [t];
    forall n | 0 <= n < |ts'| ensures ActEnabled(xs'[n], ts'[n]) && xs'[n + 1] == ActApply(xs'[n], ts'[n]) {
      if n < |ts| { assert xs'[n] == xs[n] && xs'[n + 1] == xs[n + 1]; }
    }
    assert IsSession(xs', ts') && xs'[|ts'|] == ActApply(x, t);
  }

  function Fresh(cfg: Config): Core { Core(cfg, Ready, false, None, true, 0, {}, map[], map[], []) }

  function With(k: Core): State { State(k, None, [], [], [], NotStarted) }

  // The core with its first operation pending.
  function Alone(cfg: Config, p: Op): Core { Fresh(cfg).(nextId := 1, pending := map[1 := 0], ops := [p]) }

  function Waiter(cfg: Config, p: Op, r: Response): Session { Session(With(Alone(cfg, p)), Parked(r, 0), [r], []) }

  ghost predicate FirstRequest(cfg: Config, spec: Spec, m: bytes)
  {
    && cfg.Valid() && spec.id == 1 && spec.scope == Application && !IsAssociationChanging(spec.op.declared)
    && Encoding(1, spec.op, cfg.limits) == Some(m)
  }

  lemma FirstId(cfg: Config)
    requires cfg.Valid()
    ensures TryReserve(Fresh(cfg)) == Some(1)
  {
    assert Scan(Fresh(cfg), 0, cfg.maxId) == Some(1);
  }

  lemma FirstInstalled(cfg: Config, spec: Spec, m: bytes)
    requires FirstRequest(cfg, spec, m)
    ensures Met(Session(With(Alone(cfg, Prepared(spec, m))), Reading, [], []))
  {
    hide Met, TryReserve, Encoding, Trace.Send;
    FirstId(cfg);
    var x := Session(With(Fresh(cfg)), Reading, [], []);
    Opens(x);
    var x1 := ActApply(x, Elsewhere(Start(spec)));
    Meets(x, Elsewhere(Start(spec)));
    assert x1.conn.core == Fresh(cfg).(reserved := {1}, nextId := 1, ops := [NewOp(spec)]);
    var x2 := ActApply(x1, Elsewhere(Setup(0, EncodeMessage)));
    Meets(x1, Elsewhere(Setup(0, EncodeMessage)));
    assert x2.conn.core == Fresh(cfg).(reserved := {1}, nextId := 1, ops := [NewOp(spec).(message := Some(m))]);
    Meets(x2, Elsewhere(Setup(0, TryInstall)));
    assert ActApply(x2, Elsewhere(Setup(0, TryInstall))).conn.core == Alone(cfg, Prepared(spec, m));
  }

  lemma FirstParks(cfg: Config, p: Op, r: Response)
    requires Met(Session(With(Alone(cfg, p)), Reading, [], [])) && r.messageId == 1 && !p.writeObserved
    ensures Met(Waiter(cfg, p, r))
  {
    hide Met, FramingPattern.Classify;
    var x := Session(With(Alone(cfg, p)), Reading, [], []);
    Meets(x, Receive(r));
    var x1 := ActApply(x, Receive(r));
    assert x1.received == [r];
    Meets(x1, Look);
    assert ActApply(x1, Look) == Waiter(cfg, p, r);
  }

  // The reader waits for the only operation, which was not sent and is pending no more.
  predicate InVain(x: Session, r: Response)
  {
    && x.reader == Parked(r, 0) && x.conn.core.err.None? && |x.conn.core.ops| == 1
    && NotSent(x.conn.core.ops[0]) && !IsPending(x.conn.core, 0)
  }

  lemma FirstFails(cfg: Config, p: Op, r: Response)
    requires Met(Waiter(cfg, p, r)) && p.stage.Installed? && p.spec.id == 1 && !p.writeStarted
    ensures exists x :: Met(x) && InVain(x, r)
  {
    hide Met, Trace.Send;
    var x := Waiter(cfg, p, r);
    var x1 := ActApply(x, Elsewhere(Writer(0, AcquireFails)));
    Meets(x, Elsewhere(Writer(0, AcquireFails)));
    var q := p.(stage := Wrote, wrote := Some(Unsent(DefinitelyUnsent)));
    assert x1.conn.core == Alone(cfg, q);
    var x2 := ActApply(x1, Elsewhere(Settle(0, WriteFailed)));
    Meets(x1, Elsewhere(Settle(0, WriteFailed)));
    assert Met(x2) && InVain(x2, r);
  }

  /** And it happens: whatever request is the first of a connection, the peer may answer
      it before it is written, its context may end before it gets the writer, and the
      reader then waits for it although it is gone. */
  lemma MayWaitInVain(cfg: Config, spec: Spec, m: bytes, r: Response)
    requires FirstRequest(cfg, spec, m) && r.messageId == 1
    ensures exists x :: Met(x) && InVain(x, r)
  {
    hide Met, Trace.Send, Encoding;
    FirstInstalled(cfg, spec, m);
    FirstParks(cfg, Prepared(spec, m), r);
    FirstFails(cfg, Prepared(spec, m), r);
  }
}
