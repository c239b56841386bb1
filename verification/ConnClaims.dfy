/** What holds in every run of a connection, for any interleaving of its goroutines
    with cancellation, retirement, the peer and the transport. */
module ConnClaims {
  import opened BerTypes
  import opened BerTree
  import opened BerInteger
  import opened Protocol
  import opened Envelope
  import opened ConnMessages
  import opened ConnCore
  import opened ConnOps
  import opened ConnMachine
  import opened ConnInv
  import opened ConnWorkers
  import opened ConnHistory
  import opened ConnRuns

  // ------------------------------------------------------------------- induction

  /** The invariant holds in every state of every run. */
  lemma {:induction false} RunInv(states: seq<State>, events: seq<Event>, n: nat)
    requires IsRun(states, events) && n < |states|
    ensures Inv(states[n])
  {
    hide Inv, Initial, Enabled, Apply, AllEvolve;
    if n == 0 {
      InitialInv(states[0]);
    } else {
      RunInv(states, events, n - 1);
      StepKeeps(states[n - 1], events[n - 1]);
    }
  }

  lemma EvolvesTransitive(p: Op, q: Op, r: Op)
    requires Evolves(p, q) && Evolves(q, r)
    ensures Evolves(p, r)
  {
  }

  /** Whatever an operation reached in one state of a run it keeps in all later ones. */
  lemma {:induction false} RunEvolves(states: seq<State>, events: seq<Event>, m: nat, n: nat)
    requires IsRun(states, events) && m <= n < |states|
    ensures AllEvolve(states[m].core.ops, states[n].core.ops)
    decreases n - m
  {
    hide Inv, Initial, Enabled, Apply, Evolves;
    if m == n {
      forall i | 0 <= i < |states[m].core.ops| ensures Evolves(states[m].core.ops[i], states[m].core.ops[i]) {
        SelfEvolves(states[m].core.ops[i]);
      }
    } else {
      RunEvolves(states, events, m, n - 1);
      RunInv(states, events, n - 1);
      StepKeeps(states[n - 1], events[n - 1]);
      var a, b, c := states[m].core.ops, states[n - 1].core.ops, states[n].core.ops;
      forall i | 0 <= i < |a| ensures Evolves(a[i], c[i]) { EvolvesTransitive(a[i], b[i], c[i]); }
    }
  }

  // -------------------------------------------------------------- response delivery

  // What a consumer gets by calling Next until it returns no response, and what
  // that last call returns.
  function Yield(p: Op): seq<Response>
    decreases |p.inbox.queue|
  {
    if p.inbox.queue == [] then [] else [p.inbox.queue[0]] + Yield(ConsumeOp(p))
  }

  function LastNext(p: Op): NextResult
    decreases |p.inbox.queue|
  {
    if p.inbox.queue == [] then NextOf(p) else LastNext(ConsumeOp(p))
  }

  lemma {:induction false} YieldIsQueue(p: Op)
    ensures Yield(p) == p.inbox.queue
    ensures LastNext(p) == NextOf(p.(inbox := p.inbox.(queue := [])))
    decreases |p.inbox.queue|
  {
    if p.inbox.queue != [] { YieldIsQueue(ConsumeOp(p)); }
  }

  /** No response of a safely completed operation is lost, repeated or reordered,
      whatever happens later: if its completing response was routed before its
      delivery stopped, then in every later state what was handed out, followed by
      what a consumer still gets, is exactly what had arrived, and then comes EOF. */
  lemma SafeDelivery(states: seq<State>, events: seq<Event>, m: nat, n: nat, i: nat)
    requires IsRun(states, events) && m <= n < |states| && i < |states[m].core.ops|
    requires Safe(states[m].core.ops[i])
    ensures i < |states[n].core.ops|
    ensures var p := states[n].core.ops[i];
            p.inbox.delivered + Yield(p) == states[m].core.ops[i].inbox.routed && LastNext(p) == Eof
  {
    hide Encoding;
    hide Enabled, Apply;
    RunInv(states, events, m);
    RunInv(states, events, n);
    OpFact(states[m].core, i);
    RunEvolves(states, events, m, n);
    OpFact(states[n].core, i);
    hide Inv, IsRun;
    var p := states[n].core.ops[i];
    assert Evolves(states[m].core.ops[i], p);
    YieldIsQueue(p);
  }

  /** In any state: what was handed out is a prefix of what arrived, every arrival
      carries the operation's ID and only the last may complete it; and a completed
      operation ends in EOF exactly when it completed before its delivery stopped. */
  lemma DeliveryInOrder(states: seq<State>, events: seq<Event>, n: nat, i: nat)
    requires IsRun(states, events) && n < |states| && i < |states[n].core.ops|
    ensures var p := states[n].core.ops[i];
            && p.inbox.delivered + Yield(p) <= p.inbox.routed
            && (forall j :: 0 <= j < |p.inbox.routed| ==> p.inbox.routed[j].messageId == p.spec.id)
            && (forall j :: 0 <= j < |p.inbox.routed| - 1 ==> p.spec.pattern.Classify(p.inbox.routed[j].protocolId) == Continue)
            && (p.inbox.completed ==> (LastNext(p) == Eof <==> Safe(p)))
  {
    hide Encoding;
    hide IsRun;
    RunInv(states, events, n);
    OpFact(states[n].core, i);
    hide Inv;
    YieldIsQueue(states[n].core.ops[i]);
    var b := states[n].core.ops[i].inbox;
    assert b.delivered + [] == b.delivered;
  }

  // ------------------------------------------------------------------- message IDs

  // The operation's ID must not be given to another one.
  predicate HoldsId(p: Op)
  {
    p.stage.Reserved? || p.stage.Rejected? || (IsInstalled(p) && !p.lifecycleDone) || p.abandoned
  }

  // An ID that a step adds to the reserved ones is the allocator's.
  lemma DoingIssues(s: State, i: nat, a: SetupStep, b: WriterStep, c: OutcomeStep)
    ensures SetupEnabled(s, i, a) ==> SetupApply(s, i, a).core.reserved <= s.core.reserved
    ensures WriterEnabled(s, i, b) ==> WriterApply(s, i, b).core.reserved <= s.core.reserved
    ensures OutcomeEnabled(s, i, c) ==> OutcomeApply(s, i, c).core.reserved <= s.core.reserved
  {
    hide RemoveOp, ObserveOp, InstalledOp, RejectedOp, WriterOp, WriterToken, InstallAllowed, EncodedOp, Encoding;
  }

  // The reserved IDs of a step: no more than before, or the allocator's besides.
  ghost predicate IssuesFrom(k: Core, k': Core)
  {
    k'.reserved <= k.reserved || (TryReserve(k).Some? && k'.reserved == k.reserved + {TryReserve(k).value})
  }

  lemma AbandonIssues(s: State, t: nat, e: AbandonStep)
    requires AbandonEnabled(s, t, e)
    ensures IssuesFrom(s.core, AbandonApply(s, t, e).core)
  {
    hide TryReserve, TombstoneOp, AbandonMessage;
  }

  lemma StreamIssues(s: State, i: nat, e: StreamStep, r: Response)
    ensures StreamEnabled(s, i, e) ==> IssuesFrom(s.core, StreamApply(s, i, e).core)
    ensures Enabled(s, Arrival(r)) ==> IssuesFrom(s.core, ArrivalApply(s, r).core)
  {
    hide TryReserve, RouteOp, RouteAbandons, Completes, CancelOp, ConsumeOp, CancelAbandons;
  }

  lemma OtherIssues(s: State, e: Event)
    requires Enabled(s, e) && (e.Start? || e.Write? || e.Closing? || e.RetireWith? || e.Advance? || e.BecomeReady?)
    ensures IssuesFrom(s.core, Apply(s, e).core)
  {
    hide TryReserve, UnbindMessage, RetireOps, CallAfter, Retires, CallReady, ScopeAllowed, Idle, NewOp;
  }

  const ANY_RESPONSE := Response(0, ABANDON_REQUEST, [], [], [], [])

  lemma Issues(s: State, e: Event, id: int)
    requires Enabled(s, e) && id in Apply(s, e).core.reserved && id !in s.core.reserved
    ensures TryReserve(s.core) == Some(id)
  {
    hide BeginEnabled, SetupEnabled, WriterEnabled, OutcomeEnabled, StreamEnabled, CallEnabled, AbandonEnabled, CloseEnabled,
         Begin, SetupApply, WriterApply, OutcomeApply, StreamApply, CallApply, AbandonApply, CloseApply, ArrivalApply, Retire, ReadyAllowed, TryReserve;
    match e
    case Setup(i, x) => DoingIssues(s, i, x, TakeToken, Observe);
    case Writer(i, x) => DoingIssues(s, i, GiveUp, x, Observe);
    case Settle(i, x) => DoingIssues(s, i, GiveUp, TakeToken, x);
    case Stream(i, x) => StreamIssues(s, i, x, ANY_RESPONSE);
    case Arrival(r) => StreamIssues(s, 0, Consume, r);
    case Abandoning(t, x) => AbandonIssues(s, t, x);
    case _ => OtherIssues(s, e);
  }

  /** Before retirement, whatever step issues a message ID (for an operation, an
      Abandon or the Unbind), it is in range and it is not the ID of an operation
      that is being set up, is pending or was abandoned, nor one that any goroutine
      still has to release. */
  lemma NeverReissued(states: seq<State>, events: seq<Event>, n: nat, id: int)
    requires IsRun(states, events) && n < |events| && states[n].core.err.None?
    requires id !in states[n].core.reserved && id in states[n + 1].core.reserved
    ensures 1 <= id <= states[n].core.cfg.maxId
    ensures forall i :: 0 <= i < |states[n].core.ops| && HoldsId(states[n].core.ops[i]) ==> states[n].core.ops[i].spec.id != id
    ensures forall w :: Claim(Pos(states[n], w)) != Some(id)
  {
    hide Inv, Enabled, HoldsId, Apply, Claim, Pos, CoreInv, TryReserve, Occupied;
    var s := states[n];
    RunInv(states, events, n);
    Issues(s, events[n], id);
    InvCore(s);
    ReserveCore(s.core);
    forall i | 0 <= i < |s.core.ops| && HoldsId(s.core.ops[i]) ensures s.core.ops[i].spec.id != id { IdHeld(s, i); }
    forall w ensures Claim(Pos(s, w)) != Some(id) {
      if Claim(Pos(s, w)).Some? { ClaimHeld(s, w); }
    }
  }

  lemma InvCore(s: State)
    requires Inv(s)
    ensures CoreInv(s.core)
  {
  }

  lemma ClaimHeld(s: State, w: Worker)
    requires Inv(s) && s.core.err.None? && Claim(Pos(s, w)).Some?
    ensures Occupied(s.core, Claim(Pos(s, w)).value)
  {
    hide CoreInv, TokenInv, BusyInv, LastInv, OnceInv, CallsInv, RequestsInv, TasksInv, AbandonCallsInv, SpoiledInv, UnbindCallsInv, ReadyInv;
  }

  lemma IdHeld(s: State, i: nat)
    requires Inv(s) && i < |s.core.ops| && HoldsId(s.core.ops[i]) && s.core.err.None?
    ensures Occupied(s.core, s.core.ops[i].spec.id)
  {
    hide OpsInv, IdsInv, EndInv, TokenInv, BusyInv, LastInv, OnceInv, CallsInv, RequestsInv, TasksInv, AbandonCallsInv, SpoiledInv, UnbindCallsInv, ReadyInv;
    if s.core.ops[i].stage.Reserved? || s.core.ops[i].stage.Rejected? {
      assert Claim(Pos(s, Doing(i))) == Some(s.core.ops[i].spec.id);
    }
  }

  /** Reserved, pending and tombstoned IDs are disjoint and in [1, maxID], and
      pending holds exactly the installed operations that are unfinished. */
  lemma IdsPartitioned(states: seq<State>, events: seq<Event>, n: nat)
    requires IsRun(states, events) && n < |states|
    ensures IdsDisjoint(states[n].core) && IdsInRange(states[n].core)
    ensures forall i :: 0 <= i < |states[n].core.ops| ==>
              (IsPending(states[n].core, i) <==> IsInstalled(states[n].core.ops[i]) && !states[n].core.ops[i].lifecycleDone)
  {
    hide Encoding;
    RunInv(states, events, n);
    hide IsRun, WorkersInv, OpsInv, CallsInv, RequestsInv, TasksInv, AbandonCallsInv, SpoiledInv, UnbindCallsInv, ReadyInv;
  }

  // -------------------------------------------------------------------- lifecycles

  /** Once an operation's lifecycle has ended it stays ended, nothing more is routed
      to it, and Next never blocks again. */
  lemma EndedForGood(states: seq<State>, events: seq<Event>, m: nat, n: nat, i: nat)
    requires IsRun(states, events) && m <= n < |states| && i < |states[m].core.ops|
    requires states[m].core.ops[i].lifecycleDone
    ensures i < |states[n].core.ops|
    ensures var p := states[n].core.ops[i];
            p.lifecycleDone && NextOf(p) != Block && p.inbox.routed == states[m].core.ops[i].inbox.routed
  {
    hide Encoding;
    hide IsRun, CoreInv, WorkersInv, CallsInv, RequestsInv, TasksInv, AbandonCallsInv, SpoiledInv, UnbindCallsInv, ReadyInv;
    RunInv(states, events, n);
    RunEvolves(states, events, m, n);
    OpFact(states[n].core, i);
    assert Evolves(states[m].core.ops[i], states[n].core.ops[i]);
  }

  // Any reader with room for it takes message for an Abandon of this target.
  ghost predicate ReadsAsAbandon(message: bytes, aid: int, target: int)
  {
    forall limits :: Roomy(limits) ==>
      && ParseMessage(message, limits).Ok?
      && var r := ParseMessage(message, limits).value;
         && r.messageId == aid && r.protocolId == ABANDON_REQUEST && r.controls == [] && r.extensions == []
         && |IntegerContents(target)| <= MAX_INT && r.protocol == Wrap(ABANDON_REQUEST, IntegerContents(target))
  }

  lemma AbandonIsRead(aid: int32, target: int32)
    requires 0 <= aid
    ensures ReadsAsAbandon(AbandonMessage(aid, target), aid, target)
  {
    hide ParseMessage, AbandonMessage, Wrap, IntegerContents, Roomy;
    SmallContents(target);
    forall limits | Roomy(limits)
      ensures ParseMessage(AbandonMessage(aid, target), limits) == Ok(Response(aid, ABANDON_REQUEST, AbandonMessage(aid, target), Wrap(ABANDON_REQUEST, IntegerContents(target)), [], []))
    {
      AbandonReads(aid, target, limits);
    }
  }

  /** At most one Abandon is ever written for an operation, only once its ID was
      tombstoned, and never once it completed; and what is written says so: it is
      read as an Abandon of that operation's ID, under an ID of its own in range. */
  lemma AbandonsAreSafe(states: seq<State>, events: seq<Event>, n: nat, c: nat)
    requires IsRun(states, events) && n < |states|
    requires c < |states[n].calls| && states[n].calls[c].owner.Abandoner?
    ensures var s, t := states[n], states[n].calls[c].owner.task;
            && t < |s.abandons| && s.abandons[t].target < |s.core.ops|
            && var p := s.core.ops[s.abandons[t].target];
               && p.abandoned && !p.terminal && !p.inbox.completed && p.spec.mode == CancelAbandon
               && (exists aid :: 1 <= aid <= s.core.cfg.maxId && ReadsAsAbandon(s.calls[c].message, aid, p.spec.id))
               && (forall d :: 0 <= d < |s.calls| && d != c && s.calls[d].owner.Abandoner? ==>
                     s.calls[d].owner.task < |s.abandons| && s.abandons[s.calls[d].owner.task].target != s.abandons[t].target)
  {
    hide IsRun, CallsInv, RequestsInv, ReadyInv, SpoiledInv, UnbindCallsInv, OwnedInv, TokenInv, BusyInv, LastInv, OpsInv, IdsInv, LinksInv, LiveInv, EndInv,
         AbandonMessage, ReadsAsAbandon, Encoding;
    RunInv(states, events, n);
    var s := states[n];
    var t := s.calls[c].owner.task;
    assert Entered(Pos(s, s.calls[c].owner));
    OpFact(s.core, s.abandons[t].target);
    hide CoreInv;
    var p := s.core.ops[s.abandons[t].target];
    var aid: int32 :| 1 <= aid <= s.core.cfg.maxId && s.calls[c].message == AbandonMessage(aid, p.spec.id);
    AbandonIsRead(aid, p.spec.id);
    hide AbandonCallsInv;
    forall d | 0 <= d < |s.calls| && d != c && s.calls[d].owner.Abandoner?
      ensures s.calls[d].owner.task < |s.abandons| && s.abandons[s.calls[d].owner.task].target != s.abandons[t].target
    {
      assert Entered(Pos(s, s.calls[d].owner));
      var low, high := if c < d then c else d, if c < d then d else c;
      assert s.calls[low].owner != s.calls[high].owner;
    }
  }

  /** No operation ever sends its observer more dispatches than its queue has slots. */
  lemma ObserverNeverBlocks(states: seq<State>, events: seq<Event>, n: nat, i: nat)
    requires IsRun(states, events) && n < |states| && i < |states[n].core.ops|
    ensures states[n].core.ops[i].trace.count <= 6
  {
    hide Encoding;
    RunInv(states, events, n);
    hide IsRun;
    OpFact(states[n].core, i);
    hide Inv;
    DispatchesFit(states[n].core.ops[i]);
  }

  // ----------------------------------------------------------------- lifecycle states

  ghost predicate SamePhase(k: Core, k': Core) { k'.phase == k.phase && k'.err == k.err }

  // Only closing, retirement and initialization move the connection on.
  lemma DoingStays(s: State, i: nat, a: SetupStep, b: WriterStep, c: OutcomeStep)
    ensures SetupEnabled(s, i, a) ==> SamePhase(s.core, SetupApply(s, i, a).core)
    ensures WriterEnabled(s, i, b) ==> SamePhase(s.core, WriterApply(s, i, b).core)
    ensures OutcomeEnabled(s, i, c) ==> SamePhase(s.core, OutcomeApply(s, i, c).core)
  {
    hide RemoveOp, ObserveOp, InstalledOp, RejectedOp, WriterOp, WriterToken, InstallAllowed, EncodedOp, Encoding;
  }

  lemma StreamStays(s: State, i: nat, e: StreamStep)
    requires StreamEnabled(s, i, e)
    ensures SamePhase(s.core, StreamApply(s, i, e).core)
  {
    hide CancelOp, ConsumeOp, CancelAbandons;
  }

  lemma ArrivalStays(s: State, r: Response)
    requires Enabled(s, Arrival(r))
    ensures SamePhase(s.core, ArrivalApply(s, r).core)
  {
    hide RouteOp, RouteAbandons, Completes;
  }

  lemma AbandonStays(s: State, t: nat, e: AbandonStep)
    requires AbandonEnabled(s, t, e)
    ensures !e.FailAbandon? ==> SamePhase(s.core, AbandonApply(s, t, e).core)
    ensures e.FailAbandon? ==> AbandonApply(s, t, e).core == Retire(s.core, s.abandons[t].stage.reason)
  {
    hide TombstoneOp, TryReserve, AbandonMessage, Retire;
  }

  // The moves that are left: to the next state, draining from any open state, and the end.
  ghost predicate Onward(k: Core, k': Core)
  {
    && (|| k'.phase == k.phase
        || Rank(k'.phase) == Rank(k.phase) + 1
        || (k'.phase == Draining && k.phase != Closed)
        || k'.phase == Closed)
    && (k.err.Some? ==> k'.err == k.err && k'.phase == Closed)
  }

  lemma MovesOnward(s: State, e: Event)
    requires (s.core.err.Some? <==> s.core.phase == Closed) && Enabled(s, e)
    requires e.Closing? || e.RetireWith? || e.Advance? || e.BecomeReady? || e.Start? || e.Write?
    ensures Onward(s.core, Apply(s, e).core)
  {
    hide RetireOps, TryReserve, NewOp, CallAfter, Idle, CallReady, Retires, UnbindMessage;
    match e
    case Start(_) => case Write(_) => case Closing(_) => case RetireWith(_) => case Advance(_) => case BecomeReady =>
  }

  lemma PhaseStep(s: State, e: Event)
    requires Inv(s) && Enabled(s, e)
    ensures Onward(s.core, Apply(s, e).core)
  {
    hide Inv, BeginEnabled, SetupEnabled, WriterEnabled, OutcomeEnabled, StreamEnabled, CallEnabled, AbandonEnabled, CloseEnabled,
         Begin, SetupApply, WriterApply, OutcomeApply, StreamApply, CallApply, AbandonApply, CloseApply, ArrivalApply, ReadyAllowed, RetireOps;
    ClosedFact(s);
    match e
    case Setup(i, x) => DoingStays(s, i, x, TakeToken, Observe);
    case Writer(i, x) => DoingStays(s, i, GiveUp, x, Observe);
    case Settle(i, x) => DoingStays(s, i, GiveUp, TakeToken, x);
    case Stream(i, x) => StreamStays(s, i, x);
    case Arrival(r) => ArrivalStays(s, r);
    case Abandoning(t, x) => AbandonStays(s, t, x);
    case _ => MovesOnward(s, e);
  }

  /** A connection only moves forward through its states; retirement is final, and
      keeps its reason. */
  lemma {:induction false} PhasesForward(states: seq<State>, events: seq<Event>, m: nat, n: nat)
    requires IsRun(states, events) && m <= n < |states|
    ensures Rank(states[m].core.phase) <= Rank(states[n].core.phase)
    ensures states[m].core.err.Some? ==> states[n].core.err == states[m].core.err && states[n].core.phase == Closed
    decreases n - m
  {
    hide Inv, Initial, Enabled, Apply;
    if m < n {
      PhasesForward(states, events, m, n - 1);
      RunInv(states, events, n - 1);
      PhaseStep(states[n - 1], events[n - 1]);
      ClosedFact(states[n - 1]);
    } else {
      RunInv(states, events, n);
      ClosedFact(states[n]);
    }
  }

  /** No state is skipped on the way up: a step takes the connection to the very next
      state, or to draining, or to its end. */
  lemma PhasesOneByOne(states: seq<State>, events: seq<Event>, n: nat)
    requires IsRun(states, events) && n < |events|
    ensures var a, b := states[n].core.phase, states[n + 1].core.phase;
            a == b || Rank(b) == Rank(a) + 1 || (b == Draining && a != Closed) || b == Closed
  {
    hide Inv, Initial, Enabled, Apply;
    RunInv(states, events, n);
    PhaseStep(states[n], events[n]);
  }

  lemma ClosedFact(s: State)
    requires Inv(s)
    ensures s.core.err.Some? <==> s.core.phase == Closed
  {
    hide OpsInv, IdsInv, LinksInv, LiveInv, WorkersInv, CallsInv, RequestsInv, TasksInv, AbandonCallsInv, SpoiledInv, UnbindCallsInv, ReadyInv;
  }

  /** Caller operations are installed only in the ready state and never bind or
      unbind; initialization operations are installed only before it, and in it
      none is pending or at work. */
  lemma ScopesSeparated(states: seq<State>, events: seq<Event>, n: nat, i: nat)
    requires IsRun(states, events) && n < |states| && i < |states[n].core.ops|
    ensures var k, p := states[n].core, states[n].core.ops[i];
            && (p.spec.scope == Application ==>
                  !IsAssociationChanging(p.spec.op.declared) && (p.installedIn == None || p.installedIn == Some(Ready)))
            && (p.spec.scope == Initialization ==>
                  && (p.installedIn == None || p.installedIn == Some(Authenticating) || p.installedIn == Some(Initializing))
                  && (k.phase == Ready ==> p.stage.Finished? && !IsPending(k, i)))
  {
    hide Encoding;
    hide IsRun, OpsInv, IdsInv, LinksInv, LiveInv, EndInv, WorkersInv, CallsInv, RequestsInv, TasksInv, AbandonCallsInv, SpoiledInv, UnbindCallsInv;
    RunInv(states, events, n);
    OpFact(states[n].core, i);
  }
}
