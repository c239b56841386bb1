/** The connection as the object it is: methods that change the fields step by
    step. Each does what its critical section does in the transition system, and
    keeps the invariant of the lock-protected state. */
module ConnObject {
  import opened BerTypes
  import opened Protocol
  import opened Envelope
  import opened ConnMessages
  import opened ConnCore
  import opened ConnOps
  import opened ConnMachine
  import opened ConnInv
  import opened ConnReader

  lemma SomeKey(m: map<int, nat>)
    ensures m == map[] || exists id :: id in m
  {
    if forall id :: id !in m { assert m == map[]; }
  }

  // One turn of the allocator's loop.
  lemma ScanTurn(k: Core, n: int32, steps: nat)
    requires steps > 0
    ensures var next := Successor(n, k.cfg.maxId);
            Scan(k, n, steps) == if Occupied(k, next) then Scan(k, next, steps - 1) else Some(next)
  {
  }

  lemma ScanOver(k: Core, n: int32)
    ensures Scan(k, n, 0) == None
  {
  }

  lemma NewCore(k: Core)
    requires Initial(Around(k))
    ensures CoreInv(k)
  {
  }

  // Operation i is in order, and its byte total exact.
  lemma InOrder(k: Core, i: nat)
    requires CoreInv(k) && i < |k.ops|
    ensures OpInv(k.ops[i], k.cfg) && Total(k.ops[i].inbox.queue) == k.ops[i].inbox.queuedBytes
  {
    hide Encoding, FlagsOk, StageOk, ScopeOk, TraceOk, MessageOk, IdsInv, LinksInv, LiveInv, EndInv;
  }

  // The operation that a response finds.
  lemma PendingFound(k: Core, id: int)
    requires CoreInv(k) && id in k.pending
    ensures k.pending[id] < |k.ops|
    ensures var p := k.ops[k.pending[id]]; OpInv(p, k.cfg) && p.spec.id == id && IsInstalled(p) && !p.lifecycleDone
  {
    hide OpInv, IdsInv, LiveInv, EndInv;
  }

  // What is left once a response was looked at.
  ghost function Taken(k: Core, r: Response): Core
  {
    if Verdict(k, r).Accepted? then ArrivalApply(Around(k), r).core else k
  }

  // What routing an accepted response needs, and keeps.
  lemma RouteCore(k: Core, r: Response)
    requires CoreInv(k) && Verdict(k, r).Accepted?
    ensures r.messageId in k.pending && k.pending[r.messageId] < |k.ops|
    ensures OpInv(k.ops[k.pending[r.messageId]], k.cfg) && CanRoute(k.ops[k.pending[r.messageId]], r)
    ensures CoreInv(Route(k, k.pending[r.messageId], r))
  {
    PendingFound(k, r.messageId);
    AcceptedArrives(Around(k), r);
    hide CoreInv, Verdict, OpInv, RouteOp;
    ArrivalCore(Around(k), r);
  }

  lemma PendingUnfinished(k: Core, i: nat)
    requires CoreInv(k) && i < |k.ops| && IsPending(k, i)
    ensures OpInv(k.ops[i], k.cfg) && IsInstalled(k.ops[i]) && !k.ops[i].lifecycleDone
  {
    hide OpInv, IdsInv, LiveInv, EndInv;
  }

  // A finished operation never makes its consumer wait.
  lemma FinishedNext(p: Op, cfg: Config)
    requires OpInv(p, cfg)
    ensures p.lifecycleDone ==> NextOf(p) != Block
  {
    hide Encoding;
  }

  // An unfinished operation with a stream is pending.
  lemma StreamPending(k: Core, i: nat)
    requires CoreInv(k) && i < |k.ops| && HasStream(k.ops[i])
    ensures !k.ops[i].lifecycleDone ==> IsPending(k, i)
  {
    hide Encoding, IdsInv, LiveInv, EndInv;
    assert OpInv(k.ops[i], k.cfg);
    assert IsInstalled(k.ops[i]);
    hide OpInv;
  }

  lemma CanceledNext(p: Op, reason: Failure, isPending: bool, cfg: Config)
    requires OpInv(p, cfg) && !p.terminal
    ensures NextOf(CancelOp(p, reason, isPending)) == Fail(if p.inbox.deliveryErr.Some? then p.inbox.deliveryErr.value else reason)
  {
    hide Encoding;
  }

  lemma RemovedIsGone(k: Core, i: nat)
    requires i < |k.ops|
    ensures var k', p := EndOp(Remove(k, i), i), k.ops[i];
            && !IsPending(k', i)
            && k' == if p.spec.id in k.pending && k.pending[p.spec.id] == i
                     then k.(pending := k.pending - {p.spec.id}, ops := k.ops[i := RemoveOp(p).(stage := Finished)])
                     else k.(ops := k.ops[i := p.(stage := Finished)])
  {
    hide FinishOp;
    assert k.ops[i := RemoveOp(k.ops[i])][i := RemoveOp(k.ops[i]).(stage := Finished)] == k.ops[i := RemoveOp(k.ops[i]).(stage := Finished)];
    assert RemoveOp(k.ops[i]).spec == k.ops[i].spec by { RemoveSpec(k.ops[i]); }
  }

  lemma RemoveSpec(p: Op)
    ensures RemoveOp(p).spec == p.spec
  {
  }

  lemma RetiredIsShut(k: Core, reason: Failure)
    requires CoreInv(k)
    ensures Retire(k, reason).err.Some? && !Retire(k, reason).open
  {
    hide OpsInv, IdsInv, LinksInv, LiveInv;
  }

  // What retirement does to a pending operation: it keeps its queue, and the error it
  // had if any. Otherwise it gets the reason of the retirement; if that is a transport
  // failure, it gets one that says whether its own write had begun.
  ghost predicate EndsBy(p: Op, q: Op, e: Failure)
  {
    && q.lifecycleDone && q.terminal && q.inbox.queue == p.inbox.queue && q.spec == p.spec
    && Retired in q.trace.kinds && End in q.trace.kinds
    && (p.inbox.deliveryErr.Some? ==> q.inbox.deliveryErr == p.inbox.deliveryErr)
    && (p.inbox.deliveryErr.None? && !e.FailTransport? ==> q.inbox.deliveryErr == Some(e))
    && (p.inbox.deliveryErr.None? && e.FailTransport? && p.writeStarted ==> q.inbox.deliveryErr == Some(FailTransport(Ambiguous)))
    && (p.inbox.deliveryErr.None? && e.FailTransport? && !p.writeStarted ==> q.inbox.deliveryErr == Some(FailTransport(DefinitelyUnsent)))
  }

  lemma RetireEnds(p: Op, e: Failure)
    requires !p.lifecycleDone
    ensures EndsBy(p, RetireOp(p, e), e)
  {
  }

  // A connection with this lock-protected state, otherwise at rest.
  ghost function Around(k: Core): State { State(k, None, [], [], [], NotStarted) }

  class Conn {
    const cfg: Config
    var phase: Phase
    var closing: bool
    var err: Option<Failure>
    var open: bool
    var nextId: int32
    var reserved: set<int>
    var pending: map<int, nat>
    var tombstones: map<int, FramingPattern>
    var ops: seq<Op>

    ghost function View(): Core
      reads this
    {
      Core(cfg, phase, closing, err, open, nextId, reserved, pending, tombstones, ops)
    }

    ghost predicate Valid()
      reads this
    {
      CoreInv(View())
    }

    // newObservedConnWithState
    constructor (cfg: Config, phase: Phase)
      requires cfg.Valid() && (phase == TransportSetup || phase == Ready)
      ensures Valid()
      ensures Initial(Around(View())) && this.cfg == cfg && this.phase == phase
    {
      this.cfg, this.phase := cfg, phase;
      closing, err, open, nextId := false, None, true, 0;
      reserved, pending, tombstones, ops := {}, map[], map[], [];
      new;
      NewCore(View());
    }

    // --------------------------------------------------------------- message IDs

    // The cyclic scan for a free ID, when there is one.
    method ScanIds()
      requires TryReserve(View()).Some?
      modifies `nextId
      ensures Some(nextId) == TryReserve(old(View()))
    {
      ghost var k := View();
      assert TryReserve(k) == Scan(k, k.nextId, cfg.maxId);
      hide TryReserve, Scan;
      var steps := 0;
      while steps < cfg.maxId
        invariant 0 <= steps <= cfg.maxId
        invariant TryReserve(k) == Scan(k, nextId, cfg.maxId - steps)
      {
        ScanTurn(k, nextId, cfg.maxId - steps);
        nextId := if nextId == MAX_MESSAGE_ID then -MAX_MESSAGE_ID - 1 else nextId + 1;
        if nextId > cfg.maxId || nextId <= 0 {
          nextId := 1;
        }
        if !(nextId in reserved || nextId in pending || nextId in tombstones) {
          return;
        }
        steps := steps + 1;
      }
      ScanOver(k, nextId);
    }

    /** Reserves the first free ID after the last one issued, and finds one exactly
        when fewer than maxID are occupied. */
    method TryReserveMessageID() returns (r: Option<int32>)
      requires Valid()
      modifies `nextId, `reserved
      ensures Valid()
      ensures r == TryReserve(old(View()))
      ensures r.Some? <==> |OccupiedSet(old(View()))| < cfg.maxId
      ensures View() == if r.Some? then ReserveId(old(View()), r.value) else old(View())
    {
      hide OpsInv, LinksInv, LiveInv, EndInv, IdsDisjoint, IdsInRange, OccupiedSet, Scan;
      ReserveIffRoom(View());
      OccupiedCount(View());
      if TryReserve(View()).Some? { ReserveCore(View()); }
      if |reserved| + |pending| + |tombstones| >= cfg.maxId {
        return None;
      }
      ScanIds();
      reserved := reserved + {nextId};
      return Some(nextId);
    }

    /** Gives one reserved ID back and no other: it can be issued again unless an
        operation or a tombstone has it. */
    method ReleaseReserved(id: int)
      requires Valid()
      modifies `reserved
      ensures Valid()
      ensures View() == ConnCore.ReleaseReserved(old(View()), id)
      ensures Occupied(View(), id) <==> id in pending || id in tombstones
      ensures forall x :: x != id ==> Occupied(View(), x) == Occupied(old(View()), x)
    {
      hide CoreInv;
      ReleaseCore(View(), id);
      if id in reserved {
        reserved := reserved - {id};
      }
    }

    // The locked section of reserveMessageID, for an operation that do has checked.
    method ReserveOperation(scope: Scope, op: Request, pattern: FramingPattern, mode: CancelMode) returns (ok: bool)
      requires Valid() && !(scope == Application && IsAssociationChanging(op.declared))
      modifies `nextId, `reserved, `ops
      ensures Valid()
      ensures ok <==> err.None? && !closing && |OccupiedSet(old(View()))| < cfg.maxId
                      && if scope == Application then phase == Ready else phase == Authenticating || phase == Initializing
      ensures ok ==> var spec := Spec(nextId, scope, op, pattern, mode);
                     BeginEnabled(Around(old(View())), spec) && View() == Begin(Around(old(View())), spec).core
      ensures !ok ==> View() == old(View())
    {
      hide CoreInv, TryReserve, OccupiedSet;
      if err.Some? || closing || !ScopeAllowedNow(scope) {
        return false;
      }
      ghost var k := View();
      var id := TryReserveMessageID();
      if id.None? {
        return false;
      }
      ghost var spec := Spec(nextId, scope, op, pattern, mode);
      BeginCore(Around(k), spec);
      ops := ops + [NewOp(Spec(nextId, scope, op, pattern, mode))];
      return true;
    }

    // ---------------------------------------------------------- one operation

    method InstallPending(i: nat) returns (ok: bool)
      requires Valid() && i < |ops| && ops[i].stage == Reserved && ops[i].message.Some?
      modifies `reserved, `pending, `ops
      ensures Valid()
      ensures ok <==> InstallAllowed(old(View()), i)
      ensures ok <==> err.None? && !closing && old(ops[i].spec.id in reserved)
                      && (old(ops[i].spec.scope) == Application ==> phase == Ready)
                      && (old(ops[i].spec.scope) == Initialization ==> phase == Authenticating || phase == Initializing)
      ensures View() == Install(old(View()), i)
    {
      hide CoreInv;
      SetupCore(Around(View()), i, TryInstall);
      var p := ops[i];
      var trace := p.trace.Send(Queued);
      if err.Some? || closing || !ScopeAllowedNow(p.spec.scope) || p.spec.id !in reserved {
        ops := ops[i := p.(stage := Rejected, trace := trace.Send(End))];
        return false;
      }
      reserved := reserved - {p.spec.id};
      pending := pending[p.spec.id := i];
      ops := ops[i := p.(stage := Installed, installedIn := Some(phase), trace := trace)];
      return true;
    }

    predicate ScopeAllowedNow(scope: Scope)
      reads this
      ensures ScopeAllowedNow(scope) == ScopeAllowed(View(), scope)
    {
      match scope
      case Application => phase == Ready
      case Initialization => phase == Authenticating || phase == Initializing
    }

    // removeDefinitelyUnsent and completeNoResponse, with which do ends.
    method RemovePending(i: nat)
      requires Valid() && i < |ops| && ops[i].inbox.routed == []
      requires !ops[i].writeObserved || (ops[i].spec.pattern.noResponse && ops[i].spec.pattern.valid)
      modifies `pending, `ops
      ensures Valid()
      ensures View() == EndOp(Remove(old(View()), i), i) && !IsPending(View(), i)
    {
      hide CoreInv, EndOp, Remove, RemoveOp, IsPending;
      RemoveCore(View(), i);
      RemovedIsGone(View(), i);
      var p := ops[i];
      if p.spec.id in pending && pending[p.spec.id] == i {
        pending := pending - {p.spec.id};
        p := EndLifecycle(p);
      }
      ops := ops[i := p.(stage := Finished)];
    }

    static method EndLifecycle(p: Op) returns (q: Op)
      ensures q == RemoveOp(p)
    {
      q := FinishLifecycle(p.(terminal := true));
    }

    static method FinishLifecycle(p: Op) returns (q: Op)
      ensures q == FinishOp(p)
    {
      q := p;
      if !q.lifecycleDone {
        q := q.(lifecycleDone := true);
        q := q.(trace := q.trace.Send(End));
      }
    }

    // cancelOperation on the operation alone. Once it is terminal nothing changes;
    // before, its consumer gets the first reason and nothing else any more.
    static method CancelPending(p: Op, reason: Failure, isPending: bool, ghost cfg: Config) returns (q: Op, action: Action)
      requires OpInv(p, cfg) && HasStream(p) && (reason == FailContext || reason == FailClosed) && (!p.lifecycleDone ==> isPending)
      ensures OpInv(q, cfg) && q == CancelOp(p, reason, isPending)
      ensures if p.terminal then q == p
              else NextOf(q) == Fail(if p.inbox.deliveryErr.Some? then p.inbox.deliveryErr.value else reason)
      ensures action.SendAbandon? <==> !p.terminal && isPending && !p.abandoning && p.spec.mode == CancelAbandon
      ensures action.SendAbandon? <==> !p.abandoning && q.abandoning
      ensures action.RetireConnection? <==> !p.terminal && isPending && !p.abandoning && p.spec.mode == CancelClose
      ensures q.spec == p.spec
    {
      hide OpInv, NextOf, Trace.Send;
      CancelKeeps(p, reason, isPending, cfg);
      if !p.terminal { CanceledNext(p, reason, isPending, cfg); }
      if p.terminal {
        return p, NoAction;
      }
      var inbox, trace, abandoning := p.inbox, p.trace, p.abandoning;
      if inbox.deliveryErr.None? {
        inbox := inbox.(deliveryErr := Some(reason), queue := [], queuedBytes := 0, canceled := true);
        trace := trace.Send(Canceled);
      }
      action := NoAction;
      if isPending && !abandoning {
        if p.spec.mode == CancelAbandon {
          abandoning := true;
          action := SendAbandon;
        } else if p.spec.mode == CancelClose {
          action := RetireConnection;
        }
      }
      q := p.(inbox := inbox, trace := trace, abandoning := abandoning);
    }

    /** Cancellation after the terminal response changes nothing; before it, the
        first reason sticks, the queue is dropped, and the action is taken once. */
    method CancelOperation(i: nat, reason: Failure) returns (action: Action)
      requires Valid() && i < |ops| && HasStream(ops[i]) && (reason == FailContext || reason == FailClosed)
      modifies `ops
      ensures Valid()
      ensures View() == Cancel(old(View()), i, reason)
      ensures action.SendAbandon? <==> !old(ops[i].abandoning) && ops[i].abandoning
      ensures old(ops[i].terminal) || old(ops[i].abandoning) || !IsPending(old(View()), i) ==> action == NoAction
      ensures !old(ops[i].terminal) && !old(ops[i].abandoning) && IsPending(old(View()), i) ==>
                action == match ops[i].spec.mode
                          case CancelAbandon => SendAbandon
                          case CancelClose => RetireConnection
                          case _ => NoAction
      ensures if old(ops[i].terminal) then ops[i] == old(ops[i]) else NextOf(ops[i]).Fail?
    {
      hide CoreInv, CancelOp, OpInv;
      StreamCore(Around(View()), i, CancelStream(reason));
      InOrder(View(), i);
      StreamPending(View(), i);
      var p := ops[i];
      var isPending := p.spec.id in pending && pending[p.spec.id] == i;
      p, action := CancelPending(p, reason, isPending, cfg);
      ops := ops[i := p];
    }

    // The delivery half of route, on the operation's queue: the response is queued
    // behind the others, or delivery stops exactly because it would break a limit.
    static method Deliver(b: Inbox, r: Response, complete: bool, ghost spec: Spec, cfg: Config) returns (c: Inbox, overflow: bool)
      requires InboxInv(b, spec, cfg) && !b.completed && r.messageId == spec.id
      requires spec.pattern.Classify(r.protocolId) == if complete then Complete else Continue
      ensures InboxInv(c, spec, cfg) && c == Arrive(b, r, complete, cfg) && c.routed == b.routed + [r]
      ensures overflow <==> !b.canceled && (|b.queue + [r]| > cfg.maxQueued || Total(b.queue + [r]) > cfg.maxQueuedBytes)
      ensures !b.canceled ==> if overflow then c.canceled && c.queue == [] else c.queue == b.queue + [r]
    {
      ArriveKeeps(b, r, complete, spec, cfg);
      TotalAppend(b.queue, r);
      assert !b.canceled ==> (Overflows(b, r, cfg) <==> |b.queue + [r]| > cfg.maxQueued || Total(b.queue + [r]) > cfg.maxQueuedBytes);
      hide InboxInv, Total;
      var queue, queuedBytes, deliveryErr, canceled := b.queue, b.queuedBytes, b.deliveryErr, b.canceled;
      overflow := false;
      if !canceled {
        if |queue| == cfg.maxQueued || queuedBytes + |r.message| > cfg.maxQueuedBytes {
          deliveryErr := Some(FailLimit);
          queue, queuedBytes := [], 0;
          canceled := true;
          overflow := true;
        } else {
          queue := queue + [r];
          queuedBytes := queuedBytes + |r.message|;
        }
      }
      c := Inbox(queue, queuedBytes, deliveryErr, canceled, b.routed + [r], b.delivered, complete);
    }

    // What route does to the operation it found.
    static method RoutePending(p: Op, r: Response, cfg: Config) returns (q: Op, action: Action)
      requires OpInv(p, cfg) && CanRoute(p, r)
      ensures q == RouteOp(p, r, cfg) && (q.lifecycleDone <==> Completes(p, r)) && action == RouteAction(p, r, cfg)
      ensures var tooMuch := |p.inbox.queue + [r]| > cfg.maxQueued || Total(p.inbox.queue + [r]) > cfg.maxQueuedBytes;
              && (action.SendAbandon? <==> !p.inbox.canceled && tooMuch && !Completes(p, r) && p.spec.mode == CancelAbandon)
              && (action.RetireConnection? <==> !p.inbox.canceled && tooMuch && !Completes(p, r) && p.spec.mode == CancelClose)
      ensures q.abandoning <==> p.abandoning || action.SendAbandon?
      ensures action != NoAction ==> NextOf(q) == Fail(FailLimit)
    {
      hide Encoding, Trace.Send;
      var kind := p.spec.pattern.Classify(r.protocolId);
      var trace := p.trace;
      if !p.firstResponse {
        trace := trace.Send(FirstResponse);
      }
      var inbox, overflow := Deliver(p.inbox, r, kind == Complete, p.spec, cfg);
      hide InboxInv, FramingPattern.Classify;
      var abandoning := p.abandoning;
      action := NoAction;
      if overflow && kind != Complete {
        if p.spec.mode == CancelAbandon {
          abandoning := true;
          action := SendAbandon;
        } else if p.spec.mode == CancelClose {
          action := RetireConnection;
        }
      }
      q := p.(firstResponse := true, trace := trace, terminal := p.terminal || kind == Complete, inbox := inbox, abandoning := abandoning);
      if kind == Complete {
        q := FinishLifecycle(q);
      }
    }

    /** A response reaches the pending operation with its ID or nobody. It waits exactly
        when that operation's write was not observed yet. It is unexpected exactly when
        nobody has its ID, or when the operation or the tombstone that has it lists its
        identifier nowhere; an abandoned operation's other late responses are dropped. */
    method RouteResponse(r: Response) returns (result: Routed)
      requires Valid()
      modifies `pending, `ops
      ensures Valid()
      ensures result == Verdict(old(View()), r)
      ensures Sorted(old(View()), r, result)
      ensures View() == Taken(old(View()), r)
    {
      hide CoreInv, OpInv, RouteOp, RouteAction, FramingPattern.Classify, Sorted, CanRoute;
      VerdictMeans(View(), r);
      if r.messageId !in pending {
        if r.messageId !in tombstones {
          return Unexpected;
        }
        if tombstones[r.messageId].Classify(r.protocolId) == Invalid {
          return Unexpected;
        }
        return Discarded;
      }
      PendingFound(View(), r.messageId);
      var i := pending[r.messageId];
      var p := ops[i];
      if !p.writeObserved {
        return Waiting;
      }
      var kind := p.spec.pattern.Classify(r.protocolId);
      if kind == Invalid {
        return Unexpected;
      }
      RouteCore(View(), r);
      var q, action := RoutePending(p, r, cfg);
      if kind == Complete {
        pending := pending - {p.spec.id};
      }
      ops := ops[i := q];
      return Accepted(action);
    }

    // The section of sendAbandon that gives the ID up for a tombstone.
    method BuryTarget(i: nat) returns (buried: bool)
      requires Valid() && i < |ops| && ops[i].abandoning
      modifies `pending, `tombstones, `ops
      ensures Valid()
      ensures buried <==> IsPending(old(View()), i) && err.None? && !closing
      ensures View() == if buried then Tombstone(old(View()), i) else old(View())
    {
      hide CoreInv;
      var p := ops[i];
      if !(p.spec.id in pending && pending[p.spec.id] == i) || err.Some? || closing {
        return false;
      }
      TombstoneCore(View(), i);
      pending := pending - {p.spec.id};
      tombstones := tombstones[p.spec.id := p.spec.pattern];
      p := p.(abandoned := true);
      p := FinishLifecycle(p);
      ops := ops[i := p];
      return true;
    }

    /** One locked look of Next: the oldest queued response, or else the delivery
        error, or else EOF, or else the caller has to wait. */
    method NextResponse(i: nat) returns (r: NextResult)
      requires Valid() && i < |ops| && HasStream(ops[i])
      modifies `ops
      ensures Valid()
      ensures r == NextOf(old(ops[i])) && View() == SetOp(old(View()), i, ConsumeOp(old(ops[i])))
      ensures old(ops[i].lifecycleDone) ==> r != Block
      ensures r.Item? ==> ops[i].inbox.delivered == old(ops[i].inbox.delivered) + [r.response]
    {
      hide CoreInv, OpInv;
      StreamCore(Around(View()), i, Consume);
      InOrder(View(), i);
      FinishedNext(ops[i], cfg);
      var p := ops[i];
      if |p.inbox.queue| != 0 {
        var response, inbox := TakeFirst(p.inbox);
        hide Pop, Total;
        ops := ops[i := p.(inbox := inbox)];
        return Item(response);
      }
      assert ConsumeOp(p) == p && ops == ops[i := p];
      hide ConsumeOp, Total;
      if p.inbox.deliveryErr.Some? {
        return Fail(p.inbox.deliveryErr.value);
      }
      return if p.terminal then Eof else Block;
    }

    static method TakeFirst(b: Inbox) returns (r: Response, c: Inbox)
      requires b.queue != [] && Total(b.queue) == b.queuedBytes
      ensures r == b.queue[0] && c == Pop(b) && Total(c.queue) == c.queuedBytes
    {
      r := b.queue[0];
      c := b.(queue := b.queue[1..], queuedBytes := b.queuedBytes - |r.message|, delivered := b.delivered + [r]);
    }

    // ------------------------------------------------------ the whole connection

    // Every pending operation ends, and none is left.
    method RetirePendings(e: Failure, ghost was: Core)
      requires CoreInv(was) && was.cfg == cfg && was.pending == pending && was.ops == ops
      modifies `pending, `ops
      ensures pending == map[] && |ops| == old(|ops|)
      ensures forall i :: 0 <= i < |ops| ==> ops[i] == if IsPending(was, i) then RetireOp(old(ops[i]), e) else old(ops[i])
    {
      hide RetireOp, OpInv;
      ghost var k := was;
      while pending != map[]
        invariant forall id :: id in pending ==> id in k.pending && pending[id] == k.pending[id]
        invariant |ops| == |k.ops|
        invariant forall i :: 0 <= i < |ops| ==>
                    ops[i] == if IsPending(k, i) && k.ops[i].spec.id !in pending then RetireOp(k.ops[i], e) else k.ops[i]
        decreases |pending.Keys|
      {
        SomeKey(pending);
        var id :| id in pending;
        var i := pending[id];
        assert i < |ops| && ops[i] == k.ops[i];
        pending := pending - {id};
        PendingUnfinished(k, i);
        var p := RetirePending(ops[i], e, cfg);
        ops := ops[i := p];
      }
    }

    /** Retirement happens once: every pending operation ends with an error that
        says whether its write may have begun, and the ID maps are emptied. */
    method RetireWith(reason: Failure)
      requires Valid()
      modifies this
      ensures Valid()
      ensures View() == Retire(old(View()), reason) && err.Some? && !open
      ensures old(err).None? ==>
                && err == Some(if old(closing) then FailClosed else reason) && phase == Closed
                && reserved == {} && pending == map[] && tombstones == map[] && |ops| == |old(ops)|
                && forall i :: 0 <= i < |ops| ==>
                     if IsPending(old(View()), i) then EndsBy(old(ops)[i], ops[i], if old(closing) then FailClosed else reason)
                     else ops[i] == old(ops)[i]
    {
      hide CoreInv, RetireOp, EndsBy;
      RetireCore(View(), reason);
      RetiredIsShut(View(), reason);
      if err.Some? {
        return;
      }
      ghost var k := View();
      var e := if closing then FailClosed else reason;
      err, phase, open, reserved := Some(e), Closed, false, {};
      RetirePendings(e, k);
      tombstones := map[];
      assert ops == RetireOps(k, e);
      forall i | 0 <= i < |ops| && IsPending(k, i) ensures EndsBy(k.ops[i], ops[i], e) {
        PendingUnfinished(k, i);
        RetireEnds(k.ops[i], e);
      }
    }

    // One pending operation ends, and its consumer is never left waiting.
    static method RetirePending(p: Op, e: Failure, ghost cfg: Config) returns (q: Op)
      requires OpInv(p, cfg) && IsInstalled(p) && !p.lifecycleDone
      ensures OpInv(q, cfg) && q == RetireOp(p, e)
      ensures EndsBy(p, q, e) && NextOf(q) != Block
    {
      hide OpInv, NextOf, EndsBy, Trace.Send;
      RetireKeeps(p, e, cfg);
      FinishedNext(RetireOp(p, e), cfg);
      RetireEnds(p, e);
      var inbox, unsent := p.inbox, p.retiredUnsent;
      if inbox.deliveryErr.None? {
        var reported := e;
        if e.FailTransport? {
          reported := FailTransport(if p.writeStarted then Ambiguous else DefinitelyUnsent);
          unsent := unsent || !p.writeStarted;
        }
        inbox := inbox.(deliveryErr := Some(reported));
      }
      q := p.(inbox := inbox, retiredUnsent := unsent, trace := p.trace.Send(Retired), terminal := true);
      q := FinishLifecycle(q);
    }

    // Only retirement closes a connection in the code, and it sets the error as well.
    method Transition(to: Phase) returns (ok: bool)
      requires Valid()
      modifies `phase
      ensures to != Closed ==> Valid()
      ensures ok <==> err.None? && CanAdvance(old(phase), to)
      ensures ok <==> err.None? && (Rank(to) == Rank(old(phase)) + 1 || (to == Closed && old(phase) != Closed))
      ensures phase == (if ok then to else old(phase))
    {
      hide OpsInv, IdsInv, LinksInv, LiveInv;
      if err.Some? {
        return false;
      }
      if to != Closed && CanAdvance(phase, to) { PhaseCore(View(), to, closing, open); }
      var valid := false;
      match phase {
        case Dialing => valid := to == TransportSetup;
        case TransportSetup => valid := to == Authenticating;
        case Authenticating => valid := to == Initializing;
        case Initializing => valid := to == Ready;
        case Ready => valid := to == Draining;
        case Draining => valid := to == Closed;
        case Closed =>
      }
      if to == Closed && phase != Closed {
        valid := true;
      }
      if valid {
        phase := to;
      }
      return valid;
    }

    // The first section of CloseContext: one caller gets to close, and from then on no
    // operation is accepted.
    method BeginClosing() returns (first: bool)
      requires Valid()
      modifies `closing, `phase
      ensures Valid()
      ensures first <==> CloseEnabled(Around(old(View())), BeginClose)
      ensures View() == if first then CloseApply(Around(old(View())), BeginClose).core else old(View())
      ensures first ==> forall scope :: !ScopeAllowed(View(), scope)
    {
      hide OpsInv, IdsInv, LinksInv, LiveInv;
      if err.Some? || closing {
        return false;
      }
      PhaseCore(View(), if phase == Closed then Closed else Draining, true, open);
      closing := true;
      if phase != Closed {
        phase := Draining;
      }
      return true;
    }

    method MarkReady() returns (ok: bool)
      requires Valid()
      modifies `phase
      ensures Valid()
      ensures ok <==> ReadyAllowed(old(View()))
      ensures ok <==> err.None? && old(phase) == Initializing && OccupiedSet(old(View())) == {}
      ensures View() == if ok then old(View()).(phase := Ready) else old(View())
    {
      hide OpsInv, IdsInv, LinksInv, LiveInv;
      if err.Some? || phase != Initializing {
        return false;
      }
      if |reserved| != 0 || |pending| != 0 || |tombstones| != 0 {
        return false;
      }
      PhaseCore(View(), Ready, closing, open);
      phase := Ready;
      return true;
    }
  }

  // ---------------------------------------------------------------------- writeAll

  // What the environment does in one turn of writeAll: whether the context had
  // ended before and after the Write, whether cancellation won the race for it,
  // how many bytes it took and whether it failed.
  datatype Turn = Turn(ctxDone: bool, raced: bool, took: nat, failed: bool, ctxAfter: bool)

  // A turn after which the loop goes on.
  predicate Progresses(t: Turn) { !t.ctxDone && !t.raced && !t.failed && t.took > 0 }

  // How the turn in which a call fails decides what it reports: nothing was sent if the
  // context had ended before any byte was taken, or if the Write failed without taking
  // any while the context was still alive.
  predicate Fails(t: Turn, total: nat, outcome: Outcome, raced: bool, retires: bool)
  {
    if t.ctxDone then !raced && (retires <==> total != 0) && outcome == (if total == 0 then DefinitelyUnsent else Ambiguous)
    else if t.raced then raced && !retires && outcome == Ambiguous
    else (t.failed || t.took == 0) && !raced && retires && outcome == (if total == 0 && !t.ctxAfter then DefinitelyUnsent else Ambiguous)
  }

  // Where the machine's steps of the last call lead, if each is enabled in its turn.
  ghost function Steps(s: State, steps: seq<CallStep>): Option<State>
  {
    if steps == [] then Some(s) else
    match Steps(s, steps[..|steps| - 1])
    case None => None
    case Some(t) => if CallEnabled(t, steps[|steps| - 1]) then Some(CallApply(t, steps[|steps| - 1])) else None
  }

  // s with its last call and the wire as they are now.
  ghost function At(s: State, c: Call, wire: bytes): State
    requires s.calls != []
  {
    s.(calls := s.calls[|s.calls| - 1 := c], wire := wire)
  }

  // s retired with the outcome that writeAll reports.
  ghost function RetiredWith(s: State, outcome: Outcome): State
  {
    s.(core := Retire(s.core, FailTransport(outcome)))
  }

  ghost function Onto(wire: bytes, c: Call, e: CallStep): bytes
    requires CallReady(c, e)
  {
    if e.Accept? then wire + c.message[c.accepted..c.accepted + e.n] else wire
  }

  // What one step of the last call comes to.
  lemma OneStep(s: State, c: Call, wire: bytes, e: CallStep)
    requires s.calls != [] && s.core.open && CallReady(c, e)
    ensures CallEnabled(At(s, c, wire), e)
    ensures var t := At(s, CallAfter(c, e), Onto(wire, c, e));
            CallApply(At(s, c, wire), e) == if Retires(c, e) then RetiredWith(t, Reported(CallAfter(c, e))) else t
  {
    hide CallAfter, Retires, Reported, Retire;
    var n := |s.calls| - 1;
    assert s.calls[n := c][n := CallAfter(c, e)] == s.calls[n := CallAfter(c, e)];
  }

  lemma StepsMore(s: State, steps: seq<CallStep>, t: State, e: CallStep)
    requires Steps(s, steps) == Some(t) && CallEnabled(t, e)
    ensures Steps(s, steps + [e]) == Some(CallApply(t, e))
  {
    hide CallEnabled, CallApply;
    assert (steps + [e])[..|steps|] == steps;
  }

  // One more step of the last call.
  lemma StepsOne(s: State, steps: seq<CallStep>, c: Call, wire: bytes, e: CallStep)
    requires s.calls != [] && s.core.open && Steps(s, steps) == Some(At(s, c, wire)) && CallReady(c, e)
    ensures var t := At(s, CallAfter(c, e), Onto(wire, c, e));
            Steps(s, steps + [e]) == Some(if Retires(c, e) then RetiredWith(t, Reported(CallAfter(c, e))) else t)
  {
    hide Steps, At, CallEnabled, CallApply, CallAfter, CallReady, Retires, Reported, RetiredWith;
    OneStep(s, c, wire, e);
    StepsMore(s, steps, At(s, c, wire), e);
  }

  lemma StepsWrite(s: State, steps: seq<CallStep>, c: Call, wire: bytes, n: nat) returns (more: seq<CallStep>)
    requires s.calls != [] && s.core.open && Steps(s, steps) == Some(At(s, c, wire))
    requires c.phase.AtTop? && c.accepted < |c.message| && c.accepted + n <= |c.message|
    ensures Steps(s, more) == Some(At(s, c.(accepted := c.accepted + n, phase := InWrite(c.accepted)), wire + c.message[c.accepted..c.accepted + n]))
  {
    hide Steps, At, Retire;
    StepsOne(s, steps, c, wire, BeginWrite);
    more := steps + [BeginWrite];
    if n > 0 {
      StepsOne(s, more, c.(phase := InWrite(c.accepted)), wire, Accept(n));
      more := more + [Accept(n)];
    } else {
      assert wire + c.message[c.accepted..c.accepted] == wire;
    }
  }

  lemma StepsRace(s: State, steps: seq<CallStep>, c: Call, wire: bytes, failed: bool, ctxDone: bool) returns (more: seq<CallStep>)
    requires s.calls != [] && s.core.open && Steps(s, steps) == Some(At(s, c, wire)) && c.phase.InWrite? && !c.raced
    ensures Steps(s, more) == Some(At(s, c.(raced := true, phase := Returned(Unsent(Ambiguous))), wire))
  {
    hide Steps, At, Retire;
    StepsOne(s, steps, c, wire, CancelRace);
    more := steps + [CancelRace];
    StepsOne(s, more, c.(raced := true), wire, WriteReturns(failed, ctxDone));
    more := more + [WriteReturns(failed, ctxDone)];
  }

  lemma StepsReturn(s: State, steps: seq<CallStep>, c: Call, wire: bytes, failed: bool, ctxDone: bool) returns (more: seq<CallStep>)
    requires s.calls != [] && s.core.open && Steps(s, steps) == Some(At(s, c, wire)) && c.phase.InWrite? && !c.raced
    ensures var outcome := if c.accepted != 0 || ctxDone then Ambiguous else DefinitelyUnsent;
            Steps(s, more) == Some(if failed || c.accepted == c.phase.start
                                   then RetiredWith(At(s, c.(phase := Returned(Unsent(outcome))), wire), outcome)
                                   else At(s, c.(phase := AtTop), wire))
  {
    hide Steps, At, Retire;
    StepsOne(s, steps, c, wire, WriteReturns(failed, ctxDone));
    more := steps + [WriteReturns(failed, ctxDone)];
  }

  lemma StepsEnd(s: State, steps: seq<CallStep>, c: Call, wire: bytes) returns (more: seq<CallStep>)
    requires s.calls != [] && s.core.open && Steps(s, steps) == Some(At(s, c, wire)) && c.phase.AtTop?
    ensures c.accepted >= |c.message| ==> Steps(s, more) == Some(At(s, c.(phase := Returned(Sent)), wire))
    ensures c.accepted < |c.message| ==>
              var outcome := if c.accepted == 0 then DefinitelyUnsent else Ambiguous;
              var t := At(s, c.(phase := Returned(Unsent(outcome))), wire);
              Steps(s, more) == Some(if c.accepted != 0 then RetiredWith(t, outcome) else t)
  {
    hide Steps, At, Retire;
    var e := if c.accepted >= |c.message| then AllWritten else ContextEnded;
    StepsOne(s, steps, c, wire, e);
    more := steps + [e];
  }

  class Transport {
    var wire: bytes

    /** Whatever the transport and the context do: the bytes put on the wire are one
        block, a prefix of the message; all of it when the write is reported sent and
        none when it is reported definitely unsent; a partial write is ambiguous, and
        retires the connection unless cancellation won the race. From any state s of
        the connection's machine with an open transport in which the call has just
        begun, the loop takes steps that are enabled one after the other and lead to
        the same wire, the same result and the same retirement. */
    method WriteAll(ctx: nat -> Turn, owner: Worker, message: bytes, ghost s: State)
      returns (total: nat, result: WriteResult, raced: bool, retires: bool, turns: nat, ghost steps: seq<CallStep>)
      requires s.calls != [] && s.calls[|s.calls| - 1] == NewCall(owner, message) && s.core.open && s.wire == wire
      modifies this
      ensures total <= |message| && wire == old(wire) + message[..total]
      ensures result.Sent? ==> total == |message|
      ensures result == Unsent(DefinitelyUnsent) ==> total == 0
      ensures 0 < total < |message| ==> result == Unsent(Ambiguous)
      ensures result == Unsent(Ambiguous) ==> retires || raced
      ensures retires ==> result.Unsent?
      ensures forall j :: 0 <= j < turns - 1 ==> Progresses(ctx(j))
      ensures result.Sent? && turns > 0 ==> Progresses(ctx(turns - 1))
      ensures result.Unsent? ==> turns > 0 && Fails(ctx(turns - 1), total, result.outcome, raced, retires)
      ensures var t := At(s, Call(owner, message, total, raced, Returned(result)), wire);
              Steps(s, steps) == Some(if retires then RetiredWith(t, result.outcome) else t)
    {
      hide Steps, CallEnabled, CallApply, Retire;
      ghost var c := NewCall(owner, message);
      total, steps, raced, retires, turns := 0, [], false, false, 0;
      assert Steps(s, steps) == Some(At(s, c, wire)) by { StepsNone(s); }
      while total < |message|
        invariant total <= |message| && wire == old(wire) + message[..total]
        invariant c == Call(owner, message, total, false, AtTop) && !raced && !retires
        invariant Steps(s, steps) == Some(At(s, c, wire))
        invariant forall j :: 0 <= j < turns ==> Progresses(ctx(j))
      {
        var t := ctx(turns);
        turns := turns + 1;
        if t.ctxDone {
          steps := StepsEnd(s, steps, c, wire);
          retires := total != 0;
          return total, Unsent(if total == 0 then DefinitelyUnsent else Ambiguous), false, retires, turns, steps;
        }
        var n := if total + t.took <= |message| then t.took else |message| - total;
        steps := StepsWrite(s, steps, c, wire, n);
        c := c.(accepted := total + n, phase := InWrite(total));
        assert message[..total + n] == message[..total] + message[total..total + n];
        wire := wire + message[total..total + n];
        total := total + n;
        if t.raced {
          steps := StepsRace(s, steps, c, wire, t.failed, t.ctxAfter);
          return total, Unsent(Ambiguous), true, false, turns, steps;
        }
        steps := StepsReturn(s, steps, c, wire, t.failed, t.ctxAfter);
        if t.failed || n == 0 {
          return total, Unsent(if total != 0 || t.ctxAfter then Ambiguous else DefinitelyUnsent), false, true, turns, steps;
        }
        c := c.(phase := AtTop);
      }
      steps := StepsEnd(s, steps, c, wire);
      assert message[..total] == message;
      return total, Sent, false, false, turns, steps;
    }
  }

  lemma StepsNone(s: State)
    requires s.calls != []
    ensures Steps(s, []) == Some(At(s, s.calls[|s.calls| - 1], s.wire))
  {
    assert s.calls[|s.calls| - 1 := s.calls[|s.calls| - 1]] == s.calls;
  }
}
