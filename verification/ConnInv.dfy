/** The invariant of the connection's transition system, in groups, and the proof
    that every step keeps every group. */
module ConnInv {
  import opened BerTypes
  import opened Envelope
  import opened ConnMessages
  import opened ConnCore
  import opened ConnOps
  import opened ConnMachine

  // ------------------------------------------------------- the lock-protected state

  // Every operation is in order.
  ghost predicate OpsInv(k: Core)
  {
    k.cfg.Valid() && forall i :: 0 <= i < |k.ops| ==> OpInv(k.ops[i], k.cfg)
  }

  // Reserved, pending and tombstoned IDs are disjoint subsets of [1, maxID].
  ghost predicate IdsInv(k: Core)
  {
    k.cfg.Valid() && 0 <= k.nextId <= k.cfg.maxId && IdsDisjoint(k) && IdsInRange(k)
  }

  // pending holds exactly the installed operations whose lifecycle is unfinished.
  ghost predicate LinksInv(k: Core)
  {
    && (forall id :: id in k.pending ==>
          && k.pending[id] < |k.ops|
          && var p := k.ops[k.pending[id]];
             p.spec.id == id && IsInstalled(p) && !p.lifecycleDone)
    && (forall i :: 0 <= i < |k.ops| && IsInstalled(k.ops[i]) && !k.ops[i].lifecycleDone ==> IsPending(k, i))
  }

  // Why an operation is over before retirement: its completing response came, it was
  // abandoned, its request was not sent, or there is no response to wait for.
  predicate HasEnded(p: Op)
  {
    p.inbox.completed || p.abandoned || !p.writeObserved || (p.spec.pattern.noResponse && p.spec.pattern.valid)
  }

  // Before retirement, tombstones hold the abandoned IDs, and an operation whose
  // goroutine is still at work is unfinished. Only a retired one can be unsent.
  ghost predicate LiveInv(k: Core)
  {
    k.err.None? ==>
      forall i :: 0 <= i < |k.ops| ==>
        && (k.ops[i].abandoned ==> k.ops[i].spec.id in k.tombstones && k.tombstones[k.ops[i].spec.id] == k.ops[i].spec.pattern)
        && (InFlight(k.ops[i].stage) ==> !k.ops[i].lifecycleDone)
        && (k.ops[i].lifecycleDone ==> HasEnded(k.ops[i]))
        && !k.ops[i].retiredUnsent && Retired !in k.ops[i].trace.kinds
  }

  // Retirement is final.
  ghost predicate EndInv(k: Core)
  {
    && (k.err.Some? ==> k.phase == Closed && !k.open && k.pending == map[] && k.tombstones == map[])
    && (k.err.None? ==> k.phase != Closed)
    && (k.closing ==> k.phase == Draining || k.phase == Closed)
  }

  ghost predicate CoreInv(k: Core)
  {
    OpsInv(k) && IdsInv(k) && LinksInv(k) && LiveInv(k) && EndInv(k)
  }

  // What a step that rewrites operation p as q must respect.
  ghost predicate Rewrites(k: Core, p: Op, q: Op)
  {
    && q.spec == p.spec && OpInv(q, k.cfg)
    && (Retired in q.trace.kinds ==> Retired in p.trace.kinds)
    && q.abandoned == p.abandoned && q.retiredUnsent == p.retiredUnsent && q.installedIn == p.installedIn
    && (p.lifecycleDone ==> q.lifecycleDone)
    && (k.err.None? && InFlight(q.stage) ==> !q.lifecycleDone)
    && (k.err.None? && q.lifecycleDone ==> HasEnded(q))
  }

  // A step that rewrites operation i and drops it from pending if that finishes it.
  lemma ReplaceKeeps(k: Core, i: nat, q: Op)
    requires CoreInv(k) && i < |k.ops| && Rewrites(k, k.ops[i], q)
    ensures CoreInv(k.(ops := k.ops[i := q],
                       pending := if IsPending(k, i) && q.lifecycleDone then k.pending - {k.ops[i].spec.id} else k.pending))
  {
    hide OpInv;
    var p := k.ops[i];
    var gone := IsPending(k, i) && q.lifecycleDone;
    var k' := k.(ops := k.ops[i := q], pending := if gone then k.pending - {p.spec.id} else k.pending);
    assert OpsInv(k') && LiveInv(k');
    assert IdsInv(k') by { assert OccupiedSet(k') <= OccupiedSet(k); }
    assert LinksInv(k') by {
      forall j | 0 <= j < |k'.ops| && IsInstalled(k'.ops[j]) && !k'.ops[j].lifecycleDone ensures IsPending(k', j) {
        assert IsPending(k, j);
      }
    }
    assert EndInv(k');
  }

  // ------------------------------------------------------- each critical section

  lemma WriterKeeps(p: Op, stage: Stage, wrote: Option<WriteResult>, started: bool, cfg: Config)
    requires OpInv(p, cfg) && InFlight(p.stage) && !p.stage.Observed? && InFlight(stage) && !stage.Observed?
    requires stage.Wrote? <==> wrote.Some?
    ensures OpInv(p.(stage := stage, wrote := wrote, writeStarted := started), cfg)
  {
    hide Encoding;
  }

  lemma EndKeeps(p: Op, cfg: Config)
    requires OpInv(p, cfg) && EndedOk(p.(stage := Finished))
    ensures OpInv(p.(stage := Finished), cfg)
  {
    hide Encoding;
    assert !p.writeObserved || p.stage.Observed? ==> !p.inbox.canceled && !p.firstResponse && p.inbox.routed == [];
  }

  // A step on the reserved IDs alone.
  lemma ReservedCore(k: Core, reserved: set<int>, nextId: int32)
    requires CoreInv(k) && IdsInv(k.(reserved := reserved, nextId := nextId))
    ensures CoreInv(k.(reserved := reserved, nextId := nextId))
  {
    hide OpInv, IdsInv;
    var k' := k.(reserved := reserved, nextId := nextId);
    assert forall j :: 0 <= j < |k.ops| ==> IsPending(k', j) == IsPending(k, j);
  }

  lemma IssueIds(k: Core, id: int32)
    requires IdsInv(k) && 1 <= id <= k.cfg.maxId && !Occupied(k, id)
    ensures IdsInv(ReserveId(k, id))
  {
    assert OccupiedSet(ReserveId(k, id)) == OccupiedSet(k) + {id};
  }

  lemma ReserveCore(k: Core)
    requires CoreInv(k) && TryReserve(k).Some?
    ensures CoreInv(ReserveId(k, TryReserve(k).value))
    ensures !Occupied(k, TryReserve(k).value) && 1 <= TryReserve(k).value <= k.cfg.maxId
  {
    hide OpsInv, LinksInv, LiveInv, EndInv, TryReserve, OccupiedSet, IdsDisjoint, IdsInRange;
    ReserveIffRoom(k);
    IssueIds(k, TryReserve(k).value);
    ReservedCore(k, k.reserved + {TryReserve(k).value}, TryReserve(k).value);
  }

  lemma ReleaseCore(k: Core, id: int)
    requires CoreInv(k)
    ensures CoreInv(ReleaseReserved(k, id))
  {
    hide OpsInv, LinksInv, LiveInv, EndInv;
    assert OccupiedSet(ReleaseReserved(k, id)) <= OccupiedSet(k);
    ReservedCore(k, k.reserved - {id}, k.nextId);
  }

  // A further operation that was not installed.
  lemma AppendCore(k: Core, p: Op)
    requires CoreInv(k) && OpInv(p, k.cfg) && p.stage.Reserved?
    ensures CoreInv(k.(ops := k.ops + [p]))
  {
    hide Encoding;
    assert !IsInstalled(p) && !p.lifecycleDone && !p.abandoned && !p.retiredUnsent && p.trace.kinds == {};
    hide OpInv;
    var k' := k.(ops := k.ops + [p]);
    assert OccupiedSet(k') == OccupiedSet(k);
    assert forall j :: 0 <= j < |k.ops| ==> k'.ops[j] == k.ops[j] && IsPending(k', j) == IsPending(k, j);
  }

  lemma BeginCore(s: State, spec: Spec)
    requires CoreInv(s.core) && BeginEnabled(s, spec)
    ensures CoreInv(Begin(s, spec).core)
  {
    hide Encoding;
    hide CoreInv, TryReserve;
    ReserveCore(s.core);
    assert OpInv(NewOp(spec), s.core.cfg);
    AppendCore(ReserveId(s.core, spec.id), NewOp(spec));
  }

  lemma SetupCore(s: State, i: nat, e: SetupStep)
    requires CoreInv(s.core) && SetupEnabled(s, i, e)
    ensures CoreInv(SetupApply(s, i, e).core)
  {
    hide Encoding;
    var k := s.core;
    var p := k.ops[i];
    if e.TryInstall? {
      if InstallAllowed(k, i) { InstallCore(k, i); }
      else {
        RejectKeeps(p, k.cfg);
        ReplaceKeeps(k, i, RejectedOp(p));
      }
    } else if e.EncodeMessage? {
      ReplaceKeeps(k, i, EncodedOp(k, i));
    } else {
      EndKeeps(p, k.cfg);
      ReplaceKeeps(k, i, p.(stage := Finished));
      ReleaseCore(SetOp(k, i, p.(stage := Finished)), p.spec.id);
    }
  }

  // An ID moves from one of the three sets to another.
  lemma MoveIds(k: Core, k': Core, id: int)
    requires IdsInv(k) && k'.cfg == k.cfg && k'.nextId == k.nextId
    requires || (id in k.reserved && k'.reserved == k.reserved - {id} && k'.pending.Keys == k.pending.Keys + {id}
                 && k'.tombstones == k.tombstones)
             || (id in k.pending && k'.reserved == k.reserved && k'.pending.Keys == k.pending.Keys - {id}
                 && k'.tombstones.Keys == k.tombstones.Keys + {id})
    ensures IdsInv(k')
  {
    assert OccupiedSet(k') == OccupiedSet(k);
  }

  lemma InstallLinks(k: Core, i: nat)
    requires LinksInv(k) && i < |k.ops| && InstallAllowed(k, i) && k.ops[i].spec.id !in k.pending && !k.ops[i].lifecycleDone
    ensures LinksInv(Install(k, i))
  {
    var p, k' := k.ops[i], Install(k, i);
    var q := InstalledOp(p, k.phase);
    assert q.spec == p.spec && IsInstalled(q) && !q.lifecycleDone;
    assert k'.ops == k.ops[i := q] && k'.pending == k.pending[p.spec.id := i];
    hide Install, InstallAllowed, InstalledOp, IsInstalled;
    forall j | 0 <= j < |k'.ops| && IsInstalled(k'.ops[j]) && !k'.ops[j].lifecycleDone ensures IsPending(k', j) {
      if j != i { assert IsPending(k, j); }
    }
  }

  lemma TombstoneLinks(k: Core, i: nat)
    requires LinksInv(k) && i < |k.ops| && IsPending(k, i)
    ensures LinksInv(Tombstone(k, i))
  {
    var p, k' := k.ops[i], Tombstone(k, i);
    var q := TombstoneOp(p);
    assert q.spec == p.spec && q.lifecycleDone;
    assert k'.ops == k.ops[i := q] && k'.pending == k.pending - {p.spec.id};
    hide Tombstone, TombstoneOp, IsInstalled;
    forall j | 0 <= j < |k'.ops| && IsInstalled(k'.ops[j]) && !k'.ops[j].lifecycleDone ensures IsPending(k', j) {
      assert IsPending(k, j);
    }
  }

  lemma InstallCore(k: Core, i: nat)
    requires CoreInv(k) && i < |k.ops| && k.ops[i].stage.Reserved? && k.ops[i].message.Some? && InstallAllowed(k, i)
    ensures CoreInv(Install(k, i))
  {
    hide Encoding;
    var p, k' := k.ops[i], Install(k, i);
    InstallKeeps(p, k.phase, k.cfg);
    assert !p.lifecycleDone && !p.abandoned && !p.retiredUnsent && !IsInstalled(p);
    hide OpInv;
    MoveIds(k, k', p.spec.id);
    InstallLinks(k, i);
    hide IdsInv, LinksInv, IsPending;
  }

  lemma WriterCore(s: State, i: nat, e: WriterStep)
    requires CoreInv(s.core) && WriterEnabled(s, i, e)
    ensures CoreInv(WriterApply(s, i, e).core)
  {
    hide Encoding;
    var k := s.core;
    var p, q := k.ops[i], WriterApply(s, i, e).core.ops[i];
    WriterKeeps(p, q.stage, q.wrote, q.writeStarted, k.cfg);
    hide OpInv;
    ReplaceKeeps(k, i, q);
    assert IsPending(k, i) ==> !p.lifecycleDone;
  }

  lemma RemoveCore(k: Core, i: nat)
    requires CoreInv(k) && i < |k.ops| && k.ops[i].inbox.routed == []
    requires !k.ops[i].writeObserved || (k.ops[i].spec.pattern.noResponse && k.ops[i].spec.pattern.valid)
    ensures CoreInv(EndOp(Remove(k, i), i))
  {
    hide Encoding;
    var p := k.ops[i];
    if IsPending(k, i) {
      RemoveKinds(p);
      hide Trace.Send;
      RemoveKeeps(p, k.cfg);
      EndKeeps(RemoveOp(p), k.cfg);
      hide OpInv;
      ReplaceKeeps(k, i, RemoveOp(p).(stage := Finished));
      assert EndOp(Remove(k, i), i).ops == k.ops[i := RemoveOp(p).(stage := Finished)];
    } else {
      assert IsInstalled(p) ==> p.lifecycleDone;
      EndCore(k, i);
    }
  }

  lemma EndCore(k: Core, i: nat)
    requires CoreInv(k) && i < |k.ops| && EndedOk(k.ops[i].(stage := Finished))
    ensures CoreInv(EndOp(k, i))
  {
    hide Encoding;
    EndKeeps(k.ops[i], k.cfg);
    assert IsPending(k, i) ==> !k.ops[i].lifecycleDone;
    hide OpInv;
    ReplaceKeeps(k, i, k.ops[i].(stage := Finished));
  }

  lemma SettleCore(s: State, i: nat, e: OutcomeStep)
    requires CoreInv(s.core) && OutcomeEnabled(s, i, e)
    ensures CoreInv(OutcomeApply(s, i, e).core)
  {
    hide Encoding;
    var k := s.core;
    var p := k.ops[i];
    if e.Observe? {
      ObserveKeeps(p, k.cfg);
      assert IsPending(k, i) ==> !p.lifecycleDone;
      hide OpInv;
      ReplaceKeeps(k, i, ObserveOp(p));
    } else {
      assert OpInv(p, k.cfg);
      assert p.inbox.routed == [];
      hide CoreInv, OpInv;
      if e.CompleteSilent? || p.wrote.value.outcome == DefinitelyUnsent { RemoveCore(k, i); } else { EndCore(k, i); }
    }
  }

  lemma StreamCore(s: State, i: nat, e: StreamStep)
    requires CoreInv(s.core) && StreamEnabled(s, i, e)
    ensures CoreInv(StreamApply(s, i, e).core)
  {
    hide Encoding;
    var k := s.core;
    var p := k.ops[i];
    assert IsPending(k, i) ==> !p.lifecycleDone;
    match e
    case CancelStream(reason) =>
      CancelKinds(p, reason, IsPending(k, i));
      hide Trace.Send;
      CancelKeeps(p, reason, IsPending(k, i), k.cfg);
      hide OpInv;
      ReplaceKeeps(k, i, CancelOp(p, reason, IsPending(k, i)));
    case Consume =>
      ConsumeKeeps(p, k.cfg);
      hide OpInv;
      ReplaceKeeps(k, i, ConsumeOp(p));
  }

  lemma RouteRewrites(k: Core, p: Op, r: Response)
    requires OpInv(p, k.cfg) && CanRoute(p, r)
    ensures Rewrites(k, p, RouteOp(p, r, k.cfg))
    ensures RouteOp(p, r, k.cfg).lifecycleDone <==> Completes(p, r)
  {
    hide Encoding;
    RouteKinds(p, r, k.cfg);
    hide Trace.Send;
    RouteKeeps(p, r, k.cfg);
    hide OpInv, Arrive, Overflows;
  }

  lemma ArrivalCore(s: State, r: Response)
    requires CoreInv(s.core) && Enabled(s, Arrival(r))
    ensures CoreInv(ArrivalApply(s, r).core)
  {
    hide OpInv, RouteOp, Rewrites, IdsInv, LiveInv, EndInv, Completes, RouteAbandons;
    var k := s.core;
    var i := k.pending[r.messageId];
    assert CanRoute(k.ops[i], r);
    RouteRewrites(k, k.ops[i], r);
    ReplaceKeeps(k, i, RouteOp(k.ops[i], r, k.cfg));
  }

  lemma TombstoneCore(k: Core, i: nat)
    requires CoreInv(k) && i < |k.ops| && IsPending(k, i) && k.ops[i].abandoning
    ensures CoreInv(Tombstone(k, i))
  {
    hide Encoding;
    var p, k' := k.ops[i], Tombstone(k, i);
    TombstoneKeeps(p, k.cfg);
    assert p.stage.Finished?;
    hide OpInv;
    MoveIds(k, k', p.spec.id);
    TombstoneLinks(k, i);
    var q := TombstoneOp(p);
    assert q.spec == p.spec && q.abandoned && q.stage == p.stage && q.retiredUnsent == p.retiredUnsent && (Retired in q.trace.kinds ==> Retired in p.trace.kinds);
    hide IdsInv, LinksInv, TombstoneOp, InFlight, IsPending;
  }

  lemma RetireCore(k: Core, err: Failure)
    requires CoreInv(k)
    ensures CoreInv(Retire(k, err))
  {
    hide Encoding;
    if k.err.None? {
      var e := if k.closing then FailClosed else err;
      var k' := Retire(k, err);
      forall j | 0 <= j < |k.ops| ensures OpInv(k'.ops[j], k.cfg) && (IsInstalled(k'.ops[j]) ==> k'.ops[j].lifecycleDone) {
        if IsPending(k, j) {
          RetireKeeps(k.ops[j], e, k.cfg);
        }
      }
    }
  }

  lemma PhaseCore(k: Core, to: Phase, closing: bool, open: bool)
    requires CoreInv(k)
    requires to == k.phase || (k.err.None? && to != Closed)
    requires closing ==> to == Draining || to == Closed
    requires open ==> k.open
    ensures CoreInv(k.(phase := to, closing := closing, open := open))
  {
    hide OpInv;
    var k' := k.(phase := to, closing := closing, open := open);
    assert OccupiedSet(k') == OccupiedSet(k);
    assert forall j :: 0 <= j < |k.ops| ==> IsPending(k', j) == IsPending(k, j);
  }
}
