/** Every step of the connection keeps the whole invariant and takes nothing back
    from any operation. */
module ConnRuns {
  import opened BerTypes
  import opened Envelope
  import opened ConnMessages
  import opened ConnCore
  import opened ConnOps
  import opened ConnMachine
  import opened ConnInv
  import opened ConnWorkers
  import opened ConnHistory

  ghost predicate CloserInv(s: State) { s.core.closing <==> s.closer != NotStarted }

  ghost predicate Inv(s: State)
  {
    && CoreInv(s.core) && WorkersInv(s) && CloserInv(s) && CallsInv(s)
    && RequestsInv(s) && TasksInv(s) && AbandonCallsInv(s) && ReadyInv(s.core) && SpoiledInv(s) && UnbindCallsInv(s)
  }

  lemma InitialInv(s: State)
    requires Initial(s)
    ensures Inv(s)
  {
  }

  // ----------------------------------------------------------------- frames

  lemma ReflexiveQuiet(p: Op)
    ensures Quiet(p, p)
  {
  }

  lemma SameQuiet(ops: seq<Op>)
    ensures AllQuiet(ops, ops)
  {
    hide Quiet;
    forall i | 0 <= i < |ops| ensures Quiet(ops[i], ops[i]) { ReflexiveQuiet(ops[i]); }
  }

  lemma ReplaceQuiet(ops: seq<Op>, i: nat, q: Op)
    requires i < |ops| && Quiet(ops[i], q)
    ensures AllQuiet(ops, ops[i := q])
  {
    hide Quiet;
    forall j | 0 <= j < |ops| ensures Quiet(ops[j], ops[i := q][j]) { ReflexiveQuiet(ops[j]); }
  }

  lemma QuietEvolves(ops: seq<Op>, ops': seq<Op>)
    requires AllQuiet(ops, ops')
    ensures AllEvolve(ops, ops')
  {
    hide Evolves;
  }

  // While w holds the token outside writeAll, no call is running.
  lemma NobodyInside(s: State, w: Worker)
    requires WorkersInv(s) && s.token == Some(w) && !Inside(Pos(s, w))
    ensures s.calls != [] ==> LastReturned(s)
  {
    hide Pos, Inside, Holds, Entered;
    if s.calls != [] && !LastReturned(s) {
      InsideHolds(Pos(s, s.calls[|s.calls| - 1].owner));
    }
  }

  // The calls are the same, or the closer made one.
  ghost predicate QuietCalls(s: State, s': State)
  {
    && s'.wire == s.wire
    && (|| s'.calls == s.calls
        || (s.token == Some(Closer) && !Inside(Pos(s, Closer))
            && exists uid: int32 :: 1 <= uid <= s.core.cfg.maxId && s'.calls == s.calls + [NewCall(Closer, UnbindMessage(uid))]))
  }

  ghost predicate QuietPhase(k: Core, k': Core)
  {
    && k'.cfg == k.cfg && (k'.phase == Ready ==> k.phase == Ready) && (k.err.Some? ==> k'.err.Some?)
    && forall i :: |k.ops| <= i < |k'.ops| ==> k'.phase == Ready ==> k'.ops[i].spec.scope == Application
  }

  lemma QuietCallsKeep(s: State, s': State)
    requires CallsInv(s) && WorkersInv(s) && QuietCalls(s, s')
    ensures CallsInv(s')
  {
    if s'.calls != s.calls {
      NobodyInside(s, Closer);
      var uid: int32 :| 1 <= uid <= s.core.cfg.maxId && s'.calls == s.calls + [NewCall(Closer, UnbindMessage(uid))];
      NewCallKeeps(s, s', NewCall(Closer, UnbindMessage(uid)));
    }
  }

  lemma QuietUnbind(s: State, s': State)
    requires UnbindCallsInv(s) && SpoiledInv(s) && QuietCalls(s, s') && QuietPhase(s.core, s'.core)
    ensures UnbindCallsInv(s') && SpoiledInv(s')
  {
    hide Pos, Inside, UnbindMessage;
    SpoiledKeeps(s, s');
    hide SpoiledInv;
  }

  // The calls of others.
  lemma OthersKeep(s: State, s': State)
    requires UnbindCallsInv(s) && SpoiledInv(s) && s'.core.cfg == s.core.cfg && (s.core.err.Some? ==> s'.core.err.Some?)
    requires s'.calls == s.calls || (exists w, m :: s'.calls == s.calls + [NewCall(w, m)] && w != Closer)
    ensures UnbindCallsInv(s') && SpoiledInv(s')
  {
    hide IsUnbind;
    SpoiledKeeps(s, s');
    hide SpoiledInv;
  }

  lemma QuietInv(s: State, s': State)
    requires Inv(s) && CoreInv(s'.core) && WorkersInv(s') && CloserInv(s')
    requires AllQuiet(s.core.ops, s'.core.ops) && SameTargets(s, s') && QuietCalls(s, s') && QuietPhase(s.core, s'.core)
    ensures Inv(s')
  {
    hide CoreInv, OwnedInv, TokenInv, BusyInv, LastInv, CallsInv, RequestsInv, TasksInv, AbandonCallsInv, SpoiledInv, UnbindCallsInv, ReadyInv, AllQuiet, AllEvolve, SameTargets;
    QuietEvolves(s.core.ops, s'.core.ops);
    QuietCallsKeep(s, s');
    QuietUnbind(s, s');
    hide OnceInv, SpoiledInv, UnbindCallsInv;
    RequestsQuiet(s, s');
    TasksKeep(s, s');
    AbandonCallsKeep(s, s');
    ReadyKeeps(s.core, s'.core);
  }

  // --------------------------------------------------------------------- each event

  // The next state is in order, and no operation lost anything.
  ghost predicate Kept(s: State, s': State) { Inv(s') && AllEvolve(s.core.ops, s'.core.ops) }

  lemma BeginKept(s: State, spec: Spec)
    requires Inv(s) && BeginEnabled(s, spec)
    ensures Kept(s, Begin(s, spec))
  {
    hide CoreInv, OwnedInv, BusyInv, LastInv, OnceInv, CallsInv, RequestsInv, TasksInv, AbandonCallsInv, SpoiledInv, UnbindCallsInv, ReadyInv, TryReserve, Quiet, AllEvolve;
    var s' := Begin(s, spec);
    BeginCore(s, spec);
    ReserveCore(s.core);
    BeginStep(s, spec);
    StepKeepsWorkers(s, s', Doing(|s.core.ops|));
    SameQuiet(s.core.ops);
    assert AllQuiet(s.core.ops, s'.core.ops);
    QuietEvolves(s.core.ops, s'.core.ops);
    QuietInv(s, s');
  }

  // An event that rewrites operation i alone.
  lemma QuietOpKept(s: State, k: Core, i: nat, w: Worker)
    requires Inv(s) && CoreInv(k) && Step(s, s.(core := k), w)
    requires i < |s.core.ops| && |k.ops| == |s.core.ops| && k.ops == s.core.ops[i := k.ops[i]] && Quiet(s.core.ops[i], k.ops[i])
    requires k.closing == s.core.closing && k.cfg == s.core.cfg && k.phase == s.core.phase && k.err == s.core.err
    ensures Kept(s, s.(core := k))
  {
    hide CoreInv, OwnedInv, BusyInv, LastInv, OnceInv, TokenInv, CallsInv, RequestsInv, TasksInv, AbandonCallsInv, SpoiledInv, UnbindCallsInv, ReadyInv, Quiet, Step, AllQuiet, AllEvolve;
    var s' := s.(core := k);
    StepKeepsWorkers(s, s', w);
    ReplaceQuiet(s.core.ops, i, k.ops[i]);
    QuietEvolves(s.core.ops, s'.core.ops);
    QuietInv(s, s');
  }

  lemma TokenFact(s: State, w: Worker)
    requires WorkersInv(s)
    ensures TokenAt(s, w)
  {
  }

  lemma OpFact(k: Core, i: nat)
    requires CoreInv(k) && i < |k.ops|
    ensures OpInv(k.ops[i], k.cfg)
    ensures IsPending(k, i) ==> IsInstalled(k.ops[i]) && !k.ops[i].lifecycleDone
  {
    hide OpInv;
  }

  lemma SetupKept(s: State, i: nat, e: SetupStep)
    requires Inv(s) && SetupEnabled(s, i, e)
    ensures Kept(s, SetupApply(s, i, e))
  {
    hide CoreInv, WorkersInv, CallsInv, RequestsInv, TasksInv, AbandonCallsInv, SpoiledInv, UnbindCallsInv, ReadyInv, Quiet, Step, Kept, TokenAt,
         OpInv, InstalledOp, RejectedOp, ScopeAllowed, Encoding;
    OpFact(s.core, i);
    TokenFact(s, Doing(i));
    SetupCore(s, i, e);
    SetupQuiet(s, i, e);
    if e.TryInstall? { InstallMoves(s, i); } else if e.EncodeMessage? { EncodeMoves(s, i); } else { DropMoves(s, i); }
    QuietOpKept(s, SetupApply(s, i, e).core, i, Doing(i));
  }

  lemma SettleKept(s: State, i: nat, e: OutcomeStep)
    requires Inv(s) && OutcomeEnabled(s, i, e)
    ensures Kept(s, OutcomeApply(s, i, e))
  {
    hide CoreInv, WorkersInv, CallsInv, RequestsInv, TasksInv, AbandonCallsInv, SpoiledInv, UnbindCallsInv, ReadyInv, Quiet, Step, Kept, TokenAt,
         RemoveOp, ObserveOp;
    TokenFact(s, Doing(i));
    SettleCore(s, i, e);
    SettleQuiet(s, i, e);
    SettleMoves(s, i, e);
    QuietOpKept(s, OutcomeApply(s, i, e).core, i, Doing(i));
  }

  // Spawning the Abandon of an operation that has just been marked.
  lemma SpawnKept(s: State, i: nat, wanted: bool)
    requires Inv(s) && (wanted ==> i < |s.core.ops| && s.core.ops[i].abandoning)
    requires wanted ==> forall t :: 0 <= t < |s.abandons| ==> s.abandons[t].target != i
    ensures Inv(Spawn(s, i, wanted))
  {
    hide CoreInv, OwnedInv, BusyInv, LastInv, TokenInv, CallsInv, RequestsInv, TasksInv, ReadyInv, SpoiledInv, UnbindCallsInv, Step, TokenAt;
    if wanted {
      TokenFact(s, Abandoner(|s.abandons|));
      SpawnMoves(s, i, wanted);
      StepKeepsWorkers(s, Spawn(s, i, wanted), Abandoner(|s.abandons|));
      TasksSpawn(s, i);
      assert CallsInv(Spawn(s, i, wanted)) && RequestsInv(Spawn(s, i, wanted)) by { SpawnCalls(s, i, wanted); }
      SpawnAbandonCalls(s, i);
      OthersKeep(s, Spawn(s, i, wanted));
    }
  }

  lemma SpawnCalls(s: State, i: nat, wanted: bool)
    requires CallsInv(s) && RequestsInv(s)
    ensures CallsInv(Spawn(s, i, wanted)) && RequestsInv(Spawn(s, i, wanted))
  {
    hide RequestOk, CallOk;
  }

  // The new task has not called writeAll.
  lemma SpawnAbandonCalls(s: State, i: nat)
    requires AbandonCallsInv(s) && OnceInv(s)
    ensures AbandonCallsInv(Spawn(s, i, true))
  {
    hide IsAbandonOf;
    forall c | 0 <= c < |s.calls| && s.calls[c].owner.Abandoner? ensures s.calls[c].owner.task < |s.abandons| {
      assert Entered(Pos(s, s.calls[c].owner));
    }
  }

  lemma StreamKept(s: State, i: nat, e: StreamStep)
    requires Inv(s) && StreamEnabled(s, i, e)
    ensures Kept(s, StreamApply(s, i, e))
  {
    hide CoreInv, WorkersInv, CallsInv, RequestsInv, AbandonCallsInv, SpoiledInv, UnbindCallsInv, ReadyInv, Quiet, Step, TokenAt, OpInv, AllEvolve, ConsumeOp, CancelOp;
    OpFact(s.core, i);
    TokenFact(s, Closer);
    StreamCore(s, i, e);
    var p := s.core.ops[i];
    match e
    case CancelStream(reason) =>
      var pending := IsPending(s.core, i);
      var k := Cancel(s.core, i, reason);
      CancelQuiet(p, reason, pending, s.core.cfg);
      CancelStages(p, reason, pending);
      QuietMoves(s, k);
      QuietOpKept(s, k, i, Closer);
      SpawnKept(s.(core := k), i, CancelAbandons(p, pending));
    case Consume =>
      var k := SetOp(s.core, i, ConsumeOp(p));
      ConsumeQuiet(p);
      ConsumeStages(p);
      QuietMoves(s, k);
      QuietOpKept(s, k, i, Closer);
  }

  lemma CancelStages(p: Op, reason: Failure, pending: bool)
    ensures var q := CancelOp(p, reason, pending);
            q.stage == p.stage && q.spec == p.spec && (CancelAbandons(p, pending) ==> !p.abandoning && q.abandoning)
  {
  }

  lemma ConsumeStages(p: Op)
    ensures ConsumeOp(p).stage == p.stage && ConsumeOp(p).spec == p.spec
  {
  }

  lemma RouteStages(p: Op, r: Response, cfg: Config)
    ensures var q := RouteOp(p, r, cfg);
            q.stage == p.stage && q.spec == p.spec && (RouteAbandons(p, r, cfg) ==> q.abandoning)
  {
  }

  lemma ArrivalKept(s: State, r: Response)
    requires Inv(s) && Enabled(s, Arrival(r))
    ensures Kept(s, ArrivalApply(s, r))
  {
    hide CoreInv, WorkersInv, CallsInv, RequestsInv, AbandonCallsInv, SpoiledInv, UnbindCallsInv, ReadyInv, Quiet, Step, TokenAt, OpInv, AllEvolve, RouteOp, RouteAbandons, Completes;
    var i := s.core.pending[r.messageId];
    var p := s.core.ops[i];
    ArrivalFacts(s, r, p);
    TokenFact(s, Closer);
    ArrivalCore(s, r);
    var k := Route(s.core, i, r);
    RouteQuiet(p, r, s.core.cfg);
    RouteStages(p, r, s.core.cfg);
    QuietMoves(s, k);
    QuietOpKept(s, k, i, Closer);
    SpawnKept(s.(core := k), i, RouteAbandons(p, r, s.core.cfg));
  }

  // An operation whose delivery was not canceled has no Abandon task.
  lemma ArrivalFacts(s: State, r: Response, p: Op)
    requires Enabled(s, Arrival(r)) && p == s.core.ops[s.core.pending[r.messageId]]
    requires CoreInv(s.core)
    ensures OpInv(p, s.core.cfg) && CanRoute(p, r) && (RouteAbandons(p, r, s.core.cfg) ==> !p.abandoning)
  {
    hide Encoding, IdsInv, LiveInv, EndInv, InboxInv, TraceOk, ScopeOk, EndedOk, StageOk, Overflows;
    assert OpInv(p, s.core.cfg);
  }

  lemma WriterKept(s: State, i: nat, e: WriterStep)
    requires Inv(s) && WriterEnabled(s, i, e)
    ensures Kept(s, WriterApply(s, i, e))
  {
    hide OpsInv, IdsInv, LinksInv, LiveInv, EndInv, OwnedInv, TokenInv, BusyInv, LastInv, OnceInv, CallsInv, RequestsInv, TasksInv, AbandonCallsInv, SpoiledInv, UnbindCallsInv,
         ReadyInv, Evolves, Step, TokenAt, OpInv, WriterOp, WriterToken, AllEvolve;
    var s' := WriterApply(s, i, e);
    OpFact(s.core, i);
    TokenFact(s, Doing(i));
    WriterCore(s, i, e);
    WriterMoves(s, i, e);
    StepKeepsWorkers(s, s', Doing(i));
    WriterEvolves(s, i, e);
    ReplaceEvolves(s.core.ops, i, WriterOp(s, i, e));
    WriterCalls(s, i, e);
    RequestsWriter(s, i, e);
    TasksKeep(s, s');
    AbandonCallsKeep(s, s');
    ReadyKeeps(s.core, s'.core);
    OthersKeep(s, s');
  }

  lemma ReplaceEvolves(ops: seq<Op>, i: nat, q: Op)
    requires i < |ops| && Evolves(ops[i], q)
    ensures AllEvolve(ops, ops[i := q])
  {
    forall j | 0 <= j < |ops| ensures Evolves(ops[j], ops[i := q][j]) { ReflexiveQuiet(ops[j]); }
  }

  lemma WriterCalls(s: State, i: nat, e: WriterStep)
    requires WorkersInv(s) && CallsInv(s) && WriterEnabled(s, i, e)
    ensures CallsInv(WriterApply(s, i, e))
  {
    hide CallOk, WriterOp, WriterToken, WireOf;
    var s' := WriterApply(s, i, e);
    if e.StartWriting? {
      assert Holds(Pos(s, Doing(i)));
      NobodyInside(s, Doing(i));
      NewCallKeeps(s, s', s'.calls[|s.calls|]);
    }
  }

  // Everything but what a failed write leads to.
  lemma ProgressKept(s: State, e: CallStep)
    requires Inv(s) && CallEnabled(s, e)
    ensures var s' := Progress(s, e);
            && CoreInv(s'.core) && WorkersInv(s') && CloserInv(s') && CallsInv(s')
            && RequestsInv(s') && TasksInv(s') && AbandonCallsInv(s') && ReadyInv(s'.core) && UnbindCallsInv(s')
  {
    hide OpsInv, IdsInv, LinksInv, LiveInv, EndInv, WorkersInv, CallsInv, RequestsInv, TasksInv, AbandonCallsInv, SpoiledInv, ReadyInv, AllEvolve, CallAfter,
         IsUnbind;
    var s' := Progress(s, e);
    CallKeepsWorkers(s, e);
    CallKeeps(s, e);
    RequestsWritten(s, e);
    SameQuiet(s.core.ops);
    QuietEvolves(s.core.ops, s.core.ops);
    TasksKeep(s, s');
    CallMessages(s, e);
    AbandonCallsKeep(s, s');
  }

  lemma WriteKept(s: State, e: CallStep)
    requires Inv(s) && CallEnabled(s, e)
    ensures Kept(s, CallApply(s, e))
  {
    hide CoreInv, WorkersInv, CallsInv, RequestsInv, TasksInv, AbandonCallsInv, SpoiledInv, UnbindCallsInv, ReadyInv, AllEvolve, AllQuiet, CallAfter, Retire,
         Progress, CallEnabled;
    ProgressCore(s, e);
    var s1, c := Progress(s, e), s.calls[|s.calls| - 1];
    ProgressKept(s, e);
    EndFact(s.core);
    SpoiledWritten(s, e);
    SameQuiet(s.core.ops);
    QuietEvolves(s.core.ops, s.core.ops);
    if Retires(c, e) { RetireParts(s1, FailTransport(Reported(CallAfter(c, e)))); }
  }

  lemma ProgressCore(s: State, e: CallStep)
    requires CallEnabled(s, e)
    ensures Progress(s, e).core == s.core && s.calls != []
  {
  }

  lemma EndFact(k: Core)
    requires CoreInv(k)
    ensures EndInv(k)
  {
  }

  lemma CallMessages(s: State, e: CallStep)
    requires CallEnabled(s, e)
    ensures var s' := Progress(s, e);
            |s'.calls| == |s.calls|
            && forall c :: 0 <= c < |s.calls| ==> s'.calls[c].owner == s.calls[c].owner && s'.calls[c].message == s.calls[c].message
  {
  }

  // What retirement keeps of everything but the record of failed writes.
  lemma RetireParts(s: State, err: Failure)
    requires CoreInv(s.core) && WorkersInv(s) && CloserInv(s) && CallsInv(s)
    requires RequestsInv(s) && TasksInv(s) && AbandonCallsInv(s) && ReadyInv(s.core) && UnbindCallsInv(s)
    ensures var s' := s.(core := Retire(s.core, err));
            && CoreInv(s'.core) && WorkersInv(s') && CloserInv(s') && CallsInv(s')
            && RequestsInv(s') && TasksInv(s') && AbandonCallsInv(s') && ReadyInv(s'.core) && UnbindCallsInv(s')
            && AllEvolve(s.core.ops, s'.core.ops)
  {
    var s' := s.(core := Retire(s.core, err));
    RetireAll(s.core, err);
    hide OpsInv, IdsInv, LinksInv, LiveInv, EndInv, OwnedInv, TokenInv, BusyInv, LastInv, OnceInv, CallsInv, RequestsInv, TasksInv, AbandonCallsInv,
         ReadyInv, Step, TokenAt, AllEvolve, RetireOps, IsUnbind;
    TokenFact(s, Closer);
    QuietMoves(s, s'.core);
    StepKeepsWorkers(s, s', Closer);
    RetireCore(s.core, err);
    RequestsRetired(s, err);
    TasksKeep(s, s');
    AbandonCallsKeep(s, s');
    ReadyKeeps(s.core, s'.core);
    assert CallsInv(s') by { SameCalls(s, s'); }
  }

  lemma RetireKept(s: State, err: Failure)
    requires Inv(s)
    ensures Kept(s, s.(core := Retire(s.core, err)))
  {
    hide CoreInv, WorkersInv, CallsInv, RequestsInv, TasksInv, AbandonCallsInv, SpoiledInv, UnbindCallsInv, ReadyInv, AllEvolve;
    RetireParts(s, err);
    SpoiledKeeps(s, s.(core := Retire(s.core, err)));
  }

  lemma SameCalls(s: State, s': State)
    requires CallsInv(s) && s'.calls == s.calls && s'.wire == s.wire
    ensures CallsInv(s')
  {
  }

  lemma RetireAll(k: Core, err: Failure)
    requires CoreInv(k)
    ensures AllEvolve(k.ops, Retire(k, err).ops)
    ensures forall j :: 0 <= j < |k.ops| ==> Retire(k, err).ops[j].stage == k.ops[j].stage && Retire(k, err).ops[j].spec == k.ops[j].spec
  {
    hide OpInv, RetireOp, Evolves;
    var e := if k.closing then FailClosed else err;
    forall j | 0 <= j < |k.ops| ensures
      var q := Retire(k, err).ops[j]; Evolves(k.ops[j], q) && q.stage == k.ops[j].stage && q.spec == k.ops[j].spec
    {
      OpFact(k, j);
      SelfEvolves(k.ops[j]);
      if k.err.None? && IsPending(k, j) {
        RetireEvolves(k.ops[j], e, k.cfg);
        RetireStages(k.ops[j], e);
      }
    }
  }

  lemma SelfEvolves(p: Op)
    ensures Evolves(p, p)
  {
  }

  lemma RetireStages(p: Op, err: Failure)
    ensures RetireOp(p, err).stage == p.stage && RetireOp(p, err).spec == p.spec
  {
  }

  lemma NewIdFree(k: Core)
    requires CoreInv(k)
    ensures TryReserve(k).Some? ==> TryReserve(k).value !in k.reserved && 1 <= TryReserve(k).value <= k.cfg.maxId
    ensures forall id :: id in k.reserved ==> 1 <= id <= k.cfg.maxId
  {
    hide OpsInv, LinksInv, LiveInv, EndInv, TryReserve;
    if TryReserve(k).Some? { ReserveCore(k); }
    assert forall id :: id in k.reserved ==> id in OccupiedSet(k);
  }

  // The task found its operation still pending and tombstones it.
  predicate Buries(s: State, t: nat, e: AbandonStep)
    requires AbandonEnabled(s, t, e)
  {
    e.BuryTarget? && IsPending(s.core, s.abandons[t].target) && !Broken(s)
  }

  lemma AbandonKept(s: State, t: nat, e: AbandonStep)
    requires Inv(s) && AbandonEnabled(s, t, e)
    ensures Kept(s, AbandonApply(s, t, e))
  {
    hide CoreInv, OwnedInv, TokenInv, BusyInv, LastInv, OnceInv, CallsInv, RequestsInv, TasksInv, AbandonCallsInv, SpoiledInv, UnbindCallsInv, ReadyInv, Step, TokenAt,
         AllEvolve, AllQuiet, TryReserve, AbandonMessage;
    var s' := AbandonApply(s, t, e);
    if e.FailAbandon? {
      FailKept(s, t);
      return;
    }
    NewIdFree(s.core);
    TokenFact(s, Abandoner(t));
    AbandonMoves(s, t, e);
    StepKeepsWorkers(s, s', Abandoner(t));
    if Buries(s, t, e) {
      BuryKept(s, t, e);
    } else {
      if e.ReserveAid? && TryReserve(s.core).Some? { ReserveCore(s.core); }
      if e.ReleaseAid? { ReleaseCore(s.core, s.abandons[t].stage.aid); }
      SameQuiet(s.core.ops);
      QuietEvolves(s.core.ops, s'.core.ops);
      QuietInv(s, s');
    }
  }

  // The task retires the connection and is over.
  lemma FailKept(s: State, t: nat)
    requires Inv(s) && AbandonEnabled(s, t, FailAbandon)
    ensures Kept(s, AbandonApply(s, t, FailAbandon))
  {
    hide CoreInv, OwnedInv, TokenInv, BusyInv, LastInv, OnceInv, CallsInv, RequestsInv, TasksInv, AbandonCallsInv, SpoiledInv, UnbindCallsInv, ReadyInv, Step, TokenAt,
         AllEvolve, AllQuiet, Retire;
    var s1 := s.(core := Retire(s.core, s.abandons[t].stage.reason));
    RetireKept(s, s.abandons[t].stage.reason);
    TokenFact(s1, Abandoner(t));
    OverMoves(s1, t);
    StepKeepsWorkers(s1, SetTask(s1, t, AbandonStage.Over), Abandoner(t));
    SameQuiet(s1.core.ops);
    QuietInv(s1, SetTask(s1, t, AbandonStage.Over));
  }

  lemma TaskFact(s: State, t: nat)
    requires TasksInv(s) && t < |s.abandons|
    ensures s.abandons[t].target < |s.core.ops| && s.core.ops[s.abandons[t].target].abandoning
  {
  }

  lemma BuryKept(s: State, t: nat, e: AbandonStep)
    requires Inv(s) && AbandonEnabled(s, t, e) && Buries(s, t, e) && WorkersInv(AbandonApply(s, t, e))
    ensures Kept(s, AbandonApply(s, t, e))
  {
    hide CoreInv, OwnedInv, TokenInv, BusyInv, LastInv, OnceInv, CallsInv, RequestsInv, TasksInv, AbandonCallsInv, SpoiledInv, UnbindCallsInv, ReadyInv, Quiet,
         AllEvolve, AllQuiet, TombstoneOp, AbandonMessage;
    var s', i := AbandonApply(s, t, e), s.abandons[t].target;
    TokenFact(s, Abandoner(t));
    TaskFact(s, t);
    TombstoneCore(s.core, i);
    TombstoneQuiet(s.core.ops[i]);
    ReplaceQuiet(s.core.ops, i, TombstoneOp(s.core.ops[i]));
    QuietEvolves(s.core.ops, s'.core.ops);
    NobodyInside(s, Abandoner(t));
    NewCallKeeps(s, s', s'.calls[|s.calls|]);
    RequestsQuiet(s, s');
    TasksKeep(s, s');
    ReadyKeeps(s.core, s'.core);
    BuryCalls(s, t, e);
    OthersKeep(s, s');
  }

  lemma BuriedOp(p: Op)
    ensures TombstoneOp(p).abandoned && TombstoneOp(p).spec == p.spec
  {
  }

  lemma BuryCalls(s: State, t: nat, e: AbandonStep)
    requires AbandonCallsInv(s) && AbandonEnabled(s, t, e) && Buries(s, t, e)
    requires CoreInv(s.core) && OwnedInv(s) && AllEvolve(s.core.ops, AbandonApply(s, t, e).core.ops)
    ensures AbandonCallsInv(AbandonApply(s, t, e))
  {
    hide InboxEvolves, AbandonMessage, TombstoneOp, CoreInv;
    var s', n, task := AbandonApply(s, t, e), |s.calls|, s.abandons[t];
    BuriedOp(s.core.ops[task.target]);
    NewIdFree(s.core);
    assert Claim(Pos(s, Abandoner(t))) == Some(task.stage.aid);
    assert IsAbandonOf(s'.calls[n].message, s.core.ops[task.target].spec.id, s.core.cfg.maxId);
    hide IsAbandonOf;
    assert forall c :: 0 <= c < n ==> s'.calls[c] == s.calls[c];
  }

  lemma CloseKept(s: State, e: CloseStep)
    requires Inv(s) && CloseEnabled(s, e)
    ensures Kept(s, CloseApply(s, e))
  {
    hide CoreInv, OwnedInv, TokenInv, BusyInv, LastInv, OnceInv, CallsInv, RequestsInv, TasksInv, AbandonCallsInv, SpoiledInv, UnbindCallsInv, ReadyInv, Step,
         AllEvolve, AllQuiet, TryReserve, UnbindMessage;
    var s' := CloseApply(s, e);
    NewIdFree(s.core);
    TokenFact(s, Closer);
    CloseMoves(s, e);
    StepKeepsWorkers(s, s', Closer);
    CloseCore(s, e);
    SameQuiet(s.core.ops);
    QuietEvolves(s.core.ops, s'.core.ops);
    QuietInv(s, s');
  }

  lemma CloseCore(s: State, e: CloseStep)
    requires CoreInv(s.core) && CloseEnabled(s, e)
    ensures CoreInv(CloseApply(s, e).core)
  {
    hide OpsInv, IdsInv, LinksInv, LiveInv, TryReserve;
    match e
    case BeginClose => PhaseCore(s.core, CloseApply(s, e).core.phase, true, s.core.open);
    case StartUnbind => if TryReserve(s.core).Some? { ReserveCore(s.core); }
    case ReleaseUid => ReleaseCore(s.core, s.closer.uid);
    case CloseTransport => PhaseCore(s.core, s.core.phase, s.core.closing, false);
    case _ =>
  }

  // A change of the phase alone.
  lemma PhaseKept(s: State, to: Phase)
    requires Inv(s) && s.core.err.None? && !s.core.closing
    requires to == Authenticating || to == Initializing || (to == Ready && ReadyAllowed(s.core))
    ensures Kept(s, s.(core := s.core.(phase := to)))
  {
    hide OpsInv, IdsInv, LinksInv, LiveInv, EndInv, OwnedInv, TokenInv, BusyInv, LastInv, OnceInv, CallsInv, RequestsInv, TasksInv, AbandonCallsInv, SpoiledInv, UnbindCallsInv,
         Step, TokenAt, AllEvolve, AllQuiet;
    var s' := s.(core := s.core.(phase := to));
    PhaseCore(s.core, to, s.core.closing, s.core.open);
    if to == Ready { BecomeReadyKeeps(s); }
    TokenFact(s, Closer);
    QuietMoves(s, s'.core);
    StepKeepsWorkers(s, s', Closer);
    SameQuiet(s.core.ops);
    QuietEvolves(s.core.ops, s'.core.ops);
    RequestsQuiet(s, s');
    TasksKeep(s, s');
    AbandonCallsKeep(s, s');
    SameCalls(s, s');
    OthersKeep(s, s');
  }

  /** Every step of every goroutine and of the environment keeps the invariant,
      and takes nothing back from any operation. */
  lemma StepKeeps(s: State, e: Event)
    requires Inv(s) && Enabled(s, e)
    ensures Inv(Apply(s, e)) && AllEvolve(s.core.ops, Apply(s, e).core.ops)
  {
    hide Inv, AllEvolve, BeginEnabled, SetupEnabled, WriterEnabled, OutcomeEnabled, StreamEnabled, CallEnabled, AbandonEnabled, CloseEnabled,
         Begin, SetupApply, WriterApply, OutcomeApply, StreamApply, CallApply, AbandonApply, CloseApply, ArrivalApply, Retire;
    match e
    case Start(spec) => BeginKept(s, spec);
    case Setup(i, x) => SetupKept(s, i, x);
    case Writer(i, x) => WriterKept(s, i, x);
    case Settle(i, x) => SettleKept(s, i, x);
    case Stream(i, x) => StreamKept(s, i, x);
    case Write(x) => WriteKept(s, x);
    case Arrival(r) => ArrivalKept(s, r);
    case Abandoning(t, x) => AbandonKept(s, t, x);
    case Closing(x) => CloseKept(s, x);
    case RetireWith(err) => RetireKept(s, err);
    case Advance(to) => PhaseFacts(s); PhaseKept(s, to);
    case BecomeReady => PhaseFacts(s); PhaseKept(s, Ready);
  }

  // Before draining, nobody has begun to close.
  lemma PhaseFacts(s: State)
    requires Inv(s)
    ensures Rank(s.core.phase) < Rank(Draining) ==> !s.core.closing
  {
    hide OpsInv, IdsInv, LinksInv, LiveInv, WorkersInv, CallsInv, RequestsInv, TasksInv, AbandonCallsInv, SpoiledInv, UnbindCallsInv, ReadyInv;
  }
}
