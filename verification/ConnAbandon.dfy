/** An Abandon that a cancellation or an overflow asks for is never forgotten. */
module ConnAbandon {
  import opened Envelope
  import opened ConnMessages
  import opened ConnCore
  import opened ConnOps
  import opened ConnMachine
  import opened ConnInv
  import opened ConnWorkers
  import opened ConnHistory
  import opened ConnRuns
  import opened ConnClaims
  import opened ConnFrames

  // --------------------------------------------------------------------- what a task owes

  ghost predicate HasTask(s: State, i: int) { exists t :: 0 <= t < |s.abandons| && s.abandons[t].target == i }

  // A call of w put its whole message on the wire.
  ghost predicate HasSent(calls: seq<Call>, w: Worker)
  {
    exists c :: 0 <= c < |calls| && calls[c].owner == w && calls[c].phase == Returned(Sent)
  }

  // The tombstone is still to come.
  predicate Ahead(stage: AbandonStage) { stage.Spawned? || stage.GotId? || stage.GotToken? || stage.TokenCleared? }

  // Over, or about to be, without an error.
  predicate Content(stage: AbandonStage) { stage.Over? || (stage.Leaving? && stage.failure.None?) }

  // A task is content only if its operation has ended or the connection is at its end,
  // and, if the operation was abandoned before retirement, once the Abandon was sent.
  ghost predicate TaskOk(s: State, t: nat)
    requires t < |s.abandons|
  {
    s.abandons[t].target < |s.core.ops| ==>
      var p, stage := s.core.ops[s.abandons[t].target], s.abandons[t].stage;
      && (Ahead(stage) ==> !p.abandoned)
      && (stage.Tombstoned? ==> p.abandoned)
      && (p.abandoned ==> HasCall(s.calls, Abandoner(t)))
      && (Content(stage) ==> p.lifecycleDone || Broken(s))
      && (Content(stage) && p.abandoned && s.core.err.None? ==> HasSent(s.calls, Abandoner(t)))
  }

  ghost predicate OwedInv(s: State)
  {
    && (forall i :: 0 <= i < |s.core.ops| && s.core.ops[i].abandoning ==> HasTask(s, i))
    && (forall t :: 0 <= t < |s.abandons| ==> TaskOk(s, t))
  }

  // ------------------------------------------------------------------- steps of others

  // Calls that were made stay made, and sent ones stay sent.
  ghost predicate CallsLast(calls: seq<Call>, calls': seq<Call>)
  {
    && |calls| <= |calls'|
    && forall c :: 0 <= c < |calls| ==> calls'[c].owner == calls[c].owner && (calls[c].phase.Returned? ==> calls'[c] == calls[c])
  }

  lemma CallsStay(calls: seq<Call>, calls': seq<Call>, w: Worker)
    requires CallsLast(calls, calls')
    ensures HasCall(calls, w) ==> HasCall(calls', w)
    ensures HasSent(calls, w) ==> HasSent(calls', w)
  {
    if HasCall(calls, w) {
      var c :| 0 <= c < |calls| && calls[c].owner == w;
      assert calls'[c].owner == w;
    }
    if HasSent(calls, w) {
      var c :| 0 <= c < |calls| && calls[c].owner == w && calls[c].phase == Returned(Sent);
      assert calls'[c] == calls[c];
    }
  }

  // What any step keeps of the end of a connection.
  ghost predicate Endward(k: Core, k': Core) { (k.err.Some? ==> k'.err.Some?) && (k.closing ==> k'.closing) }

  lemma TaskStays(s: State, s': State, t: nat)
    requires t < |s.abandons| && t < |s'.abandons| && s'.abandons[t] == s.abandons[t] && TaskOk(s, t)
    requires CallsLast(s.calls, s'.calls) && Endward(s.core, s'.core) && AllEvolve(s.core.ops, s'.core.ops)
    requires s.abandons[t].target < |s.core.ops|
    requires s'.core.ops[s.abandons[t].target].abandoned == s.core.ops[s.abandons[t].target].abandoned
    ensures TaskOk(s', t)
  {
    hide HasCall, HasSent, InboxEvolves, CallsLast;
    CallsStay(s.calls, s'.calls, Abandoner(t));
    assert Evolves(s.core.ops[s.abandons[t].target], s'.core.ops[s.abandons[t].target]);
  }

  // A step that marks nobody and leaves every Abandon alone.
  lemma OwedStays(s: State, s': State)
    requires OwedInv(s) && TasksInv(s) && s'.abandons == s.abandons && CallsLast(s.calls, s'.calls)
    requires Endward(s.core, s'.core) && AllEvolve(s.core.ops, s'.core.ops) && Unmarked(s.core.ops, s'.core.ops)
    ensures OwedInv(s')
  {
    hide TaskOk, AllEvolve, CallsLast, Endward;
    forall t | 0 <= t < |s'.abandons| ensures TaskOk(s', t) { TaskStays(s, s', t); }
    forall i | 0 <= i < |s'.core.ops| && s'.core.ops[i].abandoning ensures HasTask(s', i) {
      assert HasTask(s, i);
      var t :| 0 <= t < |s.abandons| && s.abandons[t].target == i;
      assert s'.abandons[t].target == i;
    }
  }

  // A step that may ask for an Abandon of operation i.
  lemma OwedSpawns(s: State, k: Core, i: nat, wanted: bool)
    requires OwedInv(s) && TasksInv(s) && i < |s.core.ops| == |k.ops| && Endward(s.core, k) && AllEvolve(s.core.ops, k.ops)
    requires forall j :: 0 <= j < |k.ops| ==> k.ops[j].abandoned == s.core.ops[j].abandoned
    requires forall j :: 0 <= j < |k.ops| && j != i ==> k.ops[j].abandoning == s.core.ops[j].abandoning
    requires k.ops[i].abandoning == (s.core.ops[i].abandoning || wanted) && (wanted ==> !k.ops[i].abandoned)
    ensures OwedInv(Spawn(s.(core := k), i, wanted))
  {
    hide TaskOk, AllEvolve, Endward;
    var s' := Spawn(s.(core := k), i, wanted);
    assert CallsLast(s.calls, s'.calls);
    hide CallsLast;
    forall t | 0 <= t < |s'.abandons| ensures TaskOk(s', t) {
      if t < |s.abandons| { TaskStays(s, s', t); } else { NewTaskOk(s', t); }
    }
    forall j | 0 <= j < |k.ops| && k.ops[j].abandoning ensures HasTask(s', j) {
      if s.core.ops[j].abandoning {
        assert HasTask(s, j);
        var t :| 0 <= t < |s.abandons| && s.abandons[t].target == j;
        assert s'.abandons[t].target == j;
      } else {
        assert s'.abandons[|s.abandons|].target == j;
      }
    }
  }

  lemma NewTaskOk(s: State, t: nat)
    requires t < |s.abandons| && s.abandons[t].stage.Spawned? && s.abandons[t].target < |s.core.ops|
    requires !s.core.ops[s.abandons[t].target].abandoned
    ensures TaskOk(s, t)
  {
  }

  // ------------------------------------------------------------------------ calls and ends

  lemma DoingLasts(s: State, i: nat, a: SetupStep, b: WriterStep, c: OutcomeStep)
    ensures SetupEnabled(s, i, a) ==> SetupApply(s, i, a).abandons == s.abandons && SetupApply(s, i, a).calls == s.calls
                                      && SetupApply(s, i, a).core.closing == s.core.closing
    ensures WriterEnabled(s, i, b) ==> WriterApply(s, i, b).abandons == s.abandons && CallsLast(s.calls, WriterApply(s, i, b).calls)
                                       && WriterApply(s, i, b).core.closing == s.core.closing
    ensures OutcomeEnabled(s, i, c) ==> OutcomeApply(s, i, c).abandons == s.abandons && OutcomeApply(s, i, c).calls == s.calls
                                        && OutcomeApply(s, i, c).core.closing == s.core.closing
  {
    hide RemoveOp, ObserveOp, InstalledOp, RejectedOp, WriterOp, WriterToken, InstallAllowed, EncodedOp, Encoding;
  }

  lemma OtherLasts(s: State, e: Event)
    requires Enabled(s, e) && (e.Start? || e.Closing? || e.RetireWith? || e.Advance? || e.BecomeReady?)
    ensures Apply(s, e).abandons == s.abandons && CallsLast(s.calls, Apply(s, e).calls) && (s.core.closing ==> Apply(s, e).core.closing)
  {
    hide TryReserve, UnbindMessage, RetireOps, ScopeAllowed, Idle, NewOp, CanAdvance;
  }

  lemma WriteLasts(s: State, e: CallStep)
    requires CallEnabled(s, e)
    ensures CallApply(s, e).abandons == s.abandons && CallsLast(s.calls, CallApply(s, e).calls) && CallApply(s, e).core.closing == s.core.closing
  {
    hide RetireOps;
  }

  // A step of anybody but streams, the reader and Abandon tasks.
  lemma OthersOwe(s: State, e: Event)
    requires Inv(s) && OwedInv(s) && Enabled(s, e) && !e.Arrival? && !e.Stream? && !e.Abandoning?
    ensures OwedInv(Apply(s, e))
  {
    var s' := Apply(s, e);
    StepKeeps(s, e);
    PhaseStep(s, e);
    InvTasks(s);
    OthersUnmoved(s, e);
    hide Inv, OwedInv, TasksInv, AllEvolve, CallsLast, BeginEnabled, SetupEnabled, WriterEnabled, OutcomeEnabled, CloseEnabled, ReadyAllowed, CallEnabled,
         Begin, SetupApply, WriterApply, OutcomeApply, CallApply, CloseApply, Retire, Unmarked, Undelivered;
    assert s'.abandons == s.abandons && CallsLast(s.calls, s'.calls) && (s.core.closing ==> s'.core.closing) by { OthersLast(s, e); }
    hide Apply, Enabled;
    OwedStays(s, s');
  }

  lemma SameLast(calls: seq<Call>)
    ensures CallsLast(calls, calls)
  {
  }

  lemma OthersLast(s: State, e: Event)
    requires Enabled(s, e) && !e.Arrival? && !e.Stream? && !e.Abandoning?
    ensures var s' := Apply(s, e); s'.abandons == s.abandons && CallsLast(s.calls, s'.calls) && (s.core.closing ==> s'.core.closing)
  {
    hide CallsLast, BeginEnabled, SetupEnabled, WriterEnabled, OutcomeEnabled, CloseEnabled, ReadyAllowed, CallEnabled,
         Begin, SetupApply, WriterApply, OutcomeApply, CallApply, CloseApply, Retire;
    SameLast(s.calls);
    match e
    case Setup(i, x) => DoingLasts(s, i, x, TakeToken, Observe);
    case Writer(i, x) => DoingLasts(s, i, GiveUp, x, Observe);
    case Settle(i, x) => DoingLasts(s, i, GiveUp, TakeToken, x);
    case Write(x) => WriteLasts(s, x);
    case _ => OtherLasts(s, e);
  }

  lemma InvTasks(s: State)
    requires Inv(s)
    ensures TasksInv(s)
  {
    hide CoreInv, WorkersInv, CallsInv, RequestsInv, TasksInv, AbandonCallsInv, SpoiledInv, UnbindCallsInv, ReadyInv;
  }

  lemma InvBusy(s: State)
    requires Inv(s)
    ensures BusyInv(s)
  {
    hide CoreInv, BusyInv, CallsInv, RequestsInv, TasksInv, AbandonCallsInv, SpoiledInv, UnbindCallsInv, ReadyInv;
  }

  // ------------------------------------------------------------ streams and the reader

  lemma CancelMarks(p: Op, reason: Failure, isPending: bool)
    ensures var q := CancelOp(p, reason, isPending);
            q.abandoned == p.abandoned && q.abandoning == (p.abandoning || CancelAbandons(p, isPending))
    ensures CancelAbandons(p, isPending) ==> !p.abandoning
  {
    hide Trace.Send;
  }

  lemma RouteMarks(p: Op, r: Response, cfg: Config)
    ensures var q := RouteOp(p, r, cfg);
            q.abandoned == p.abandoned && q.abandoning == (p.abandoning || RouteAbandons(p, r, cfg))
    ensures RouteAbandons(p, r, cfg) ==> !p.inbox.canceled
  {
    hide Trace.Send, Arrive, Completes, Overflows;
  }

  lemma UnmarkedNotAbandoned(k: Core, i: nat)
    requires CoreInv(k) && i < |k.ops|
    ensures k.ops[i].abandoned ==> k.ops[i].abandoning
    ensures k.ops[i].abandoning ==> k.ops[i].inbox.canceled
  {
    OpFact(k, i);
    hide CoreInv, Encoding;
  }

  lemma StreamOwes(s: State, i: nat, e: StreamStep)
    requires Inv(s) && OwedInv(s) && StreamEnabled(s, i, e)
    ensures OwedInv(StreamApply(s, i, e))
  {
    hide Inv, CoreInv, OwedInv, TasksInv, AllEvolve, CancelOp, ConsumeOp, CancelAbandons, Spawn, IsPending;
    StreamKept(s, i, e);
    InvTasks(s);
    InvCore(s);
    UnmarkedNotAbandoned(s.core, i);
    var p := s.core.ops[i];
    match e
    case CancelStream(reason) =>
      CancelMarks(p, reason, IsPending(s.core, i));
      SpawnCore(s, Cancel(s.core, i, reason), i, CancelAbandons(p, IsPending(s.core, i)));
      OwedSpawns(s, Cancel(s.core, i, reason), i, CancelAbandons(p, IsPending(s.core, i)));
    case Consume =>
      var k := SetOp(s.core, i, ConsumeOp(p));
      assert ConsumeOp(p).abandoned == p.abandoned && ConsumeOp(p).abandoning == p.abandoning by { ConsumeMarks(p); }
      OwedSpawns(s, k, i, false);
      SpawnNone(s.(core := k), i);
  }

  lemma ConsumeMarks(p: Op)
    ensures ConsumeOp(p).abandoned == p.abandoned && ConsumeOp(p).abandoning == p.abandoning
  {
  }

  lemma SpawnNone(s: State, i: nat)
    ensures Spawn(s, i, false) == s
  {
  }

  lemma SpawnCore(s: State, k: Core, i: nat, wanted: bool)
    ensures Spawn(s.(core := k), i, wanted).core == k
  {
  }

  lemma ArrivalOwes(s: State, r: Response)
    requires Inv(s) && OwedInv(s) && Enabled(s, Arrival(r))
    ensures OwedInv(ArrivalApply(s, r))
  {
    hide Inv, CoreInv, OwedInv, TasksInv, AllEvolve, RouteOp, RouteAbandons, Spawn, Completes;
    ArrivalKept(s, r);
    InvTasks(s);
    InvCore(s);
    var i := s.core.pending[r.messageId];
    var p, k, wanted := s.core.ops[i], Route(s.core, i, r), RouteAbandons(s.core.ops[i], r, s.core.cfg);
    UnmarkedNotAbandoned(s.core, i);
    RouteMarks(p, r, s.core.cfg);
    SpawnCore(s, k, i, wanted);
    OwedSpawns(s, k, i, wanted);
  }

  // ------------------------------------------------------------------ an Abandon's own steps

  // What the operation of a task is like.
  ghost predicate TargetOk(s: State, t: nat)
    requires t < |s.abandons|
  {
    && s.abandons[t].target < |s.core.ops|
    && var p := s.core.ops[s.abandons[t].target];
       && (p.abandoned ==> p.lifecycleDone)
       && (IsPending(s.core, s.abandons[t].target) <==> !p.lifecycleDone)
  }

  lemma TargetFact(s: State, t: nat)
    requires CoreInv(s.core) && TasksInv(s) && t < |s.abandons|
    ensures TargetOk(s, t)
  {
    hide Encoding, IdsInv, LiveInv, EndInv;
    var p := s.core.ops[s.abandons[t].target];
    assert OpInv(p, s.core.cfg);
    assert IsInstalled(p) && (p.abandoned ==> p.lifecycleDone);
    hide OpInv;
  }

  // Any step but the tombstone, the return from writeAll and retirement.
  lemma PlainTask(s: State, t: nat, e: AbandonStep)
    requires AbandonEnabled(s, t, e) && !e.FailAbandon? && !e.LeaveAbandon? && !Buries(s, t, e) && TaskOk(s, t) && TargetOk(s, t)
    ensures TaskOk(AbandonApply(s, t, e), t)
  {
    hide TryReserve, HasCall, HasSent, IsPending;
  }

  lemma BuriedTask(s: State, t: nat)
    requires AbandonEnabled(s, t, BuryTarget) && Buries(s, t, BuryTarget)
    ensures TaskOk(AbandonApply(s, t, BuryTarget), t)
  {
    hide AbandonMessage, IsPending;
    var s' := AbandonApply(s, t, BuryTarget);
    BuriedOp(s.core.ops[s.abandons[t].target]);
    hide TombstoneOp;
    assert s'.calls[|s.calls|].owner == Abandoner(t);
  }

  lemma LeavingTask(s: State, t: nat)
    requires AbandonEnabled(s, t, LeaveAbandon) && TaskOk(s, t) && TargetOk(s, t) && BusyInv(s)
    ensures TaskOk(AbandonApply(s, t, LeaveAbandon), t)
  {
    hide HasCall, IsPending;
    var s' := AbandonApply(s, t, LeaveAbandon);
    assert Inside(Pos(s, Abandoner(t)));
    hide BusyInv, Inside, Pos;
    var n := |s.calls| - 1;
    if s.calls[n].phase == Returned(Sent) { assert HasSent(s'.calls, Abandoner(t)); }
  }

  lemma FailedTask(s: State, t: nat)
    requires AbandonEnabled(s, t, FailAbandon) && TaskOk(s, t)
    ensures TaskOk(AbandonApply(s, t, FailAbandon), t)
  {
    RetireUnmoved(s.core, s.abandons[t].stage.reason);
    hide RetireOps, HasCall, HasSent;
  }

  // What a task's step leaves of everybody else.
  ghost predicate Framed(s: State, s': State, t: nat)
    requires t < |s.abandons|
  {
    && |s'.abandons| == |s.abandons| && s'.abandons[t].target == s.abandons[t].target
    && (forall u :: 0 <= u < |s.abandons| && u != t ==> s'.abandons[u] == s.abandons[u])
    && CallsLast(s.calls, s'.calls) && s'.core.closing == s.core.closing && |s'.core.ops| == |s.core.ops|
    && (forall j :: 0 <= j < |s.core.ops| ==> s'.core.ops[j].abandoning == s.core.ops[j].abandoning)
    && (forall j :: 0 <= j < |s.core.ops| && j != s.abandons[t].target ==> s'.core.ops[j].abandoned == s.core.ops[j].abandoned)
  }

  lemma FailFrame(s: State, t: nat)
    requires AbandonEnabled(s, t, FailAbandon)
    ensures Framed(s, AbandonApply(s, t, FailAbandon), t)
  {
    RetireUnmoved(s.core, s.abandons[t].stage.reason);
    hide RetireOps, Undelivered;
  }

  lemma BuriesIs(s: State, t: nat, e: AbandonStep)
    requires AbandonEnabled(s, t, e) && Buries(s, t, e)
    ensures e.BuryTarget?
  {
  }

  lemma BuryFrame(s: State, t: nat)
    requires AbandonEnabled(s, t, BuryTarget) && Buries(s, t, BuryTarget)
    ensures Framed(s, AbandonApply(s, t, BuryTarget), t)
  {
    hide AbandonMessage, Trace.Send, IsPending;
  }

  lemma PlainFrame(s: State, t: nat, e: AbandonStep)
    requires AbandonEnabled(s, t, e) && !e.FailAbandon? && !Buries(s, t, e)
    ensures Framed(s, AbandonApply(s, t, e), t)
  {
    hide TryReserve, IsPending;
  }

  lemma ActingTask(s: State, s': State, t: nat, e: AbandonStep)
    requires AbandonEnabled(s, t, e) && TaskOk(s, t) && s' == AbandonApply(s, t, e) && t < |s'.abandons|
    requires CoreInv(s.core) && TasksInv(s) && BusyInv(s)
    ensures TaskOk(s', t)
  {
    hide CoreInv, BusyInv, TasksInv, TaskOk, TargetOk, AbandonApply;
    TargetFact(s, t);
    if e.FailAbandon? { FailedTask(s, t); }
    else if e.LeaveAbandon? { LeavingTask(s, t); }
    else if Buries(s, t, e) { BuriedTask(s, t); }
    else { PlainTask(s, t, e); }
  }

  lemma AbandonOwes(s: State, t: nat, e: AbandonStep)
    requires Inv(s) && OwedInv(s) && AbandonEnabled(s, t, e)
    ensures OwedInv(AbandonApply(s, t, e))
  {
    hide Inv, CoreInv, BusyInv, TaskOk, AllEvolve, CallsLast, AbandonApply, Buries, Endward;
    var s' := AbandonApply(s, t, e);
    AbandonKept(s, t, e);
    AbandonEndward(s, t, e);
    InvTasks(s);
    if e.FailAbandon? { FailFrame(s, t); } else if Buries(s, t, e) { BuriesIs(s, t, e); BuryFrame(s, t); } else { PlainFrame(s, t, e); }
    InvCore(s);
    InvBusy(s);
    ActingTask(s, s', t, e);
    forall u | 0 <= u < |s'.abandons| ensures TaskOk(s', u) {
      if u != t { TaskStays(s, s', u); }
    }
    forall i | 0 <= i < |s'.core.ops| && s'.core.ops[i].abandoning ensures HasTask(s', i) {
      assert HasTask(s, i);
      var u :| 0 <= u < |s.abandons| && s.abandons[u].target == i;
      assert s'.abandons[u].target == i;
    }
  }

  lemma AbandonEndward(s: State, t: nat, e: AbandonStep)
    requires AbandonEnabled(s, t, e)
    ensures Endward(s.core, AbandonApply(s, t, e).core)
  {
    hide RetireOps, TryReserve, AbandonMessage, TombstoneOp;
  }

  // ------------------------------------------------------------------------ every run

  lemma {:induction false} RunOwes(states: seq<State>, events: seq<Event>, n: nat)
    requires IsRun(states, events) && n < |states|
    ensures OwedInv(states[n])
  {
    hide Inv, OwedInv, StreamApply, ArrivalApply, AbandonApply;
    if n == 0 {
      StartOwes(states[0]);
    } else {
      hide Initial;
      RunOwes(states, events, n - 1);
      RunInv(states, events, n - 1);
      var s, e := states[n - 1], events[n - 1];
      hide IsRun;
      assert Enabled(s, e) && states[n] == Apply(s, e) by { RunStep(states, events, n - 1); }
      hide Enabled;
      match e
      case Stream(i, x) => EnabledIs(s, e); StreamOwes(s, i, x);
      case Abandoning(t, x) => EnabledIs(s, e); AbandonOwes(s, t, x);
      case Arrival(r) => ArrivalOwes(s, r);
      case _ => hide Apply; OthersOwe(s, e);
    }
  }

  lemma RunStep(states: seq<State>, events: seq<Event>, n: nat)
    requires IsRun(states, events) && n < |events|
    ensures Enabled(states[n], events[n]) && states[n + 1] == Apply(states[n], events[n])
  {
    hide Initial, Enabled, Apply;
  }

  lemma StartOwes(s: State)
    requires Initial(s)
    ensures OwedInv(s)
  {
  }

  // The Abandon is on its way: its task has not given up.
  predicate OnItsWay(stage: AbandonStage) { Ahead(stage) || stage.Failing? || (stage.Leaving? && stage.failure.Some?) }

  /** An Abandon that is due is on its way: while the connection is open, every pending
      operation whose delivery was stopped by its consumer or by an overflow, and whose
      mode is to abandon, has one task that will tombstone it or, failing that, retire
      the connection. */
  lemma AbandonOnItsWay(states: seq<State>, events: seq<Event>, n: nat, i: nat) returns (t: nat)
    requires IsRun(states, events) && n < |states| && i < |states[n].core.ops| && IsPending(states[n].core, i)
    requires states[n].core.ops[i].inbox.canceled && states[n].core.ops[i].spec.mode == CancelAbandon
    requires states[n].core.err.None? && !states[n].core.closing
    ensures t < |states[n].abandons| && states[n].abandons[t].target == i && OnItsWay(states[n].abandons[t].stage)
    ensures forall u :: 0 <= u < |states[n].abandons| && u != t ==> states[n].abandons[u].target != i
  {
    hide Inv, CoreInv, HasCall, HasSent, OpInv, FlagsOk;
    RunInv(states, events, n);
    RunOwes(states, events, n);
    hide IsRun;
    var s := states[n];
    InvCore(s);
    InvTasks(s);
    assert s.core.ops[i].abandoning by { MarkedIfCanceled(s.core, i); }
    assert HasTask(s, i);
    t :| 0 <= t < |s.abandons| && s.abandons[t].target == i;
    assert TaskOk(s, t);
    OpFact(s.core, i);
    assert !s.core.ops[i].abandoned by { AbandonedEnds(s.core.ops[i], s.core.cfg); }
  }

  lemma MarkedIfCanceled(k: Core, i: nat)
    requires CoreInv(k) && i < |k.ops| && IsPending(k, i) && k.ops[i].inbox.canceled && k.ops[i].spec.mode == CancelAbandon
    ensures k.ops[i].abandoning
  {
    OpFact(k, i);
    hide CoreInv, Encoding;
  }

  lemma AbandonedEnds(p: Op, cfg: Config)
    requires OpInv(p, cfg)
    ensures p.abandoned ==> p.lifecycleDone
  {
    hide Encoding;
  }

  /** And it is sent: every abandoned operation has a task that called writeAll for it,
      and once that task has ended without retiring the connection, the whole Abandon
      is on the wire. */
  lemma AbandonIsSent(states: seq<State>, events: seq<Event>, n: nat, i: nat) returns (t: nat)
    requires IsRun(states, events) && n < |states| && i < |states[n].core.ops| && states[n].core.ops[i].abandoned
    ensures t < |states[n].abandons| && states[n].abandons[t].target == i
    ensures HasCall(states[n].calls, Abandoner(t))
    ensures states[n].abandons[t].stage.Over? && states[n].core.err.None? ==> HasSent(states[n].calls, Abandoner(t))
  {
    hide Inv;
    RunInv(states, events, n);
    RunOwes(states, events, n);
    hide IsRun;
    var s := states[n];
    InvCore(s);
    UnmarkedNotAbandoned(s.core, i);
    hide CoreInv, HasCall, HasSent;
    assert HasTask(s, i);
    t :| 0 <= t < |s.abandons| && s.abandons[t].target == i;
    assert TaskOk(s, t);
  }
}
