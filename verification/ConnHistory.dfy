/** How operations, writeAll calls and Abandon tasks may change from one state to
    the next, and what ties the calls and the tasks to the operations. */
module ConnHistory {
  import opened BerTypes
  import opened Envelope
  import opened ConnMessages
  import opened ConnCore
  import opened ConnOps
  import opened ConnMachine
  import opened ConnInv
  import opened ConnWorkers

  // ---------------------------------------------------- an operation over time

  // What no step takes back. Once the lifecycle is over nothing more is routed,
  // and a safely completed operation stays safe.
  ghost predicate Evolves(p: Op, q: Op)
  {
    && q.spec == p.spec && (p.message.Some? ==> q.message == p.message)
    && (IsInstalled(p) ==> q.installedIn == p.installedIn)
    && (p.wrote.Some? ==> q.wrote == p.wrote)
    && (p.stage.Finished? ==> q.stage.Finished? && q.installedIn == p.installedIn)
    && (p.terminal ==> q.terminal) && (p.lifecycleDone ==> q.lifecycleDone)
    && (p.abandoning ==> q.abandoning) && (p.abandoned ==> q.abandoned)
    && (p.writeStarted ==> q.writeStarted) && (p.writeObserved ==> q.writeObserved)
    && (p.retiredUnsent ==> q.retiredUnsent) && p.trace.kinds <= q.trace.kinds
    && (p.terminal ==> q.inbox.deliveryErr == p.inbox.deliveryErr && q.inbox.canceled == p.inbox.canceled)
    && InboxEvolves(p.inbox, q.inbox)
    && (p.lifecycleDone ==> q.inbox.routed == p.inbox.routed)
    && (Safe(p) ==> Safe(q))
  }

  ghost predicate InboxEvolves(b: Inbox, c: Inbox)
  {
    b.routed <= c.routed && b.delivered <= c.delivered && (b.completed ==> c.completed)
  }

  // A step that neither begins nor ends a write, nor retires.
  ghost predicate Quiet(p: Op, q: Op)
  {
    && Evolves(p, q)
    && q.wrote == p.wrote && q.retiredUnsent == p.retiredUnsent && q.writeStarted == p.writeStarted
    && (p.stage.Writing? ==> q.stage.Writing?)
  }

  lemma ArriveEvolves(b: Inbox, r: Response, complete: bool, cfg: Config)
    requires !b.completed
    ensures InboxEvolves(b, Arrive(b, r, complete, cfg))
  {
  }

  lemma RouteQuiet(p: Op, r: Response, cfg: Config)
    requires OpInv(p, cfg) && CanRoute(p, r)
    ensures Quiet(p, RouteOp(p, r, cfg))
  {
    hide Encoding;
    assert !p.inbox.completed && !Safe(p);
    ArriveEvolves(p.inbox, r, Completes(p, r), cfg);
    RouteKinds(p, r, cfg);
    hide OpInv, Trace.Send, Arrive, InboxEvolves, Overflows;
  }

  lemma ReflexiveInbox(b: Inbox)
    ensures InboxEvolves(b, b)
  {
  }

  lemma CancelQuiet(p: Op, reason: Failure, isPending: bool, cfg: Config)
    requires OpInv(p, cfg)
    ensures Quiet(p, CancelOp(p, reason, isPending))
  {
    hide Encoding;
    assert Safe(p) ==> p.terminal;
    assert InboxEvolves(p.inbox, StopDelivery(p.inbox, reason));
    CancelKinds(p, reason, isPending);
    hide OpInv, Trace.Send, StopDelivery, InboxEvolves;
    assert InboxEvolves(p.inbox, p.inbox) by { ReflexiveInbox(p.inbox); }
  }

  lemma ConsumeQuiet(p: Op)
    ensures Quiet(p, ConsumeOp(p))
  {
  }

  lemma TombstoneQuiet(p: Op)
    ensures Quiet(p, TombstoneOp(p))
  {
  }

  lemma RetireEvolves(p: Op, err: Failure, cfg: Config)
    requires OpInv(p, cfg) && !p.lifecycleDone
    ensures Evolves(p, RetireOp(p, err))
  {
    hide Encoding;
    assert !Safe(p);
    hide OpInv;
  }

  lemma EndQuiet(p: Op)
    requires !p.stage.Writing?
    ensures Quiet(p, p.(stage := Finished))
    ensures Quiet(p, RemoveOp(p).(stage := Finished))
  {
    RemoveKinds(p);
    hide Trace.Send;
  }

  lemma ObserveQuiet(p: Op)
    requires p.stage.Wrote?
    ensures Quiet(p, ObserveOp(p))
  {
  }

  lemma SettleQuiet(s: State, i: nat, e: OutcomeStep)
    requires OutcomeEnabled(s, i, e)
    ensures Quiet(s.core.ops[i], OutcomeApply(s, i, e).core.ops[i])
  {
    hide Quiet, RemoveOp, ObserveOp;
    if e.Observe? { ObserveQuiet(s.core.ops[i]); } else { EndQuiet(s.core.ops[i]); }
  }

  lemma InstallQuiet(p: Op, phase: Phase)
    requires p.stage.Reserved? && !IsInstalled(p)
    ensures Quiet(p, InstalledOp(p, phase)) && Quiet(p, RejectedOp(p))
  {
  }

  lemma EncodeQuiet(k: Core, i: nat)
    requires i < |k.ops| && OpInv(k.ops[i], k.cfg)
    ensures Quiet(k.ops[i], EncodedOp(k, i))
  {
    hide Encoding;
  }

  lemma SetupQuiet(s: State, i: nat, e: SetupStep)
    requires SetupEnabled(s, i, e) && OpInv(s.core.ops[i], s.core.cfg)
    ensures Quiet(s.core.ops[i], SetupApply(s, i, e).core.ops[i])
  {
    hide Encoding;
    var p := s.core.ops[i];
    assert !IsInstalled(p);
    EncodeQuiet(s.core, i);
    hide OpInv, Quiet, InstalledOp, RejectedOp, ScopeAllowed, EncodedOp;
    if e.TryInstall? { InstallQuiet(p, s.core.phase); } else if !e.EncodeMessage? { EndQuiet(p); }
  }

  lemma WriterEvolves(s: State, i: nat, e: WriterStep)
    requires WriterEnabled(s, i, e) && OpInv(s.core.ops[i], s.core.cfg)
    ensures Evolves(s.core.ops[i], WriterOp(s, i, e))
  {
    hide Encoding;
  }

  // ------------------------------------------------------------------ writeAll calls

  // What a call has accepted agrees with what it reported.
  predicate CallOk(c: Call)
  {
    && c.accepted <= |c.message|
    && (c.phase.InWrite? ==> c.phase.start <= c.accepted)
    && (c.phase.Returned? ==>
          match c.phase.result
          case Sent => c.accepted == |c.message|
          case Unsent(o) => o == Ambiguous || (o == DefinitelyUnsent && c.accepted == 0))
  }

  // The accepted prefixes of the calls' messages, call by call.
  function WireOf(calls: seq<Call>): bytes
  {
    if calls == [] then []
    else
      var c := calls[|calls| - 1];
      WireOf(calls[..|calls| - 1]) + (if c.accepted <= |c.message| then c.message[..c.accepted] else [])
  }

  ghost predicate CallsInv(s: State)
  {
    && (forall c :: 0 <= c < |s.calls| ==> CallOk(s.calls[c]))
    && (forall c :: 0 <= c < |s.calls| - 1 ==> s.calls[c].phase.Returned?)
    && s.wire == WireOf(s.calls)
  }

  // A new call starts after the last one returned, with nothing accepted.
  lemma NewCallKeeps(s: State, s': State, c: Call)
    requires CallsInv(s) && s'.calls == s.calls + [c] && s'.wire == s.wire
    requires c.accepted == 0 && c.phase.AtTop? && (s.calls != [] ==> LastReturned(s))
    ensures CallsInv(s')
  {
    assert s'.calls[..|s.calls|] == s.calls;
    assert c.message[..0] == [];
  }

  lemma CallStepOk(c: Call, e: CallStep)
    requires CallOk(c) && CallReady(c, e)
    ensures CallOk(CallAfter(c, e))
  {
  }

  // Accepting more of the last call's message appends to the wire.
  lemma WireGrows(calls: seq<Call>, c': Call)
    requires calls != []
    requires var c := calls[|calls| - 1]; c'.message == c.message && c.accepted <= c'.accepted <= |c.message|
    ensures var c := calls[|calls| - 1];
            WireOf(calls[|calls| - 1 := c']) == WireOf(calls) + c.message[c.accepted..c'.accepted]
  {
    var n := |calls| - 1;
    var c := calls[n];
    assert calls[n := c'][..n] == calls[..n];
    assert c.message[..c'.accepted] == c.message[..c.accepted] + c.message[c.accepted..c'.accepted];
    Reassociate(WireOf(calls[..n]), c.message[..c.accepted], c.message[c.accepted..c'.accepted]);
  }

  lemma CallStepKeeps(c: Call, e: CallStep)
    requires CallReady(c, e) && c.accepted <= |c.message|
    ensures var c' := CallAfter(c, e);
            && c'.message == c.message && c'.accepted == c.accepted + (if e.Accept? then e.n else 0) && c'.accepted <= |c.message|
  {
  }

  lemma CallKeeps(s: State, e: CallStep)
    requires CallsInv(s) && CallEnabled(s, e)
    ensures CallsInv(Progress(s, e))
  {
    var n := |s.calls| - 1;
    var c := s.calls[n];
    CallStepOk(c, e);
    CallStepKeeps(c, e);
    WireGrows(s.calls, CallAfter(c, e));
    hide CallOk, CallAfter, WireOf, CallReady;
    assert c.message[c.accepted..c.accepted] == [];
  }

  // --------------------------------------------------------- after a failed write

  // A call whose outcome is ambiguous although cancellation did not win a race for it.
  predicate Spoiled(c: Call) { c.phase == Returned(Unsent(Ambiguous)) && !c.raced }

  // It has retired the connection, and nothing was accepted after it.
  ghost predicate SpoiledInv(s: State)
  {
    forall c :: 0 <= c < |s.calls| && Spoiled(s.calls[c]) ==> s.core.err.Some? && Unaccepted(s.calls, c)
  }

  ghost predicate Unaccepted(calls: seq<Call>, c: int) { forall d :: 0 <= d < |calls| && c < d ==> calls[d].accepted == 0 }

  // Calls may be added.
  lemma SpoiledKeeps(s: State, s': State)
    requires SpoiledInv(s) && (s.core.err.Some? ==> s'.core.err.Some?)
    requires s'.calls == s.calls || (exists w, m :: s'.calls == s.calls + [NewCall(w, m)])
    ensures SpoiledInv(s')
  {
  }

  lemma SpoiledRetires(c: Call, e: CallStep)
    requires CallReady(c, e) && Spoiled(CallAfter(c, e))
    ensures Retires(c, e)
  {
  }

  lemma RetireIsFinal(k: Core, err: Failure)
    ensures Retire(k, err).err.Some?
  {
  }

  lemma SpoiledWritten(s: State, e: CallStep)
    requires SpoiledInv(s) && EndInv(s.core) && CallEnabled(s, e)
    ensures SpoiledInv(CallApply(s, e))
  {
    var s', n := CallApply(s, e), |s.calls| - 1;
    var last := s.calls[n];
    RetireIsFinal(s.core, FailTransport(Reported(CallAfter(last, e))));
    if Spoiled(CallAfter(last, e)) { SpoiledRetires(last, e); }
    assert !e.Accept? ==> CallAfter(last, e).accepted == last.accepted;
    hide Retire, CallAfter, Retires, CallReady;
  }

  // ------------------------------------------------- the calls made by operations

  ghost predicate HasCall(calls: seq<Call>, w: Worker)
  {
    exists c :: 0 <= c < |calls| && calls[c].owner == w
  }

  // A call writes its operation's message. An operation removed as unsent has put
  // nothing on the wire; one still pending has recorded that its write began.
  ghost predicate RequestOk(c: Call, p: Op)
  {
    && p.message == Some(c.message) && IsInstalled(p)
    && (!p.lifecycleDone ==> p.writeStarted)
    && (p.retiredUnsent ==> c.accepted == 0)
    && (p.stage.Writing? || (p.wrote.Some? && c.phase == Returned(p.wrote.value)))
  }

  ghost predicate RequestsInv(s: State)
  {
    && (forall c :: 0 <= c < |s.calls| && s.calls[c].owner.Doing? && s.calls[c].owner.op < |s.core.ops| ==>
          RequestOk(s.calls[c], s.core.ops[s.calls[c].owner.op]))
    && (forall i :: 0 <= i < |s.core.ops| && MustHaveCalled(s.core.ops[i]) ==> HasCall(s.calls, Doing(i)))
  }

  // Its write began, or ended in anything but a definite failure to send.
  predicate MustHaveCalled(p: Op) { p.writeStarted || (p.wrote.Some? && p.wrote != Some(Unsent(DefinitelyUnsent))) }

  // The operations that were there are all Quiet; new ones have not written.
  ghost predicate AllQuiet(ops: seq<Op>, ops': seq<Op>)
  {
    && |ops| <= |ops'|
    && (forall i :: 0 <= i < |ops| ==> Quiet(ops[i], ops'[i]))
    && (forall i :: |ops| <= i < |ops'| ==> !MustHaveCalled(ops'[i]))
  }

  lemma QuietWrote(p: Op, q: Op)
    requires Quiet(p, q)
    ensures MustHaveCalled(q) == MustHaveCalled(p)
  {
  }

  lemma RequestQuiet(c: Call, p: Op, q: Op)
    requires RequestOk(c, p) && Quiet(p, q)
    ensures RequestOk(c, q)
  {
  }

  // Calls may be added by workers other than operations.
  lemma RequestsQuiet(s: State, s': State)
    requires RequestsInv(s) && OnceInv(s) && AllQuiet(s.core.ops, s'.core.ops)
    requires s'.calls == s.calls || (|s'.calls| == |s.calls| + 1 && s'.calls[..|s.calls|] == s.calls && !s'.calls[|s.calls|].owner.Doing?)
    ensures RequestsInv(s')
  {
    hide RequestOk, Quiet;
    forall c | 0 <= c < |s'.calls| && s'.calls[c].owner.Doing? && s'.calls[c].owner.op < |s'.core.ops|
      ensures RequestOk(s'.calls[c], s'.core.ops[s'.calls[c].owner.op])
    {
      assert c < |s.calls| && s'.calls[c] == s.calls[c];
      var i := s.calls[c].owner.op;
      assert Entered(Pos(s, s.calls[c].owner));
      RequestQuiet(s.calls[c], s.core.ops[i], s'.core.ops[i]);
    }
    forall i | 0 <= i < |s'.core.ops| && MustHaveCalled(s'.core.ops[i]) ensures HasCall(s'.calls, Doing(i)) {
      assert i < |s.core.ops|;
      QuietWrote(s.core.ops[i], s'.core.ops[i]);
      var c :| 0 <= c < |s.calls| && s.calls[c].owner == Doing(i);
      assert s'.calls[c] == s.calls[c];
    }
  }

  lemma RequestRetired(c: Call, p: Op, err: Failure)
    requires RequestOk(c, p) && !p.lifecycleDone
    ensures RequestOk(c, RetireOp(p, err))
  {
  }

  lemma RequestsRetired(s: State, err: Failure)
    requires RequestsInv(s) && LinksInv(s.core)
    ensures RequestsInv(s.(core := Retire(s.core, err)))
  {
    hide RequestOk, RetireOp;
    var s' := s.(core := Retire(s.core, err));
    if s.core.err.None? {
      var e := if s.core.closing then FailClosed else err;
      forall c | 0 <= c < |s.calls| && s.calls[c].owner.Doing? && s.calls[c].owner.op < |s.core.ops|
        ensures RequestOk(s.calls[c], s'.core.ops[s.calls[c].owner.op])
      {
        var i := s.calls[c].owner.op;
        if IsPending(s.core, i) { RequestRetired(s.calls[c], s.core.ops[i], e); }
      }
      forall i | 0 <= i < |s.core.ops| && MustHaveCalled(s'.core.ops[i]) ensures MustHaveCalled(s.core.ops[i]) {
        RetiredWrote(s.core.ops[i], e);
      }
    }
  }

  lemma RetiredWrote(p: Op, e: Failure)
    ensures MustHaveCalled(RetireOp(p, e)) == MustHaveCalled(p)
  {
  }

  lemma RequestWritten(c: Call, p: Op, e: CallStep)
    requires RequestOk(c, p) && CallReady(c, e) && (p.retiredUnsent ==> !e.Accept?)
    ensures RequestOk(CallAfter(c, e), p)
  {
  }

  lemma RequestsWritten(s: State, e: CallStep)
    requires RequestsInv(s) && LiveInv(s.core) && EndInv(s.core) && CallEnabled(s, e)
    ensures RequestsInv(Progress(s, e))
  {
    var s' := Progress(s, e);
    var n := |s.calls| - 1;
    assert forall c :: 0 <= c < |s.calls| ==> s'.calls[c].owner == s.calls[c].owner;
    assert s'.calls[n] == CallAfter(s.calls[n], e) && forall c :: 0 <= c < n ==> s'.calls[c] == s.calls[c];
    hide RequestOk, CallAfter, Progress;
    forall c | 0 <= c < |s'.calls| && s'.calls[c].owner.Doing? && s'.calls[c].owner.op < |s.core.ops|
      ensures RequestOk(s'.calls[c], s.core.ops[s'.calls[c].owner.op])
    {
      if c == n { RequestWritten(s.calls[n], s.core.ops[s.calls[n].owner.op], e); }
    }
    assert forall w :: HasCall(s.calls, w) ==> HasCall(s'.calls, w);
  }

  // The call, if any, of an operation that takes a writer step.
  lemma RequestWriter(s: State, i: nat, e: WriterStep, c: nat)
    requires WriterEnabled(s, i, e) && RequestsInv(s) && OnceInv(s) && BusyInv(s) && LinksInv(s.core) && OpsInv(s.core)
    requires c < |WriterApply(s, i, e).calls| && WriterApply(s, i, e).calls[c].owner == Doing(i)
    ensures RequestOk(WriterApply(s, i, e).calls[c], WriterOp(s, i, e))
  {
    hide Encoding;
    assert IsInstalled(s.core.ops[i]);
    hide OpInv;
    if c < |s.calls| { assert Entered(Pos(s, s.calls[c].owner)); }
    if e.LeaveWrite? { assert Inside(Pos(s, Doing(i))); }
  }

  // Whoever must have called has called before, or does so in this step.
  lemma CallerCalled(s: State, i: nat, e: WriterStep)
    requires WriterEnabled(s, i, e) && BusyInv(s) && MustHaveCalled(WriterOp(s, i, e)) && (MustHaveCalled(s.core.ops[i]) ==> HasCall(s.calls, Doing(i)))
    ensures HasCall(WriterApply(s, i, e).calls, Doing(i))
  {
    var s' := WriterApply(s, i, e);
    if e.StartWriting? {
      assert s'.calls[|s.calls|].owner == Doing(i);
    } else if e.LeaveWrite? {
      assert Inside(Pos(s, Doing(i)));
      assert s'.calls[|s.calls| - 1].owner == Doing(i);
    } else {
      assert MustHaveCalled(s.core.ops[i]);
    }
  }

  lemma RequestsWriter(s: State, i: nat, e: WriterStep)
    requires WriterEnabled(s, i, e) && RequestsInv(s) && OnceInv(s) && BusyInv(s) && LinksInv(s.core) && OpsInv(s.core)
    ensures RequestsInv(WriterApply(s, i, e))
  {
    hide RequestOk, WriterOp, WriterToken, OpsInv, LinksInv, OnceInv, BusyInv;
    var s' := WriterApply(s, i, e);
    forall c | 0 <= c < |s'.calls| && s'.calls[c].owner.Doing? && s'.calls[c].owner.op < |s'.core.ops|
      ensures RequestOk(s'.calls[c], s'.core.ops[s'.calls[c].owner.op])
    {
      if s'.calls[c].owner == Doing(i) { RequestWriter(s, i, e, c); }
      else { assert s'.calls[c] == s.calls[c]; }
    }
    forall j | 0 <= j < |s'.core.ops| && MustHaveCalled(s'.core.ops[j]) ensures HasCall(s'.calls, Doing(j)) {
      if j == i {
        CallerCalled(s, i, e);
      } else {
        var c :| 0 <= c < |s.calls| && s.calls[c].owner == Doing(j);
        assert s'.calls[c] == s.calls[c];
      }
    }
  }

  // ------------------------------------------------------------------ Abandon tasks

  // Each task has its own operation, which is marked as abandoning.
  ghost predicate TasksInv(s: State)
  {
    && (forall t :: 0 <= t < |s.abandons| ==> s.abandons[t].target < |s.core.ops| && s.core.ops[s.abandons[t].target].abandoning)
    && (forall t, u :: 0 <= t < u < |s.abandons| ==> s.abandons[t].target != s.abandons[u].target)
  }

  ghost predicate IsAbandonOf(message: bytes, id: int32, maxId: int32)
  {
    exists aid: int32 :: 1 <= aid <= maxId && message == AbandonMessage(aid, id)
  }

  // An Abandon is written only for an operation whose ID was tombstoned.
  ghost predicate AbandonCallsInv(s: State)
  {
    forall c :: 0 <= c < |s.calls| && s.calls[c].owner.Abandoner? && s.calls[c].owner.task < |s.abandons| ==>
      && s.abandons[s.calls[c].owner.task].target < |s.core.ops|
      && var p := s.core.ops[s.abandons[s.calls[c].owner.task].target];
         p.abandoned && IsAbandonOf(s.calls[c].message, p.spec.id, s.core.cfg.maxId)
  }

  ghost predicate IsUnbind(message: bytes, maxId: int32)
  {
    exists uid: int32 :: 1 <= uid <= maxId && message == UnbindMessage(uid)
  }

  ghost predicate UnbindCallsInv(s: State)
  {
    forall c :: 0 <= c < |s.calls| && s.calls[c].owner.Closer? ==> IsUnbind(s.calls[c].message, s.core.cfg.maxId)
  }

  ghost predicate AllEvolve(ops: seq<Op>, ops': seq<Op>)
  {
    |ops| <= |ops'| && forall i :: 0 <= i < |ops| ==> Evolves(ops[i], ops'[i])
  }

  ghost predicate SameTargets(s: State, s': State)
  {
    |s'.abandons| == |s.abandons| && forall t :: 0 <= t < |s.abandons| ==> s'.abandons[t].target == s.abandons[t].target
  }

  lemma TasksKeep(s: State, s': State)
    requires TasksInv(s) && AllEvolve(s.core.ops, s'.core.ops) && SameTargets(s, s')
    ensures TasksInv(s')
  {
  }

  lemma TasksSpawn(s: State, i: nat)
    requires TasksInv(s) && i < |s.core.ops| && s.core.ops[i].abandoning
    requires forall t :: 0 <= t < |s.abandons| ==> s.abandons[t].target != i
    ensures TasksInv(Spawn(s, i, true))
  {
  }

  // Calls may be added by workers other than tasks.
  lemma AbandonCallsKeep(s: State, s': State)
    requires AbandonCallsInv(s) && AllEvolve(s.core.ops, s'.core.ops) && SameTargets(s, s') && s'.core.cfg == s.core.cfg
    requires |s.calls| <= |s'.calls|
    requires forall c :: 0 <= c < |s.calls| ==> s'.calls[c].owner == s.calls[c].owner && s'.calls[c].message == s.calls[c].message
    requires forall c :: |s.calls| <= c < |s'.calls| ==> !s'.calls[c].owner.Abandoner?
    ensures AbandonCallsInv(s')
  {
    hide InboxEvolves, IsAbandonOf;
  }

  // --------------------------------------------------------------------- ready state

  // In the ready state nothing of the initialization is left.
  ghost predicate ReadyInv(k: Core)
  {
    k.phase == Ready ==>
      forall i :: 0 <= i < |k.ops| && k.ops[i].spec.scope == Initialization ==>
        k.ops[i].stage.Finished? && (IsInstalled(k.ops[i]) ==> k.ops[i].lifecycleDone)
  }

  lemma ReadyKeeps(k: Core, k': Core)
    requires ReadyInv(k) && AllEvolve(k.ops, k'.ops) && (k'.phase == Ready ==> k.phase == Ready)
    requires forall i :: |k.ops| <= i < |k'.ops| ==> k'.phase == Ready ==> k'.ops[i].spec.scope == Application
    ensures ReadyInv(k')
  {
    hide InboxEvolves;
  }

  lemma BecomeReadyKeeps(s: State)
    requires CoreInv(s.core) && OwnedInv(s) && ReadyAllowed(s.core)
    ensures ReadyInv(s.core.(phase := Ready))
  {
    hide Encoding;
    forall i | 0 <= i < |s.core.ops|
      ensures s.core.ops[i].stage.Finished? && (IsInstalled(s.core.ops[i]) ==> s.core.ops[i].lifecycleDone)
    {
      assert Claim(Pos(s, Doing(i))).None?;
      assert OpInv(s.core.ops[i], s.core.cfg);
    }
  }
}
