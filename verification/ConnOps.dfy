/** What always holds of a single operation, and that every update of it under
    the connection lock keeps it. */
module ConnOps {
  import opened BerTypes
  import opened Protocol
  import opened Envelope
  import opened ConnMessages
  import opened ConnCore

  function Total(rs: seq<Response>): nat
  {
    if rs == [] then 0 else |rs[0].message| + Total(rs[1..])
  }

  lemma {:induction false} TotalAppend(rs: seq<Response>, r: Response)
    ensures Total(rs + [r]) == Total(rs) + |r.message|
  {
    if rs == [] {
      assert [] + [r] == [r];
    } else {
      TotalAppend(rs[1..], r);
      assert (rs + [r])[1..] == rs[1..] + [r];
    }
  }

  // ------------------------------------------------------------------ the inbox

  // Every arrival carries the operation's ID and, but for the last of a completed
  // operation, continues it.
  ghost predicate Arrivals(b: Inbox, spec: Spec)
  {
    forall k :: 0 <= k < |b.routed| ==>
      && b.routed[k].messageId == spec.id
      && spec.pattern.Classify(b.routed[k].protocolId) == if b.completed && k == |b.routed| - 1 then Complete else Continue
  }

  // The queue is within its limits and its byte total exact. Nothing is lost,
  // repeated or reordered: until delivery stops, handed out plus queued is what
  // arrived; afterwards what was handed out is a prefix of it.
  ghost predicate InboxInv(b: Inbox, spec: Spec, cfg: Config)
  {
    && b.queuedBytes == Total(b.queue) && |b.queue| <= cfg.maxQueued && b.queuedBytes <= cfg.maxQueuedBytes
    && (if b.canceled then b.queue == [] && b.deliveryErr.Some? && b.delivered <= b.routed
        else b.delivered + b.queue == b.routed)
    && (b.completed ==> b.routed != [])
    && Arrivals(b, spec)
  }

  lemma ArriveKeeps(b: Inbox, r: Response, complete: bool, spec: Spec, cfg: Config)
    requires InboxInv(b, spec, cfg) && !b.completed && r.messageId == spec.id
    requires spec.pattern.Classify(r.protocolId) == if complete then Complete else Continue
    ensures InboxInv(Arrive(b, r, complete, cfg), spec, cfg)
  {
    var c := Arrive(b, r, complete, cfg);
    assert c.routed == b.routed + [r];
    assert Arrivals(c, spec);
    if !b.canceled && Overflows(b, r, cfg) {
      assert b.delivered <= b.delivered + b.queue;
    } else if !b.canceled {
      TotalAppend(b.queue, r);
      assert b.delivered + (b.queue + [r]) == (b.delivered + b.queue) + [r];
    }
  }

  /** A response is refused exactly when queueing it would break one of the limits. */
  lemma RefusedIffTooMuch(b: Inbox, r: Response, complete: bool, spec: Spec, cfg: Config)
    requires InboxInv(b, spec, cfg) && !b.canceled
    ensures Arrive(b, r, complete, cfg).canceled <==>
              |b.queue + [r]| > cfg.maxQueued || Total(b.queue + [r]) > cfg.maxQueuedBytes
    ensures !Arrive(b, r, complete, cfg).canceled ==> Arrive(b, r, complete, cfg).queue == b.queue + [r]
  {
    TotalAppend(b.queue, r);
  }

  lemma StopKeeps(b: Inbox, reason: Failure, spec: Spec, cfg: Config)
    requires InboxInv(b, spec, cfg)
    ensures InboxInv(StopDelivery(b, reason), spec, cfg)
  {
    if !b.canceled { assert b.delivered <= b.delivered + b.queue; }
  }

  lemma PopKeeps(b: Inbox, spec: Spec, cfg: Config)
    requires InboxInv(b, spec, cfg)
    ensures InboxInv(Pop(b), spec, cfg)
  {
    if b.queue != [] {
      assert b.delivered + b.queue == (b.delivered + [b.queue[0]]) + b.queue[1..];
    }
  }

  // ------------------------------------------------------------------- the flags

  predicate IsInstalled(p: Op) { p.installedIn.Some? }

  // Next reports that the request was definitely not sent.
  predicate ReportedUnsent(p: Op) { p.inbox.deliveryErr == Some(FailTransport(DefinitelyUnsent)) }

  ghost predicate FlagsOk(p: Op)
  {
    && (p.inbox.deliveryErr.Some? ==> p.inbox.canceled || p.terminal)
    && (p.abandoning ==> p.inbox.canceled && p.spec.mode == CancelAbandon)
    && (p.inbox.canceled && p.spec.mode == CancelAbandon && !p.lifecycleDone ==> p.abandoning)
    && (p.terminal ==> p.lifecycleDone)
    && (p.lifecycleDone ==> IsInstalled(p) && (p.terminal || p.inbox.deliveryErr.Some?))
    && (p.inbox.completed ==> p.terminal)
    && (p.abandoned ==> p.lifecycleDone && p.abandoning && !p.terminal)
    && (p.retiredUnsent ==> p.lifecycleDone)
    && (ReportedUnsent(p) ==> p.retiredUnsent)
  }

  predicate InFlight(stage: Stage)
  {
    stage.Installed? || stage.HasToken? || stage.Cleared? || stage.Writing? || stage.Wrote? || stage.Observed?
  }

  ghost predicate StageOk(p: Op)
  {
    && (p.stage.Reserved? || p.stage.Rejected? ==> !IsInstalled(p))
    && (InFlight(p.stage) ==> IsInstalled(p))
    && (p.writeObserved ==> IsInstalled(p) && (p.stage.Observed? || p.stage.Finished?))
    && (p.stage.Wrote? ==> p.wrote.Some?)
    && (p.wrote.Some? ==> p.stage.Wrote? || p.stage.Observed? || p.stage.Finished?)
    && (p.writeObserved ==> p.wrote == Some(Sent))
    && (p.stage.Observed? ==> p.writeObserved && p.spec.pattern.noResponse && p.spec.pattern.valid)
    && (!p.writeObserved || p.stage.Observed? ==> !p.inbox.canceled && !p.firstResponse && p.inbox.routed == [])
  }

  // An operation that has nothing more to wait for is over once do has returned: one
  // that was not sent, and one that expects no response.
  ghost predicate EndedOk(p: Op)
  {
    p.stage.Finished? && IsInstalled(p) ==>
      && (p.wrote == Some(Unsent(DefinitelyUnsent)) ==> p.lifecycleDone)
      && (p.writeObserved && p.spec.pattern.valid && p.spec.pattern.noResponse ==> p.lifecycleDone)
  }

  ghost predicate ScopeOk(p: Op)
  {
    && (p.spec.scope == Application ==>
          !IsAssociationChanging(p.spec.op.declared) && (IsInstalled(p) ==> p.installedIn.value == Ready))
    && (p.spec.scope == Initialization && IsInstalled(p) ==>
          p.installedIn.value == Authenticating || p.installedIn.value == Initializing)
  }

  // What was encoded is what encodeLDAPRequest accepted, and nothing is installed
  // without it.
  ghost predicate MessageOk(p: Op, cfg: Config)
  {
    && (p.message.Some? ==> p.message == Encoding(p.spec.id, p.spec.op, cfg.limits))
    && (IsInstalled(p) ==> p.message.Some?)
  }

  // The reasons with which a stream is canceled: its context ended, or it was closed.
  predicate StoppedByConsumer(e: Option<Failure>) { e == Some(FailContext) || e == Some(FailClosed) }

  // Each kind of dispatch is sent at most once, and exactly when there is cause.
  ghost predicate TraceOk(p: Op)
  {
    && p.trace.count == |p.trace.kinds|
    && (p.stage.Reserved? ==> p.trace.kinds == {})
    && (IsInstalled(p) ==> Queued in p.trace.kinds)
    && (Written in p.trace.kinds <==> p.writeObserved)
    && (FirstResponse in p.trace.kinds <==> p.firstResponse)
    && (p.firstResponse <==> p.inbox.routed != [])
    && (Canceled in p.trace.kinds <==> p.inbox.canceled && StoppedByConsumer(p.inbox.deliveryErr))
    && (p.stage.Rejected? ==> p.trace.kinds == {Queued, End})
    && (Retired in p.trace.kinds ==> p.lifecycleDone)
    && (End in p.trace.kinds ==> p.lifecycleDone || !IsInstalled(p))
    && (p.lifecycleDone ==> End in p.trace.kinds)
  }

  ghost predicate OpInv(p: Op, cfg: Config)
  {
    InboxInv(p.inbox, p.spec, cfg) && FlagsOk(p) && StageOk(p) && EndedOk(p) && ScopeOk(p) && MessageOk(p, cfg) && TraceOk(p)
  }

  /** Six kinds sent at most once each: the observer's eight-slot queue has room
      for everything an operation ever sends, even if nothing is ever received. */
  lemma DispatchesFit(p: Op)
    requires TraceOk(p)
    ensures p.trace.count <= 6
  {
    assert p.trace.count == |p.trace.kinds|;
    var all := {Queued, Written, FirstResponse, Canceled, Retired, End};
    forall d | d in p.trace.kinds ensures d in all {
      match d
      case Queued => case Written => case FirstResponse => case Canceled => case Retired => case End =>
    }
    hide TraceOk;
    assert |all| == 6;
    assert all == p.trace.kinds + (all - p.trace.kinds);
  }

  // ------------------------------------------------------------- each lock section

  // A response reaches an unfinished operation whose write was observed.
  ghost predicate CanRoute(p: Op, r: Response)
  {
    && IsInstalled(p) && p.writeObserved && !p.lifecycleDone
    && r.messageId == p.spec.id
    && p.spec.pattern.Classify(r.protocolId) != Invalid
  }

  lemma FinishTrace(p: Op)
    requires TraceOk(p) && IsInstalled(p) && !p.stage.Reserved? && !p.stage.Rejected?
    ensures TraceOk(FinishOp(p))
  {
  }

  lemma MarkTrace(p: Op, r: Response, cfg: Config)
    requires TraceOk(p) && !p.stage.Reserved? && !p.stage.Rejected?
    ensures TraceOk(MarkRouted(p, r, cfg))
  {
    var b := Arrive(p.inbox, r, Completes(p, r), cfg);
    assert b.canceled && StoppedByConsumer(b.deliveryErr) <==> p.inbox.canceled && StoppedByConsumer(p.inbox.deliveryErr);
    hide Arrive, Completes, RouteAbandons, Overflows;
    var d := {FirstResponse};
    assert !p.firstResponse ==> FirstResponse !in p.trace.kinds && |p.trace.kinds + d| == |p.trace.kinds| + 1;
  }

  // Nothing but retirement sends that dispatch.
  lemma RouteKinds(p: Op, r: Response, cfg: Config)
    ensures p.trace.kinds <= RouteOp(p, r, cfg).trace.kinds
    ensures Retired in RouteOp(p, r, cfg).trace.kinds ==> Retired in p.trace.kinds
  {
    hide Arrive, Completes, RouteAbandons;
  }

  lemma CancelKinds(p: Op, reason: Failure, isPending: bool)
    ensures p.trace.kinds <= CancelOp(p, reason, isPending).trace.kinds
    ensures Retired in CancelOp(p, reason, isPending).trace.kinds ==> Retired in p.trace.kinds
  {
    hide StopDelivery, CancelAbandons;
  }

  lemma RemoveKinds(p: Op)
    ensures p.trace.kinds <= RemoveOp(p).trace.kinds
    ensures Retired in RemoveOp(p).trace.kinds ==> Retired in p.trace.kinds
  {
  }

  lemma RouteTrace(p: Op, r: Response, cfg: Config)
    requires StageOk(p) && TraceOk(p) && CanRoute(p, r)
    ensures TraceOk(RouteOp(p, r, cfg))
  {
    hide TraceOk, FinishOp, Arrive, Completes, RouteAbandons, Trace.Send;
    MarkTrace(p, r, cfg);
    FinishTrace(MarkRouted(p, r, cfg));
  }

  lemma RouteKeeps(p: Op, r: Response, cfg: Config)
    requires OpInv(p, cfg) && CanRoute(p, r)
    ensures OpInv(RouteOp(p, r, cfg), cfg)
    ensures p.stage == Finished
  {
    hide Encoding, Arrivals, Total, TraceOk, Trace.Send;
    ArriveKeeps(p.inbox, r, Completes(p, r), p.spec, cfg);
    RouteTrace(p, r, cfg);
  }

  // Streams are handed to callers only after the write was observed.
  ghost predicate HasStream(p: Op) { p.writeObserved && p.stage == Finished }

  lemma CancelKeeps(p: Op, reason: Failure, isPending: bool, cfg: Config)
    requires OpInv(p, cfg) && HasStream(p) && (reason == FailContext || reason == FailClosed) && (!p.lifecycleDone ==> isPending)
    ensures OpInv(CancelOp(p, reason, isPending), cfg)
  {
    hide Encoding;
    StopKeeps(p.inbox, reason, p.spec, cfg);
  }

  lemma TombstoneKeeps(p: Op, cfg: Config)
    requires OpInv(p, cfg) && p.abandoning && !p.lifecycleDone
    ensures OpInv(TombstoneOp(p), cfg)
  {
    hide Encoding;
  }

  // Only unsent and no-response operations are removed: nothing was routed to them.
  lemma RemoveKeeps(p: Op, cfg: Config)
    requires OpInv(p, cfg) && IsInstalled(p) && !p.lifecycleDone && p.inbox.routed == []
    ensures OpInv(RemoveOp(p), cfg)
  {
    hide Encoding;
  }

  lemma RetireKeeps(p: Op, err: Failure, cfg: Config)
    requires OpInv(p, cfg) && IsInstalled(p) && !p.lifecycleDone
    ensures OpInv(RetireOp(p, err), cfg)
  {
    hide Encoding;
  }

  lemma ConsumeKeeps(p: Op, cfg: Config)
    requires OpInv(p, cfg)
    ensures OpInv(ConsumeOp(p), cfg)
  {
    hide Encoding;
    PopKeeps(p.inbox, p.spec, cfg);
  }

  lemma InstallKeeps(p: Op, phase: Phase, cfg: Config)
    requires OpInv(p, cfg) && p.stage == Reserved && p.message.Some?
    requires if p.spec.scope == Application then phase == Ready else phase == Authenticating || phase == Initializing
    ensures OpInv(InstalledOp(p, phase), cfg)
  {
    hide Encoding;
  }

  lemma RejectKeeps(p: Op, cfg: Config)
    requires OpInv(p, cfg) && p.stage == Reserved
    ensures OpInv(RejectedOp(p), cfg)
  {
    hide Encoding;
  }

  lemma ObserveKeeps(p: Op, cfg: Config)
    requires OpInv(p, cfg) && p.stage == Wrote && p.wrote == Some(Sent)
    ensures OpInv(ObserveOp(p), cfg)
  {
    hide Encoding;
  }

  // The completing response was routed before delivery stopped.
  ghost predicate Safe(p: Op) { p.inbox.completed && p.inbox.deliveryErr == None }
}
