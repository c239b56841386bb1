/** What the steps leave alone: who brings responses, and who marks an operation. */
module ConnFrames {
  import opened Envelope
  import opened ConnMessages
  import opened ConnCore
  import opened ConnMachine

  // Nothing arrives for anybody.
  ghost predicate Undelivered(ops: seq<Op>, ops': seq<Op>)
  {
    && |ops| <= |ops'|
    && (forall i :: 0 <= i < |ops| ==> ops'[i].inbox.routed == ops[i].inbox.routed)
    && (forall i :: |ops| <= i < |ops'| ==> ops'[i].inbox.routed == [])
  }

  // Nor is anybody marked for an Abandon or as abandoned.
  ghost predicate Unmarked(ops: seq<Op>, ops': seq<Op>)
  {
    && |ops| <= |ops'|
    && (forall i :: 0 <= i < |ops| ==> ops'[i].abandoning == ops[i].abandoning && ops'[i].abandoned == ops[i].abandoned)
    && (forall i :: |ops| <= i < |ops'| ==> !ops'[i].abandoning && !ops'[i].abandoned)
  }

  ghost predicate Unmoved(ops: seq<Op>, ops': seq<Op>) { Undelivered(ops, ops') && Unmarked(ops, ops') }

  predicate SameMarks(p: Op, q: Op)
  {
    q.inbox.routed == p.inbox.routed && q.abandoning == p.abandoning && q.abandoned == p.abandoned
  }

  // One operation is rewritten, and not in that.
  lemma OneUnmoved(ops: seq<Op>, q: Op, i: nat)
    requires i < |ops| && SameMarks(ops[i], q)
    ensures Unmoved(ops, ops[i := q])
  {
  }

  lemma SetupUnmoved(s: State, i: nat, e: SetupStep)
    requires SetupEnabled(s, i, e)
    ensures Unmoved(s.core.ops, SetupApply(s, i, e).core.ops)
  {
    hide Encoding, InstallAllowed, Trace.Send, Unmoved;
    var p := s.core.ops[i];
    var q := match e
      case EncodeMessage => EncodedOp(s.core, i)
      case TryInstall => if InstallAllowed(s.core, i) then InstalledOp(p, s.core.phase) else RejectedOp(p)
      case _ => p.(stage := Finished);
    assert SameMarks(p, q);
    hide EncodedOp, InstalledOp, RejectedOp, SameMarks;
    assert SetupApply(s, i, e).core.ops == s.core.ops[i := q];
    OneUnmoved(s.core.ops, q, i);
  }

  lemma WriterUnmoved(s: State, i: nat, e: WriterStep)
    requires WriterEnabled(s, i, e)
    ensures Unmoved(s.core.ops, WriterApply(s, i, e).core.ops)
  {
    hide WriterToken, WriterStage, WriterResult, Unmoved;
    OneUnmoved(s.core.ops, WriterOp(s, i, e), i);
  }

  lemma SettleUnmoved(s: State, i: nat, e: OutcomeStep)
    requires OutcomeEnabled(s, i, e)
    ensures Unmoved(s.core.ops, OutcomeApply(s, i, e).core.ops)
  {
    hide Trace.Send, Unmoved;
    var ops' := OutcomeApply(s, i, e).core.ops;
    assert ops' == s.core.ops[i := ops'[i]];
    OneUnmoved(s.core.ops, ops'[i], i);
  }

  lemma StreamUndelivered(s: State, i: nat, e: StreamStep)
    requires StreamEnabled(s, i, e)
    ensures Undelivered(s.core.ops, StreamApply(s, i, e).core.ops)
  {
    hide CancelAbandons, Trace.Send;
  }

  lemma RetireUnmoved(k: Core, err: Failure)
    ensures Unmoved(k.ops, Retire(k, err).ops)
  {
    hide RetirementError, Trace.Send;
  }

  lemma AbandonUndelivered(s: State, t: nat, e: AbandonStep)
    requires AbandonEnabled(s, t, e)
    ensures Undelivered(s.core.ops, AbandonApply(s, t, e).core.ops)
  {
    hide Retire, TryReserve, AbandonMessage, Trace.Send;
    if e.FailAbandon? { RetireUnmoved(s.core, s.abandons[t].stage.reason); }
  }

  lemma WriteUnmoved(s: State, e: CallStep)
    requires CallEnabled(s, e)
    ensures Unmoved(s.core.ops, CallApply(s, e).core.ops)
  {
    hide Retire, CallAfter, Retires, Reported, CallReady, Unmoved;
    RetireUnmoved(s.core, FailTransport(Reported(CallAfter(s.calls[|s.calls| - 1], e))));
    SameUnmoved(s.core.ops);
  }

  lemma SameUnmoved(ops: seq<Op>)
    ensures Unmoved(ops, ops)
  {
  }

  lemma OtherUnmoved(s: State, e: Event)
    requires Enabled(s, e) && (e.Closing? || e.Advance? || e.BecomeReady?)
    ensures Unmoved(s.core.ops, Apply(s, e).core.ops)
  {
    hide TryReserve, UnbindMessage, Idle, CanAdvance, Unmoved;
    SameUnmoved(s.core.ops);
  }

  lemma BeginUnmoved(s: State, spec: Spec)
    ensures Unmoved(s.core.ops, Begin(s, spec).core.ops)
  {
  }

  /** Only streams and Abandon tasks mark operations. */
  lemma OthersUnmoved(s: State, e: Event)
    requires Enabled(s, e) && !e.Arrival? && !e.Stream? && !e.Abandoning?
    ensures Unmoved(s.core.ops, Apply(s, e).core.ops)
  {
    hide Unmoved, BeginEnabled, SetupEnabled, WriterEnabled, OutcomeEnabled, CloseEnabled, ReadyAllowed, CallEnabled,
         Begin, SetupApply, WriterApply, OutcomeApply, CallApply, CloseApply, Retire;
    match e
    case Setup(i, x) => SetupUnmoved(s, i, x);
    case Writer(i, x) => WriterUnmoved(s, i, x);
    case Settle(i, x) => SettleUnmoved(s, i, x);
    case Write(call) => WriteUnmoved(s, call);
    case RetireWith(err) => RetireUnmoved(s.core, err);
    case Start(spec) => BeginUnmoved(s, spec);
    case _ => OtherUnmoved(s, e);
  }

  /** Only the reader brings responses. */
  lemma ElsewhereUndelivered(s: State, e: Event)
    requires Enabled(s, e) && !e.Arrival?
    ensures Undelivered(s.core.ops, Apply(s, e).core.ops)
  {
    hide Undelivered, Unmarked, Enabled, StreamApply, AbandonApply;
    match e
    case Stream(i, x) => EnabledIs(s, e); StreamUndelivered(s, i, x);
    case Abandoning(t, x) => EnabledIs(s, e); AbandonUndelivered(s, t, x);
    case _ => hide Apply; OthersUnmoved(s, e);
  }

  lemma EnabledIs(s: State, e: Event)
    requires Enabled(s, e)
    ensures e.Stream? ==> StreamEnabled(s, e.i, e.stream)
    ensures e.Abandoning? ==> AbandonEnabled(s, e.t, e.abandon)
    ensures e.Write? ==> CallEnabled(s, e.call)
  {
  }

  lemma ArrivalDelivers(s: State, r: Response)
    requires Enabled(s, Arrival(r))
    ensures var ops, ops', i := s.core.ops, ArrivalApply(s, r).core.ops, s.core.pending[r.messageId];
            && |ops'| == |ops| && ops'[i].inbox.routed == ops[i].inbox.routed + [r]
            && forall j :: 0 <= j < |ops| && j != i ==> ops'[j] == ops[j]
  {
    hide RouteAbandons, Overflows, Trace.Send, Completes;
  }
}
