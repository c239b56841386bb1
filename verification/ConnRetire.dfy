/** What retirement tells every operation that was still pending, in any run. */
module ConnRetire {
  import opened BerTypes
  import opened ConnMessages
  import opened ConnCore
  import opened ConnMachine
  import opened ConnInv
  import opened ConnWorkers
  import opened ConnHistory
  import opened ConnRuns
  import opened ConnClaims

  // ------------------------------------------------------------- the steps that retire

  // The reason with which a step asks for retirement.
  function Reason(s: State, e: Event): Option<Failure>
    requires Enabled(s, e)
  {
    match e
    case RetireWith(err) => Some(err)
    case Write(call) =>
      var c := s.calls[|s.calls| - 1];
      if Retires(c, call) then Some(FailTransport(Reported(CallAfter(c, call)))) else None
    case Abandoning(t, step) => if step.FailAbandon? then Some(s.abandons[t].stage.reason) else None
    case _ => None
  }

  lemma OthersStay(s: State, e: Event)
    requires Enabled(s, e) && (e.Start? || e.Closing? || e.Advance? || e.BecomeReady?)
    ensures Apply(s, e).core.err == s.core.err
  {
    hide TryReserve, UnbindMessage, ScopeAllowed, Idle, NewOp, CanAdvance;
  }

  lemma WriteRetires(s: State, call: CallStep)
    requires CallEnabled(s, call)
    ensures var reason := Reason(s, Write(call));
            CallApply(s, call).core == if reason.Some? then Retire(s.core, reason.value) else s.core
  {
    hide Retire, CallAfter, Retires, Reported, CallReady;
  }

  // A step retires exactly with its reason, and keeps the error otherwise.
  lemma RetiresFor(s: State, e: Event)
    requires Enabled(s, e)
    ensures if Reason(s, e).Some? then Apply(s, e).core == Retire(s.core, Reason(s, e).value) else Apply(s, e).core.err == s.core.err
  {
    hide BeginEnabled, SetupEnabled, WriterEnabled, OutcomeEnabled, StreamEnabled, CloseEnabled, ReadyAllowed, CallEnabled, AbandonEnabled,
         Begin, SetupApply, WriterApply, OutcomeApply, StreamApply, CallApply, AbandonApply, CloseApply, ArrivalApply, Retire, Retires, CallAfter, Reported;
    match e
    case Setup(i, x) => DoingStays(s, i, x, TakeToken, Observe);
    case Writer(i, x) => DoingStays(s, i, GiveUp, x, Observe);
    case Settle(i, x) => DoingStays(s, i, GiveUp, TakeToken, x);
    case Stream(i, x) => StreamStays(s, i, x);
    case Arrival(r) => ArrivalStays(s, r);
    case Abandoning(t, x) => AbandonStays(s, t, x);
    case Write(call) => WriteRetires(s, call);
    case RetireWith(_) =>
    case _ => OthersStay(s, e);
  }

  // A retirement is asked for by any goroutine, by a failed write, or by an Abandon
  // that could not be sent.
  ghost predicate AskedFor(s: State, e: Event, s': State, reason: Failure)
  {
    || e == RetireWith(reason)
    || (e.Write? && LastReturned(s') && LastResult(s').Unsent? && reason == FailTransport(LastResult(s').outcome))
    || (e.Abandoning? && e.t < |s.abandons| && s.abandons[e.t].stage == Failing(reason))
  }

  lemma WriteAsks(s: State, call: CallStep)
    requires CallEnabled(s, call) && Reason(s, Write(call)).Some?
    ensures AskedFor(s, Write(call), CallApply(s, call), Reason(s, Write(call)).value)
  {
    hide Retire;
  }

  lemma Asked(s: State, e: Event)
    requires Enabled(s, e) && Reason(s, e).Some?
    ensures AskedFor(s, e, Apply(s, e), Reason(s, e).value)
  {
    hide CallEnabled, CallApply, AbandonApply, Retire, AskedFor;
    match e
    case Write(call) => WriteAsks(s, call);
    case _ => OthersAsk(s, e);
  }

  lemma OthersAsk(s: State, e: Event)
    requires Enabled(s, e) && !e.Write? && Reason(s, e).Some?
    ensures AskedFor(s, e, Apply(s, e), Reason(s, e).value)
  {
    hide Apply;
  }

  // -------------------------------------------------------------- one pending operation

  // A pending operation has recorded that its write began exactly when it called writeAll.
  lemma StartedIffCalled(s: State, i: nat)
    requires Inv(s) && i < |s.core.ops| && IsPending(s.core, i)
    ensures s.core.ops[i].writeStarted <==> HasCall(s.calls, Doing(i))
  {
    hide CoreInv, WorkersInv, CallsInv, TasksInv, AbandonCallsInv, SpoiledInv, UnbindCallsInv, ReadyInv;
    OpFact(s.core, i);
  }

  // What the operation's consumer is told, in terms of the calls made so far.
  function Told(p: Op, called: bool, closing: bool, reason: Failure): Failure
  {
    if p.inbox.deliveryErr.Some? then p.inbox.deliveryErr.value
    else if closing then FailClosed
    else if reason.FailTransport? then FailTransport(if called then Ambiguous else DefinitelyUnsent)
    else reason
  }

  lemma RetiredErr(p: Op, e: Failure)
    ensures var q := RetireOp(p, e);
            q.terminal && Retired in q.trace.kinds && q.inbox.deliveryErr == Some(Told(p, p.writeStarted, false, e))
  {
  }

  lemma EndsWith(p: Op, q: Op, e: Failure)
    requires p.terminal && Retired in p.trace.kinds && p.inbox.deliveryErr == Some(e) && Evolves(p, q)
    ensures LastNext(q) == Fail(e) && Retired in q.trace.kinds
  {
    YieldIsQueue(q);
  }

  lemma RetiredOp(k: Core, reason: Failure, i: nat)
    requires k.err.None? && i < |k.ops| && IsPending(k, i)
    ensures var q := Retire(k, reason).ops[i];
            q.terminal && Retired in q.trace.kinds && q.inbox.deliveryErr == Some(Told(k.ops[i], k.ops[i].writeStarted, k.closing, reason))
  {
    hide RetireOp;
    RetiredErr(k.ops[i], if k.closing then FailClosed else reason);
  }

  // ------------------------------------------------------------------------ every run

  ghost predicate RetiresAt(states: seq<State>, events: seq<Event>, n: nat)
  {
    IsRun(states, events) && n < |events| && states[n].core.err.None? && states[n + 1].core.err.Some?
  }

  /** When a connection retires, its error is closed if it was closing and the reason
      it was asked for otherwise; and from then on the consumer of every operation
      that was pending ends, once its queue is empty, with the error the operation
      already had, or with closed, or, for a transport failure, with a definite or an
      ambiguous outcome: definitely unsent when the operation had never called
      writeAll, ambiguous when it had. Any other reason reaches it as it is. */
  lemma RetirementTold(states: seq<State>, events: seq<Event>, n: nat, m: nat, i: nat, reason: Failure)
    requires RetiresAt(states, events, n) && n < m < |states|
    requires i < |states[n].core.ops| && IsPending(states[n].core, i)
    requires AskedFor(states[n], events[n], states[n + 1], reason)
    ensures states[n + 1].core.err == Some(if states[n].core.closing then FailClosed else reason)
    ensures i < |states[m].core.ops| && Retired in states[m].core.ops[i].trace.kinds
    ensures LastNext(states[m].core.ops[i])
         == Fail(if states[n].core.ops[i].inbox.deliveryErr.Some? then states[n].core.ops[i].inbox.deliveryErr.value
                 else if states[n].core.closing then FailClosed
                 else if !reason.FailTransport? then reason
                 else if HasCall(states[n].calls, Doing(i)) then FailTransport(Ambiguous)
                 else FailTransport(DefinitelyUnsent))
  {
    hide Inv, Enabled, Apply, IsPending, Retire, Evolves, LastNext, Initial;
    var s := states[n];
    RetiresFor(s, events[n]);
    Asked(s, events[n]);
    hide AskedFor, Reason;
    RunInv(states, events, n);
    StartedIffCalled(s, i);
    RunEvolves(states, events, n + 1, m);
    OneReason(s, events[n], states[n + 1], reason, Reason(s, events[n]).value);
    RetiredOp(s.core, reason, i);
    RetiredErrIs(s.core, reason);
    EndsWith(states[n + 1].core.ops[i], states[m].core.ops[i], Told(s.core.ops[i], s.core.ops[i].writeStarted, s.core.closing, reason));
  }

  lemma OneReason(s: State, e: Event, s': State, a: Failure, b: Failure)
    requires AskedFor(s, e, s', a) && AskedFor(s, e, s', b)
    ensures a == b
  {
  }

  lemma RetiredErrIs(k: Core, reason: Failure)
    requires k.err.None?
    ensures Retire(k, reason).err == Some(if k.closing then FailClosed else reason)
    ensures |Retire(k, reason).ops| == |k.ops|
  {
  }

  /** A connection never retires unasked: the reason is there. */
  lemma RetirementAsked(states: seq<State>, events: seq<Event>, n: nat) returns (reason: Failure)
    requires RetiresAt(states, events, n)
    ensures AskedFor(states[n], events[n], states[n + 1], reason)
    ensures states[n + 1].core.err == Some(if states[n].core.closing then FailClosed else reason)
  {
    hide Inv, Enabled, Apply, Retire, AskedFor, Reason, Initial;
    RetiresFor(states[n], events[n]);
    Asked(states[n], events[n]);
    reason := Reason(states[n], events[n]).value;
    RetiredErrIs(states[n].core, reason);
  }
}
