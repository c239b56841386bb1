/** One connection as a transition system: a step for each critical section and
    each unlocked action of the goroutines of connection.go and bootstrap.go, in
    any interleaving. Contexts, the transport and the peer are the environment:
    their choices are parameters of the steps. */
module ConnMachine {
  import opened BerTypes
  import opened Protocol
  import opened Envelope
  import opened ConnMessages
  import opened ConnCore

  // ------------------------------------------------------------------------ state

  // The goroutines that reserve IDs and write: one per do, one per Abandon, CloseContext.
  datatype Worker = Doing(op: nat) | Abandoner(task: nat) | Closer

  // writeAll between iterations, inside transport.Write, or over. start is the
  // count of accepted bytes when the current Write began.
  datatype CallPhase = AtTop | InWrite(start: nat) | Returned(result: WriteResult)

  // raced says that cancellation won the race for one of the call's Writes.
  datatype Call = Call(owner: Worker, message: bytes, accepted: nat, raced: bool, phase: CallPhase)

  function NewCall(owner: Worker, message: bytes): Call { Call(owner, message, 0, false, AtTop) }

  datatype AbandonStage =
    | Spawned
    | GotId(aid: int32)
    | GotToken(aid: int32)
    | TokenCleared(aid: int32)
    | Tombstoned(aid: int32)     // inside writeAll
    | Leaving(aid: int32, failure: Option<Failure>)   // the abandon ID is still to be released
    | Failing(reason: Failure)   // about to retire the connection
    | Over

  datatype AbandonTask = AbandonTask(target: nat, stage: AbandonStage)

  datatype CloseStage =
    | NotStarted
    | Started
    | GotCloseToken
    | Unbinding(uid: int32)      // inside writeAll
    | WroteUnbind(uid: int32)
    | ReleasedId
    | Ending
    | Over

  datatype State = State(
    core: Core,
    token: Option<Worker>,     // the holder of writeToken
    calls: seq<Call>,          // every writeAll call so far, oldest first
    wire: bytes,               // every byte the transport accepted
    abandons: seq<AbandonTask>,
    closer: CloseStage)

  predicate Initial(s: State)
  {
    && s.core.cfg.Valid()
    && (s.core.phase == TransportSetup || s.core.phase == Ready)
    && s == State(Core(s.core.cfg, s.core.phase, false, None, true, 0, {}, map[], map[], []), None, [], [], [], NotStarted)
  }

  predicate LastReturned(s: State) { s.calls != [] && s.calls[|s.calls| - 1].phase.Returned? }

  function LastResult(s: State): WriteResult
    requires LastReturned(s)
  {
    s.calls[|s.calls| - 1].phase.result
  }

  function Broken(s: State): bool { s.core.err.Some? || s.core.closing }

  function Spawn(s: State, target: nat, wanted: bool): State
  {
    if wanted then s.(abandons := s.abandons + [AbandonTask(target, Spawned)]) else s
  }

  // ---------------------------------------------------------- starting an operation

  predicate BeginEnabled(s: State, spec: Spec)
  {
    && s.core.err == None && !s.core.closing
    && ScopeAllowed(s.core, spec.scope)
    && !(spec.scope == Application && IsAssociationChanging(spec.op.declared))
    && TryReserve(s.core) == Some(spec.id)
  }

  function Begin(s: State, spec: Spec): State
  {
    var k := ReserveId(s.core, spec.id);
    s.(core := k.(ops := k.ops + [NewOp(spec)]))
  }

  // ------------------------------------------------- the goroutine running do

  datatype SetupStep =
    | EncodeMessage             // encodeLDAPRequest, when it accepts the request
    | GiveUp                    // it does not, or the context ended
    | TryInstall
    | ReleaseRejected

  function EncodedOp(k: Core, i: nat): Op
    requires i < |k.ops|
  {
    k.ops[i].(message := Encoding(k.ops[i].spec.id, k.ops[i].spec.op, k.cfg.limits))
  }

  predicate SetupEnabled(s: State, i: nat, e: SetupStep)
  {
    && i < |s.core.ops|
    && match e
       case EncodeMessage => s.core.ops[i].stage.Reserved? && EncodedOp(s.core, i).message.Some?
       case GiveUp => s.core.ops[i].stage.Reserved?
       case TryInstall => s.core.ops[i].stage.Reserved? && s.core.ops[i].message.Some?
       case ReleaseRejected => s.core.ops[i].stage.Rejected?
  }

  function SetupApply(s: State, i: nat, e: SetupStep): State
    requires SetupEnabled(s, i, e)
  {
    match e
    case EncodeMessage => s.(core := SetOp(s.core, i, EncodedOp(s.core, i)))
    case GiveUp => s.(core := Drop(s.core, i))
    case TryInstall => s.(core := Install(s.core, i))
    case ReleaseRejected => s.(core := Drop(s.core, i))
  }

  // releaseReserved of the operation's own ID, which ends do.
  function Drop(k: Core, i: nat): Core
    requires i < |k.ops|
  {
    SetOp(ReleaseReserved(k, k.ops[i].spec.id), i, k.ops[i].(stage := Finished))
  }

  datatype WriterStep =
    | TakeToken
    | AcquireFails              // the context or the connection ended first
    | CheckToken(ctxDone: bool)
    | StartWriting
    | LeaveWrite

  predicate WriterEnabled(s: State, i: nat, e: WriterStep)
  {
    && i < |s.core.ops|
    && var p := s.core.ops[i];
       match e
       case TakeToken => p.stage.Installed? && s.token.None?
       case AcquireFails => p.stage.Installed?
       case CheckToken(_) => p.stage.HasToken?
       case StartWriting => p.stage.Cleared? && p.message.Some?
       case LeaveWrite => p.stage.Writing? && LastReturned(s)
  }

  function WriterStage(s: State, e: WriterStep): Stage
  {
    match e
    case TakeToken => HasToken
    case AcquireFails => Wrote
    case CheckToken(ctxDone) => if ctxDone || Broken(s) then Wrote else Cleared
    case StartWriting => Writing
    case LeaveWrite => Wrote
  }

  function WriterResult(s: State, e: WriterStep): Option<WriteResult>
    requires e.LeaveWrite? ==> LastReturned(s)
  {
    if e.LeaveWrite? then Some(LastResult(s))
    else if WriterStage(s, e).Wrote? then Some(Unsent(DefinitelyUnsent))
    else None
  }

  function WriterOp(s: State, i: nat, e: WriterStep): Op
    requires WriterEnabled(s, i, e)
  {
    s.core.ops[i].(stage := WriterStage(s, e), wrote := WriterResult(s, e),
                   writeStarted := s.core.ops[i].writeStarted || (e.StartWriting? && IsPending(s.core, i)))
  }

  function WriterToken(s: State, i: nat, e: WriterStep): Option<Worker>
  {
    if e.TakeToken? then Some(Doing(i))
    else if WriterStage(s, e).Wrote? && !e.AcquireFails? then None
    else s.token
  }

  function WriterApply(s: State, i: nat, e: WriterStep): State
    requires WriterEnabled(s, i, e)
  {
    State(
      SetOp(s.core, i, WriterOp(s, i, e)),
      WriterToken(s, i, e),
      if e.StartWriting? then s.calls + [NewCall(Doing(i), s.core.ops[i].message.value)] else s.calls,
      s.wire, s.abandons, s.closer)
  }

  datatype OutcomeStep =
    | Observe
    | CompleteSilent            // completeNoResponse
    | WriteFailed

  predicate OutcomeEnabled(s: State, i: nat, e: OutcomeStep)
  {
    && i < |s.core.ops|
    && var p := s.core.ops[i];
       match e
       case Observe => p.stage.Wrote? && p.wrote == Some(Sent)
       case CompleteSilent => p.stage.Observed?
       case WriteFailed => p.stage.Wrote? && p.wrote.Some? && p.wrote.value.Unsent?
  }

  function OutcomeApply(s: State, i: nat, e: OutcomeStep): State
    requires OutcomeEnabled(s, i, e)
  {
    var k := s.core;
    match e
    case Observe => s.(core := SetOp(k, i, ObserveOp(k.ops[i])))
    case CompleteSilent => s.(core := EndOp(Remove(k, i), i))
    case WriteFailed => s.(core := EndOp(if k.ops[i].wrote.value.outcome == DefinitelyUnsent then Remove(k, i) else k, i))
  }

  function EndOp(k: Core, i: nat): Core
    requires i < |k.ops|
  {
    SetOp(k, i, k.ops[i].(stage := Finished))
  }

  // --------------------------------------------------------- the holder of a stream

  datatype StreamStep = CancelStream(reason: Failure) | Consume

  // A stream is canceled when its context ends or it is closed.
  predicate StreamEnabled(s: State, i: nat, e: StreamStep)
  {
    && i < |s.core.ops| && s.core.ops[i].writeObserved && s.core.ops[i].stage.Finished?
    && (e.CancelStream? ==> e.reason == FailContext || e.reason == FailClosed)
  }

  function StreamApply(s: State, i: nat, e: StreamStep): State
    requires StreamEnabled(s, i, e)
  {
    var k := s.core;
    match e
    case CancelStream(reason) => Spawn(s.(core := Cancel(k, i, reason)), i, CancelAbandons(k.ops[i], IsPending(k, i)))
    case Consume => s.(core := SetOp(k, i, ConsumeOp(k.ops[i])))
  }

  // -------------------------------------------------------------- inside writeAll

  datatype CallStep =
    | ContextEnded
    | BeginWrite
    | Accept(n: nat)            // the transport takes the next n bytes
    | CancelRace                // cancellation wins writeState
    | WriteReturns(failed: bool, ctxDone: bool)
    | AllWritten

  // What the call itself allows; Accept needs an open transport besides.
  predicate CallReady(c: Call, e: CallStep)
  {
    match e
    case ContextEnded => c.phase.AtTop? && c.accepted < |c.message|
    case BeginWrite => c.phase.AtTop? && c.accepted < |c.message|
    case Accept(n) => c.phase.InWrite? && n >= 1 && c.accepted + n <= |c.message|
    case CancelRace => c.phase.InWrite? && !c.raced
    case WriteReturns(_, _) => c.phase.InWrite?
    case AllWritten => c.phase.AtTop? && c.accepted >= |c.message|
  }

  predicate CallEnabled(s: State, e: CallStep)
  {
    s.calls != [] && CallReady(s.calls[|s.calls| - 1], e) && (e.Accept? ==> s.core.open)
  }

  // How writeAll classifies the end of one transport.Write.
  function AfterWrite(c: Call, failed: bool, ctxDone: bool): CallPhase
    requires c.phase.InWrite?
  {
    if c.raced then Returned(Unsent(Ambiguous))
    else if failed || c.accepted == c.phase.start
    then Returned(Unsent(if c.accepted != 0 || ctxDone then Ambiguous else DefinitelyUnsent))
    else AtTop
  }

  function CallAfter(c: Call, e: CallStep): Call
  {
    match e
    case ContextEnded => c.(phase := Returned(Unsent(if c.accepted == 0 then DefinitelyUnsent else Ambiguous)))
    case BeginWrite => c.(phase := InWrite(c.accepted))
    case Accept(n) => c.(accepted := c.accepted + n)
    case CancelRace => c.(raced := true)
    case WriteReturns(failed, ctxDone) => if c.phase.InWrite? then c.(phase := AfterWrite(c, failed, ctxDone)) else c
    case AllWritten => c.(phase := Returned(Sent))
  }

  // The outcome in the error of a call that failed.
  function Reported(c: Call): Outcome
  {
    if c.phase.Returned? && c.phase.result.Unsent? then c.phase.result.outcome else NotApplicable
  }

  // writeAll retires the connection before it returns a failed or an ambiguous
  // write, unless cancellation won the race: then the canceling goroutine retires
  // it, in a step of its own.
  predicate Retires(c: Call, e: CallStep)
  {
    match e
    case ContextEnded => c.accepted != 0
    case WriteReturns(failed, _) => c.phase.InWrite? && !c.raced && (failed || c.accepted == c.phase.start)
    case _ => false
  }

  // The call and the wire alone.
  function Progress(s: State, e: CallStep): State
    requires CallEnabled(s, e)
  {
    var c := s.calls[|s.calls| - 1];
    s.(calls := s.calls[|s.calls| - 1 := CallAfter(c, e)],
       wire := if e.Accept? then s.wire + c.message[c.accepted..c.accepted + e.n] else s.wire)
  }

  function CallApply(s: State, e: CallStep): State
    requires CallEnabled(s, e)
  {
    var c := s.calls[|s.calls| - 1];
    var s1 := Progress(s, e);
    if Retires(c, e) then s1.(core := Retire(s1.core, FailTransport(Reported(CallAfter(c, e))))) else s1
  }

  // -------------------------------------------------------------------- sendAbandon

  datatype AbandonStep =
    | ReserveAid
    | TakeAbandonToken
    | AbandonAcquireFails
    | CheckAbandonToken(ctxDone: bool)
    | BuryTarget
    | LeaveAbandon
    | ReleaseAid
    | FailAbandon               // an Abandon that could not be sent retires the connection

  predicate AbandonEnabled(s: State, t: nat, e: AbandonStep)
  {
    && t < |s.abandons| && s.abandons[t].target < |s.core.ops|
    && var stage := s.abandons[t].stage;
       match e
       case ReserveAid => stage.Spawned?
       case TakeAbandonToken => stage.GotId? && s.token.None?
       case AbandonAcquireFails => stage.GotId?
       case CheckAbandonToken(_) => stage.GotToken?
       case BuryTarget => stage.TokenCleared?
       case LeaveAbandon => stage.Tombstoned? && LastReturned(s)
       case ReleaseAid => stage.Leaving?
       case FailAbandon => stage.Failing?
  }

  function SetTask(s: State, t: nat, stage: AbandonStage): State
    requires t < |s.abandons|
  {
    s.(abandons := s.abandons[t := s.abandons[t].(stage := stage)])
  }

  const UNSENT := FailTransport(DefinitelyUnsent)

  // The error of the write that has just returned, if any.
  function WriteFailure(s: State): Option<Failure>
    requires LastReturned(s)
  {
    if LastResult(s).Unsent? then Some(FailTransport(LastResult(s).outcome)) else None
  }

  function AbandonApply(s: State, t: nat, e: AbandonStep): State
    requires AbandonEnabled(s, t, e)
  {
    var k := s.core;
    var task := s.abandons[t];
    match e
    case ReserveAid =>
      if !IsPending(k, task.target) || Broken(s) then SetTask(s, t, AbandonStage.Over)
      else if TryReserve(k).None? then SetTask(s, t, Failing(FailLimit))
      else SetTask(s.(core := ReserveId(k, TryReserve(k).value)), t, GotId(TryReserve(k).value))
    case TakeAbandonToken => SetTask(s.(token := Some(Abandoner(t))), t, GotToken(task.stage.aid))
    case AbandonAcquireFails => SetTask(s, t, Leaving(task.stage.aid, Some(UNSENT)))
    case CheckAbandonToken(ctxDone) =>
      if ctxDone || Broken(s) then SetTask(s.(token := None), t, Leaving(task.stage.aid, if ctxDone then Some(UNSENT) else None))
      else SetTask(s, t, TokenCleared(task.stage.aid))
    case BuryTarget =>
      if !IsPending(k, task.target) || Broken(s) then SetTask(s.(token := None), t, Leaving(task.stage.aid, None))
      else SetTask(s.(core := Tombstone(k, task.target),
                      calls := s.calls + [NewCall(Abandoner(t), AbandonMessage(task.stage.aid, k.ops[task.target].spec.id))]),
                   t, Tombstoned(task.stage.aid))
    case LeaveAbandon => SetTask(s.(token := None), t, Leaving(task.stage.aid, WriteFailure(s)))
    case ReleaseAid =>
      SetTask(s.(core := ReleaseReserved(k, task.stage.aid)), t,
              if task.stage.failure.Some? then Failing(task.stage.failure.value) else AbandonStage.Over)
    case FailAbandon => SetTask(s.(core := Retire(k, task.stage.reason)), t, AbandonStage.Over)
  }

  // ------------------------------------------------------------------- CloseContext

  datatype CloseStep = BeginClose | TakeCloseToken | SkipUnbind | StartUnbind | LeaveUnbind | ReleaseUid | ReleaseCloseToken | CloseTransport

  predicate CloseEnabled(s: State, e: CloseStep)
  {
    match e
    case BeginClose => s.core.err == None && !s.core.closing
    case TakeCloseToken => s.closer.Started? && s.token.None?
    case SkipUnbind => s.closer.Started?
    case StartUnbind => s.closer.GotCloseToken?
    case LeaveUnbind => s.closer.Unbinding? && LastReturned(s)
    case ReleaseUid => s.closer.WroteUnbind?
    case ReleaseCloseToken => s.closer.ReleasedId?
    case CloseTransport => s.closer.Ending?
  }

  function CloseApply(s: State, e: CloseStep): State
    requires CloseEnabled(s, e)
  {
    var k := s.core;
    match e
    case BeginClose => s.(core := k.(closing := true, phase := if k.phase == Closed then Closed else Draining), closer := Started)
    case TakeCloseToken => s.(token := Some(Closer), closer := GotCloseToken)
    case SkipUnbind => s.(closer := Ending)
    case StartUnbind =>
      if TryReserve(k).None? then s.(closer := ReleasedId)
      else s.(core := ReserveId(k, TryReserve(k).value), closer := Unbinding(TryReserve(k).value),
              calls := s.calls + [NewCall(Closer, UnbindMessage(TryReserve(k).value))])
    case LeaveUnbind => s.(closer := WroteUnbind(s.closer.uid))
    case ReleaseUid => s.(core := ReleaseReserved(k, s.closer.uid), closer := ReleasedId)
    case ReleaseCloseToken => s.(token := None, closer := Ending)
    case CloseTransport => s.(core := k.(open := false), closer := CloseStage.Over)
  }

  // ------------------------------------------------------------------------- events

  datatype Event =
    | Start(spec: Spec)
    | Setup(i: nat, setup: SetupStep)
    | Writer(i: nat, writer: WriterStep)
    | Settle(i: nat, outcome: OutcomeStep)
    | Stream(i: nat, stream: StreamStep)
    | Write(call: CallStep)
    | Arrival(r: Response)             // route, for an operation whose write was observed
    | Abandoning(t: nat, abandon: AbandonStep)
    | Closing(close: CloseStep)
    | RetireWith(err: Failure)         // any goroutine, any reason
    | Advance(to: Phase)               // transition to authenticating or initializing
    | BecomeReady                      // markReady

  predicate Enabled(s: State, e: Event)
  {
    match e
    case Start(spec) => BeginEnabled(s, spec)
    case Setup(i, x) => SetupEnabled(s, i, x)
    case Writer(i, x) => WriterEnabled(s, i, x)
    case Settle(i, x) => OutcomeEnabled(s, i, x)
    case Stream(i, x) => StreamEnabled(s, i, x)
    case Write(call) => CallEnabled(s, call)
    case Arrival(r) =>
      && r.messageId in s.core.pending && s.core.pending[r.messageId] < |s.core.ops|
      && var p := s.core.ops[s.core.pending[r.messageId]];
         p.writeObserved && p.spec.pattern.Classify(r.protocolId) != Invalid
    case Abandoning(t, a) => AbandonEnabled(s, t, a)
    case Closing(c) => CloseEnabled(s, c)
    case RetireWith(_) => true
    case Advance(to) => s.core.err == None && (to == Authenticating || to == Initializing) && CanAdvance(s.core.phase, to)
    case BecomeReady => ReadyAllowed(s.core)
  }

  function Apply(s: State, e: Event): State
    requires Enabled(s, e)
  {
    match e
    case Start(spec) => Begin(s, spec)
    case Setup(i, x) => SetupApply(s, i, x)
    case Writer(i, x) => WriterApply(s, i, x)
    case Settle(i, x) => OutcomeApply(s, i, x)
    case Stream(i, x) => StreamApply(s, i, x)
    case Write(call) => CallApply(s, call)
    case Arrival(r) => ArrivalApply(s, r)
    case Abandoning(t, a) => AbandonApply(s, t, a)
    case Closing(c) => CloseApply(s, c)
    case RetireWith(err) => s.(core := Retire(s.core, err))
    case Advance(to) => s.(core := s.core.(phase := to))
    case BecomeReady => s.(core := s.core.(phase := Ready))
  }

  function ArrivalApply(s: State, r: Response): State
    requires Enabled(s, Arrival(r))
  {
    var i := s.core.pending[r.messageId];
    Spawn(s.(core := Route(s.core, i, r)), i, RouteAbandons(s.core.ops[i], r, s.core.cfg))
  }

  // ------------------------------------------------------------------- runs

  // A run: the states it passes through, one event between neighbours.
  ghost predicate IsRun(states: seq<State>, events: seq<Event>)
  {
    && |states| == |events| + 1
    && Initial(states[0])
    && forall k :: 0 <= k < |events| ==> Enabled(states[k], events[k]) && states[k + 1] == Apply(states[k], events[k])
  }
}
