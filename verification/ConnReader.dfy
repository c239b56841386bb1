/** The read loop over the connection's transition system: one goroutine takes
    responses off the transport and routes each before the next, and a response that
    comes before its request's write was observed waits. */
module ConnReader {
  import opened BerTypes
  import opened Protocol
  import opened Envelope
  import opened ConnMessages
  import opened ConnCore
  import opened ConnOps
  import opened ConnMachine
  import opened ConnInv
  import opened ConnWorkers
  import opened ConnHistory
  import opened ConnRuns
  import opened ConnFrames

  // ------------------------------------------------------------- one locked look of route

  datatype Action = NoAction | SendAbandon | RetireConnection

  datatype Routed =
    | Unexpected               // no such operation, or an identifier it does not expect
    | Discarded                // a late response to an abandoned operation
    | Waiting                  // the write of the request was not observed yet
    | Accepted(action: Action)

  function RouteAction(p: Op, r: Response, cfg: Config): Action
  {
    if Completes(p, r) || p.inbox.canceled || !Overflows(p.inbox, r, cfg) then NoAction
    else match p.spec.mode
      case CancelAbandon => SendAbandon
      case CancelClose => RetireConnection
      case _ => NoAction
  }

  function Verdict(k: Core, r: Response): Routed
  {
    if r.messageId in k.pending && k.pending[r.messageId] < |k.ops| then
      var p := k.ops[k.pending[r.messageId]];
      if !p.writeObserved then Waiting
      else if p.spec.pattern.Classify(r.protocolId) == Invalid then Unexpected
      else Accepted(RouteAction(p, r, k.cfg))
    else if r.messageId in k.tombstones && k.tombstones[r.messageId].Classify(r.protocolId) != Invalid then Discarded
    else Unexpected
  }

  // The pattern has the identifier in one of its two lists, and means it.
  predicate Listed(pattern: FramingPattern, id: Identifier)
  {
    pattern.valid && !pattern.noResponse && (id in pattern.continueIds || id in pattern.completeIds)
  }

  // ------------------------------------------------------------------------- the loop

  datatype Reader =
    | Reading                                      // in framer.Next
    | Holding(r: Response, waited: Option<nat>)    // about to look, perhaps after having waited for an operation
    | Parked(r: Response, op: nat)                 // waits for the operation's write, or for the end
    | Erring(reason: Failure)                      // about to retire the connection
    | Stopped

  // What became of a response: an operation has it, it was late, it was refused, or
  // the connection ended while it waited.
  datatype Fate = To(op: nat) | Late | Refused | Cut

  // A connection with its reader, every response taken so far, and the fates of all
  // but the one in hand.
  datatype Session = Session(conn: State, reader: Reader, received: seq<Response>, fates: seq<Fate>)

  datatype Act =
    | Elsewhere(e: Event)          // any other goroutine
    | Receive(r: Response)
    | ReadFails(reason: Failure)
    | Look
    | Wake                         // the write was observed
    | EndWait                      // the connection ended
    | StopReading

  predicate Opening(x: Session)
  {
    Initial(x.conn) && x.reader == Reading && x.received == [] && x.fates == []
  }

  predicate InHand(reader: Reader) { reader.Holding? || reader.Parked? }

  predicate ActEnabled(x: Session, t: Act)
  {
    match t
    case Elsewhere(e) => !e.Arrival? && Enabled(x.conn, e)
    case Receive(r) => x.reader.Reading? && r.messageId != 0
    case ReadFails(_) => x.reader.Reading?
    case Look => x.reader.Holding?
    case Wake => x.reader.Parked? && x.reader.op < |x.conn.core.ops| && x.conn.core.ops[x.reader.op].writeObserved
    case EndWait => x.reader.Parked? && x.conn.core.err.Some?
    case StopReading => x.reader.Erring?
  }

  function LookApply(x: Session): Session
    requires ActEnabled(x, Look)
  {
    var k, r := x.conn.core, x.reader.r;
    match Verdict(k, r)
    case Unexpected => x.(reader := Erring(FailOther), fates := x.fates + [Refused])
    case Discarded => x.(reader := Reading, fates := x.fates + [Late])
    case Waiting => x.(reader := Parked(r, k.pending[r.messageId]))
    case Accepted(action) =>
      x.(conn := ArrivalApply(x.conn, r), fates := x.fates + [To(k.pending[r.messageId])],
         reader := if action.RetireConnection? then Erring(FailLimit) else Reading)
  }

  function ActApply(x: Session, t: Act): Session
    requires ActEnabled(x, t)
  {
    match t
    case Elsewhere(e) => x.(conn := Apply(x.conn, e))
    case Receive(r) => x.(reader := Holding(r, None), received := x.received + [r])
    case ReadFails(reason) => x.(reader := Erring(reason))
    case Look => LookApply(x)
    case Wake => x.(reader := Holding(x.reader.r, Some(x.reader.op)))
    case EndWait => x.(reader := Reading, fates := x.fates + [Cut])
    case StopReading => x.(conn := x.conn.(core := Retire(x.conn.core, x.reader.reason)), reader := Stopped)
  }

  ghost predicate IsSession(xs: seq<Session>, ts: seq<Act>)
  {
    && |xs| == |ts| + 1
    && Opening(xs[0])
    && forall n :: 0 <= n < |ts| ==> ActEnabled(xs[n], ts[n]) && xs[n + 1] == ActApply(xs[n], ts[n])
  }

  // ------------------------------------------------------- what a look decides

  lemma ListedIffValid(pattern: FramingPattern, id: Identifier)
    ensures Listed(pattern, id) <==> pattern.Classify(id) != Invalid
  {
  }

  // What one look decides, in terms of the two ID maps and of the patterns' lists. A
  // response waits exactly when the operation with its ID is pending and its write was
  // not observed. It is refused exactly when nobody has its ID, or when the pending
  // operation or the tombstone that has it lists its identifier nowhere.
  ghost predicate Sorted(k: Core, r: Response, v: Routed)
  {
    && (r.messageId in k.pending ==> k.pending[r.messageId] < |k.ops|)
    && (v.Waiting? <==> r.messageId in k.pending && !k.ops[k.pending[r.messageId]].writeObserved)
    && (v.Accepted? <==>
          && r.messageId in k.pending && k.ops[k.pending[r.messageId]].writeObserved
          && Listed(k.ops[k.pending[r.messageId]].spec.pattern, r.protocolId))
    && (v.Discarded? <==> r.messageId in k.tombstones && Listed(k.tombstones[r.messageId], r.protocolId))
    && (v.Unexpected? <==>
          || (r.messageId !in k.pending && r.messageId !in k.tombstones)
          || (r.messageId in k.tombstones && !Listed(k.tombstones[r.messageId], r.protocolId))
          || (r.messageId in k.pending && k.ops[k.pending[r.messageId]].writeObserved
              && !Listed(k.ops[k.pending[r.messageId]].spec.pattern, r.protocolId)))
  }

  /** One look decides exactly so. */
  lemma VerdictMeans(k: Core, r: Response)
    requires CoreInv(k)
    ensures Sorted(k, r, Verdict(k, r))
  {
    LookFacts(k, r);
    hide CoreInv;
    if r.messageId in k.pending { ListedIffValid(k.ops[k.pending[r.messageId]].spec.pattern, r.protocolId); }
    if r.messageId in k.tombstones { ListedIffValid(k.tombstones[r.messageId], r.protocolId); }
    hide Listed, FramingPattern.Classify, RouteAction;
  }

  lemma LookFacts(k: Core, r: Response)
    requires CoreInv(k)
    ensures r.messageId in k.pending ==> k.pending[r.messageId] < |k.ops| && r.messageId !in k.tombstones
    ensures r.messageId in k.pending ==> k.ops[k.pending[r.messageId]].spec.id == r.messageId
  {
    hide OpsInv, LiveInv, EndInv, IdsInRange;
  }

  lemma AcceptedArrives(s: State, r: Response)
    requires Verdict(s.core, r).Accepted?
    ensures Enabled(s, Arrival(r))
  {
    hide FramingPattern.Classify, RouteAction;
  }

  // ----------------------------------------------------------------- the invariant

  // The responses whose fate is operation i, in the order they came.
  function Share(received: seq<Response>, fates: seq<Fate>, i: nat): seq<Response>
    requires |fates| <= |received|
  {
    if fates == [] then [] else
    var n := |fates| - 1;
    Share(received, fates[..n], i) + (if fates[n] == To(i) then [received[n]] else [])
  }

  lemma {:induction false} ShareGrows(received: seq<Response>, r: Response, fates: seq<Fate>, i: nat)
    requires |fates| <= |received|
    ensures Share(received + [r], fates, i) == Share(received, fates, i)
  {
    if fates != [] { ShareGrows(received, r, fates[..|fates| - 1], i); }
  }

  lemma ShareNext(received: seq<Response>, fates: seq<Fate>, f: Fate, i: nat)
    requires |fates| < |received|
    ensures Share(received, fates + [f], i) == Share(received, fates, i) + (if f == To(i) then [received[|fates|]] else [])
  {
    assert (fates + [f])[..|fates|] == fates;
  }

  // A response was parked for this operation: nothing has arrived for it before.
  ghost predicate WaitedFor(k: Core, r: Response, i: nat)
  {
    i < |k.ops| && k.ops[i].spec.id == r.messageId && IsInstalled(k.ops[i]) && k.ops[i].inbox.routed == []
  }

  // Every response taken has its fate but the one in hand.
  ghost predicate HandInv(x: Session)
  {
    && |x.received| == |x.fates| + (if InHand(x.reader) then 1 else 0)
    && (InHand(x.reader) ==> x.received[|x.fates|] == x.reader.r)
    && (x.reader.Parked? ==> WaitedFor(x.conn.core, x.reader.r, x.reader.op))
    && (x.reader.Holding? && x.reader.waited.Some? ==>
          && WaitedFor(x.conn.core, x.reader.r, x.reader.waited.value)
          && x.conn.core.ops[x.reader.waited.value].writeObserved)
  }

  // What arrived for an operation is its share, and nobody else has one.
  ghost predicate SharesInv(x: Session)
  {
    && |x.fates| <= |x.received|
    && (forall i :: 0 <= i < |x.conn.core.ops| ==> x.conn.core.ops[i].inbox.routed == Share(x.received, x.fates, i))
    && (forall n :: 0 <= n < |x.fates| && x.fates[n].To? ==> x.fates[n].op < |x.conn.core.ops|)
  }

  ghost predicate SessionInv(x: Session) { Inv(x.conn) && HandInv(x) && SharesInv(x) }

  lemma {:induction false} NoShare(received: seq<Response>, fates: seq<Fate>, i: nat)
    requires |fates| <= |received| && forall n :: 0 <= n < |fates| ==> fates[n] != To(i)
    ensures Share(received, fates, i) == []
  {
    if fates != [] { NoShare(received, fates[..|fates| - 1], i); }
  }

  lemma OpeningInv(x: Session)
    requires Opening(x)
    ensures SessionInv(x)
  {
    InitialInv(x.conn);
  }

  // A step of the connection that brings nothing.
  lemma ConnKeeps(x: Session, s': State)
    requires HandInv(x) && SharesInv(x)
    requires Undelivered(x.conn.core.ops, s'.core.ops) && AllEvolve(x.conn.core.ops, s'.core.ops)
    ensures HandInv(x.(conn := s')) && SharesInv(x.(conn := s'))
  {
    hide Share, InboxEvolves;
    forall i | 0 <= i < |s'.core.ops| ensures s'.core.ops[i].inbox.routed == Share(x.received, x.fates, i) {
      if i >= |x.conn.core.ops| { NoShare(x.received, x.fates, i); }
    }
  }

  lemma SharesKeep(x: Session, f: Fate, reader: Reader)
    requires SharesInv(x) && |x.fates| < |x.received| && !f.To?
    ensures SharesInv(x.(reader := reader, fates := x.fates + [f]))
  {
    hide Share;
    forall i | 0 <= i < |x.conn.core.ops| ensures x.conn.core.ops[i].inbox.routed == Share(x.received, x.fates + [f], i) {
      ShareNext(x.received, x.fates, f, i);
    }
  }

  lemma SharesArrive(x: Session, s': State, i: nat, reader: Reader)
    requires SharesInv(x) && |x.fates| < |x.received| && i < |x.conn.core.ops|
    requires var ops, ops' := x.conn.core.ops, s'.core.ops;
             && |ops'| == |ops| && ops'[i].inbox.routed == ops[i].inbox.routed + [x.received[|x.fates|]]
             && forall j :: 0 <= j < |ops| && j != i ==> ops'[j] == ops[j]
    ensures SharesInv(x.(conn := s', reader := reader, fates := x.fates + [To(i)]))
  {
    hide Share;
    forall j | 0 <= j < |x.conn.core.ops| ensures s'.core.ops[j].inbox.routed == Share(x.received, x.fates + [To(i)], j) {
      ShareNext(x.received, x.fates, To(i), j);
    }
  }

  lemma SharesReceive(x: Session, r: Response)
    requires SharesInv(x)
    ensures SharesInv(x.(reader := Holding(r, None), received := x.received + [r]))
  {
    hide Share;
    forall i | 0 <= i < |x.conn.core.ops| ensures x.conn.core.ops[i].inbox.routed == Share(x.received + [r], x.fates, i) {
      ShareGrows(x.received, r, x.fates, i);
    }
  }

  // An operation that a response waits for is pending and unobserved: nothing came for it.
  lemma ParkedFor(s: State, r: Response)
    requires Inv(s) && Verdict(s.core, r).Waiting?
    ensures WaitedFor(s.core, r, s.core.pending[r.messageId])
  {
    hide WorkersInv, CallsInv, RequestsInv, TasksInv, AbandonCallsInv, SpoiledInv, UnbindCallsInv, ReadyInv, CoreInv, IsInstalled, StageOk;
    VerdictMeans(s.core, r);
    PendingFact(s.core, r.messageId);
  }

  lemma PendingFact(k: Core, id: int)
    requires CoreInv(k) && id in k.pending
    ensures k.pending[id] < |k.ops|
    ensures var p := k.ops[k.pending[id]]; p.spec.id == id && IsInstalled(p) && !p.lifecycleDone && (!p.writeObserved ==> p.inbox.routed == [])
  {
    hide Encoding, IdsInv, LiveInv, EndInv;
    assert OpInv(k.ops[k.pending[id]], k.cfg);
  }

  lemma LookKeeps(x: Session)
    requires SessionInv(x) && ActEnabled(x, Look)
    ensures SessionInv(LookApply(x)) && AllEvolve(x.conn.core.ops, LookApply(x).conn.core.ops)
  {
    hide Inv, SharesInv, ArrivalApply, Enabled, AllEvolve, WaitedFor;
    var r, k := x.reader.r, x.conn.core;
    var v := Verdict(k, r);
    hide Verdict;
    SelfEvolve(k.ops);
    if v.Accepted? {
      AcceptedArrives(x.conn, r);
      ArrivalDelivers(x.conn, r);
      StepKeeps(x.conn, Arrival(r));
      VerdictFound(k, r);
      SharesArrive(x, ArrivalApply(x.conn, r), k.pending[r.messageId], LookApply(x).reader);
    } else if v.Waiting? {
      ParkedFor(x.conn, r);
      SharesReader(x, LookApply(x).reader);
    } else {
      SharesKeep(x, if v.Discarded? then Late else Refused, LookApply(x).reader);
    }
  }

  lemma VerdictFound(k: Core, r: Response)
    requires Verdict(k, r).Accepted?
    ensures r.messageId in k.pending && k.pending[r.messageId] < |k.ops|
  {
  }

  lemma SharesReader(x: Session, reader: Reader)
    requires SharesInv(x)
    ensures SharesInv(x.(reader := reader))
  {
  }

  lemma SelfEvolve(ops: seq<Op>)
    ensures AllEvolve(ops, ops)
  {
    hide Evolves;
    forall i | 0 <= i < |ops| ensures Evolves(ops[i], ops[i]) { SelfEvolves(ops[i]); }
  }

  /** Every act keeps the invariant and takes nothing back from any operation. */
  lemma ActKeeps(x: Session, t: Act)
    requires SessionInv(x) && ActEnabled(x, t)
    ensures SessionInv(ActApply(x, t)) && AllEvolve(x.conn.core.ops, ActApply(x, t).conn.core.ops)
  {
    hide Inv, SharesInv, Apply, Enabled, AllEvolve, WaitedFor, Verdict, LookApply, Retire, Undelivered, Unmarked;
    SelfEvolve(x.conn.core.ops);
    match t
    case Elsewhere(e) =>
      StepKeeps(x.conn, e);
      ElsewhereUndelivered(x.conn, e);
      ConnKeeps(x, Apply(x.conn, e));
    case Receive(r) => SharesReceive(x, r);
    case ReadFails(reason) => SharesReader(x, Erring(reason));
    case Look => LookKeeps(x);
    case Wake => SharesReader(x, Holding(x.reader.r, Some(x.reader.op)));
    case EndWait => SharesKeep(x, Cut, Reading);
    case StopReading =>
      var s' := x.conn.(core := Retire(x.conn.core, x.reader.reason));
      RetireKept(x.conn, x.reader.reason);
      RetireUnmoved(x.conn.core, x.reader.reason);
      ConnKeeps(x, s');
      SharesReader(x.(conn := s'), Stopped);
  }
}
