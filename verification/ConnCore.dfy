/** The lock-protected state of one connection (connection.go, bootstrap.go) and
    what each critical section does to it, as functions on values. An operation
    also carries the history that the claims about whole runs speak of. */
module ConnCore {
  import opened BerTypes
  import opened Protocol
  import opened Envelope

  // Lifecycle states, in the order they are reached.
  datatype Phase = Dialing | TransportSetup | Authenticating | Initializing | Ready | Draining | Closed

  function Rank(p: Phase): nat
  {
    match p
    case Dialing => 1 case TransportSetup => 2 case Authenticating => 3 case Initializing => 4
    case Ready => 5 case Draining => 6 case Closed => 7
  }

  // advanceConnectionState
  predicate CanAdvance(from: Phase, to: Phase)
  {
    || (from.Dialing? && to.TransportSetup?)
    || (from.TransportSetup? && to.Authenticating?)
    || (from.Authenticating? && to.Initializing?)
    || (from.Initializing? && to.Ready?)
    || (from.Ready? && to.Draining?)
    || (from.Draining? && to.Closed?)
    || (to.Closed? && !from.Closed?)
  }

  datatype Scope = Application | Initialization

  datatype CancelMode = CancelDrain | CancelAbandon | CancelExtended | CancelClose | CancelNone

  datatype Outcome = DefinitelyUnsent | Ambiguous | NotApplicable

  // FailTransport stands for any error with a TransportError in its chain.
  datatype Failure = FailClosed | FailTransport(outcome: Outcome) | FailContext | FailLimit | FailOther

  datatype WriteResult = Sent | Unsent(outcome: Outcome)

  // Where the goroutine running do is.
  datatype Stage =
    | Reserved                     // holds a message ID
    | Rejected                     // was refused at installation, ID still to be released
    | Installed                    // pending, waiting for the writer
    | HasToken                     // holds the write token
    | Cleared                      // saw neither an error nor closing while holding it
    | Writing                      // inside writeAll
    | Wrote                        // the write is over, its consequences are not
    | Observed                     // a no-response operation about to complete
    | Finished

  datatype Dispatch = Queued | Written | FirstResponse | Canceled | Retired | End

  // What an operation has sent to its observer: how many dispatches, of which kinds.
  datatype Trace = Trace(count: nat, kinds: set<Dispatch>) {
    function Send(d: Dispatch): Trace { Trace(count + 1, kinds + {d}) }
  }

  // What never changes: the message ID, the request as it was submitted and how to
  // treat it.
  datatype Spec = Spec(
    id: int32,
    scope: Scope,
    op: Request,
    pattern: FramingPattern,
    mode: CancelMode)

  // The delivery side of an operation. routed, delivered and completed are
  // history: what arrived for it, what Next handed out, and whether a completing
  // response arrived.
  datatype Inbox = Inbox(
    queue: seq<Response>,
    queuedBytes: nat,
    deliveryErr: Option<Failure>,
    canceled: bool,
    routed: seq<Response>,
    delivered: seq<Response>,
    completed: bool)

  // installedIn, abandoned and retiredUnsent are history: the phase it was
  // installed in, whether its ID was tombstoned, and whether retirement reported
  // it unsent.
  datatype Op = Op(
    spec: Spec,
    message: Option<bytes>,        // the encoded request, once there is one
    stage: Stage,
    wrote: Option<WriteResult>,    // what the write reported to do
    inbox: Inbox,
    trace: Trace,
    terminal: bool,
    abandoning: bool,
    writeStarted: bool,
    writeObserved: bool,
    firstResponse: bool,
    lifecycleDone: bool,
    installedIn: Option<Phase>,
    abandoned: bool,
    retiredUnsent: bool)

  datatype Config = Config(maxId: int32, maxQueued: nat, maxQueuedBytes: nat, limits: Limits) {
    predicate Valid() { 1 <= maxId <= MAX_MESSAGE_ID && maxQueued >= 1 }
  }

  datatype Core = Core(
    cfg: Config,
    phase: Phase,
    closing: bool,
    err: Option<Failure>,
    open: bool,                    // the transport still accepts bytes
    nextId: int32,
    reserved: set<int>,
    pending: map<int, nat>,        // message ID to index in ops
    tombstones: map<int, FramingPattern>,
    ops: seq<Op>)

  // ------------------------------------------------------------------- allocation

  // c.nextID++ on an int32, then back to 1 when it left [1, maxID].
  function Successor(n: int32, maxId: int32): int32
  {
    var next := if n == MAX_MESSAGE_ID then -MAX_MESSAGE_ID - 1 else n + 1;
    if next > maxId || next <= 0 then 1 else next
  }

  predicate Occupied(k: Core, id: int) { id in k.reserved || id in k.pending || id in k.tombstones }

  // The scan: the first unoccupied ID within so many steps after n.
  function Scan(k: Core, n: int32, steps: nat): Option<int32>
    decreases steps
  {
    if steps == 0 then None else
    var next := Successor(n, k.cfg.maxId);
    if Occupied(k, next) then Scan(k, next, steps - 1) else Some(next)
  }

  function TryReserve(k: Core): Option<int32>
  {
    if |k.reserved| + |k.pending| + |k.tombstones| >= k.cfg.maxId then None
    else Scan(k, k.nextId, k.cfg.maxId)
  }

  predicate ScopeAllowed(k: Core, scope: Scope)
  {
    match scope
    case Application => k.phase == Ready
    case Initialization => k.phase == Authenticating || k.phase == Initializing
  }

  function NewOp(spec: Spec): Op
  {
    Op(spec, None, Reserved, None, Inbox([], 0, None, false, [], [], false), Trace(0, {}),
       false, false, false, false, false, false, None, false, false)
  }

  function ReserveId(k: Core, id: int32): Core
  {
    k.(reserved := k.reserved + {id}, nextId := id)
  }

  function ReleaseReserved(k: Core, id: int): Core
  {
    k.(reserved := k.reserved - {id})
  }

  // ---------------------------------------------------- updates of one operation

  function FinishOp(p: Op): Op
  {
    if p.lifecycleDone then p else p.(lifecycleDone := true, trace := p.trace.Send(End))
  }

  predicate Overflows(b: Inbox, r: Response, cfg: Config)
  {
    |b.queue| == cfg.maxQueued || b.queuedBytes + |r.message| > cfg.maxQueuedBytes
  }

  // Delivery stops: the queue is dropped and the reason is remembered.
  function StopDelivery(b: Inbox, reason: Failure): Inbox
  {
    b.(deliveryErr := Some(reason), queue := [], queuedBytes := 0, canceled := true)
  }

  function Arrive(b: Inbox, r: Response, complete: bool, cfg: Config): Inbox
  {
    var b1 := b.(routed := b.routed + [r], completed := complete);
    if b.canceled then b1
    else if Overflows(b, r, cfg) then StopDelivery(b1, FailLimit)
    else b1.(queue := b.queue + [r], queuedBytes := b.queuedBytes + |r.message|)
  }

  predicate Completes(p: Op, r: Response) { p.spec.pattern.Classify(r.protocolId) == Complete }

  // Whether routing r asks for an Abandon of p.
  predicate RouteAbandons(p: Op, r: Response, cfg: Config)
  {
    !Completes(p, r) && !p.inbox.canceled && Overflows(p.inbox, r, cfg) && p.spec.mode == CancelAbandon
  }

  function MarkRouted(p: Op, r: Response, cfg: Config): Op
  {
    p.(firstResponse := true,
       trace := if p.firstResponse then p.trace else p.trace.Send(FirstResponse),
       terminal := p.terminal || Completes(p, r),
       inbox := Arrive(p.inbox, r, Completes(p, r), cfg),
       abandoning := p.abandoning || RouteAbandons(p, r, cfg))
  }

  function RouteOp(p: Op, r: Response, cfg: Config): Op
  {
    if Completes(p, r) then FinishOp(MarkRouted(p, r, cfg)) else MarkRouted(p, r, cfg)
  }

  predicate CancelAbandons(p: Op, isPending: bool)
  {
    !p.terminal && isPending && !p.abandoning && p.spec.mode == CancelAbandon
  }

  function CancelOp(p: Op, reason: Failure, isPending: bool): Op
  {
    if p.terminal then p else
    var unset := p.inbox.deliveryErr == None;
    p.(inbox := if unset then StopDelivery(p.inbox, reason) else p.inbox,
       trace := if unset then p.trace.Send(Canceled) else p.trace,
       abandoning := p.abandoning || CancelAbandons(p, isPending))
  }

  function TombstoneOp(p: Op): Op { FinishOp(p.(abandoned := true)) }

  function RemoveOp(p: Op): Op { FinishOp(p.(terminal := true)) }

  // operationRetirementError
  function RetirementError(p: Op, err: Failure): Failure
  {
    if err.FailTransport? then FailTransport(if p.writeStarted then Ambiguous else DefinitelyUnsent) else err
  }

  function MarkRetired(p: Op, err: Failure): Op
  {
    var unset := p.inbox.deliveryErr == None;
    p.(inbox := if unset then p.inbox.(deliveryErr := Some(RetirementError(p, err))) else p.inbox,
       retiredUnsent := p.retiredUnsent || (unset && err.FailTransport? && !p.writeStarted),
       trace := p.trace.Send(Retired),
       terminal := true)
  }

  function RetireOp(p: Op, err: Failure): Op { FinishOp(MarkRetired(p, err)) }

  // close(p.writeObserved), after the Written event.
  function ObserveOp(p: Op): Op
  {
    p.(writeObserved := true, trace := p.trace.Send(Written),
       stage := if p.spec.pattern.noResponse && p.spec.pattern.valid then Observed else Finished)
  }

  datatype NextResult = Item(response: Response) | Fail(error: Failure) | Eof | Block

  // One locked look of responseStream.Next.
  function NextOf(p: Op): NextResult
  {
    if p.inbox.queue != [] then Item(p.inbox.queue[0])
    else if p.inbox.deliveryErr.Some? then Fail(p.inbox.deliveryErr.value)
    else if p.terminal then Eof
    else Block
  }

  function Pop(b: Inbox): Inbox
  {
    if b.queue == [] then b
    else b.(delivered := b.delivered + [b.queue[0]], queue := b.queue[1..],
            queuedBytes := if b.queuedBytes >= |b.queue[0].message| then b.queuedBytes - |b.queue[0].message| else 0)
  }

  function ConsumeOp(p: Op): Op { p.(inbox := Pop(p.inbox)) }

  // ------------------------------------------------------- critical sections

  predicate IsPending(k: Core, i: nat)
    requires i < |k.ops|
  {
    k.ops[i].spec.id in k.pending && k.pending[k.ops[i].spec.id] == i
  }

  function SetOp(k: Core, i: nat, p: Op): Core
    requires i < |k.ops|
  {
    k.(ops := k.ops[i := p])
  }

  predicate InstallAllowed(k: Core, i: nat)
    requires i < |k.ops|
  {
    k.err == None && !k.closing && ScopeAllowed(k, k.ops[i].spec.scope) && k.ops[i].spec.id in k.reserved
  }

  function InstalledOp(p: Op, phase: Phase): Op
  {
    p.(stage := Installed, installedIn := Some(phase), trace := p.trace.Send(Queued))
  }

  function RejectedOp(p: Op): Op
  {
    p.(stage := Rejected, trace := p.trace.Send(Queued).Send(End))
  }

  function Install(k: Core, i: nat): Core
    requires i < |k.ops|
  {
    var p := k.ops[i];
    if InstallAllowed(k, i)
    then k.(reserved := k.reserved - {p.spec.id}, pending := k.pending[p.spec.id := i],
            ops := k.ops[i := InstalledOp(p, k.phase)])
    else SetOp(k, i, RejectedOp(p))
  }

  // removeDefinitelyUnsent and completeNoResponse
  function Remove(k: Core, i: nat): Core
    requires i < |k.ops|
  {
    if IsPending(k, i)
    then k.(pending := k.pending - {k.ops[i].spec.id}, ops := k.ops[i := RemoveOp(k.ops[i])])
    else k
  }

  function Cancel(k: Core, i: nat, reason: Failure): Core
    requires i < |k.ops|
  {
    SetOp(k, i, CancelOp(k.ops[i], reason, IsPending(k, i)))
  }

  // The pending half of route, for a response that classifies as valid.
  function Route(k: Core, i: nat, r: Response): Core
    requires i < |k.ops|
  {
    var p := k.ops[i];
    k.(pending := if Completes(p, r) then k.pending - {p.spec.id} else k.pending,
       ops := k.ops[i := RouteOp(p, r, k.cfg)])
  }

  function Tombstone(k: Core, i: nat): Core
    requires i < |k.ops|
  {
    var p := k.ops[i];
    k.(pending := k.pending - {p.spec.id}, tombstones := k.tombstones[p.spec.id := p.spec.pattern],
       ops := k.ops[i := TombstoneOp(p)])
  }

  function RetireOps(k: Core, e: Failure): (ops: seq<Op>)
    ensures |ops| == |k.ops|
  {
    seq(|k.ops|, i requires 0 <= i < |k.ops| => if IsPending(k, i) then RetireOp(k.ops[i], e) else k.ops[i])
  }

  function Retire(k: Core, err: Failure): Core
  {
    if k.err.Some? then k else
    var e := if k.closing then FailClosed else err;
    k.(err := Some(e), phase := Closed, open := false, reserved := {}, pending := map[], tombstones := map[],
       ops := RetireOps(k, e))
  }

  predicate Idle(k: Core) { k.reserved == {} && k.pending == map[] && k.tombstones == map[] }

  predicate ReadyAllowed(k: Core) { k.err == None && k.phase == Initializing && Idle(k) }

  // ------------------------------------------------------ the allocator's scan

  ghost function OccupiedSet(k: Core): set<int> { k.reserved + k.pending.Keys + k.tombstones.Keys }

  ghost predicate IdsInRange(k: Core)
  {
    forall id :: id in OccupiedSet(k) ==> 1 <= id <= k.cfg.maxId
  }

  ghost predicate IdsDisjoint(k: Core)
  {
    k.reserved !! k.pending.Keys && k.reserved !! k.tombstones.Keys && k.pending.Keys !! k.tombstones.Keys
  }

  // The ID that is j steps after n in cyclic order.
  ghost function After(n: int32, j: nat, maxId: int32): int32
    requires maxId >= 1
  {
    if j == 0 then n else Successor(After(n, j - 1, maxId), maxId)
  }

  lemma {:induction false} AfterShift(n: int32, j: nat, maxId: int32)
    requires maxId >= 1
    ensures After(Successor(n, maxId), j, maxId) == After(n, j + 1, maxId)
  {
    if j > 0 { AfterShift(n, j - 1, maxId); }
  }

  /** The scan returns the first free ID after n and skips only occupied ones. */
  lemma {:induction false} ScanIsFirst(k: Core, n: int32, steps: nat) returns (j: nat)
    requires k.cfg.Valid() && Scan(k, n, steps).Some?
    ensures 1 <= j <= steps && Scan(k, n, steps).value == After(n, j, k.cfg.maxId)
    ensures !Occupied(k, After(n, j, k.cfg.maxId))
    ensures forall i :: 1 <= i < j ==> Occupied(k, After(n, i, k.cfg.maxId))
    decreases steps
  {
    var maxId := k.cfg.maxId;
    var next := Successor(n, maxId);
    assert After(n, 1, maxId) == next by { assert After(n, 0, maxId) == n; }
    if Occupied(k, next) {
      var j' := ScanIsFirst(k, next, steps - 1);
      j := j' + 1;
      AfterShift(n, j', maxId);
      forall i | 1 <= i < j ensures Occupied(k, After(n, i, maxId)) {
        if i > 1 { AfterShift(n, i - 1, maxId); }
      }
    } else {
      j := 1;
    }
  }

  // A scan that finds nothing has seen every ID it passed.
  lemma {:induction false} ScanSeesAll(k: Core, n: int32, steps: nat)
    requires k.cfg.Valid() && 0 <= n <= k.cfg.maxId && steps <= k.cfg.maxId && Scan(k, n, steps) == None
    ensures forall x :: n < x <= n + steps && x <= k.cfg.maxId ==> Occupied(k, x)
    ensures forall x :: 1 <= x <= n + steps - k.cfg.maxId ==> Occupied(k, x)
    decreases steps
  {
    if steps > 0 { ScanSeesAll(k, Successor(n, k.cfg.maxId), steps - 1); }
  }

  ghost function Range(n: nat): set<int> { if n == 0 then {} else Range(n - 1) + {n} }

  lemma {:induction false} RangeSize(n: nat)
    ensures |Range(n)| == n
    ensures forall x :: x in Range(n) <==> 1 <= x <= n
  {
    if n > 0 { RangeSize(n - 1); }
  }

  lemma SubsetSize(a: set<int>, b: set<int>)
    requires a <= b
    ensures |a| <= |b|
  {
    assert b == a + (b - a);
  }

  lemma OccupiedCount(k: Core)
    requires IdsDisjoint(k)
    ensures |OccupiedSet(k)| == |k.reserved| + |k.pending| + |k.tombstones|
  {
    assert |k.pending.Keys| == |k.pending| && |k.tombstones.Keys| == |k.tombstones|;
  }

  /** An ID is issued exactly when fewer than maxID are occupied, and it is then
      a free one in range. */
  lemma ReserveIffRoom(k: Core)
    requires k.cfg.Valid() && 0 <= k.nextId <= k.cfg.maxId && IdsDisjoint(k) && IdsInRange(k)
    ensures TryReserve(k).Some? <==> |OccupiedSet(k)| < k.cfg.maxId
    ensures TryReserve(k).Some? ==> 1 <= TryReserve(k).value <= k.cfg.maxId && !Occupied(k, TryReserve(k).value)
  {
    var maxId := k.cfg.maxId;
    OccupiedCount(k);
    if |OccupiedSet(k)| < maxId && Scan(k, k.nextId, maxId) == None {
      ScanSeesAll(k, k.nextId, maxId);
      RangeSize(maxId);
      assert Range(maxId) <= OccupiedSet(k) by {
        forall x | x in Range(maxId) ensures x in OccupiedSet(k) { assert Occupied(k, x); }
      }
      SubsetSize(Range(maxId), OccupiedSet(k));
    }
    if TryReserve(k).Some? {
      var j := ScanIsFirst(k, k.nextId, maxId);
    }
  }
}
