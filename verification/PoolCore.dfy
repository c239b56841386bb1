/** The connection pool (pool/pool.go, pool/lease.go) as a transition system: a
    step for each critical section under the pool's lock, in any interleaving.
    Dialing, the clock and broken connections are the environment. */
module PoolCore {
  import opened BerTypes

  datatype Options = Options(cap: int, maxInFlight: int, maxWaiters: int, idleLifetime: int, maximumLifetime: int) {
    predicate Valid() { cap >= 1 && maxInFlight >= 1 && maxWaiters >= 1 }
  }

  // A pooled connection. leased names the lease that set the flag; listed says
  // whether its endpoint's list still has it.
  datatype PConn = PConn(
    endpoint: nat,
    created: int,
    lastIdle: int,
    inFlight: nat,
    leased: Option<nat>,
    draining: bool,
    broken: bool,
    retiring: bool,
    listed: bool)

  datatype Lease = Lease(conn: nat, closed: bool, inFlight: nat)

  // One admitted operation: on which connection, through which lease, and whether
  // its capacity was given back.
  datatype Work = Work(conn: nat, lease: Option<nat>, released: bool)

  // An endpoint's dials: callers of acquire that are dialing, the replacing flag,
  // and how many replacement goroutines are deciding, dialing and about to leave.
  datatype Endpoint = Endpoint(acquirers: nat, replacing: bool, deciding: nat, redialing: nat, leaving: nat) {
    // endpoint.dialing
    function Dialing(): nat { acquirers + redialing }
  }

  // What a caller asks for: room for one operation, a connection of its own, or room
  // for one operation through its lease.
  datatype Wish = Operation(exact: Option<nat>) | Exclusive(exact: Option<nat>) | Through(lease: nat)

  // Where a caller of acquire or acquireOperation is: in its locked section, dialing
  // an endpoint, after a dial that failed, waiting for a change, or back.
  datatype Place = Looking | DialingAt(endpoint: nat) | DialFailed | Waiting | Gone

  datatype Caller = Caller(wish: Wish, registered: bool, at: Place)

  // conns, leases, works and callers are all there ever were; a connection's list
  // position is its place in conns.
  datatype Pool = Pool(
    options: Options,
    closing: bool,
    waiters: int,
    endpoints: seq<Endpoint>,
    conns: seq<PConn>,
    leases: seq<Lease>,
    works: seq<Work>,
    callers: seq<Caller>)

  function NewConn(endpoint: nat, now: int): PConn
  {
    PConn(endpoint, now, now, 0, None, false, false, false, true)
  }

  // ------------------------------------------------------------------- counting

  predicate IsLive(p: PConn) { p.listed && !p.broken && !p.draining }

  datatype Measure = LiveAt(endpoint: nat) | Activity

  function Weight(p: PConn, m: Measure): nat
  {
    match m
    case LiveAt(e) => if IsLive(p) && p.endpoint == e then 1 else 0
    case Activity => if p.listed then p.inFlight + (if p.leased.Some? then 1 else 0) else 0
  }

  function Sum(conns: seq<PConn>, m: Measure): nat
  {
    if conns == [] then 0 else Sum(conns[..|conns| - 1], m) + Weight(conns[|conns| - 1], m)
  }

  function Live(p: Pool, e: nat): nat { Sum(p.conns, LiveAt(e)) }

  // Live connections plus dials in progress.
  function Load(p: Pool, e: nat): nat
    requires e < |p.endpoints|
  {
    Live(p, e) + p.endpoints[e].Dialing()
  }

  function Active(p: Pool): nat { Sum(p.conns, Activity) }

  // ----------------------------------------------------------------- admission

  predicate InScope(c: PConn, exact: Option<nat>) { exact.None? || c.endpoint == exact.value }

  // What selectConnectionLocked may pick from.
  predicate Eligible(c: PConn, exact: Option<nat>, lease: bool, o: Options)
  {
    && c.listed && InScope(c, exact) && !c.broken && !c.draining && c.leased.None?
    && if lease then c.inFlight == 0 else c.inFlight < o.maxInFlight
  }

  // An eligible connection with the fewest operations in flight.
  ghost predicate Selectable(p: Pool, exact: Option<nat>, lease: bool, i: nat)
  {
    && i < |p.conns| && Eligible(p.conns[i], exact, lease, p.options)
    && forall j :: 0 <= j < |p.conns| && Eligible(p.conns[j], exact, lease, p.options) ==> p.conns[i].inFlight <= p.conns[j].inFlight
  }

  function SetConn(p: Pool, i: nat, c: PConn): Pool
    requires i < |p.conns|
  {
    p.(conns := p.conns[i := c])
  }

  function Admit(p: Pool, i: nat): Pool
    requires i < |p.conns|
  {
    SetConn(p, i, p.conns[i].(inFlight := p.conns[i].inFlight + 1)).(works := p.works + [Work(i, None, false)])
  }

  function TakeLease(p: Pool, i: nat): Pool
    requires i < |p.conns|
  {
    SetConn(p, i, p.conns[i].(leased := Some(|p.leases|))).(leases := p.leases + [Lease(i, false, 0)])
  }

  // acquireOperation of a lease, past its checks.
  predicate LeaseAdmits(p: Pool, l: nat)
  {
    && l < |p.leases| && p.leases[l].conn < |p.conns|
    && !p.closing && !p.leases[l].closed && !p.conns[p.leases[l].conn].broken
    && p.leases[l].inFlight < p.options.maxInFlight
  }

  // Nothing can be given to a caller now.
  ghost predicate NothingFor(p: Pool, w: Wish)
  {
    match w
    case Through(l) =>
      && l < |p.leases| && p.leases[l].conn < |p.conns|
      && !p.leases[l].closed && !p.conns[p.leases[l].conn].broken && p.leases[l].inFlight >= p.options.maxInFlight
    case _ => forall j :: 0 <= j < |p.conns| ==> !Eligible(p.conns[j], w.exact, w.Exclusive?, p.options)
  }

  function LeaseAdmit(p: Pool, l: nat): Pool
    requires LeaseAdmits(p, l)
  {
    var i := p.leases[l].conn;
    SetConn(p, i, p.conns[i].(inFlight := p.conns[i].inFlight + 1))
      .(leases := p.leases[l := p.leases[l].(inFlight := p.leases[l].inFlight + 1)],
        works := p.works + [Work(i, Some(l), false)])
  }

  // ------------------------------------------------------------------- release

  // removeConnectionIfUnusedLocked
  function Unlist(c: PConn): PConn
  {
    c.(listed := c.listed && (c.inFlight != 0 || c.leased.Some? || !(c.broken || c.retiring)))
  }

  function Less(n: nat): nat { if n > 0 then n - 1 else 0 }

  // What becoming idle does; giveUp says that a closed lease lets go.
  function Settle(c: PConn, giveUp: bool, now: int): PConn
  {
    if c.inFlight != 0 then c else
    var leased := if giveUp then None else c.leased;
    c.(lastIdle := now, leased := leased, retiring := c.retiring || (c.draining && leased.None?))
  }

  function Release(p: Pool, w: nat, now: int): Pool
    requires w < |p.works| && p.works[w].conn < |p.conns|
    requires p.works[w].lease.Some? ==> p.works[w].lease.value < |p.leases|
  {
    var i := p.works[w].conn;
    var c := p.conns[i].(inFlight := Less(p.conns[i].inFlight));
    var p1 := p.(works := p.works[w := p.works[w].(released := true)]);
    match p.works[w].lease
    case None => SetConn(p1, i, Unlist(Settle(c, false, now)))
    case Some(l) =>
      SetConn(p1, i, Unlist(Settle(c, p.leases[l].closed, now)))
        .(leases := p.leases[l := p.leases[l].(inFlight := Less(p.leases[l].inFlight))])
  }

  function CloseLease(p: Pool, l: nat, now: int): Pool
    requires l < |p.leases| && p.leases[l].conn < |p.conns|
  {
    var lease := p.leases[l];
    var c := p.conns[lease.conn];
    var c' := if lease.inFlight == 0 then c.(leased := None, lastIdle := now, retiring := c.retiring || c.draining) else c;
    SetConn(p, lease.conn, Unlist(c')).(leases := p.leases[l := lease.(closed := true)])
  }

  // The watcher of a connection that is done.
  function Break(c: PConn): PConn { Unlist(c.(broken := true, leased := None)) }

  // ------------------------------------------------------------------- expiry

  predicate Expired(c: PConn, now: int, o: Options) { now - c.created >= o.maximumLifetime }

  predicate IdleTooLong(c: PConn, now: int, live: int, o: Options)
  {
    c.inFlight == 0 && live > 1 && now - c.lastIdle >= o.idleLifetime
  }

  // Whether the pass drains c when live connections are left.
  predicate Drains(c: PConn, now: int, live: int, o: Options)
  {
    IsLive(c) && c.leased.None? && (Expired(c, now, o) || IdleTooLong(c, now, live, o))
  }

  function Drain(c: PConn): PConn { c.(draining := true, retiring := c.retiring || c.inFlight == 0) }

  // One endpoint's pass over its list with the count of live connections, and
  // whether it asks for a replacement.
  function ExpireFrom(conns: seq<PConn>, e: nat, now: int, live: int, o: Options): (r: (seq<PConn>, bool))
    ensures |r.0| == |conns|
  {
    if conns == [] then ([], false) else
    var c := conns[0];
    if c.endpoint == e && Drains(c, now, live, o) then
      var (rest, again) := ExpireFrom(conns[1..], e, now, live - 1, o);
      ([Drain(c)] + rest, again || (Expired(c, now, o) && live - 1 == 0))
    else
      var (rest, again) := ExpireFrom(conns[1..], e, now, live, o);
      ([c] + rest, again)
  }

  function Expire(p: Pool, e: nat, now: int): (seq<PConn>, bool)
  {
    ExpireFrom(p.conns, e, now, Live(p, e), p.options)
  }

  // --------------------------------------------------------------------- events

  datatype Event =
    | Arrive(wish: Wish)
    | Grant(c: nat, i: nat)
    | GrantThrough(c: nat)
    | BeginDial(c: nat, e: nat)
    | EndDial(c: nat, ok: bool, now: int)
    | Retry(c: nat)               // after a failed dial, a caller that may go elsewhere
    | LeaveFailed(c: nat)         // after a failed dial, with the dial's or the context's error
    | Wait(c: nat)
    | Wake(c: nat)
    | Refuse(c: nat)              // closing, a lost lease, the limit on waiters, or a context
    | ReleaseWork(w: nat, now: int)
    | EndLease(l: nat, now: int)
    | StartReplacement(e: nat)
    | BeginRedial(e: nat)
    | EndRedial(e: nat, ok: bool, now: int)
    | GiveUpReplacing(e: nat)     // closing, a live connection, or the pool's context
    | StopReplacement(e: nat)
    | ConnDone(i: nat)
    | ExpiryPass(e: nat, now: int)
    | BeginClose
    | CloseAll

  // What a caller in its locked section has found before it dials or waits.
  ghost predicate Unserved(p: Pool, c: nat)
  {
    c < |p.callers| && p.callers[c].at.Looking? && !p.closing && NothingFor(p, p.callers[c].wish)
  }

  ghost predicate CallerEnabled(p: Pool, e: Event)
  {
    match e
    case Arrive(wish) => if wish.Through? then wish.lease < |p.leases| else wish.exact.Some? ==> wish.exact.value < |p.endpoints|
    case Grant(c, i) =>
      && c < |p.callers| && p.callers[c].at.Looking? && !p.closing
      && var w := p.callers[c].wish; !w.Through? && Selectable(p, w.exact, w.Exclusive?, i)
    case GrantThrough(c) =>
      && c < |p.callers| && p.callers[c].at.Looking?
      && p.callers[c].wish.Through? && LeaseAdmits(p, p.callers[c].wish.lease)
    case BeginDial(c, x) =>
      && Unserved(p, c) && x < |p.endpoints| && Load(p, x) < p.options.cap
      && var w := p.callers[c].wish; !w.Through? && (w.exact.None? || w.exact.value == x)
    case EndDial(c, _, _) =>
      && c < |p.callers| && p.callers[c].at.DialingAt? && p.callers[c].at.endpoint < |p.endpoints|
      && p.endpoints[p.callers[c].at.endpoint].acquirers > 0
    case Retry(c) => c < |p.callers| && p.callers[c].at.DialFailed? && !p.callers[c].wish.Through? && p.callers[c].wish.exact.None?
    case LeaveFailed(c) => c < |p.callers| && p.callers[c].at.DialFailed?
    case Wait(c) => Unserved(p, c) && (p.callers[c].registered || p.waiters != p.options.maxWaiters)
    case Wake(c) => c < |p.callers| && p.callers[c].at.Waiting?
    case Refuse(c) =>
      && c < |p.callers|
      && (|| p.callers[c].at.Waiting?
          || (p.callers[c].at.Looking? && (p.closing || p.callers[c].wish.Through?))
          || (Unserved(p, c) && !p.callers[c].registered && p.waiters == p.options.maxWaiters))
    case _ => false
  }

  ghost predicate Enabled(p: Pool, e: Event)
  {
    match e
    case ReleaseWork(w, _) =>
      && w < |p.works| && !p.works[w].released && p.works[w].conn < |p.conns|
      && (p.works[w].lease.Some? ==> p.works[w].lease.value < |p.leases|)
    case EndLease(l, _) => l < |p.leases| && !p.leases[l].closed && p.leases[l].conn < |p.conns|
    case StartReplacement(x) => x < |p.endpoints| && !p.closing && !p.endpoints[x].replacing && Live(p, x) == 0
    case BeginRedial(x) => x < |p.endpoints| && !p.closing && p.endpoints[x].deciding > 0 && Live(p, x) == 0
    case EndRedial(x, _, _) => x < |p.endpoints| && p.endpoints[x].redialing > 0
    case GiveUpReplacing(x) => x < |p.endpoints| && p.endpoints[x].deciding > 0
    case StopReplacement(x) => x < |p.endpoints| && p.endpoints[x].leaving > 0
    case ConnDone(i) => i < |p.conns| && !p.conns[i].broken
    case ExpiryPass(x, _) => x < |p.endpoints| && !p.closing
    case BeginClose => true
    case CloseAll => p.closing
    case _ => CallerEnabled(p, e)
  }

  function SetEndpoint(p: Pool, x: nat, q: Endpoint): Pool
    requires x < |p.endpoints|
  {
    p.(endpoints := p.endpoints[x := q])
  }

  function Redial(q: Endpoint): Endpoint
    requires q.deciding > 0
  {
    q.(deciding := q.deciding - 1, redialing := q.redialing + 1)
  }

  function Redialed(q: Endpoint, ok: bool): Endpoint
    requires q.redialing > 0
  {
    q.(redialing := q.redialing - 1,
       leaving := if ok then q.leaving + 1 else q.leaving,
       deciding := if ok then q.deciding else q.deciding + 1)
  }

  // A dial that succeeded after closing began is closed again, unlisted.
  function AddConn(p: Pool, x: nat, ok: bool, now: int): Pool
  {
    if ok && !p.closing then p.(conns := p.conns + [NewConn(x, now)]) else p
  }

  function MoveCaller(p: Pool, c: nat, at: Place): Pool
    requires c < |p.callers|
  {
    p.(callers := p.callers[c := p.callers[c].(at := at)])
  }

  // unregisterWaiterLocked, and back to the caller
  function Unregister(p: Pool, c: nat): Pool
    requires c < |p.callers|
  {
    p.(waiters := if p.callers[c].registered then p.waiters - 1 else p.waiters,
       callers := p.callers[c := p.callers[c].(registered := false, at := Gone)])
  }

  function Register(p: Pool, c: nat): Pool
    requires c < |p.callers|
  {
    p.(waiters := if p.callers[c].registered then p.waiters else p.waiters + 1,
       callers := p.callers[c := p.callers[c].(registered := true, at := Waiting)])
  }

  // What becomes of a caller whose dial has ended.
  function Dialed(p: Pool, ok: bool): Place { if !ok then DialFailed else if p.closing then Gone else Looking }

  function HangUp(p: Pool, c: nat, ok: bool): Pool
    requires c < |p.callers| && p.callers[c].at.DialingAt? && p.callers[c].at.endpoint < |p.endpoints|
    requires p.endpoints[p.callers[c].at.endpoint].acquirers > 0
  {
    var x := p.callers[c].at.endpoint;
    SetEndpoint(MoveCaller(p, c, Dialed(p, ok)), x, p.endpoints[x].(acquirers := p.endpoints[x].acquirers - 1))
  }

  ghost function CallerApply(p: Pool, e: Event): Pool
    requires CallerEnabled(p, e)
  {
    match e
    case Arrive(wish) => p.(callers := p.callers + [Caller(wish, false, Looking)])
    case Grant(c, i) => Unregister(if p.callers[c].wish.Exclusive? then TakeLease(p, i) else Admit(p, i), c)
    case GrantThrough(c) => Unregister(LeaseAdmit(p, p.callers[c].wish.lease), c)
    case BeginDial(c, x) =>
      SetEndpoint(MoveCaller(p, c, DialingAt(x)), x, p.endpoints[x].(acquirers := p.endpoints[x].acquirers + 1))
    case EndDial(c, ok, now) => AddConn(HangUp(p, c, ok), p.callers[c].at.endpoint, ok, now)
    case Retry(c) => MoveCaller(p, c, Looking)
    case LeaveFailed(c) => MoveCaller(p, c, Gone)
    case Wait(c) => Register(p, c)
    case Wake(c) => MoveCaller(p, c, Looking)
    case Refuse(c) => Unregister(p, c)
    case _ => p
  }

  ghost function Apply(p: Pool, e: Event): Pool
    requires Enabled(p, e)
  {
    match e
    case ReleaseWork(w, now) => Release(p, w, now)
    case EndLease(l, now) => CloseLease(p, l, now)
    case StartReplacement(x) => SetEndpoint(p, x, p.endpoints[x].(replacing := true, deciding := p.endpoints[x].deciding + 1))
    case BeginRedial(x) => SetEndpoint(p, x, Redial(p.endpoints[x]))
    case EndRedial(x, ok, now) => AddConn(SetEndpoint(p, x, Redialed(p.endpoints[x], ok)), x, ok, now)
    case GiveUpReplacing(x) =>
      SetEndpoint(p, x, p.endpoints[x].(deciding := p.endpoints[x].deciding - 1, leaving := p.endpoints[x].leaving + 1))
    case StopReplacement(x) => SetEndpoint(p, x, p.endpoints[x].(leaving := p.endpoints[x].leaving - 1, replacing := false))
    case ConnDone(i) => SetConn(p, i, Break(p.conns[i]))
    case ExpiryPass(x, now) => p.(conns := Expire(p, x, now).0)
    case BeginClose => p.(closing := true)
    case CloseAll => p.(conns := seq(|p.conns|, i requires 0 <= i < |p.conns| => if p.conns[i].listed then p.conns[i].(retiring := true) else p.conns[i]))
    case _ => CallerApply(p, e)
  }

  // New: one connection per endpoint.
  ghost predicate Initial(p: Pool)
  {
    && p.options.Valid() && |p.endpoints| >= 1 && |p.conns| == |p.endpoints|
    && (forall x :: 0 <= x < |p.endpoints| ==> p.endpoints[x] == Endpoint(0, false, 0, 0, 0) && p.conns[x] == NewConn(x, p.conns[x].created))
    && p == Pool(p.options, false, 0, p.endpoints, p.conns, [], [], [])
  }

  // A run: the states it passes through, one event between neighbours.
  ghost predicate IsRun(states: seq<Pool>, events: seq<Event>)
  {
    && |states| == |events| + 1
    && Initial(states[0])
    && forall k :: 0 <= k < |events| ==> Enabled(states[k], events[k]) && states[k + 1] == Apply(states[k], events[k])
  }
}
