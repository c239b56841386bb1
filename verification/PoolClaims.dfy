/** What holds in every run of the pool. */
module PoolClaims {
  import opened BerTypes
  import opened PoolCore
  import opened PoolInv
  import opened PoolRuns

  /** The invariant holds in every state of every run. */
  lemma {:induction false} RunInv(states: seq<Pool>, events: seq<Event>, n: nat)
    requires IsRun(states, events) && n < |states|
    ensures Inv(states[n])
  {
    hide Inv, Initial, Enabled, Apply;
    if n == 0 {
      InitialInv(states[0]);
    } else {
      RunInv(states, events, n - 1);
      StepKeeps(states[n - 1], events[n - 1]);
    }
  }

  // --------------------------------------------------------- admission and leases

  /** A connection's inFlight is exactly its admitted and unreleased operations and
      within the limit. While it is leased it is neither broken nor draining, one
      lease alone holds it, and that lease owns every one of those operations. Once
      broken it stays listed exactly as long as it has operations, and a draining one is
      being closed as soon as it has none. */
  lemma LeasesAreExclusive(states: seq<Pool>, events: seq<Event>, n: nat, i: nat)
    requires IsRun(states, events) && n < |states| && i < |states[n].conns|
    ensures var p, c := states[n], states[n].conns[i];
            && c.inFlight == Tally(p.works, ByConn(i)) <= p.options.maxInFlight
            && (c.leased.Some? ==>
                  && !c.broken && !c.draining
                  && (forall l :: 0 <= l < |p.leases| && p.leases[l].conn == i && Holding(p.leases[l]) <==> l == c.leased.value)
                  && (forall w :: 0 <= w < |p.works| && Owes(p.works[w], ByConn(i)) ==> p.works[w].lease == c.leased))
            && (c.broken ==> (c.listed <==> c.inFlight > 0))
            && (c.draining && c.inFlight == 0 ==> c.retiring)
            && (!c.broken && c.leased.None? ==>
                  forall l :: 0 <= l < |p.leases| && p.leases[l].conn == i ==> !Holding(p.leases[l]))
  {
    hide IsRun, Tally, LoadInv;
    RunInv(states, events, n);
    var p, c := states[n], states[n].conns[i];
    assert ConnOk(c, i, p.leases, p.options);
    if c.leased.Some? { TallyWithin(p.works, i, c.leased.value); }
  }

  // The connection is one of the endpoint that the caller asks for, if any.
  predicate Asked(p: Pool, c: nat, conn: PConn)
  {
    c < |p.callers| && !p.callers[c].wish.Through? && (p.callers[c].wish.exact.Some? ==> conn.endpoint == p.callers[c].wish.exact.value)
  }

  /** A step admits an operation only while the pool is open, and only on a connection
      that is listed, neither broken nor draining, and below its limit; without a lease
      the connection is unleased, of the endpoint the caller asks for if any, and no other
      one the caller may have does less. A lease is granted only on such a connection that
      is idle. */
  lemma AdmitsOnly(p: Pool, e: Event)
    requires Inv(p) && Enabled(p, e)
    ensures |p.works| <= |Apply(p, e).works| <= |p.works| + 1 && |p.leases| <= |Apply(p, e).leases| <= |p.leases| + 1
    ensures |Apply(p, e).works| > |p.works| ==>
              var w := Apply(p, e).works[|p.works|];
              && !p.closing && !w.released && w.conn < |p.conns|
              && var c := p.conns[w.conn];
                 && c.listed && !c.broken && !c.draining && c.inFlight < p.options.maxInFlight
                 && (if w.lease.Some? then c.leased == w.lease && w.lease.value < |p.leases| && !p.leases[w.lease.value].closed
                     else c.leased.None? && e.Grant? && Asked(p, e.c, c) && forall j :: 0 <= j < |p.conns| && p.conns[j].inFlight < c.inFlight ==>
                            var d, wish := p.conns[j], p.callers[e.c].wish;
                            !d.listed || d.broken || d.draining || d.leased.Some? || (wish.exact.Some? && d.endpoint != wish.exact.value))
    ensures |Apply(p, e).leases| > |p.leases| ==>
              var l := Apply(p, e).leases[|p.leases|];
              && !p.closing && !l.closed && l.inFlight == 0 && l.conn < |p.conns|
              && var c := p.conns[l.conn];
                 c.listed && !c.broken && !c.draining && c.leased.None? && c.inFlight == 0 && e.Grant? && Asked(p, e.c, c)
  {
    if CallerEnabled(p, e) {
      CallerAdmits(p, e);
    } else {
      hide Sum, Expire, Inv, CallerEnabled;
    }
  }

  lemma CallerAdmits(p: Pool, e: Event)
    requires Inv(p) && CallerEnabled(p, e)
    ensures var p' := CallerApply(p, e);
            && (if e.Grant? && !p.callers[e.c].wish.Exclusive? then p'.works == p.works + [Work(e.i, None, false)]
                else if e.GrantThrough? then
                  var l := p.callers[e.c].wish.lease; l < |p.leases| && p'.works == p.works + [Work(p.leases[l].conn, Some(l), false)]
                else p'.works == p.works)
            && (if e.Grant? && p.callers[e.c].wish.Exclusive? then p'.leases == p.leases + [Lease(e.i, false, 0)] else |p'.leases| == |p.leases|)
    ensures e.GrantThrough? ==> var l := p.callers[e.c].wish.lease;
                                && LeaseAdmits(p, l) && var c := p.conns[p.leases[l].conn];
                                   c.leased == Some(l) && c.inFlight == p.leases[l].inFlight && c.listed && !c.draining
  {
    if e.GrantThrough? { LeaseHolds(p, p.callers[e.c].wish.lease); }
    hide Sum, NothingFor, Selectable, Inv;
  }

  // One more connection of the endpoint: alive, idle, unleased and as young as can be.
  ghost predicate Gains(before: seq<PConn>, after: seq<PConn>, x: nat, now: int)
  {
    && |after| == |before| + 1 && after[..|before|] == before
    && var c := after[|before|];
       && c.endpoint == x && c.listed && !c.broken && !c.draining && !c.retiring
       && c.inFlight == 0 && c.leased.None? && c.created == now && c.lastIdle == now
  }

  /** A dial that succeeds before the pool closes lists one more connection of its
      endpoint; one that fails, or that succeeds too late, lists none. */
  lemma DialLists(p: Pool, c: nat, ok: bool, now: int)
    requires CallerEnabled(p, EndDial(c, ok, now))
    ensures var p' := CallerApply(p, EndDial(c, ok, now));
            if ok && !p.closing then Gains(p.conns, p'.conns, p.callers[c].at.endpoint, now) else p'.conns == p.conns
  {
  }

  lemma RedialLists(p: Pool, x: nat, ok: bool, now: int)
    requires Enabled(p, EndRedial(x, ok, now))
    ensures var p' := Apply(p, EndRedial(x, ok, now));
            if ok && !p.closing then Gains(p.conns, p'.conns, x, now) else p'.conns == p.conns
  {
  }

  /** A caller is made to wait, and one at the limit on waiters is turned away, only while
      every connection it may have is gone, broken, draining, leased or full; for a lease,
      any connection at work is as good as full. */
  lemma WaitsOnlyWhenFull(p: Pool, c: nat, i: nat)
    requires c < |p.callers| && i < |p.conns| && p.callers[c].at.Looking? && !p.callers[c].wish.Through?
    requires Enabled(p, Wait(c)) || (Enabled(p, Refuse(c)) && !p.closing)
    ensures var d, w := p.conns[i], p.callers[c].wish;
            || !d.listed || d.broken || d.draining || d.leased.Some? || (w.exact.Some? && d.endpoint != w.exact.value)
            || (if w.Exclusive? then d.inFlight > 0 else d.inFlight >= p.options.maxInFlight)
  {
  }

  // ------------------------------------------------------------------- draining

  // Giving back, letting go and breaking make a connection neither more active nor live.
  ghost predicate Falls(d: PConn, c: PConn)
  {
    Weight(d, Activity) <= Weight(c, Activity) && d.endpoint == c.endpoint && (IsLive(d) ==> IsLive(c))
  }

  lemma ReleaseFalls(p: Pool, w: nat, now: int)
    requires w < |p.works| && p.works[w].conn < |p.conns| && (p.works[w].lease.Some? ==> p.works[w].lease.value < |p.leases|)
    ensures var p', i := Release(p, w, now), p.works[w].conn;
            |p'.conns| == |p.conns| && p'.conns == p.conns[i := p'.conns[i]] && Falls(p'.conns[i], p.conns[i])
  {
  }

  lemma CloseFalls(p: Pool, l: nat, now: int)
    requires l < |p.leases| && p.leases[l].conn < |p.conns|
    ensures var p', i := CloseLease(p, l, now), p.leases[l].conn;
            |p'.conns| == |p.conns| && p'.conns == p.conns[i := p'.conns[i]] && Falls(p'.conns[i], p.conns[i])
  {
  }

  lemma BreakFalls(c: PConn)
    ensures Falls(Break(c), c)
  {
  }

  lemma ActiveUpdate(p: Pool, i: nat, c: PConn)
    requires i < |p.conns| && Weight(c, Activity) <= Weight(p.conns[i], Activity)
    ensures Sum(p.conns[i := c], Activity) <= Active(p)
  {
    SumUpdate(p.conns, i, c, Activity);
  }

  lemma ActiveBelow(p: Pool, conns: seq<PConn>)
    requires |conns| == |p.conns| && forall i :: 0 <= i < |conns| ==> Weight(conns[i], Activity) <= Weight(p.conns[i], Activity)
    ensures Sum(conns, Activity) <= Active(p)
  {
    SumBelow(p.conns, conns, Activity);
  }

  // No activity is added, and nothing admitted or released is taken back.
  ghost predicate OnlyLess(p: Pool, p': Pool)
  {
    && p'.closing && Active(p') <= Active(p) && |p'.works| == |p.works| && |p'.leases| == |p.leases|
    && forall w :: 0 <= w < |p.works| && p.works[w].released ==> p'.works[w].released
  }

  lemma CallerClosing(p: Pool, e: Event)
    requires p.closing && CallerEnabled(p, e)
    ensures OnlyLess(p, CallerApply(p, e))
  {
    hide Sum, NothingFor, Selectable, Load;
  }

  /** Once closing is set no step admits an operation, grants a lease or raises the
      active count. */
  lemma ClosingStep(p: Pool, e: Event)
    requires p.closing && Enabled(p, e)
    ensures OnlyLess(p, Apply(p, e))
  {
    if CallerEnabled(p, e) {
      hide CallerApply;
      CallerClosing(p, e);
    } else {
      hide Sum, Expire, CallerEnabled, Settle, Unlist, Break, Less;
      var p' := Apply(p, e);
      match e
      case ReleaseWork(w, now) => ReleaseFalls(p, w, now); ActiveUpdate(p, p.works[w].conn, p'.conns[p.works[w].conn]);
      case EndLease(l, now) => CloseFalls(p, l, now); ActiveUpdate(p, p.leases[l].conn, p'.conns[p.leases[l].conn]);
      case ConnDone(i) => BreakFalls(p.conns[i]); ActiveUpdate(p, i, p'.conns[i]);
      case CloseAll => ActiveBelow(p, p'.conns);
      case _ =>
    }
  }

  lemma {:induction false} ClosingRun(states: seq<Pool>, events: seq<Event>, m: nat, n: nat)
    requires IsRun(states, events) && m <= n < |states| && states[m].closing
    ensures states[n].closing && Active(states[n]) <= Active(states[m]) && |states[n].works| == |states[m].works|
    ensures forall w :: 0 <= w < |states[m].works| && states[m].works[w].released ==> states[n].works[w].released
    decreases n - m
  {
    hide Initial, Enabled, Apply, Active;
    if m < n {
      ClosingRun(states, events, m, n - 1);
      ClosingStep(states[n - 1], events[n - 1]);
    }
  }

  // A connection with unreleased operations is still listed, and counted.
  lemma BusyIsActive(p: Pool, w: nat)
    requires Inv(p) && w < |p.works| && !p.works[w].released
    ensures p.conns[p.works[w].conn].listed && Active(p) > 0
  {
    hide Sum, Tally, LoadInv;
    var i := p.works[w].conn;
    TallyPositive(p.works, w, ByConn(i));
    assert ConnOk(p.conns[i], i, p.leases, p.options);
    if Active(p) == 0 { SumZero(p.conns, Activity, i); }
  }

  /** A drain that finds the active count zero after closing began has waited for
      everything: every operation ever admitted was released, and in no later state
      is there another, or any activity. Until then, a connection with an unreleased
      operation stays listed. */
  lemma DrainIsComplete(states: seq<Pool>, events: seq<Event>, m: nat, n: nat)
    requires IsRun(states, events) && m <= n < |states| && states[m].closing
    ensures forall w :: 0 <= w < |states[m].works| && !states[m].works[w].released ==>
              states[m].works[w].conn < |states[m].conns| && states[m].conns[states[m].works[w].conn].listed && Active(states[m]) > 0
    ensures Active(states[m]) == 0 ==>
              && (forall w :: 0 <= w < |states[n].works| ==> states[n].works[w].released)
              && Active(states[n]) == 0
  {
    hide IsRun, Active, CountsInv, LeasesInv, LoadInv;
    RunInv(states, events, m);
    forall w | 0 <= w < |states[m].works| && !states[m].works[w].released
      ensures states[m].conns[states[m].works[w].conn].listed && Active(states[m]) > 0
    {
      BusyIsActive(states[m], w);
    }
    ClosingRun(states, events, m, n);
  }

  // ---------------------------------------------------------------- connection cap

  /** No endpoint ever has more than the cap plus one of live connections and dials,
      acquire alone dials at most the cap, and at most one replacement goroutine runs. */
  lemma CapPlusOne(states: seq<Pool>, events: seq<Event>, n: nat, x: nat)
    requires IsRun(states, events) && n < |states| && x < |states[n].endpoints|
    ensures Load(states[n], x) <= states[n].options.cap + 1
    ensures states[n].endpoints[x].acquirers <= states[n].options.cap
    ensures states[n].endpoints[x].deciding + states[n].endpoints[x].redialing + states[n].endpoints[x].leaving <= 1
  {
    hide IsRun, WorksInv, CountsInv, LeasesInv, Load;
    RunInv(states, events, n);
    assert DialsOk(states[n].endpoints[x], states[n].options);
  }

  // A step that replaces connection i by one that is live only if it was.
  lemma LiveUpdate(p: Pool, i: nat, c: PConn, x: nat)
    requires i < |p.conns| && c.endpoint == p.conns[i].endpoint && (IsLive(c) ==> IsLive(p.conns[i]))
    ensures Sum(p.conns[i := c], LiveAt(x)) <= Live(p, x)
  {
    SumUpdate(p.conns, i, c, LiveAt(x));
  }

  lemma ConnStepLoad(p: Pool, e: Event, x: nat)
    requires Enabled(p, e) && x < |p.endpoints|
    requires e.ReleaseWork? || e.EndLease? || e.ConnDone?
    ensures Load(Apply(p, e), x) <= Load(p, x)
  {
    hide Sum, Settle, Unlist, Break, Less;
    var p' := Apply(p, e);
    match e
    case ReleaseWork(w, now) => ReleaseFalls(p, w, now); LiveUpdate(p, p.works[w].conn, p'.conns[p.works[w].conn], x);
    case EndLease(l, now) => CloseFalls(p, l, now); LiveUpdate(p, p.leases[l].conn, p'.conns[p.leases[l].conn], x);
    case ConnDone(i) => BreakFalls(p.conns[i]); LiveUpdate(p, i, p'.conns[i], x);
  }

  predicate StartsDial(e: Event, x: nat) { (e.BeginDial? && e.e == x) || e == BeginRedial(x) }

  lemma CallerLoad(p: Pool, e: Event, x: nat)
    requires CallerEnabled(p, e) && x < |p.endpoints|
    ensures var p' := CallerApply(p, e);
            |p'.endpoints| == |p.endpoints| && Load(p', x) <= Load(p, x) + if StartsDial(e, x) then 1 else 0
  {
    hide Sum, NothingFor;
    match e
    case Grant(c, i) =>
      assert i < |p.conns|;
      hide Selectable;
      LiveUpdate(p, i, CallerApply(p, e).conns[i], x);
    case GrantThrough(c) =>
      var i := p.leases[p.callers[c].wish.lease].conn;
      LiveUpdate(p, i, CallerApply(p, e).conns[i], x);
    case EndDial(c, ok, now) => SumAppend(p.conns, NewConn(p.callers[c].at.endpoint, now), LiveAt(x));
    case _ =>
  }

  lemma EndpointStepLoad(p: Pool, e: Event, x: nat)
    requires Enabled(p, e) && x < |p.endpoints|
    requires e.StartReplacement? || e.BeginRedial? || e.EndRedial? || e.GiveUpReplacing? || e.StopReplacement? || e.ExpiryPass? || e.BeginClose? || e.CloseAll?
    ensures Load(Apply(p, e), x) <= Load(p, x) + if StartsDial(e, x) then 1 else 0
    ensures e == BeginRedial(x) ==> Load(Apply(p, e), x) == Load(p, x) + 1
  {
    hide Sum, Expire;
    match e
    case EndRedial(y, ok, now) => SumAppend(p.conns, NewConn(y, now), LiveAt(x));
    case ExpiryPass(y, now) => ExpireLoad(p, y, now, x);
    case CloseAll => SumBelow(p.conns, Apply(p, e).conns, LiveAt(x));
    case _ =>
  }

  lemma ExpireLoad(p: Pool, y: nat, now: int, x: nat)
    ensures Sum(Expire(p, y, now).0, LiveAt(x)) <= Live(p, x)
  {
    ExpirePointwise(p.conns, y, now, Live(p, y), p.options);
    SumBelow(p.conns, Expire(p, y, now).0, LiveAt(x));
  }

  /** The cap is passed exactly by a replacement dial that starts while the dials in
      acquire already fill it. */
  lemma OnlyRedialPassesTheCap(p: Pool, e: Event, x: nat)
    requires Enabled(p, e) && x < |p.endpoints| && Load(p, x) <= p.options.cap
    ensures |Apply(p, e).endpoints| == |p.endpoints|
    ensures Load(Apply(p, e), x) > p.options.cap <==> e == BeginRedial(x) && p.endpoints[x].Dialing() == p.options.cap
  {
    SameEndpoints(p, e);
    if e.ReleaseWork? || e.EndLease? || e.ConnDone? {
      hide Apply;
      ConnStepLoad(p, e, x);
    } else if e.StartReplacement? || e.BeginRedial? || e.EndRedial? || e.GiveUpReplacing? || e.StopReplacement? || e.ExpiryPass? || e.BeginClose? || e.CloseAll? {
      hide Apply;
      EndpointStepLoad(p, e, x);
    } else {
      hide CallerApply;
      CallerLoad(p, e, x);
    }
  }

  lemma SameEndpoints(p: Pool, e: Event)
    requires Enabled(p, e)
    ensures |Apply(p, e).endpoints| == |p.endpoints|
  {
    hide Sum, Expire, NothingFor, Selectable, Break, LeaseAdmits, Load;
  }

  lemma SumOne(c: PConn, m: Measure)
    ensures Sum([c], m) == Weight(c, m)
  {
    assert [c][..0] == [];
  }

  // A pool of one endpoint that allows one connection, one operation on it and one
  // waiter.
  function Small(waiters: int, q: Endpoint, c: PConn, works: seq<Work>, callers: seq<Caller>): Pool
  {
    Pool(Options(1, 1, 1, 1, 1), false, waiters, [q], [c], [], works, callers)
  }

  const FIRST := NewConn(0, 0)
  const AT_REST := Endpoint(0, false, 0, 0, 0)
  const DIALED := Endpoint(1, false, 0, 0, 0)
  const REPLACED := Endpoint(1, true, 1, 0, 0)
  const BOTH := Endpoint(1, true, 0, 1, 0)

  // A caller that insists on the one endpoint.
  const WISH := Operation(Some(0))

  function At(place: Place, registered: bool): Caller { Caller(WISH, registered, place) }

  // The last state of some run.
  ghost predicate Reachable(p: Pool)
  {
    exists states, events :: IsRun(states, events) && states[|events|] == p
  }

  lemma Reaches(p: Pool, e: Event)
    requires Reachable(p) && Enabled(p, e)
    ensures Reachable(Apply(p, e))
  {
    hide Initial, Enabled, Apply;
    var states, events :| IsRun(states, events) && states[|events|] == p;
    var states', events' := states + [Apply(p, e)], events + [e];
    forall k | 0 <= k < |events'| ensures Enabled(states'[k], events'[k]) && states'[k + 1] == Apply(states'[k], events'[k]) {
      if k < |events| { assert states'[k] == states[k] && states'[k + 1] == states[k + 1]; }
    }
    assert IsRun(states', events') && states'[|events'|] == Apply(p, e);
  }

  lemma SmallStart()
    ensures Reachable(Small(0, AT_REST, FIRST, [], []))
  {
    var p, events: seq<Event> := Small(0, AT_REST, FIRST, [], []), [];
    assert IsRun([p], events) && [p][|events|] == p;
  }

  lemma SmallBreaks(waiters: int, c: PConn, works: seq<Work>, callers: seq<Caller>)
    requires !c.broken
    ensures Enabled(Small(waiters, AT_REST, c, works, callers), ConnDone(0))
    ensures Apply(Small(waiters, AT_REST, c, works, callers), ConnDone(0)) == Small(waiters, AT_REST, Break(c), works, callers)
  {
    assert [c][0 := Break(c)] == [Break(c)];
  }

  lemma SmallArrives(waiters: int, q: Endpoint, c: PConn, works: seq<Work>, callers: seq<Caller>)
    ensures Enabled(Small(waiters, q, c, works, callers), Arrive(WISH))
    ensures Apply(Small(waiters, q, c, works, callers), Arrive(WISH)) == Small(waiters, q, c, works, callers + [At(Looking, false)])
  {
  }

  // The last caller starts to dial.
  lemma SmallDials(waiters: int, c: PConn, works: seq<Work>, callers: seq<Caller>, registered: bool)
    requires c.broken && |callers| <= 1
    ensures var p := Small(waiters, AT_REST, c, works, callers + [At(Looking, registered)]);
            Enabled(p, BeginDial(|callers|, 0)) &&
            Apply(p, BeginDial(|callers|, 0)) == Small(waiters, DIALED, c, works, callers + [At(DialingAt(0), registered)])
  {
    SumOne(c, LiveAt(0));
    hide Sum;
    var n := |callers|;
    assert (callers + [At(Looking, registered)])[n := At(DialingAt(0), registered)] == callers + [At(DialingAt(0), registered)];
    assert [AT_REST][0 := DIALED] == [DIALED];
  }

  lemma SmallRedials(c: PConn, callers: seq<Caller>)
    requires c.broken
    ensures Enabled(Small(0, DIALED, c, [], callers), StartReplacement(0))
    ensures Apply(Small(0, DIALED, c, [], callers), StartReplacement(0)) == Small(0, REPLACED, c, [], callers)
    ensures Enabled(Small(0, REPLACED, c, [], callers), BeginRedial(0))
    ensures Apply(Small(0, REPLACED, c, [], callers), BeginRedial(0)) == Small(0, BOTH, c, [], callers)
    ensures Load(Small(0, BOTH, c, [], callers), 0) == 2
  {
    SumOne(c, LiveAt(0));
    hide Sum;
    assert [DIALED][0 := REPLACED] == [REPLACED] && [REPLACED][0 := BOTH] == [BOTH];
  }

  /** The cap is indeed passed: with a cap of one, the only connection breaks, a
      caller dials, and the replacement loop dials too. */
  lemma CapIsPassed() returns (p: Pool)
    ensures Reachable(p) && p.options.cap == 1 && |p.endpoints| == 1 && Load(p, 0) == 2
  {
    var c, dialing := Break(FIRST), [At(DialingAt(0), false)];
    assert c.broken;
    SmallStart();
    SmallBreaks(0, FIRST, [], []);
    SmallArrives(0, AT_REST, c, [], []);
    SmallDials(0, c, [], [], false);
    SmallRedials(c, dialing);
    assert [] + [At(Looking, false)] == [At(Looking, false)] && [] + dialing == dialing;
    p := Small(0, BOTH, c, [], dialing);
    assert p.options.cap == 1 && |p.endpoints| == 1;
    hide *;
    Reaches(Small(0, AT_REST, FIRST, [], []), ConnDone(0));
    Reaches(Small(0, AT_REST, c, [], []), Arrive(WISH));
    Reaches(Small(0, AT_REST, c, [], [At(Looking, false)]), BeginDial(0, 0));
    Reaches(Small(0, DIALED, c, [], dialing), StartReplacement(0));
    Reaches(Small(0, REPLACED, c, [], dialing), BeginRedial(0));
  }

  // --------------------------------------------------------------------- expiry

  lemma {:induction false} SumFront(c: PConn, rest: seq<PConn>, m: Measure)
    ensures Sum([c] + rest, m) == Weight(c, m) + Sum(rest, m)
    decreases |rest|
  {
    if rest == [] {
      assert [c] + rest == [c] && [c][..0] == [];
    } else {
      var n := |rest| - 1;
      assert ([c] + rest)[..|rest|] == [c] + rest[..n];
      SumFront(c, rest[..n], m);
    }
  }

  lemma {:induction false} ExpireCounts(conns: seq<PConn>, e: nat, now: int, live: int, o: Options)
    requires live >= Sum(conns, LiveAt(e))
    ensures var (after, again) := ExpireFrom(conns, e, now, live, o);
            var gone := Sum(conns, LiveAt(e)) - Sum(after, LiveAt(e));
            gone >= 0 && (again <==> gone > 0 && live - gone == 0)
    decreases |conns|
  {
    if conns != [] {
      var c, rest := conns[0], conns[1..];
      assert conns == [c] + rest;
      SumFront(c, rest, LiveAt(e));
      if c.endpoint == e && Drains(c, now, live, o) {
        ExpireCounts(rest, e, now, live - 1, o);
        SumFront(Drain(c), ExpireFrom(rest, e, now, live - 1, o).0, LiveAt(e));
      } else {
        ExpireCounts(rest, e, now, live, o);
        SumFront(c, ExpireFrom(rest, e, now, live, o).0, LiveAt(e));
      }
    }
  }

  /** An expiry pass asks for a replacement exactly when it drains the last live
      connection of the endpoint. */
  lemma ExpirySchedulesReplacement(p: Pool, e: nat, now: int)
    ensures var (after, again) := Expire(p, e, now);
            again <==> Live(p, e) > 0 && Sum(after, LiveAt(e)) == 0
  {
    ExpireCounts(p.conns, e, now, Live(p, e), p.options);
  }

  // A connection of the endpoint that callers may still be given.
  predicate Alive(c: PConn, e: nat) { c.endpoint == e && c.listed && !c.broken && !c.draining }

  // When the pass comes to connection i, another one is alive: one it has left alone,
  // one it has still to come to, or one of those kept elsewhere.
  ghost predicate OthersAlive(before: seq<PConn>, after: seq<PConn>, i: nat, e: nat, kept: nat)
    requires |before| == |after|
  {
    || kept > 0
    || (exists j :: 0 <= j < i && j < |after| && Alive(after[j], e))
    || (exists j :: i < j < |before| && Alive(before[j], e))
  }

  // Connection j as it is when the pass comes to connection i.
  function Met(before: seq<PConn>, after: seq<PConn>, i: nat, j: nat): PConn
    requires |before| == |after| && j < |before|
  {
    if j < i then after[j] else before[j]
  }

  predicate Old(c: PConn, now: int, o: Options) { now - c.created >= o.maximumLifetime }

  predicate Unused(c: PConn, now: int, o: Options) { c.inFlight == 0 && now - c.lastIdle >= o.idleLifetime }

  // What the pass makes of one connection. It goes if it is old, or unused while
  // another is alive; then it is marked as draining, and is closed if it is idle.
  ghost predicate PassedOver(before: seq<PConn>, after: seq<PConn>, i: nat, e: nat, now: int, kept: nat, o: Options)
    requires |before| == |after| && i < |before|
  {
    var c, d := before[i], after[i];
    if Alive(c, e) && c.leased.None? && (Old(c, now, o) || (Unused(c, now, o) && OthersAlive(before, after, i, e, kept)))
    then d == c.(draining := true, retiring := c.retiring || c.inFlight == 0)
    else d == c
  }

  lemma {:induction false} SumAlive(conns: seq<PConn>, e: nat)
    ensures Sum(conns, LiveAt(e)) > 0 <==> exists j :: 0 <= j < |conns| && Alive(conns[j], e)
    decreases |conns|
  {
    if conns != [] {
      var n := |conns| - 1;
      SumAlive(conns[..n], e);
      assert forall j :: 0 <= j < n ==> conns[..n][j] == conns[j];
    }
  }

  /** The live connections of an endpoint are counted one by one. */
  lemma {:induction false} LiveIsCount(conns: seq<PConn>, e: nat)
    ensures Sum(conns, LiveAt(e)) == |set j | 0 <= j < |conns| && Alive(conns[j], e)|
    decreases |conns|
  {
    var all := set j | 0 <= j < |conns| && Alive(conns[j], e);
    if conns == [] {
      assert all == {};
    } else {
      var n := |conns| - 1;
      LiveIsCount(conns[..n], e);
      var front := set j | 0 <= j < |conns[..n]| && Alive(conns[..n][j], e);
      var last := if Alive(conns[n], e) then {n} else {};
      assert all == front + last by {
        assert forall j :: 0 <= j < n ==> conns[..n][j] == conns[j];
      }
      assert front !! last;
    }
  }

  /** A replacement is started, and dials, only while the pool is open and its endpoint
      has no connection that is listed, neither broken nor draining. */
  lemma ReplacesOnlyTheDead(p: Pool, x: nat, i: nat)
    requires Enabled(p, StartReplacement(x)) || Enabled(p, BeginRedial(x))
    requires i < |p.conns| && p.conns[i].endpoint == x
    ensures !p.closing && (!p.conns[i].listed || p.conns[i].broken || p.conns[i].draining)
  {
    hide Sum;
    SumAlive(p.conns, x);
    assert !Alive(p.conns[i], x);
  }

  /** Closing retires every connection that is still listed, and changes nothing else. */
  lemma ClosesAll(p: Pool)
    requires Enabled(p, CloseAll)
    ensures var p' := Apply(p, CloseAll);
            && p.closing && p' == p.(conns := p'.conns) && |p'.conns| == |p.conns|
            && forall i :: 0 <= i < |p.conns| ==>
                 if p.conns[i].listed then p'.conns[i].retiring && p'.conns[i] == p.conns[i].(retiring := true) else p'.conns[i] == p.conns[i]
  {
  }

  // One place further back in both lists.
  lemma OthersShift(before: seq<PConn>, after: seq<PConn>, i: nat, e: nat, kept: nat)
    requires |before| == |after| && 0 < i < |before|
    ensures OthersAlive(before, after, i, e, kept)
        <==> OthersAlive(before[1..], after[1..], i - 1, e, kept + if Alive(after[0], e) then 1 else 0)
  {
    var b, a := before[1..], after[1..];
    if j :| 0 <= j < i && Alive(after[j], e) { if j > 0 { assert Alive(a[j - 1], e); } }
    if j :| 0 <= j < i - 1 && j < |a| && Alive(a[j], e) { assert Alive(after[j + 1], e); }
    if j :| i < j < |before| && Alive(before[j], e) { assert Alive(b[j - 1], e); }
    if j :| i - 1 < j < |b| && Alive(b[j], e) { assert Alive(before[j + 1], e); }
  }

  // The first connection of a list.
  lemma FirstPassed(c: PConn, rest: seq<PConn>, after: seq<PConn>, e: nat, now: int, kept: nat, o: Options)
    requires |after| == |rest| + 1
    requires var live := kept + Sum([c] + rest, LiveAt(e));
             after[0] == if c.endpoint == e && Drains(c, now, live, o) then Drain(c) else c
    ensures PassedOver([c] + rest, after, 0, e, now, kept, o)
  {
    SumFront(c, rest, LiveAt(e));
    SumAlive(rest, e);
    hide Sum;
    var before := [c] + rest;
    assert forall j :: 0 < j < |before| ==> before[j] == rest[j - 1];
    if j :| 0 <= j < |rest| && Alive(rest[j], e) { assert Alive(before[j + 1], e); }
  }

  lemma {:induction false} ExpireMeans(conns: seq<PConn>, e: nat, now: int, live: int, kept: nat, o: Options, i: nat)
    requires live == kept + Sum(conns, LiveAt(e)) && i < |conns|
    ensures PassedOver(conns, ExpireFrom(conns, e, now, live, o).0, i, e, now, kept, o)
    decreases |conns|
  {
    var c, rest, after := conns[0], conns[1..], ExpireFrom(conns, e, now, live, o).0;
    assert conns == [c] + rest;
    var live' := if c.endpoint == e && Drains(c, now, live, o) then live - 1 else live;
    var tail := ExpireFrom(rest, e, now, live', o).0;
    assert after == [after[0]] + tail && after[1..] == tail;
    if i == 0 {
      FirstPassed(c, rest, after, e, now, kept, o);
    } else {
      SumFront(c, rest, LiveAt(e));
      var kept' := kept + if Alive(after[0], e) then 1 else 0;
      ExpireMeans(rest, e, now, live', kept', o, i - 1);
      OthersShift(conns, after, i, e, kept);
    }
  }

  /** What an expiry pass does to an endpoint's connections, whatever their number and
      age. Afterwards none that is alive and unleased has reached the maximum lifetime.
      One that was drained before that was idle, had been so for the idle lifetime, and
      was not the last one alive when it went. A leased one, a busy one that is not too
      old, and every connection of another endpoint are as before. An idle one past the
      idle lifetime is spared only as the last one alive. */
  lemma ExpiryMeans(p: Pool, e: nat, now: int, i: nat)
    requires i < |p.conns|
    ensures var o, after, c, d := p.options, Expire(p, e, now).0, p.conns[i], Expire(p, e, now).0[i];
            && |after| == |p.conns|
            && (d == c || d == c.(draining := true, retiring := c.retiring || c.inFlight == 0))
            && (Alive(d, e) && d.leased.None? ==> now - d.created < o.maximumLifetime)
            && (d != c && now - c.created < o.maximumLifetime ==>
                  && c.inFlight == 0 && now - c.lastIdle >= o.idleLifetime
                  && exists j :: 0 <= j < |after| && j != i && Alive(Met(p.conns, after, i, j), e))
            && (!Alive(c, e) || c.leased.Some? || (c.inFlight > 0 && now - c.created < o.maximumLifetime) ==> d == c)
            && (Alive(d, e) && d.leased.None? && d.inFlight == 0 && now - d.lastIdle >= o.idleLifetime ==>
                  forall j :: 0 <= j < |after| && j != i ==> !Alive(after[j], e))
  {
    var after := Expire(p, e, now).0;
    ExpireMeans(p.conns, e, now, Live(p, e), 0, p.options, i);
    ExpirePointwise(p.conns, e, now, Live(p, e), p.options);
    hide ExpireFrom, Sum;
    var o, c, d := p.options, p.conns[i], after[i];
    if d != c && !Old(c, now, o) {
      if j :| 0 <= j < i && Alive(after[j], e) { assert Alive(Met(p.conns, after, i, j), e); }
      else if j :| i < j < |p.conns| && Alive(p.conns[j], e) { assert Alive(Met(p.conns, after, i, j), e); }
    }
  }

  // -------------------------------------------------------------------- waiters

  // Callers that are counted as waiters and have not returned.
  function Blocked(p: Pool): int { p.waiters - Members(p.callers, Leaked) }

  /** The waiters never exceed the limit. They are the callers that registered and
      have not returned, and besides those that returned without unregistering. */
  lemma WaitersAreBounded(states: seq<Pool>, events: seq<Event>, n: nat)
    requires IsRun(states, events) && n < |states|
    ensures states[n].waiters == Members(states[n].callers, Registered) <= states[n].options.maxWaiters
    ensures 0 <= Blocked(states[n])
    ensures forall c :: 0 <= c < |states[n].callers| && states[n].callers[c].registered && !states[n].callers[c].at.Gone? ==> Blocked(states[n]) > 0
  {
    hide IsRun, WorksInv, CountsInv, LeasesInv, LoadInv, Members;
    RunInv(states, events, n);
    MembersWithin(states[n].callers, |states[n].callers|);
    forall c | 0 <= c < |states[n].callers| && states[n].callers[c].registered && !states[n].callers[c].at.Gone? ensures Blocked(states[n]) > 0 {
      MembersWithin(states[n].callers, c);
    }
  }

  // The caller returns straight from a dial while it is registered: the dial failed
  // and its error or the context's is returned, or it succeeded in a closing pool.
  predicate ReturnsFromDial(p: Pool, e: Event)
  {
    && (e.LeaveFailed? || (e.EndDial? && e.ok && p.closing))
    && e.c < |p.callers| && p.callers[e.c].registered
  }

  /** A step loses a waiter for good exactly when a registered caller returns straight
      from a dial; no step finds one again. */
  lemma LeaksExactly(p: Pool, e: Event)
    requires Inv(p) && Enabled(p, e)
    ensures Members(Apply(p, e).callers, Leaked) == Members(p.callers, Leaked) + if ReturnsFromDial(p, e) then 1 else 0
  {
    if CallerEnabled(p, e) {
      CallerLeaks(p, e);
    } else {
      hide Sum, Expire, Break, LeaseAdmits, CallerEnabled, Members;
    }
  }

  lemma CallerLeaks(p: Pool, e: Event)
    requires CallerEnabled(p, e)
    ensures Members(CallerApply(p, e).callers, Leaked) == Members(p.callers, Leaked) + if ReturnsFromDial(p, e) then 1 else 0
  {
    hide Sum, NothingFor, Selectable, Members, Load;
    if e.Arrive? {
      MembersAppend(p.callers, Caller(e.wish, false, Looking), Leaked);
    } else {
      MembersUpdate(p.callers, e.c, CallerApply(p, e).callers[e.c], Leaked);
    }
  }

  /** The count of waiters is exact as long as no registered caller has returned
      straight from a dial, and no longer. */
  lemma {:induction false} CountIsExact(states: seq<Pool>, events: seq<Event>, n: nat)
    requires IsRun(states, events) && n < |states|
    ensures Blocked(states[n]) == states[n].waiters <==> forall k :: 0 <= k < n ==> !ReturnsFromDial(states[k], events[k])
  {
    hide Enabled, Apply, ReturnsFromDial;
    if n > 0 {
      hide Members;
      CountIsExact(states, events, n - 1);
      RunInv(states, events, n - 1);
      hide Inv;
      LeaksExactly(states[n - 1], events[n - 1]);
    }
  }

  lemma {:induction false} LeaksStay(states: seq<Pool>, events: seq<Event>, m: nat, n: nat)
    requires IsRun(states, events) && m <= n < |states|
    ensures Members(states[m].callers, Leaked) <= Members(states[n].callers, Leaked)
    ensures states[n].options == states[m].options
    decreases n - m
  {
    hide Initial, Enabled, Apply, Members;
    if m < n {
      LeaksStay(states, events, m, n - 1);
      RunInv(states, events, n - 1);
      hide Inv;
      LeaksExactly(states[n - 1], events[n - 1]);
      SameOptions(states[n - 1], events[n - 1]);
    }
  }

  lemma SameOptions(p: Pool, e: Event)
    requires Enabled(p, e)
    ensures Apply(p, e).options == p.options
  {
    hide Sum, Expire, NothingFor, Selectable, Break, LeaseAdmits, Load;
  }

  /** Once as many waiters are lost as the limit allows, nobody ever waits again: from
      then on no caller is blocked and no step registers one. */
  lemma NobodyWaitsAgain(states: seq<Pool>, events: seq<Event>, m: nat, n: nat)
    requires IsRun(states, events) && m <= n < |states| && Members(states[m].callers, Leaked) == states[m].options.maxWaiters
    ensures Blocked(states[n]) == 0
    ensures n < |events| ==> !events[n].Wait?
  {
    hide Initial, Apply, Members;
    LeaksStay(states, events, m, n);
    WaitersAreBounded(states, events, n);
    if n < |events| { assert Enabled(states[n], events[n]); }
  }

  lemma SmallGrants()
    ensures var p := Small(0, AT_REST, FIRST, [], [At(Looking, false)]);
            Enabled(p, Grant(0, 0)) &&
            Apply(p, Grant(0, 0)) == Small(0, AT_REST, FIRST.(inFlight := 1), [Work(0, None, false)], [At(Gone, false)])
  {
    var p := Small(0, AT_REST, FIRST, [], [At(Looking, false)]);
    assert Selectable(p, WISH.exact, WISH.Exclusive?, 0);
    assert [FIRST][0 := FIRST.(inFlight := 1)] == [FIRST.(inFlight := 1)];
    assert [At(Looking, false)][0 := At(Gone, false)] == [At(Gone, false)];
    assert [] + [Work(0, None, false)] == [Work(0, None, false)];
  }

  // The second caller, behind one that was served.
  lemma SmallWaits(c: PConn, works: seq<Work>)
    requires c.inFlight >= 1
    ensures var p := Small(0, AT_REST, c, works, [At(Gone, false), At(Looking, false)]);
            Enabled(p, Wait(1)) && Apply(p, Wait(1)) == Small(1, AT_REST, c, works, [At(Gone, false), At(Waiting, true)])
  {
    assert [At(Gone, false), At(Looking, false)][1 := At(Waiting, true)] == [At(Gone, false), At(Waiting, true)];
  }

  lemma SmallWakes(c: PConn, works: seq<Work>)
    ensures var p := Small(1, AT_REST, c, works, [At(Gone, false), At(Waiting, true)]);
            Enabled(p, Wake(1)) && Apply(p, Wake(1)) == Small(1, AT_REST, c, works, [At(Gone, false), At(Looking, true)])
  {
    assert [At(Gone, false), At(Waiting, true)][1 := At(Looking, true)] == [At(Gone, false), At(Looking, true)];
  }

  lemma SmallFails(c: PConn, works: seq<Work>)
    ensures var p := Small(1, DIALED, c, works, [At(Gone, false), At(DialingAt(0), true)]);
            Enabled(p, EndDial(1, false, 0)) && Apply(p, EndDial(1, false, 0)) == Small(1, AT_REST, c, works, [At(Gone, false), At(DialFailed, true)])
    ensures var p := Small(1, AT_REST, c, works, [At(Gone, false), At(DialFailed, true)]);
            Enabled(p, LeaveFailed(1)) && Apply(p, LeaveFailed(1)) == Small(1, AT_REST, c, works, [At(Gone, false), At(Gone, true)])
  {
    assert [At(Gone, false), At(DialingAt(0), true)][1 := At(DialFailed, true)] == [At(Gone, false), At(DialFailed, true)];
    assert [At(Gone, false), At(DialFailed, true)][1 := At(Gone, true)] == [At(Gone, false), At(Gone, true)];
    assert [DIALED][0 := AT_REST] == [AT_REST];
  }

  lemma OneLeaked()
    ensures Members([At(Gone, false), At(Gone, true)], Leaked) == 1
  {
    assert [At(Gone, false), At(Gone, true)][..1] == [At(Gone, false)] && [At(Gone, false)][..0] == [];
    assert Members([At(Gone, false)], Leaked) == 0;
  }

  // A caller was served and a second one waits for its connection.
  lemma SmallBusy(busy: PConn, works: seq<Work>)
    requires busy == FIRST.(inFlight := 1) && works == [Work(0, None, false)]
    ensures Reachable(Small(1, AT_REST, busy, works, [At(Gone, false), At(Waiting, true)]))
  {
    SmallStart();
    SmallArrives(0, AT_REST, FIRST, [], []);
    SmallGrants();
    SmallArrives(0, AT_REST, busy, works, [At(Gone, false)]);
    SmallWaits(busy, works);
    assert [] + [At(Looking, false)] == [At(Looking, false)] && [At(Gone, false)] + [At(Looking, false)] == [At(Gone, false), At(Looking, false)];
    hide *;
    Reaches(Small(0, AT_REST, FIRST, [], []), Arrive(WISH));
    Reaches(Small(0, AT_REST, FIRST, [], [At(Looking, false)]), Grant(0, 0));
    Reaches(Small(0, AT_REST, busy, works, [At(Gone, false)]), Arrive(WISH));
    Reaches(Small(0, AT_REST, busy, works, [At(Gone, false), At(Looking, false)]), Wait(1));
  }

  // The connection breaks, and the waiting caller dials in vain.
  lemma SmallLoses(busy: PConn, c: PConn, works: seq<Work>)
    requires Reachable(Small(1, AT_REST, busy, works, [At(Gone, false), At(Waiting, true)])) && !busy.broken && c == Break(busy)
    ensures Reachable(Small(1, AT_REST, c, works, [At(Gone, false), At(Gone, true)]))
  {
    var served := At(Gone, false);
    assert c.broken;
    SmallBreaks(1, busy, works, [served, At(Waiting, true)]);
    SmallWakes(c, works);
    SmallDials(1, c, works, [served], true);
    SmallFails(c, works);
    assert [served] + [At(Looking, true)] == [served, At(Looking, true)] && [served] + [At(DialingAt(0), true)] == [served, At(DialingAt(0), true)];
    hide *;
    Reaches(Small(1, AT_REST, busy, works, [served, At(Waiting, true)]), ConnDone(0));
    Reaches(Small(1, AT_REST, c, works, [served, At(Waiting, true)]), Wake(1));
    Reaches(Small(1, AT_REST, c, works, [served, At(Looking, true)]), BeginDial(1, 0));
    Reaches(Small(1, DIALED, c, works, [served, At(DialingAt(0), true)]), EndDial(1, false, 0));
    Reaches(Small(1, AT_REST, c, works, [served, At(DialFailed, true)]), LeaveFailed(1));
  }

  /** Waiters are indeed lost: with one slot, a caller waits for the busy connection,
      is woken when that breaks, dials, fails and returns; the slot is gone for good. */
  lemma SlotIsLost() returns (p: Pool)
    ensures Reachable(p) && p.options.maxWaiters == 1 && p.waiters == 1 && Members(p.callers, Leaked) == 1 && Blocked(p) == 0
  {
    hide Reachable, Members;
    var busy, works := FIRST.(inFlight := 1), [Work(0, None, false)];
    SmallBusy(busy, works);
    SmallLoses(busy, Break(busy), works);
    OneLeaked();
    p := Small(1, AT_REST, Break(busy), works, [At(Gone, false), At(Gone, true)]);
  }
}
