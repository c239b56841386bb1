/** Every step of the pool keeps its invariant. */
module PoolRuns {
  import opened BerTypes
  import opened PoolCore
  import opened PoolInv

  // ----------------------------------------------------------------- per endpoint

  // A step that changes connection i alone, without making it live.
  lemma ConnLoad(p: Pool, p': Pool, i: nat)
    requires LoadInv(p) && i < |p.conns| && p'.options == p.options && p'.endpoints == p.endpoints
    requires |p'.conns| == |p.conns| && p'.conns == p.conns[i := p'.conns[i]] && p'.conns[i].endpoint == p.conns[i].endpoint
    requires IsLive(p'.conns[i]) ==> IsLive(p.conns[i])
    ensures LoadInv(p')
  {
    hide Sum;
    forall x | 0 <= x < |p.endpoints| ensures Live(p', x) <= Live(p, x) {
      SumUpdate(p.conns, i, p'.conns[i], LiveAt(x));
    }
  }

  // A step of endpoint x that keeps its load or raises it as far as allowed.
  lemma EndpointLoad(p: Pool, p': Pool, x: nat)
    requires LoadInv(p) && x < |p.endpoints| && p'.options == p.options && p'.conns == p.conns
    requires |p'.endpoints| == |p.endpoints| && forall y :: 0 <= y < |p.endpoints| && y != x ==> p'.endpoints[y] == p.endpoints[y]
    requires DialsOk(p'.endpoints[x], p.options) && Load(p', x) <= p.options.cap + 1
    ensures LoadInv(p')
  {
    hide Sum;
    forall y | 0 <= y < |p.endpoints| ensures DialsOk(p'.endpoints[y], p.options) && Load(p', y) <= p.options.cap + 1 {
      if y != x { assert Load(p', y) == Load(p, y); }
    }
  }

  // The dial that ended becomes a connection, or nothing.
  lemma AddLoad(p: Pool, x: nat, ok: bool, now: int)
    requires p.options.Valid() && x < |p.endpoints|
    requires forall y :: 0 <= y < |p.endpoints| ==> DialsOk(p.endpoints[y], p.options) && Load(p, y) <= p.options.cap + 1
    requires Load(p, x) <= p.options.cap
    ensures LoadInv(AddConn(p, x, ok, now))
  {
    hide Sum;
    var p' := AddConn(p, x, ok, now);
    forall y | 0 <= y < |p.endpoints| ensures Load(p', y) <= p.options.cap + 1 {
      SumAppend(p.conns, NewConn(x, now), LiveAt(y));
    }
  }

  lemma {:induction false} ExpirePointwise(conns: seq<PConn>, e: nat, now: int, live: int, o: Options)
    ensures var r := ExpireFrom(conns, e, now, live, o).0;
            forall i :: 0 <= i < |conns| ==> r[i] == conns[i] || (r[i] == Drain(conns[i]) && conns[i].leased.None? && IsLive(conns[i]))
    decreases |conns|
  {
    if conns != [] {
      var live' := if conns[0].endpoint == e && Drains(conns[0], now, live, o) then live - 1 else live;
      ExpirePointwise(conns[1..], e, now, live', o);
    }
  }

  // ---------------------------------------------------------------------- leases

  // Replacing connection i by one that is no worse, with the leases as they were.
  lemma ConnLeases(p: Pool, p': Pool, i: nat)
    requires LeasesInv(p) && i < |p.conns| && p'.options == p.options && p'.leases == p.leases
    requires |p'.conns| == |p.conns| && p'.conns == p.conns[i := p'.conns[i]]
    requires ConnOk(p'.conns[i], i, p.leases, p.options)
    requires || (p'.conns[i].leased == p.conns[i].leased && (p.conns[i].broken ==> p'.conns[i].broken))
             || p'.conns[i].broken
    ensures LeasesInv(p')
  {
    hide ConnOk;
  }

  // A step that leaves the callers, the waiters and the dials in acquire alone.
  lemma SameCallers(p: Pool, p': Pool)
    requires CallersInv(p) && p'.callers == p.callers && p'.waiters == p.waiters && p'.options == p.options
    requires |p'.endpoints| == |p.endpoints| && forall x :: 0 <= x < |p.endpoints| ==> p'.endpoints[x].acquirers == p.endpoints[x].acquirers
    ensures CallersInv(p')
  {
    hide Members;
  }

  // ------------------------------------------------------------------ each event

  lemma AdmitKeeps(p: Pool, exact: Option<nat>, i: nat)
    requires Inv(p) && Selectable(p, exact, false, i)
    ensures Inv(Admit(p, i))
  {
    hide Sum, Tally;
    var p' := Admit(p, i);
    AdmitCounts(p, p', i, None);
    ConnLoad(p, p', i);
    ConnLeases(p, p', i);
  }

  lemma TakeLeaseKeeps(p: Pool, exact: Option<nat>, i: nat)
    requires Inv(p) && Selectable(p, exact, true, i)
    ensures Inv(TakeLease(p, i))
  {
    hide Sum, Tally;
    var p' := TakeLease(p, i);
    FreshCounts(p, p');
    ConnLoad(p, p', i);
    forall j | 0 <= j < |p.conns| ensures ConnOk(p'.conns[j], j, p'.leases, p.options) {
      assert ConnOk(p.conns[j], j, p.leases, p.options);
    }
  }

  // A lease of an unbroken connection holds it.
  lemma LeaseHolds(p: Pool, l: nat)
    requires LeasesInv(p) && LeaseAdmits(p, l)
    ensures var c := p.conns[p.leases[l].conn];
            c.leased == Some(l) && c.inFlight == p.leases[l].inFlight && c.listed && !c.draining
  {
    assert ConnOk(p.conns[p.leases[l].conn], p.leases[l].conn, p.leases, p.options);
  }

  lemma LeaseAdmitKeeps(p: Pool, l: nat)
    requires Inv(p) && LeaseAdmits(p, l)
    ensures Inv(LeaseAdmit(p, l))
  {
    hide Sum, Tally;
    var p', i := LeaseAdmit(p, l), p.leases[l].conn;
    LeaseHolds(p, l);
    AdmitCounts(p, p', i, Some(l));
    ConnLoad(p, p', i);
    forall j | 0 <= j < |p.conns| ensures ConnOk(p'.conns[j], j, p'.leases, p.options) {
      assert ConnOk(p.conns[j], j, p.leases, p.options);
    }
  }

  // Whoever owes an operation is counted as owing at least one.
  lemma {:induction false} TallyPositive(works: seq<Work>, w: nat, k: Key)
    requires w < |works| && Owes(works[w], k)
    ensures Tally(works, k) > 0
    decreases |works|
  {
    if w < |works| - 1 { TallyPositive(works[..|works| - 1], w, k); }
  }

  lemma ReleaseKeeps(p: Pool, w: nat, now: int)
    requires Inv(p) && w < |p.works| && !p.works[w].released
    ensures Inv(Release(p, w, now))
  {
    hide Sum, Tally;
    var p', i := Release(p, w, now), p.works[w].conn;
    TallyPositive(p.works, w, ByConn(i));
    ReleaseCounts(p, p', w);
    ConnLoad(p, p', i);
    if p.works[w].lease.Some? { ReleaseLeased(p, w, now); } else { ReleasePlain(p, w, now); }
  }

  lemma ReleasePlain(p: Pool, w: nat, now: int)
    requires WorksInv(p) && LeasesInv(p) && CountsInv(p) && w < |p.works| && !p.works[w].released && p.works[w].lease.None?
    ensures LeasesInv(Release(p, w, now))
  {
    hide Sum, Tally;
    var p', i := Release(p, w, now), p.works[w].conn;
    var c := p.conns[i];
    assert ConnOk(c, i, p.leases, p.options);
    assert Owes(p.works[w], ByConn(i));
    if c.leased.Some? { TallyWithin(p.works, i, c.leased.value); }
    ConnLeases(p, p', i);
  }

  lemma ReleaseLeased(p: Pool, w: nat, now: int)
    requires WorksInv(p) && LeasesInv(p) && CountsInv(p) && w < |p.works| && !p.works[w].released && p.works[w].lease.Some?
    ensures LeasesInv(Release(p, w, now))
  {
    hide Sum, Tally;
    var p', i, l := Release(p, w, now), p.works[w].conn, p.works[w].lease.value;
    TallyPositive(p.works, w, ByLease(l));
    TallyPositive(p.works, w, ByConn(i));
    assert ConnOk(p.conns[i], i, p.leases, p.options);
    assert Holding(p.leases[l]);
    forall j | 0 <= j < |p.conns| ensures ConnOk(p'.conns[j], j, p'.leases, p.options) {
      assert ConnOk(p.conns[j], j, p.leases, p.options);
    }
  }

  lemma CloseLeaseKeeps(p: Pool, l: nat, now: int)
    requires Inv(p) && l < |p.leases| && !p.leases[l].closed
    ensures Inv(CloseLease(p, l, now))
  {
    hide Sum, Tally;
    var p', i := CloseLease(p, l, now), p.leases[l].conn;
    FreshCounts(p, p');
    ConnLoad(p, p', i);
    CloseLeaseLeases(p, l, now);
  }

  lemma CloseLeaseLeases(p: Pool, l: nat, now: int)
    requires Refs(p) && LeasesInv(p) && l < |p.leases| && !p.leases[l].closed
    ensures LeasesInv(CloseLease(p, l, now))
  {
    var p', i := CloseLease(p, l, now), p.leases[l].conn;
    assert ConnOk(p.conns[i], i, p.leases, p.options);
    forall j | 0 <= j < |p.conns| ensures ConnOk(p'.conns[j], j, p'.leases, p.options) {
      assert ConnOk(p.conns[j], j, p.leases, p.options);
    }
  }

  lemma BreakKeeps(p: Pool, i: nat)
    requires Inv(p) && i < |p.conns|
    ensures Inv(SetConn(p, i, Break(p.conns[i])))
  {
    hide Sum, Tally;
    var p' := SetConn(p, i, Break(p.conns[i]));
    FreshCounts(p, p');
    ConnLoad(p, p', i);
    assert ConnOk(p.conns[i], i, p.leases, p.options);
    ConnLeases(p, p', i);
  }

  // Steps on every connection that leave counts and leases alone and make none live.
  lemma PassKeeps(p: Pool, conns: seq<PConn>)
    requires Inv(p) && |conns| == |p.conns|
    requires forall i :: 0 <= i < |conns| ==>
      var c, d := p.conns[i], conns[i];
      && d.endpoint == c.endpoint && d.inFlight == c.inFlight && d.leased == c.leased && d.broken == c.broken && d.listed == c.listed
      && (IsLive(d) ==> IsLive(c)) && (d.leased.Some? ==> d.draining == c.draining)
      && (c.retiring ==> d.retiring) && (d.draining && !c.draining && d.inFlight == 0 ==> d.retiring)
    ensures Inv(p.(conns := conns))
  {
    hide Sum, Tally;
    var p' := p.(conns := conns);
    FreshCounts(p, p');
    forall x | 0 <= x < |p.endpoints| ensures Load(p', x) <= Load(p, x) { SumBelow(p.conns, conns, LiveAt(x)); }
    forall i | 0 <= i < |conns| ensures ConnOk(conns[i], i, p.leases, p.options) {
      assert ConnOk(p.conns[i], i, p.leases, p.options);
    }
  }

  lemma ExpireKeeps(p: Pool, e: nat, now: int)
    requires Inv(p)
    ensures Inv(p.(conns := Expire(p, e, now).0))
  {
    hide Sum, Inv;
    ExpirePointwise(p.conns, e, now, Live(p, e), p.options);
    PassKeeps(p, Expire(p, e, now).0);
  }

  lemma CloseAllKeeps(p: Pool)
    requires Inv(p) && p.closing
    ensures Inv(Apply(p, CloseAll))
  {
    hide CountsInv, LeasesInv, LoadInv, CallersInv;
    PassKeeps(p, Apply(p, CloseAll).conns);
  }

  // Steps of one endpoint's dials.
  lemma DialParts(p: Pool, q: Endpoint, x: nat)
    requires WorksInv(p) && CountsInv(p) && LeasesInv(p) && LoadInv(p) && x < |p.endpoints|
    requires DialsOk(q, p.options) && Live(p, x) + q.Dialing() <= p.options.cap + 1
    ensures var p' := SetEndpoint(p, x, q); WorksInv(p') && CountsInv(p') && LeasesInv(p') && LoadInv(p')
  {
    hide Sum, Tally;
    var p' := SetEndpoint(p, x, q);
    FreshCounts(p, p');
    EndpointLoad(p, p', x);
  }

  lemma DialKeeps(p: Pool, q: Endpoint, x: nat)
    requires Inv(p) && x < |p.endpoints| && q.acquirers == p.endpoints[x].acquirers
    requires DialsOk(q, p.options) && Live(p, x) + q.Dialing() <= p.options.cap + 1
    ensures Inv(SetEndpoint(p, x, q))
  {
    hide WorksInv, CountsInv, LeasesInv, LoadInv, CallersInv, DialsOk, Sum;
    DialParts(p, q, x);
    SameCallers(p, SetEndpoint(p, x, q));
  }

  lemma AddKeeps(p: Pool, x: nat, ok: bool, now: int)
    requires Inv(p) && x < |p.endpoints| && Load(p, x) <= p.options.cap
    ensures Inv(AddConn(p, x, ok, now))
  {
    hide Sum, Tally;
    var p' := AddConn(p, x, ok, now);
    FreshCounts(p, p');
    AddLoad(p, x, ok, now);
    SameCallers(p, p');
    hide CallersInv, CountsInv;
    forall j | 0 <= j < |p'.conns| ensures ConnOk(p'.conns[j], j, p'.leases, p.options) {
      if j < |p.conns| { assert ConnOk(p.conns[j], j, p.leases, p.options); }
    }
  }

  lemma EndpointKeeps(p: Pool, e: Event)
    requires Inv(p) && Enabled(p, e)
    requires e.StartReplacement? || e.BeginRedial? || e.EndRedial? || e.GiveUpReplacing? || e.StopReplacement?
    ensures Inv(Apply(p, e))
  {
    hide WorksInv, CountsInv, LeasesInv, CallersInv, Sum;
    var x := e.e;
    var q := p.endpoints[x];
    assert DialsOk(q, p.options) && Load(p, x) <= p.options.cap + 1;
    match e
    case EndRedial(_, ok, now) =>
      DialKeeps(p, Redialed(q, ok), x);
      AddKeeps(SetEndpoint(p, x, Redialed(q, ok)), x, ok, now);
    case StartReplacement(_) => DialKeeps(p, q.(replacing := true, deciding := q.deciding + 1), x);
    case BeginRedial(_) => DialKeeps(p, Redial(q), x);
    case GiveUpReplacing(_) => DialKeeps(p, q.(deciding := q.deciding - 1, leaving := q.leaving + 1), x);
    case StopReplacement(_) => DialKeeps(p, q.(leaving := q.leaving - 1, replacing := false), x);
  }

  // ------------------------------------------------------------------ callers

  // Everything but the callers' own accounts.
  ghost predicate Rest(p: Pool) { WorksInv(p) && CountsInv(p) && LeasesInv(p) && LoadInv(p) }

  lemma RestKeeps(p: Pool, p': Pool)
    requires Rest(p) && p' == p.(closing := p'.closing, waiters := p'.waiters, callers := p'.callers)
    ensures Rest(p')
  {
    hide Sum, Tally;
    FreshCounts(p, p');
    forall x | 0 <= x < |p.endpoints| ensures Load(p', x) == Load(p, x) { }
  }

  // One caller moves: the waiters follow its registration, and the dials in acquire
  // its place.
  lemma CallerMoves(p: Pool, p': Pool, c: nat)
    requires CallersInv(p) && c < |p.callers| && |p'.callers| == |p.callers| && p'.callers == p.callers[c := p'.callers[c]]
    requires p'.options == p.options && |p'.endpoints| == |p.endpoints|
    requires var d, d' := p.callers[c], p'.callers[c];
             && p'.waiters == p.waiters + (if d'.registered then 1 else 0) - (if d.registered then 1 else 0) <= p.options.maxWaiters
             && (d'.at.DialingAt? ==> d'.at.endpoint < |p.endpoints|)
             && forall x :: 0 <= x < |p.endpoints| ==>
                  p'.endpoints[x].acquirers == p.endpoints[x].acquirers + (if d'.at == DialingAt(x) then 1 else 0) - (if d.at == DialingAt(x) then 1 else 0)
    ensures CallersInv(p')
  {
    hide Members;
    forall g ensures var d, d' := p.callers[c], p'.callers[c];
                     Members(p'.callers, g) + (if Belongs(d, g) then 1 else 0) == Members(p.callers, g) + if Belongs(d', g) then 1 else 0
    {
      MembersUpdate(p.callers, c, p'.callers[c], g);
    }
  }

  lemma ArriveCallers(p: Pool, d: Caller)
    requires CallersInv(p) && !d.registered && d.at.Looking?
    ensures CallersInv(p.(callers := p.callers + [d]))
  {
    hide Members;
    forall g ensures Members(p.callers + [d], g) == Members(p.callers, g) + if Belongs(d, g) then 1 else 0 { MembersAppend(p.callers, d, g); }
  }

  lemma GrantKeeps(p: Pool, c: nat, i: nat)
    requires Inv(p) && CallerEnabled(p, Grant(c, i))
    ensures Inv(CallerApply(p, Grant(c, i)))
  {
    var w := p.callers[c].wish;
    var q := if w.Exclusive? then TakeLease(p, i) else Admit(p, i);
    if w.Exclusive? { TakeLeaseKeeps(p, w.exact, i); } else { AdmitKeeps(p, w.exact, i); }
    hide WorksInv, CountsInv, LeasesInv, LoadInv, Selectable, Members;
    RestKeeps(q, Unregister(q, c));
    CallerMoves(q, Unregister(q, c), c);
  }

  lemma GrantThroughKeeps(p: Pool, c: nat)
    requires Inv(p) && CallerEnabled(p, GrantThrough(c))
    ensures Inv(CallerApply(p, GrantThrough(c)))
  {
    var q := LeaseAdmit(p, p.callers[c].wish.lease);
    LeaseAdmitKeeps(p, p.callers[c].wish.lease);
    hide WorksInv, CountsInv, LeasesInv, LoadInv, LeaseAdmits, Members;
    RestKeeps(q, Unregister(q, c));
    CallerMoves(q, Unregister(q, c), c);
  }

  lemma BeginDialKeeps(p: Pool, c: nat, x: nat)
    requires Inv(p) && CallerEnabled(p, BeginDial(c, x))
    ensures Inv(CallerApply(p, BeginDial(c, x)))
  {
    hide WorksInv, CountsInv, LeasesInv, Members, Sum, NothingFor;
    var p', q := CallerApply(p, BeginDial(c, x)), p.endpoints[x].(acquirers := p.endpoints[x].acquirers + 1);
    assert DialsOk(p.endpoints[x], p.options);
    RestKeeps(p, MoveCaller(p, c, DialingAt(x)));
    assert Live(MoveCaller(p, c, DialingAt(x)), x) == Live(p, x);
    DialParts(MoveCaller(p, c, DialingAt(x)), q, x);
    hide LoadInv;
    CallerMoves(p, p', c);
  }

  lemma HangUpKeeps(p: Pool, c: nat, ok: bool, now: int)
    requires Inv(p) && CallerEnabled(p, EndDial(c, ok, now))
    ensures var x := p.callers[c].at.endpoint; Inv(HangUp(p, c, ok)) && Load(HangUp(p, c, ok), x) + 1 == Load(p, x)
  {
    hide WorksInv, CountsInv, LeasesInv, Members, Sum;
    var x := p.callers[c].at.endpoint;
    var p1, q := MoveCaller(p, c, Dialed(p, ok)), p.endpoints[x].(acquirers := p.endpoints[x].acquirers - 1);
    assert DialsOk(p.endpoints[x], p.options) && Load(p, x) <= p.options.cap + 1;
    RestKeeps(p, p1);
    assert Live(p1, x) == Live(p, x);
    DialParts(p1, q, x);
    hide LoadInv;
    CallerMoves(p, HangUp(p, c, ok), c);
  }

  lemma EndDialKeeps(p: Pool, c: nat, ok: bool, now: int)
    requires Inv(p) && CallerEnabled(p, EndDial(c, ok, now))
    ensures Inv(CallerApply(p, EndDial(c, ok, now)))
  {
    var x := p.callers[c].at.endpoint;
    HangUpKeeps(p, c, ok, now);
    assert Load(p, x) <= p.options.cap + 1;
    hide Inv, HangUp;
    HangUpSame(p, c, ok);
    AddKeeps(HangUp(p, c, ok), x, ok, now);
  }

  lemma HangUpSame(p: Pool, c: nat, ok: bool)
    requires c < |p.callers| && p.callers[c].at.DialingAt? && p.callers[c].at.endpoint < |p.endpoints|
    requires p.endpoints[p.callers[c].at.endpoint].acquirers > 0
    ensures var p' := HangUp(p, c, ok); p'.options == p.options && |p'.endpoints| == |p.endpoints| && p'.closing == p.closing
  {
  }

  // A caller moves between places where it does not dial.
  lemma PlainMove(p: Pool, e: Event)
    requires Inv(p) && CallerEnabled(p, e) && (e.Retry? || e.LeaveFailed? || e.Wait? || e.Wake? || e.Refuse?)
    ensures Inv(CallerApply(p, e))
  {
    hide WorksInv, CountsInv, LeasesInv, LoadInv, Members, NothingFor;
    RestKeeps(p, CallerApply(p, e));
    CallerMoves(p, CallerApply(p, e), e.c);
  }

  lemma CallerKeeps(p: Pool, e: Event)
    requires Inv(p) && CallerEnabled(p, e)
    ensures Inv(CallerApply(p, e))
  {
    hide WorksInv, CountsInv, LeasesInv, LoadInv, CallersInv, Selectable, Load, NothingFor, Unregister, Register, TakeLease, Admit, LeaseAdmits, LeaseAdmit, AddConn, HangUp, MoveCaller;
    match e
    case Grant(c, i) => GrantKeeps(p, c, i);
    case GrantThrough(c) => GrantThroughKeeps(p, c);
    case BeginDial(c, x) => BeginDialKeeps(p, c, x);
    case EndDial(c, ok, now) => EndDialKeeps(p, c, ok, now);
    case Arrive(wish) =>
      RestKeeps(p, CallerApply(p, e));
      ArriveCallers(p, Caller(wish, false, Looking));
    case _ => PlainMove(p, e);
  }

  // -------------------------------------------------------------------- every step

  lemma CloseKeeps(p: Pool)
    requires Inv(p)
    ensures Inv(p.(closing := true))
  {
    hide WorksInv, CountsInv, LeasesInv, LoadInv, Members;
    RestKeeps(p, p.(closing := true));
    SameCallers(p, p.(closing := true));
  }

  /** Every step of the pool keeps its invariant. */
  lemma StepKeeps(p: Pool, e: Event)
    requires Inv(p) && Enabled(p, e)
    ensures Inv(Apply(p, e))
  {
    hide Inv, Release, CloseLease, Break, Expire, Live, AddConn, CallerEnabled, CallerApply;
    match e
    case ReleaseWork(w, now) => ReleaseKeeps(p, w, now);
    case EndLease(l, now) => CloseLeaseKeeps(p, l, now);
    case ConnDone(i) => BreakKeeps(p, i);
    case ExpiryPass(x, now) => ExpireKeeps(p, x, now);
    case BeginClose => CloseKeeps(p);
    case CloseAll => CloseAllKeeps(p);
    case StartReplacement(_) => EndpointKeeps(p, e);
    case BeginRedial(_) => EndpointKeeps(p, e);
    case EndRedial(_, _, _) => EndpointKeeps(p, e);
    case GiveUpReplacing(_) => EndpointKeeps(p, e);
    case StopReplacement(_) => EndpointKeeps(p, e);
    case _ => CallerKeeps(p, e);
  }
}
