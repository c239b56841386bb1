/** What every step of the pool keeps: exact counts of admitted operations,
    exclusive leases, bounded connections per endpoint. */
module PoolInv {
  import opened BerTypes
  import opened PoolCore

  // ------------------------------------------------------------------- counting

  lemma {:induction false} SumUpdate(conns: seq<PConn>, i: nat, c: PConn, m: Measure)
    requires i < |conns|
    ensures Sum(conns[i := c], m) + Weight(conns[i], m) == Sum(conns, m) + Weight(c, m)
    decreases |conns|
  {
    var n := |conns| - 1;
    if i < n {
      SumUpdate(conns[..n], i, c, m);
      assert conns[i := c][..n] == conns[..n][i := c];
    } else {
      assert conns[i := c][..n] == conns[..n];
    }
  }

  lemma SumAppend(conns: seq<PConn>, c: PConn, m: Measure)
    ensures Sum(conns + [c], m) == Sum(conns, m) + Weight(c, m)
  {
    assert (conns + [c])[..|conns|] == conns;
  }

  lemma {:induction false} SumBelow(conns: seq<PConn>, conns': seq<PConn>, m: Measure)
    requires |conns'| == |conns| && forall i :: 0 <= i < |conns| ==> Weight(conns'[i], m) <= Weight(conns[i], m)
    ensures Sum(conns', m) <= Sum(conns, m)
    decreases |conns|
  {
    if conns != [] { SumBelow(conns[..|conns| - 1], conns'[..|conns| - 1], m); }
  }

  lemma {:induction false} SumZero(conns: seq<PConn>, m: Measure, i: nat)
    requires Sum(conns, m) == 0 && i < |conns|
    ensures Weight(conns[i], m) == 0
    decreases |conns|
  {
    if i < |conns| - 1 { SumZero(conns[..|conns| - 1], m, i); }
  }

  datatype Key = ByConn(conn: nat) | ByLease(lease: nat)

  predicate Owes(w: Work, k: Key)
  {
    !w.released && match k case ByConn(i) => w.conn == i case ByLease(l) => w.lease == Some(l)
  }

  // How many admitted operations of a connection or a lease are unreleased.
  function Tally(works: seq<Work>, k: Key): nat
  {
    if works == [] then 0
    else Tally(works[..|works| - 1], k) + (if Owes(works[|works| - 1], k) then 1 else 0)
  }

  lemma TallyAppend(works: seq<Work>, w: Work, k: Key)
    ensures Tally(works + [w], k) == Tally(works, k) + if Owes(w, k) then 1 else 0
  {
    assert (works + [w])[..|works|] == works;
  }

  lemma {:induction false} TallyRelease(works: seq<Work>, w: nat, k: Key)
    requires w < |works| && !works[w].released
    ensures Tally(works, k) == Tally(works[w := works[w].(released := true)], k) + if Owes(works[w], k) then 1 else 0
    decreases |works|
  {
    var n := |works| - 1;
    var w' := works[w].(released := true);
    if w < n {
      TallyRelease(works[..n], w, k);
      assert works[w := w'][..n] == works[..n][w := w'];
    } else {
      assert works[w := w'][..n] == works[..n];
    }
  }

  lemma {:induction false} TallyNone(works: seq<Work>, k: Key)
    requires forall w :: 0 <= w < |works| ==> !Owes(works[w], k)
    ensures Tally(works, k) == 0
    decreases |works|
  {
    if works != [] { TallyNone(works[..|works| - 1], k); }
  }

  // A lease that owes as much as its connection owes all of it.
  lemma {:induction false} TallyWithin(works: seq<Work>, i: nat, l: nat)
    requires forall w :: 0 <= w < |works| && works[w].lease == Some(l) ==> works[w].conn == i
    ensures Tally(works, ByLease(l)) <= Tally(works, ByConn(i))
    ensures Tally(works, ByLease(l)) == Tally(works, ByConn(i)) ==>
              forall w :: 0 <= w < |works| && Owes(works[w], ByConn(i)) ==> works[w].lease == Some(l)
    decreases |works|
  {
    if works != [] { TallyWithin(works[..|works| - 1], i, l); }
  }

  datatype Group = Registered | Leaked | Dialers(endpoint: nat)

  // Leaked: a caller that has returned and is still counted among the waiters.
  predicate Belongs(c: Caller, g: Group)
  {
    match g
    case Registered => c.registered
    case Leaked => c.registered && c.at.Gone?
    case Dialers(x) => c.at == DialingAt(x)
  }

  function Members(callers: seq<Caller>, g: Group): nat
  {
    if callers == [] then 0
    else Members(callers[..|callers| - 1], g) + (if Belongs(callers[|callers| - 1], g) then 1 else 0)
  }

  lemma MembersAppend(callers: seq<Caller>, c: Caller, g: Group)
    ensures Members(callers + [c], g) == Members(callers, g) + if Belongs(c, g) then 1 else 0
  {
    assert (callers + [c])[..|callers|] == callers;
  }

  lemma {:induction false} MembersUpdate(callers: seq<Caller>, i: nat, c: Caller, g: Group)
    requires i < |callers|
    ensures Members(callers[i := c], g) + (if Belongs(callers[i], g) then 1 else 0) == Members(callers, g) + if Belongs(c, g) then 1 else 0
    decreases |callers|
  {
    var n := |callers| - 1;
    if i < n {
      MembersUpdate(callers[..n], i, c, g);
      assert callers[i := c][..n] == callers[..n][i := c];
    } else {
      assert callers[i := c][..n] == callers[..n];
    }
  }

  // A group is no larger than one that contains it, and a caller in the difference
  // makes it smaller.
  lemma {:induction false} MembersWithin(callers: seq<Caller>, c: nat)
    ensures Members(callers, Leaked) <= Members(callers, Registered)
    ensures c < |callers| && callers[c].registered && !callers[c].at.Gone? ==> Members(callers, Leaked) < Members(callers, Registered)
    decreases |callers|
  {
    if callers != [] { MembersWithin(callers[..|callers| - 1], c); }
  }

  // ------------------------------------------------------------------ the invariant

  // The lease still has its connection: open, or closed with operations running.
  predicate Holding(l: Lease) { !l.closed || l.inFlight > 0 }

  ghost predicate Refs(p: Pool)
  {
    && (forall w :: 0 <= w < |p.works| ==> p.works[w].conn < |p.conns| && (p.works[w].lease.Some? ==> p.works[w].lease.value < |p.leases|))
    && (forall l :: 0 <= l < |p.leases| ==> p.leases[l].conn < |p.conns|)
    && (forall i :: 0 <= i < |p.conns| ==> p.conns[i].endpoint < |p.endpoints|)
  }

  // Each operation admitted through a lease runs on the lease's connection.
  ghost predicate WorksInv(p: Pool)
  {
    Refs(p) && forall w :: 0 <= w < |p.works| && p.works[w].lease.Some? ==> p.leases[p.works[w].lease.value].conn == p.works[w].conn
  }

  // inFlight counts exactly the admitted and unreleased operations.
  ghost predicate CountsInv(p: Pool)
  {
    && (forall i :: 0 <= i < |p.conns| ==> p.conns[i].inFlight == Tally(p.works, ByConn(i)))
    && (forall l :: 0 <= l < |p.leases| ==> p.leases[l].inFlight == Tally(p.works, ByLease(l)))
  }

  ghost predicate ConnOk(c: PConn, i: nat, leases: seq<Lease>, o: Options)
  {
    && c.inFlight <= o.maxInFlight
    && (c.leased.Some? ==>
          && !c.broken && !c.draining && c.leased.value < |leases|
          && var l := leases[c.leased.value];
             l.conn == i && Holding(l) && l.inFlight == c.inFlight)
    && (!c.listed ==> c.inFlight == 0 && c.leased.None?)
    && (c.broken && c.listed ==> c.inFlight > 0)
    && (c.draining && c.inFlight == 0 ==> c.retiring)
  }

  // A leased connection is unbroken and not draining, and its lease owes all of
  // its operations; a lease has its connection until that breaks. A connection with
  // operations is listed, and a broken one only as long. A draining one is closed as
  // soon as it is idle.
  ghost predicate LeasesInv(p: Pool)
  {
    && (forall i :: 0 <= i < |p.conns| ==> ConnOk(p.conns[i], i, p.leases, p.options))
    && (forall l :: 0 <= l < |p.leases| && p.leases[l].conn < |p.conns| && Holding(p.leases[l]) && !p.conns[p.leases[l].conn].broken ==>
          p.conns[p.leases[l].conn].leased == Some(l))
  }

  // At most one replacement goroutine, and exactly while the flag is set.
  predicate DialsOk(q: Endpoint, o: Options)
  {
    q.acquirers <= o.cap && q.deciding + q.redialing + q.leaving == if q.replacing then 1 else 0
  }

  ghost predicate LoadInv(p: Pool)
  {
    && p.options.Valid()
    && forall x :: 0 <= x < |p.endpoints| ==> DialsOk(p.endpoints[x], p.options) && Load(p, x) <= p.options.cap + 1
  }

  // waiters counts the callers that registered and did not unregister, and an
  // endpoint's dials in acquire are its callers that are dialing it.
  ghost predicate CallersInv(p: Pool)
  {
    && p.waiters == Members(p.callers, Registered) <= p.options.maxWaiters
    && (forall x :: 0 <= x < |p.endpoints| ==> p.endpoints[x].acquirers == Members(p.callers, Dialers(x)))
    && (forall c :: 0 <= c < |p.callers| && p.callers[c].at.DialingAt? ==> p.callers[c].at.endpoint < |p.endpoints|)
  }

  ghost predicate Inv(p: Pool) { WorksInv(p) && CountsInv(p) && LeasesInv(p) && LoadInv(p) && CallersInv(p) }

  lemma {:induction false} NewSum(conns: seq<PConn>, x: nat)
    requires forall i :: 0 <= i < |conns| ==> conns[i].endpoint == i && IsLive(conns[i])
    ensures Sum(conns, LiveAt(x)) == if x < |conns| then 1 else 0
    decreases |conns|
  {
    if conns != [] { NewSum(conns[..|conns| - 1], x); }
  }

  lemma NewShape(c: PConn, x: nat, i: nat, o: Options)
    requires o.Valid() && c == NewConn(x, c.created)
    ensures c.endpoint == x && IsLive(c) && c.inFlight == 0 && ConnOk(c, i, [], o)
  {
  }

  lemma InitialConns(p: Pool, i: nat)
    requires Initial(p) && i < |p.conns|
    ensures p.conns[i].endpoint == i && IsLive(p.conns[i]) && p.conns[i].inFlight == 0 && ConnOk(p.conns[i], i, [], p.options)
  {
    hide ConnOk, IsLive, NewConn;
    NewShape(p.conns[i], i, i, p.options);
  }

  // What is there at the start.
  lemma InitialParts(p: Pool)
    requires Initial(p)
    ensures p.options.Valid() && p.works == [] && p.leases == [] && p.callers == [] && p.waiters == 0
    ensures |p.endpoints| == |p.conns| && forall x :: 0 <= x < |p.endpoints| ==> p.endpoints[x] == Endpoint(0, false, 0, 0, 0)
  {
    hide NewConn;
  }

  lemma InitialInv(p: Pool)
    requires Initial(p)
    ensures Inv(p)
  {
    hide Initial, ConnOk, IsLive, Sum;
    InitialParts(p);
    forall i | 0 <= i < |p.conns|
      ensures p.conns[i].endpoint == i && IsLive(p.conns[i]) && p.conns[i].inFlight == 0 && ConnOk(p.conns[i], i, [], p.options)
    {
      InitialConns(p, i);
    }
    assert WorksInv(p) && CountsInv(p) && LeasesInv(p);
    forall x | 0 <= x < |p.endpoints| ensures Load(p, x) == 1 { NewSum(p.conns, x); }
  }

  // -------------------------------------------------------------- works and counts

  // One more admitted operation on connection i, through lease k.
  lemma AdmitCounts(p: Pool, p': Pool, i: nat, k: Option<nat>)
    requires CountsInv(p) && i < |p.conns| && |p'.conns| == |p.conns| && |p'.leases| == |p.leases|
    requires p'.works == p.works + [Work(i, k, false)]
    requires forall j :: 0 <= j < |p.conns| ==> p'.conns[j].inFlight == p.conns[j].inFlight + if j == i then 1 else 0
    requires forall l :: 0 <= l < |p.leases| ==> p'.leases[l].inFlight == p.leases[l].inFlight + if k == Some(l) then 1 else 0
    ensures CountsInv(p')
  {
    hide Tally;
    forall key ensures Tally(p'.works, key) == Tally(p.works, key) + if Owes(Work(i, k, false), key) then 1 else 0 {
      TallyAppend(p.works, Work(i, k, false), key);
    }
  }

  lemma ReleaseCounts(p: Pool, p': Pool, w: nat)
    requires CountsInv(p) && w < |p.works| && !p.works[w].released && |p'.conns| == |p.conns| && |p'.leases| == |p.leases|
    requires p'.works == p.works[w := p.works[w].(released := true)]
    requires forall j :: 0 <= j < |p.conns| ==> p'.conns[j].inFlight == if p.works[w].conn == j then Less(p.conns[j].inFlight) else p.conns[j].inFlight
    requires forall l :: 0 <= l < |p.leases| ==> p'.leases[l].inFlight == if p.works[w].lease == Some(l) then Less(p.leases[l].inFlight) else p.leases[l].inFlight
    ensures CountsInv(p')
  {
    hide Tally;
    forall key ensures Tally(p.works, key) == Tally(p'.works, key) + if Owes(p.works[w], key) then 1 else 0 {
      TallyRelease(p.works, w, key);
    }
  }

  // New connections and leases owe nothing.
  lemma FreshCounts(p: Pool, p': Pool)
    requires CountsInv(p) && WorksInv(p) && p'.works == p.works && |p.conns| <= |p'.conns| && |p.leases| <= |p'.leases|
    requires forall j :: 0 <= j < |p'.conns| ==> p'.conns[j].inFlight == if j < |p.conns| then p.conns[j].inFlight else 0
    requires forall l :: 0 <= l < |p'.leases| ==> p'.leases[l].inFlight == if l < |p.leases| then p.leases[l].inFlight else 0
    ensures CountsInv(p')
  {
    hide Tally;
    forall j | |p.conns| <= j < |p'.conns| ensures Tally(p.works, ByConn(j)) == 0 { TallyNone(p.works, ByConn(j)); }
    forall l | |p.leases| <= l < |p'.leases| ensures Tally(p.works, ByLease(l)) == 0 { TallyNone(p.works, ByLease(l)); }
  }
}
