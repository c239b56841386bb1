/** The pool as the object it is: the loops and updates of its critical sections.
    Each takes steps of the transition system and so keeps its invariant. */
module PoolObject {
  import opened BerTypes
  import opened PoolCore
  import opened PoolInv
  import opened PoolRuns
  import opened PoolClaims

  // An endpoint acquire may dial now.
  ghost predicate MayDial(p: Pool, nextDial: seq<int>, e: nat, exact: Option<nat>, now: int)
    requires |nextDial| == |p.endpoints|
  {
    e < |p.endpoints| && (exact.None? || exact.value == e) && nextDial[e] <= now && Load(p, e) < p.options.cap
  }

  // How one locked look of acquire ends.
  datatype Decision = Served(i: nat) | Dial(e: nat) | MustWait | Closed | TooMany

  // How one locked look of a lease's acquireOperation ends.
  datatype Admission = Admitted | Blocks | Rejected

  function LookEvent(c: nat, d: Decision): Event
  {
    match d
    case Served(i) => Grant(c, i)
    case Dial(e) => BeginDial(c, e)
    case MustWait => Wait(c)
    case Closed => Refuse(c)
    case TooMany => Refuse(c)
  }

  function AdmissionEvent(c: nat, a: Admission): Event
  {
    match a
    case Admitted => GrantThrough(c)
    case Blocks => Wait(c)
    case Rejected => Refuse(c)
  }

  // What the methods need of the invariant.
  lemma InvFacts(p: Pool)
    requires Inv(p)
    ensures p.options.Valid() && forall j :: 0 <= j < |p.conns| ==> p.conns[j].endpoint < |p.endpoints|
  {
    hide CountsInv, LeasesInv, CallersInv, Load;
  }

  // A caller's step that is enabled is a step of the transition system.
  lemma Taken(p: Pool, e: Event)
    requires Inv(p) && CallerEnabled(p, e)
    ensures Enabled(p, e) && Apply(p, e) == CallerApply(p, e) && Inv(CallerApply(p, e))
  {
    CallerKeeps(p, e);
    hide Inv, NothingFor, Selectable, Load, Unregister, Register, TakeLease, Admit, LeaseAdmits, LeaseAdmit, AddConn, HangUp, MoveCaller;
  }

  // What that step comes to, case by case.
  ghost predicate Becomes(p: Pool, e: Event, p': Pool) { Enabled(p, e) && Apply(p, e) == p' && Inv(p') }

  lemma RefuseIs(p: Pool, c: nat)
    requires Inv(p) && CallerEnabled(p, Refuse(c))
    ensures Becomes(p, Refuse(c), Unregister(p, c))
  {
    Taken(p, Refuse(c));
    hide Inv, CallerEnabled, Enabled, Apply;
  }

  lemma WaitIs(p: Pool, c: nat)
    requires Inv(p) && CallerEnabled(p, Wait(c))
    ensures Becomes(p, Wait(c), Register(p, c))
  {
    Taken(p, Wait(c));
    hide Inv, CallerEnabled, Enabled, Apply;
  }

  lemma GrantIs(p: Pool, c: nat, i: nat)
    requires Inv(p) && CallerEnabled(p, Grant(c, i))
    ensures Becomes(p, Grant(c, i), Unregister(if p.callers[c].wish.Exclusive? then TakeLease(p, i) else Admit(p, i), c))
  {
    Taken(p, Grant(c, i));
    hide Inv, CallerEnabled, Enabled, Apply;
  }

  lemma DialIs(p: Pool, c: nat, x: nat)
    requires Inv(p) && CallerEnabled(p, BeginDial(c, x))
    ensures Becomes(p, BeginDial(c, x), p.(endpoints := p.endpoints[x := p.endpoints[x].(acquirers := p.endpoints[x].acquirers + 1)],
                                           callers := p.callers[c := p.callers[c].(at := DialingAt(x))]))
  {
    Taken(p, BeginDial(c, x));
    hide Inv, CallerEnabled, Enabled, Apply;
  }

  lemma ThroughIs(p: Pool, c: nat)
    requires Inv(p) && CallerEnabled(p, GrantThrough(c))
    ensures Becomes(p, GrantThrough(c), Unregister(LeaseAdmit(p, p.callers[c].wish.lease), c))
  {
    Taken(p, GrantThrough(c));
    hide Inv, CallerEnabled, Enabled, Apply, LeaseAdmit;
  }

  lemma HangUpIs(p: Pool, c: nat, ok: bool, now: int)
    requires Inv(p) && CallerEnabled(p, EndDial(c, ok, now))
    ensures var x := p.callers[c].at.endpoint;
            Becomes(p, EndDial(c, ok, now),
                    p.(endpoints := p.endpoints[x := p.endpoints[x].(acquirers := p.endpoints[x].acquirers - 1)],
                       callers := p.callers[c := p.callers[c].(at := Dialed(p, ok))],
                       conns := if ok && !p.closing then p.conns + [NewConn(x, now)] else p.conns))
  {
    Taken(p, EndDial(c, ok, now));
    hide Inv, CallerEnabled, Enabled, Apply;
  }

  lemma SelectedInRange(p: Pool, exact: Option<nat>, lease: bool, i: nat)
    requires Selectable(p, exact, lease, i)
    ensures i < |p.conns|
  {
  }

  lemma NothingIs(p: Pool, exact: Option<nat>, lease: bool)
    requires forall j :: 0 <= j < |p.conns| ==> !Eligible(p.conns[j], exact, lease, p.options)
    ensures NothingFor(p, if lease then Exclusive(exact) else Operation(exact))
  {
  }

  // A caller that is dialing is counted at its endpoint.
  lemma DialFacts(p: Pool, c: nat, e: nat)
    requires Inv(p) && c < |p.callers| && p.callers[c].at == DialingAt(e)
    ensures e < |p.endpoints| && p.endpoints[e].acquirers > 0
  {
    hide WorksInv, CountsInv, LeasesInv, LoadInv, Members;
    MemberCounts(p.callers, c, Dialers(e));
  }

  lemma {:induction false} MemberCounts(callers: seq<Caller>, c: nat, g: Group)
    requires c < |callers| && Belongs(callers[c], g)
    ensures Members(callers, g) > 0
    decreases |callers|
  {
    if c < |callers| - 1 { MemberCounts(callers[..|callers| - 1], c, g); }
  }

  lemma LeaseFacts(p: Pool, l: nat)
    requires Inv(p) && l < |p.leases|
    ensures p.leases[l].conn < |p.conns|
  {
    hide CountsInv, LeasesInv, CallersInv, LoadInv;
  }

  lemma WorkFacts(p: Pool, w: nat)
    requires Inv(p) && w < |p.works|
    ensures p.works[w].conn < |p.conns| && (p.works[w].lease.Some? ==> p.works[w].lease.value < |p.leases|)
  {
    hide CountsInv, LeasesInv, CallersInv, LoadInv;
  }

  // An operation that was not given back is counted at its connection.
  lemma WorkCounts(p: Pool, w: nat)
    requires Inv(p) && w < |p.works| && !p.works[w].released && p.works[w].conn < |p.conns|
    ensures p.conns[p.works[w].conn].inFlight > 0
  {
    hide WorksInv, LeasesInv, LoadInv, CallersInv, Tally;
    TallyPositive(p.works, w, ByConn(p.works[w].conn));
  }

  class Scheduler {
    const options: Options
    var closing: bool
    var waiters: int
    var selectionSeq: int          // a uint64
    var nextDial: seq<int>         // end of each endpoint's backoff
    var endpoints: seq<Endpoint>
    var conns: seq<PConn>
    var leases: seq<Lease>
    var works: seq<Work>
    ghost var callers: seq<Caller>

    ghost function View(): Pool
      reads this
    {
      Pool(options, closing, waiters, endpoints, conns, leases, works, callers)
    }

    ghost predicate Valid()
      reads this
    {
      InRange() && Inv(View())
    }

    ghost predicate InRange()
      reads this
    {
      0 <= selectionSeq <= MAX_UINT64 && |nextDial| == |endpoints|
    }

    // New, once every endpoint was dialed.
    constructor (options: Options, created: seq<int>)
      requires options.Valid() && |created| >= 1
      ensures Valid() && Initial(View()) && |endpoints| == |created|
    {
      this.options := options;
      closing, waiters, selectionSeq := false, 0, 0;
      nextDial := seq(|created|, _ => 0);
      endpoints := seq(|created|, _ => Endpoint(0, false, 0, 0, 0));
      conns := seq(|created|, i requires 0 <= i < |created| => NewConn(i, created[i]));
      leases, works, callers := [], [], [];
      new;
      hide Inv;
      InitialInv(View());
    }

    // The next of n candidates in turn.
    method TakeTurn(n: nat) returns (k: nat)
      requires InRange() && n > 0
      modifies `selectionSeq
      ensures InRange() && k < n && k == old(selectionSeq) % n && selectionSeq == (old(selectionSeq) + 1) % (MAX_UINT64 + 1)
    {
      k := selectionSeq % n;
      selectionSeq := if selectionSeq == MAX_UINT64 then 0 else selectionSeq + 1;
    }

    // ------------------------------------------------------------------ selection

    // Connection j comes before position i of endpoint e in the walk over all lists.
    predicate Before(j: nat, e: nat, i: nat)
      requires j < |conns|
      reads this
    {
      conns[j].endpoint < e || (conns[j].endpoint == e && j < i)
    }

    // The candidates are the eligible connections seen so far with the fewest
    // operations in flight.
    ghost predicate Least(candidates: seq<nat>, minimum: int, exact: Option<nat>, lease: bool, e: nat, i: nat)
      reads this
    {
      && (forall k :: 0 <= k < |candidates| ==>
            candidates[k] < |conns| && Eligible(conns[candidates[k]], exact, lease, options) && conns[candidates[k]].inFlight == minimum)
      && (candidates == [] ==> minimum == options.maxInFlight + 1)
      && (forall j :: 0 <= j < |conns| && Before(j, e, i) && Eligible(conns[j], exact, lease, options) ==>
            minimum <= conns[j].inFlight && candidates != [])
    }

    /** Selection finds a connection exactly when one is eligible, and then one with
        the fewest operations in flight. */
    method SelectConnection(exact: Option<nat>, lease: bool) returns (r: Option<nat>)
      requires Valid()
      modifies `selectionSeq
      ensures Valid() && View() == old(View())
      ensures r.Some? ==> Selectable(View(), exact, lease, r.value)
      ensures r.None? ==> forall j :: 0 <= j < |conns| ==> !Eligible(conns[j], exact, lease, options)
      ensures selectionSeq == if r.Some? then (old(selectionSeq) + 1) % (MAX_UINT64 + 1) else old(selectionSeq)
    {
      hide Inv;
      InvFacts(View());
      var candidates: seq<nat> := [];
      var minimum := options.maxInFlight + 1;
      for e := 0 to |endpoints|
        invariant selectionSeq == old(selectionSeq) && Least(candidates, minimum, exact, lease, e, 0)
      {
        if exact.None? || exact.value == e {
          candidates, minimum := ScanEndpoint(candidates, minimum, exact, lease, e);
        } else {
          SkipEndpoint(candidates, minimum, exact, lease, e);
        }
      }
      assert forall j :: 0 <= j < |conns| ==> Before(j, |endpoints|, 0);
      if |candidates| == 0 {
        return None;
      }
      var k := TakeTurn(|candidates|);
      return Some(candidates[k]);
    }

    lemma SkipEndpoint(candidates: seq<nat>, minimum: int, exact: Option<nat>, lease: bool, e: nat)
      requires Least(candidates, minimum, exact, lease, e, 0) && exact.Some? && exact.value != e
      ensures Least(candidates, minimum, exact, lease, e + 1, 0)
    {
    }

    method ScanEndpoint(candidates0: seq<nat>, minimum0: int, exact: Option<nat>, lease: bool, e: nat)
      returns (candidates: seq<nat>, minimum: int)
      requires options.Valid() && Least(candidates0, minimum0, exact, lease, e, 0) && (exact.None? || exact.value == e)
      ensures Least(candidates, minimum, exact, lease, e + 1, 0)
    {
      candidates, minimum := candidates0, minimum0;
      for i := 0 to |conns|
        invariant Least(candidates, minimum, exact, lease, e, i)
      {
        var c := conns[i];
        if c.listed && c.endpoint == e {
          if c.broken || c.draining || c.leased.Some? {
            continue;
          }
          if (lease && c.inFlight != 0) || (!lease && c.inFlight >= options.maxInFlight) {
            continue;
          }
          if c.inFlight < minimum {
            minimum := c.inFlight;
            candidates := [];
          }
          if c.inFlight == minimum {
            candidates := candidates + [i];
          }
        }
      }
    }

    // ------------------------------------------------------------------ admission

    // unregisterWaiterLocked, after which the caller returns.
    method UnregisterWaiter(ghost c: nat, registered: bool)
      requires c < |callers| && callers[c].registered == registered
      modifies `waiters, `callers
      ensures View() == Unregister(old(View()), c)
    {
      if registered {
        waiters := waiters - 1;
      }
      callers := callers[c := callers[c].(registered := false, at := Gone)];
    }

    method GrantTo(i: nat, lease: bool)
      requires i < |conns|
      modifies `conns, `leases, `works
      ensures View() == if lease then TakeLease(old(View()), i) else Admit(old(View()), i)
    {
      if lease {
        conns := conns[i := conns[i].(leased := Some(|leases|))];
        leases := leases + [Lease(i, false, 0)];
      } else {
        conns := conns[i := conns[i].(inFlight := conns[i].inFlight + 1)];
        works := works + [Work(i, None, false)];
      }
    }

    // The last part of a look that found nothing: register, or be refused at the limit.
    method WaitOrRefuse(ghost c: nat, registered: bool) returns (waits: bool)
      requires c < |callers| && callers[c].registered == registered
      modifies `waiters, `callers
      ensures waits <==> registered || old(waiters) != options.maxWaiters
      ensures View() == if waits then Register(old(View()), c) else Unregister(old(View()), c)
    {
      if !registered {
        if waiters == options.maxWaiters {
          UnregisterWaiter(c, registered);
          return false;
        }
        waiters := waiters + 1;
      }
      callers := callers[c := callers[c].(registered := true, at := Waiting)];
      return true;
    }

    /** One locked look of acquire takes a step of the transition system: it serves the
        caller whenever a connection is eligible, dials whenever it may and cannot
        serve, and only otherwise waits, or is refused at the limit; or the pool is
        closing. */
    method Look(ghost c: nat, exact: Option<nat>, lease: bool, registered: bool, now: int) returns (d: Decision)
      requires Valid() && c < |callers|
      requires callers[c] == Caller(if lease then Exclusive(exact) else Operation(exact), registered, Looking)
      modifies this
      ensures Valid()
      ensures Enabled(old(View()), LookEvent(c, d)) && View() == Apply(old(View()), LookEvent(c, d))
      ensures nextDial == old(nextDial) && |nextDial| == |old(View()).endpoints|
      ensures d.Closed? <==> old(closing)
      ensures d.Served? ==> Selectable(old(View()), exact, lease, d.i)
      ensures d.Dial? ==> MayDial(old(View()), nextDial, d.e, exact, now)
      ensures d.TooMany? ==> !registered && old(waiters) == options.maxWaiters
      ensures d.MustWait? ==> registered || old(waiters) != options.maxWaiters
      ensures d.Dial? || d.MustWait? || d.TooMany? ==> forall j :: 0 <= j < |old(conns)| ==> !Eligible(old(conns)[j], exact, lease, options)
      ensures d.MustWait? || d.TooMany? ==> forall e :: !MayDial(old(View()), nextDial, e, exact, now)
    {
      hide Inv, Apply, Enabled, Selectable, NothingFor, Load, TakeLease, Admit, Unregister, Register;
      ghost var p := View();
      if closing {
        RefuseIs(p, c);
        UnregisterWaiter(c, registered);
        return Closed;
      }
      var found := SelectConnection(exact, lease);
      if found.Some? {
        SelectedInRange(p, exact, lease, found.value);
        GrantIs(p, c, found.value);
        GrantTo(found.value, lease);
        UnregisterWaiter(c, registered);
        return Served(found.value);
      }
      NothingIs(p, exact, lease);
      var place := SelectDialEndpoint(exact, now);
      if place.Some? {
        var e := place.value;
        DialIs(p, c, e);
        endpoints := endpoints[e := endpoints[e].(acquirers := endpoints[e].acquirers + 1)];
        callers := callers[c := callers[c].(at := DialingAt(e))];
        return Dial(e);
      }
      if registered || waiters != options.maxWaiters { WaitIs(p, c); } else { RefuseIs(p, c); }
      var waits := WaitOrRefuse(c, registered);
      return if waits then MustWait else TooMany;
    }

    /** A dial of acquire ends: the connection is listed unless the pool is closing,
        and a failure starts a backoff. */
    method FinishDial(ghost c: nat, e: nat, ok: bool, now: int, backoff: int)
      requires Valid() && c < |callers| && callers[c].at == DialingAt(e)
      modifies this
      ensures Valid()
      ensures Enabled(old(View()), EndDial(c, ok, now)) && View() == Apply(old(View()), EndDial(c, ok, now))
      ensures conns == if ok && !closing then old(conns) + [NewConn(e, now)] else old(conns)
      ensures |callers| == |old(callers)| && callers[c].registered == old(callers)[c].registered
      ensures callers[c].at == if !ok then DialFailed else if closing then Gone else Looking
      ensures nextDial == if !ok then old(nextDial)[e := now + backoff] else if closing then old(nextDial) else old(nextDial)[e := 0]
    {
      hide Inv, Apply, Enabled;
      ghost var p := View();
      DialFacts(p, c, e);
      HangUpIs(p, c, ok, now);
      endpoints := endpoints[e := endpoints[e].(acquirers := endpoints[e].acquirers - 1)];
      callers := callers[c := callers[c].(at := Dialed(p, ok))];
      if ok && !closing {
        conns := conns + [NewConn(e, now)];
        nextDial := nextDial[e := 0];
      }
      if !ok {
        nextDial := nextDial[e := now + backoff];
      }
    }

    /** One locked look of a lease's acquireOperation takes a step of the transition
        system: it admits exactly while the lease is open, the pool is not closing, the
        connection works and the lease is below the limit, and waits exactly while that
        limit alone is in the way and there is room for a waiter. */
    method AcquireOperation(ghost c: nat, l: nat, registered: bool, connFailed: bool) returns (a: Admission)
      requires Valid() && c < |callers| && l < |leases| && callers[c] == Caller(Through(l), registered, Looking)
      modifies this
      ensures Valid()
      ensures Enabled(old(View()), AdmissionEvent(c, a)) && View() == Apply(old(View()), AdmissionEvent(c, a))
      ensures a.Admitted? <==> LeaseAdmits(old(View()), l) && !connFailed
      ensures a.Blocks? <==> !connFailed && NothingFor(old(View()), Through(l)) && !old(closing) && (registered || old(waiters) != options.maxWaiters)
    {
      hide Inv, Apply, Enabled, Unregister, Register;
      ghost var p := View();
      LeaseFacts(p, l);
      var lease := leases[l];
      var conn := conns[lease.conn];
      if lease.closed || closing || conn.broken || connFailed {
        RefuseIs(p, c);
        UnregisterWaiter(c, registered);
        return Rejected;
      }
      if lease.inFlight < options.maxInFlight {
        ThroughIs(p, c);
        leases := leases[l := lease.(inFlight := lease.inFlight + 1)];
        conns := conns[lease.conn := conn.(inFlight := conn.inFlight + 1)];
        works := works + [Work(lease.conn, Some(l), false)];
        UnregisterWaiter(c, registered);
        return Admitted;
      }
      if registered || waiters != options.maxWaiters { WaitIs(p, c); } else { RefuseIs(p, c); }
      var waits := WaitOrRefuse(c, registered);
      return if waits then Blocks else Rejected;
    }

    // Lease.Close
    method EndLease(l: nat, now: int)
      requires Valid() && l < |leases| && !leases[l].closed
      modifies `conns, `leases
      ensures Valid()
      ensures View() == CloseLease(old(View()), l, now)
      ensures leases[l].closed && leases[l].inFlight == old(leases[l].inFlight)
      ensures var c, d := old(conns)[leases[l].conn], conns[leases[l].conn];
              var idle := leases[l].inFlight == 0;
              && d.leased == (if idle then None else c.leased) && d.lastIdle == (if idle then now else c.lastIdle)
              && (d.retiring <==> c.retiring || (idle && c.draining))
              && (d.listed <==> c.listed && (c.inFlight != 0 || d.leased.Some? || !(c.broken || d.retiring)))
    {
      LeaseFacts(View(), l);
      CloseLeaseKeeps(View(), l, now);
      hide Inv;
      var lease := leases[l];
      leases := leases[l := lease.(closed := true)];
      var c := conns[lease.conn];
      var leased, lastIdle, retiring, listed := c.leased, c.lastIdle, c.retiring, c.listed;
      if lease.inFlight == 0 {
        leased := None;
        lastIdle := now;
        if c.draining {
          retiring := true;
        }
      }
      if c.inFlight == 0 && leased.None? && (c.broken || retiring) {
        listed := false;
      }
      conns := conns[lease.conn := c.(leased := leased, lastIdle := lastIdle, retiring := retiring, listed := listed)];
    }

    // The watcher of connection i, once it is done.
    method ConnectionDone(i: nat)
      requires Valid() && i < |conns| && !conns[i].broken
      modifies `conns
      ensures Valid()
      ensures View() == SetConn(old(View()), i, Break(old(conns[i])))
      ensures conns[i].broken && conns[i].leased.None? && (conns[i].listed <==> old(conns[i].listed) && conns[i].inFlight > 0)
    {
      BreakKeeps(View(), i);
      hide Inv;
      var c := conns[i];
      var listed := c.listed;
      if c.inFlight == 0 {
        listed := false;
      }
      conns := conns[i := c.(broken := true, leased := None, listed := listed)];
    }

    // -------------------------------------------------------------------- dialing

    method CountLive(e: nat) returns (live: nat)
      ensures live == Live(View(), e)
    {
      live := 0;
      for i := 0 to |conns|
        invariant live == Sum(conns[..i], LiveAt(e))
      {
        assert conns[..i + 1] == conns[..i] + [conns[i]];
        SumAppend(conns[..i], conns[i], LiveAt(e));
        if conns[i].listed && conns[i].endpoint == e && !conns[i].broken && !conns[i].draining {
          live := live + 1;
        }
      }
      assert conns[..|conns|] == conns;
    }

    /** A dial starts only below the cap and outside backoff, at an endpoint with the
        least load among those, and whenever there is one. */
    method SelectDialEndpoint(exact: Option<nat>, now: int) returns (r: Option<nat>)
      requires Valid()
      modifies `selectionSeq
      ensures Valid() && View() == old(View())
      ensures r.Some? ==> MayDial(View(), nextDial, r.value, exact, now)
                          && forall e :: MayDial(View(), nextDial, e, exact, now) ==> Load(View(), r.value) <= Load(View(), e)
      ensures r.None? ==> forall e :: !MayDial(View(), nextDial, e, exact, now)
      ensures r.Some? ==> r.value < |nextDial| && nextDial[r.value] <= now && (exact.Some? ==> r.value == exact.value)
      ensures r.None? ==> |nextDial| == |endpoints| && forall e :: 0 <= e < |endpoints| && (exact.Some? ==> e == exact.value) ==>
                            nextDial[e] > now || Load(View(), e) >= options.cap
    {
      hide Load, Inv;
      InvFacts(View());
      var candidates: seq<nat> := [];
      var minimum := options.cap + 1;
      for e := 0 to |endpoints|
        invariant selectionSeq == old(selectionSeq)
        invariant forall k :: 0 <= k < |candidates| ==> MayDial(View(), nextDial, candidates[k], exact, now) && Load(View(), candidates[k]) == minimum
        invariant candidates == [] ==> minimum == options.cap + 1
        invariant forall x :: 0 <= x < e && MayDial(View(), nextDial, x, exact, now) ==> minimum <= Load(View(), x) && candidates != []
      {
        if exact.None? || exact.value == e {
          var live := CountLoad(e);
          if live < options.cap && nextDial[e] <= now {
            if live < minimum {
              minimum := live;
              candidates := [];
            }
            if live == minimum {
              candidates := candidates + [e];
            }
          }
        }
      }
      if |candidates| == 0 {
        return None;
      }
      var k := TakeTurn(|candidates|);
      return Some(candidates[k]);
    }

    method CountLoad(e: nat) returns (live: nat)
      requires e < |endpoints|
      ensures live == Load(View(), e)
    {
      live := CountLive(e);
      live := live + endpoints[e].acquirers + endpoints[e].redialing;
    }

    // -------------------------------------------------------------------- release

    // What giving back one operation does to its connection.
    static method GiveBack(c: PConn, leaseClosed: bool, now: int) returns (d: PConn)
      ensures d == Unlist(Settle(c.(inFlight := Less(c.inFlight)), leaseClosed, now))
    {
      var inFlight, leased, retiring, lastIdle, listed := c.inFlight, c.leased, c.retiring, c.lastIdle, c.listed;
      if inFlight > 0 {
        inFlight := inFlight - 1;
      }
      if inFlight == 0 {
        lastIdle := now;
        if leaseClosed {
          leased := None;
        }
        if c.draining && leased.None? {
          retiring := true;
        }
      }
      if inFlight == 0 && leased.None? && (c.broken || retiring) {
        listed := false;
      }
      d := PConn(c.endpoint, c.created, lastIdle, inFlight, leased, c.draining, c.broken, retiring, listed);
    }

    // releaseOperation and releaseLeaseOperation, for the operation w
    method ReleaseOperation(w: nat, now: int)
      requires Valid() && w < |works| && !works[w].released
      modifies `works, `conns, `leases
      ensures Valid()
      ensures View() == Release(old(View()), w, now)
      ensures conns[works[w].conn].inFlight + 1 == old(conns[works[w].conn].inFlight) && works[w].released
      ensures var c, d := old(conns)[works[w].conn], conns[works[w].conn];
              var idle, closed := d.inFlight == 0, works[w].lease.Some? && leases[works[w].lease.value].closed;
              && d.lastIdle == (if idle then now else c.lastIdle)
              && d.leased == (if idle && closed then None else c.leased)
              && (d.retiring <==> c.retiring || (idle && c.draining && d.leased.None?))
              && (d.listed <==> c.listed && (!idle || d.leased.Some? || !(c.broken || d.retiring)))
    {
      WorkFacts(View(), w);
      WorkCounts(View(), w);
      ReleaseKeeps(View(), w, now);
      hide Unlist, Settle, Less, Inv;
      var work := works[w];
      works := works[w := work.(released := true)];
      var leaseClosed := false;
      if work.lease.Some? {
        var l := work.lease.value;
        leaseClosed := leases[l].closed;
        var n := Fewer(leases[l].inFlight);
        leases := leases[l := leases[l].(inFlight := n)];
      }
      var c := GiveBack(conns[work.conn], leaseClosed, now);
      conns := conns[work.conn := c];
    }

    static method Fewer(n: nat) returns (r: nat)
      ensures r == Less(n)
    {
      r := n;
      if r > 0 {
        r := r - 1;
      }
    }

    // --------------------------------------------------------------------- expiry

    // The pass over one connection: whether it is drained, and whether for good.
    static method ExpireOne(c: PConn, e: nat, now: int, live: int, o: Options) returns (d: PConn, drained: bool, expired: bool)
      ensures drained <==> c.endpoint == e && Drains(c, now, live, o)
      ensures drained <==> Alive(c, e) && c.leased.None? && (now - c.created >= o.maximumLifetime
                                                              || (c.inFlight == 0 && live > 1 && now - c.lastIdle >= o.idleLifetime))
      ensures d == if drained then Drain(c) else c
      ensures expired <==> Expired(c, now, o)
    {
      d, drained, expired := c, false, now - c.created >= o.maximumLifetime;
      if c.listed && c.endpoint == e && !c.broken && !c.draining && c.leased.None? {
        var idle := c.inFlight == 0 && live > 1 && now - c.lastIdle >= o.idleLifetime;
        if expired || idle {
          drained := true;
          d := c.(draining := true, retiring := c.retiring || c.inFlight == 0);
        }
      }
    }

    /** One endpoint's part of an expiry pass drains exactly what the transition
        system drains, and reports that a replacement is needed exactly when it drained
        the last live connection. */
    method ExpireEndpoint(e: nat, now: int) returns (again: bool)
      modifies `conns
      ensures View() == old(View()).(conns := Expire(old(View()), e, now).0) && again == Expire(old(View()), e, now).1
      ensures |conns| == |old(conns)| && forall i :: 0 <= i < |conns| ==> PassedOver(old(conns), conns, i, e, now, 0, options)
      ensures again <==> Live(old(View()), e) > 0 && Live(View(), e) == 0
    {
      hide Sum, Drains, Expired, Drain, ExpireFrom, PassedOver;
      ghost var p := View();
      ghost var result := Expire(p, e, now);
      var live: int := CountLive(e);
      again := false;
      ghost var rest := result;
      assert conns[0..] == conns && [] + rest.0 == rest.0;
      var i := 0;
      while i < |conns|
        invariant 0 <= i <= |conns| == |p.conns|
        invariant conns[i..] == p.conns[i..]
        invariant rest == ExpireFrom(p.conns[i..], e, now, live, options)
        invariant result.0 == conns[..i] + rest.0
        invariant result.1 == (again || rest.1)
      {
        ghost var before, prefix := rest, conns[..i];
        ExpireTurn(p.conns[i..], e, now, live, options);
        assert p.conns[i..][1..] == p.conns[i + 1..] && p.conns[i..][0] == conns[i];
        var d, drained, expired := ExpireOne(conns[i], e, now, live, options);
        if drained {
          live := live - 1;
          again := again || (expired && live == 0);
        }
        rest := ExpireFrom(p.conns[i + 1..], e, now, live, options);
        conns := conns[i := d];
        assert before.0 == [d] + rest.0;
        assert conns[..i + 1] == prefix + [d];
        i := i + 1;
      }
      ExpireNone(e, now, live, options);
      assert conns[..|conns|] == conns;
      ExpirySchedulesReplacement(p, e, now);
      AllPassed(p, e, now);
    }

    /** A whole expiry pass, under one lock: a closing pool is left alone; otherwise each
        endpoint in turn takes its step, and a replacement is asked for at exactly the
        endpoints that lost their last live connection. */
    method RetireAllExpired(now: int) returns (again: seq<nat>)
      requires Valid()
      modifies `conns
      ensures Valid()
      ensures View() == if closing then old(View()) else Passed(old(View()), |endpoints|, now)
      ensures forall x: nat :: x in again <==> x < |endpoints| && Live(old(View()), x) > 0 && Live(View(), x) == 0
      ensures !closing ==> |conns| == |old(conns)| && forall i :: 0 <= i < |conns| ==>
                PassedOver(old(conns), conns, i, old(conns)[i].endpoint, now, 0, options)
    {
      hide Expire, Live, Inv;
      again := [];
      if closing {
        return;
      }
      ghost var p := View();
      for e := 0 to |endpoints|
        invariant Valid() && View() == Passed(p, e, now)
        invariant forall x: nat :: x in again <==> x < e && Live(p, x) > 0 && Live(View(), x) == 0
        invariant forall x: nat :: x >= e ==> Live(View(), x) == Live(p, x)
      {
        ghost var before := View();
        ExpireKeeps(before, e, now);
        var asks := ExpireEndpoint(e, now);
        forall x: nat | x != e ensures Live(View(), x) == Live(before, x) { ExpireElsewhere(before, e, now, x); }
        if asks {
          again := again + [e];
        }
      }
      PassMeans(p, |endpoints|, now);
      forall i | 0 <= i < |conns| ensures PassedOver(p.conns, conns, i, p.conns[i].endpoint, now, 0, options) {
        InvFacts(p);
      }
    }

    // ----------------------------------------------------------------------- drain

    // The count the drain loop waits for.
    method CountActive() returns (active: nat)
      ensures active == Active(View())
    {
      active := 0;
      for i := 0 to |conns|
        invariant active == Sum(conns[..i], Activity)
      {
        assert conns[..i + 1] == conns[..i] + [conns[i]];
        SumAppend(conns[..i], conns[i], Activity);
        if conns[i].listed {
          active := active + conns[i].inFlight;
          if conns[i].leased.Some? {
            active := active + 1;
          }
        }
      }
      assert conns[..|conns|] == conns;
    }
  }

  // The pass, as far as the first n endpoints.
  ghost function Passed(p: Pool, n: nat, now: int): Pool
  {
    if n == 0 then p else Passed(p, n - 1, now).(conns := Expire(Passed(p, n - 1, now), n - 1, now).0)
  }

  lemma AllPassed(p: Pool, e: nat, now: int)
    ensures var after := Expire(p, e, now).0;
            |after| == |p.conns| && forall i :: 0 <= i < |after| ==> PassedOver(p.conns, after, i, e, now, 0, p.options)
  {
    forall i | 0 <= i < |p.conns| ensures PassedOver(p.conns, Expire(p, e, now).0, i, e, now, 0, p.options) {
      ExpireMeans(p.conns, e, now, Live(p, e), 0, p.options, i);
    }
  }

  // Every connection has been passed over exactly if its endpoint's turn has come.
  ghost predicate PassedUpTo(before: seq<PConn>, after: seq<PConn>, n: nat, now: int, o: Options)
  {
    |after| == |before| && forall i :: 0 <= i < |before| ==>
      && after[i].endpoint == before[i].endpoint
      && if before[i].endpoint < n then PassedOver(before, after, i, before[i].endpoint, now, 0, o) else after[i] == before[i]
  }

  // Only the connections of the endpoint matter.
  lemma SamePass(b: seq<PConn>, a: seq<PConn>, b': seq<PConn>, a': seq<PConn>, i: nat, e: nat, now: int, o: Options)
    requires |b| == |a| == |b'| == |a'| && i < |b| && b[i].endpoint == e && PassedOver(b, a, i, e, now, 0, o)
    requires forall j :: 0 <= j < |b| ==> b[j].endpoint == a[j].endpoint == b'[j].endpoint == a'[j].endpoint
    requires forall j :: 0 <= j < |b| && b[j].endpoint == e ==> b'[j] == b[j] && a'[j] == a[j]
    ensures PassedOver(b', a', i, e, now, 0, o)
  {
    forall j | 0 <= j < |b| ensures Alive(a[j], e) == Alive(a'[j], e) && Alive(b[j], e) == Alive(b'[j], e) { }
    if j :| 0 <= j < i && Alive(a[j], e) { assert Alive(a'[j], e); }
    if j :| 0 <= j < i && Alive(a'[j], e) { assert Alive(a[j], e); }
    if j :| i < j < |b| && Alive(b[j], e) { assert Alive(b'[j], e); }
    if j :| i < j < |b| && Alive(b'[j], e) { assert Alive(b[j], e); }
  }

  lemma OnePass(p: Pool, before: seq<PConn>, n: nat, now: int)
    requires PassedUpTo(before, p.conns, n, now, p.options)
    ensures PassedUpTo(before, Expire(p, n, now).0, n + 1, now, p.options)
  {
    var a := Expire(p, n, now).0;
    AllPassed(p, n, now);
    hide ExpireFrom, Sum;
    forall i | 0 <= i < |a| ensures a[i].endpoint == before[i].endpoint && (before[i].endpoint != n ==> a[i] == p.conns[i]) {
      assert PassedOver(p.conns, a, i, n, now, 0, p.options) && p.conns[i].endpoint == before[i].endpoint;
    }
    forall i | 0 <= i < |a| && before[i].endpoint <= n ensures PassedOver(before, a, i, before[i].endpoint, now, 0, p.options) {
      if before[i].endpoint == n { SamePass(p.conns, a, before, a, i, n, now, p.options); }
      else { SamePass(before, p.conns, before, a, i, before[i].endpoint, now, p.options); }
    }
  }

  lemma {:induction false} PassMeans(p: Pool, n: nat, now: int)
    ensures PassedUpTo(p.conns, Passed(p, n, now).conns, n, now, p.options) && Passed(p, n, now).options == p.options
  {
    hide Expire;
    if n > 0 {
      PassMeans(p, n - 1, now);
      OnePass(Passed(p, n - 1, now), p.conns, n - 1, now);
    }
  }

  lemma {:induction false} ExpireFromElsewhere(conns: seq<PConn>, e: nat, now: int, live: int, o: Options, x: nat)
    requires x != e
    ensures Sum(ExpireFrom(conns, e, now, live, o).0, LiveAt(x)) == Sum(conns, LiveAt(x))
    decreases |conns|
  {
    if conns != [] {
      var c, rest := conns[0], conns[1..];
      var live' := if c.endpoint == e && Drains(c, now, live, o) then live - 1 else live;
      ExpireFromElsewhere(rest, e, now, live', o, x);
      assert conns == [c] + rest;
      SumFront(c, rest, LiveAt(x));
      SumFront(ExpireFrom(conns, e, now, live, o).0[0], ExpireFrom(rest, e, now, live', o).0, LiveAt(x));
      hide Sum;
    }
  }

  // Other endpoints keep what is live.
  lemma ExpireElsewhere(p: Pool, e: nat, now: int, x: nat)
    requires x != e
    ensures Live(p.(conns := Expire(p, e, now).0), x) == Live(p, x)
  {
    ExpireFromElsewhere(p.conns, e, now, Live(p, e), p.options, x);
  }

  lemma ExpireNone(e: nat, now: int, live: int, o: Options)
    ensures ExpireFrom([], e, now, live, o) == ([], false)
  {
  }

  // One turn of an expiry pass.
  lemma ExpireTurn(conns: seq<PConn>, e: nat, now: int, live: int, o: Options)
    requires conns != []
    ensures var c, r := conns[0], ExpireFrom(conns, e, now, live, o);
            if c.endpoint == e && Drains(c, now, live, o)
            then var rest := ExpireFrom(conns[1..], e, now, live - 1, o);
                 r == ([Drain(c)] + rest.0, rest.1 || (Expired(c, now, o) && live - 1 == 0))
            else var rest := ExpireFrom(conns[1..], e, now, live, o);
                 r == ([c] + rest.0, rest.1)
  {
  }
}
