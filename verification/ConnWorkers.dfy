/** The goroutines that reserve message IDs, take the write token and call
    writeAll, seen through their positions: each ID and the token has one holder,
    one of them at a time is inside writeAll, each enters it at most once, and
    nobody after the one that unbinds. */
module ConnWorkers {
  import opened BerTypes
  import opened ConnCore
  import opened ConnMessages
  import opened ConnMachine

  datatype Position = Absent | AtOp(stage: Stage, id: int) | AtTask(task: AbandonStage) | AtClose(close: CloseStage)

  function Pos(s: State, w: Worker): Position
  {
    match w
    case Doing(i) => if i < |s.core.ops| then AtOp(s.core.ops[i].stage, s.core.ops[i].spec.id) else Absent
    case Abandoner(t) => if t < |s.abandons| then AtTask(s.abandons[t].stage) else Absent
    case Closer => AtClose(s.closer)
  }

  // The reserved ID a worker still has to use or release.
  function Claim(x: Position): Option<int>
  {
    match x
    case Absent => None
    case AtOp(stage, id) => if stage.Reserved? || stage.Rejected? then Some(id) else None
    case AtTask(stage) => if stage.Spawned? || stage.Failing? || stage.Over? then None else Some(stage.aid)
    case AtClose(stage) => if stage.Unbinding? || stage.WroteUnbind? then Some(stage.uid) else None
  }

  predicate Holds(x: Position)
  {
    match x
    case Absent => false
    case AtOp(stage, _) => stage.HasToken? || stage.Cleared? || stage.Writing?
    case AtTask(stage) => stage.GotToken? || stage.TokenCleared? || stage.Tombstoned?
    case AtClose(stage) => stage.GotCloseToken? || stage.Unbinding? || stage.WroteUnbind? || stage.ReleasedId?
  }

  // Inside writeAll.
  predicate Inside(x: Position)
  {
    match x
    case Absent => false
    case AtOp(stage, _) => stage.Writing?
    case AtTask(stage) => stage.Tombstoned?
    case AtClose(stage) => stage.Unbinding?
  }

  // May have been inside writeAll already.
  predicate Entered(x: Position)
  {
    match x
    case Absent => false
    case AtOp(stage, _) => stage.Writing? || stage.Wrote? || stage.Observed? || stage.Finished?
    case AtTask(stage) => stage.Tombstoned? || stage.Leaving? || stage.Failing? || stage.Over?
    case AtClose(stage) => !(stage.NotStarted? || stage.Started? || stage.GotCloseToken?)
  }

  // Saw neither an error nor closing while holding the token, and has yet to let
  // go of it.
  predicate Committed(x: Position)
  {
    match x
    case Absent => false
    case AtOp(stage, _) => stage.Cleared? || stage.Writing?
    case AtTask(stage) => stage.TokenCleared? || stage.Tombstoned?
    case AtClose(_) => false
  }

  // ------------------------------------------------------------------ the invariants

  // Before retirement every claimed ID is reserved, for its one owner.
  ghost predicate OwnedInv(s: State)
  {
    s.core.err.None? ==>
      && (forall w :: Claim(Pos(s, w)).Some? ==> Claim(Pos(s, w)).value in s.core.reserved)
      && (forall w, w' :: Claim(Pos(s, w)).Some? && Claim(Pos(s, w)) == Claim(Pos(s, w')) ==> w == w')
  }

  // The token is with exactly the worker at a position that needs it.
  ghost predicate TokenInv(s: State)
  {
    forall w :: Holds(Pos(s, w)) <==> s.token == Some(w)
  }

  // The worker inside writeAll, if any, made the last call, and a call that has
  // not returned has its worker inside.
  ghost predicate BusyInv(s: State)
  {
    && (forall w :: Inside(Pos(s, w)) ==> s.calls != [] && s.calls[|s.calls| - 1].owner == w)
    && (s.calls != [] && !LastReturned(s) ==> Inside(Pos(s, s.calls[|s.calls| - 1].owner)))
  }

  // No worker calls writeAll twice.
  ghost predicate OnceInv(s: State)
  {
    && (forall c :: 0 <= c < |s.calls| ==> Entered(Pos(s, s.calls[c].owner)))
    && (forall c, d :: 0 <= c < d < |s.calls| ==> s.calls[c].owner != s.calls[d].owner)
  }

  // The Unbind is the last call, and nobody is left who could make another.
  ghost predicate LastInv(s: State)
  {
    forall c :: 0 <= c < |s.calls| && s.calls[c].owner == Closer ==>
      c == |s.calls| - 1 && s.core.closing && NobodyCommitted(s)
  }

  ghost predicate NobodyCommitted(s: State) { forall w :: !Committed(Pos(s, w)) }

  ghost predicate WorkersInv(s: State) { OwnedInv(s) && TokenInv(s) && BusyInv(s) && OnceInv(s) && LastInv(s) }

  // ------------------------------------------------------------ one worker moves

  // Nobody but w changes position.
  ghost predicate Moves(s: State, s': State, w: Worker)
  {
    forall v :: v != w ==> Pos(s', v) == Pos(s, v)
  }

  ghost predicate MovesToken(s: State, s': State, w: Worker)
  {
    if Holds(Pos(s', w)) then (s.token == None || s.token == Some(w)) && s'.token == Some(w)
    else s'.token == if s.token == Some(w) then None else s.token
  }

  lemma TokenMove(s: State, s': State, w: Worker)
    requires TokenInv(s) && Moves(s, s', w) && MovesToken(s, s', w)
    ensures TokenInv(s')
  {
    hide Pos, Holds;
  }

  ghost predicate MovesIds(s: State, s': State, w: Worker)
  {
    s'.core.err.None? ==>
      && s.core.err.None?
      && var c, c' := Claim(Pos(s, w)), Claim(Pos(s', w));
         if c' == c then s'.core.reserved == s.core.reserved
         else if c'.Some? then c.None? && c'.value !in s.core.reserved && s'.core.reserved == s.core.reserved + {c'.value}
         else s'.core.reserved == s.core.reserved - {c.value}
  }

  lemma OwnedMove(s: State, s': State, w: Worker)
    requires OwnedInv(s) && Moves(s, s', w) && MovesIds(s, s', w)
    ensures OwnedInv(s')
  {
    hide Pos, Claim;
  }

  // The calls are the same, a new one was made by w, or w left after the last one.
  ghost predicate MovesCalls(s: State, s': State, w: Worker)
  {
    || (s'.calls == s.calls && Inside(Pos(s', w)) == Inside(Pos(s, w)))
    || (s'.calls == s.calls && LastReturned(s) && !Inside(Pos(s', w)))
    || (&& |s'.calls| == |s.calls| + 1 && s'.calls[..|s.calls|] == s.calls
        && s'.calls[|s.calls|].owner == w && s'.calls[|s.calls|].phase.AtTop?
        && s.token == Some(w) && !Entered(Pos(s, w)) && Inside(Pos(s', w)))
  }

  lemma InsideHolds(x: Position)
    requires Inside(x)
    ensures Holds(x) && Entered(x)
  {
  }

  lemma BusyMove(s: State, s': State, w: Worker)
    requires TokenInv(s) && BusyInv(s) && Moves(s, s', w) && MovesCalls(s, s', w)
    ensures BusyInv(s')
  {
    hide Pos, Inside, Holds, Entered;
    if s'.calls != s.calls {
      forall v | Inside(Pos(s', v)) ensures v == w {
        if v != w { InsideHolds(Pos(s, v)); }
      }
    }
  }

  lemma OnceMove(s: State, s': State, w: Worker)
    requires OnceInv(s) && Moves(s, s', w) && MovesCalls(s, s', w)
    requires Entered(Pos(s, w)) ==> Entered(Pos(s', w))
    ensures OnceInv(s')
  {
    hide Pos, Inside, Holds, Entered;
    if s'.calls != s.calls {
      InsideHolds(Pos(s', w));
      assert forall c :: 0 <= c < |s.calls| ==> s'.calls[c] == s.calls[c];
    }
  }

  // The check comes before the call, and closing is for good.
  ghost predicate MovesGate(s: State, s': State, w: Worker)
  {
    && (s.core.closing ==> s'.core.closing)
    && (Committed(Pos(s', w)) ==> Committed(Pos(s, w)) || !s.core.closing)
    && (s'.calls != s.calls ==> if w == Closer then s.core.closing else Committed(Pos(s, w)))
  }

  lemma CommittedHolds(x: Position)
    requires Committed(x)
    ensures Holds(x)
  {
  }

  lemma CloserNotCommitted(s: State)
    ensures !Committed(Pos(s, Closer))
  {
  }

  lemma LastMove(s: State, s': State, w: Worker)
    requires TokenInv(s) && OnceInv(s) && LastInv(s) && Moves(s, s', w) && MovesCalls(s, s', w) && MovesGate(s, s', w)
    ensures LastInv(s')
  {
    hide Pos, Inside, Holds, Entered, Committed;
    CloserNotCommitted(s');
    if s'.calls != s.calls {
      if w == Closer {
        forall v ensures !Committed(Pos(s', v)) {
          if v != w && Committed(Pos(s, v)) { CommittedHolds(Pos(s, v)); }
        }
      }
      assert forall c :: 0 <= c < |s.calls| ==> s'.calls[c] == s.calls[c];
    }
  }

  // What the position of w allows it to do next.
  ghost predicate Step(s: State, s': State, w: Worker)
  {
    && Moves(s, s', w) && MovesToken(s, s', w) && MovesIds(s, s', w) && MovesCalls(s, s', w) && MovesGate(s, s', w)
    && (Entered(Pos(s, w)) ==> Entered(Pos(s', w)))
  }

  lemma StepKeepsWorkers(s: State, s': State, w: Worker)
    requires WorkersInv(s) && Step(s, s', w)
    ensures WorkersInv(s')
  {
    TokenMove(s, s', w);
    OwnedMove(s, s', w);
    BusyMove(s, s', w);
    OnceMove(s, s', w);
    LastMove(s, s', w);
  }

  // --------------------------------------------------------------------- each event

  ghost predicate TokenAt(s: State, w: Worker) { Holds(Pos(s, w)) <==> s.token == Some(w) }

  lemma BeginStep(s: State, spec: Spec)
    requires spec.id !in s.core.reserved && s.core.err.None? && TokenAt(s, Doing(|s.core.ops|))
    ensures Step(s, Begin(s, spec), Doing(|s.core.ops|))
  {
  }

  // One operation moves: its own ID claim and the reserved IDs change together.
  lemma OpMoves(s: State, k: Core, i: nat, q: Op)
    requires i < |s.core.ops| && k.ops == s.core.ops[i := q] && TokenAt(s, Doing(i))
    requires var s', w := s.(core := k), Doing(i);
             && !Holds(Pos(s, w)) && !Holds(AtOp(q.stage, q.spec.id)) && !Inside(Pos(s, w)) && !Inside(AtOp(q.stage, q.spec.id))
             && (Entered(Pos(s, w)) ==> Entered(AtOp(q.stage, q.spec.id)))
             && (s.core.closing ==> k.closing)
             && MovesIds(s, s', w)
    ensures Step(s, s.(core := k), Doing(i))
  {
  }

  lemma DropMoves(s: State, i: nat)
    requires i < |s.core.ops| && (s.core.ops[i].stage.Reserved? || s.core.ops[i].stage.Rejected?) && TokenAt(s, Doing(i))
    ensures Step(s, s.(core := Drop(s.core, i)), Doing(i))
  {
    OpMoves(s, Drop(s.core, i), i, s.core.ops[i].(stage := Finished));
  }

  lemma EncodeMoves(s: State, i: nat)
    requires i < |s.core.ops| && s.core.ops[i].stage.Reserved? && TokenAt(s, Doing(i))
    ensures Step(s, s.(core := SetOp(s.core, i, EncodedOp(s.core, i))), Doing(i))
  {
    hide Encoding;
    OpMoves(s, SetOp(s.core, i, EncodedOp(s.core, i)), i, EncodedOp(s.core, i));
  }

  lemma InstallMoves(s: State, i: nat)
    requires i < |s.core.ops| && s.core.ops[i].stage.Reserved? && TokenAt(s, Doing(i))
    ensures Step(s, s.(core := Install(s.core, i)), Doing(i))
  {
    var p := s.core.ops[i];
    assert InstalledOp(p, s.core.phase).stage == Installed && InstalledOp(p, s.core.phase).spec == p.spec;
    assert RejectedOp(p).stage == Rejected && RejectedOp(p).spec == p.spec;
    hide Step, InstalledOp, RejectedOp;
    if InstallAllowed(s.core, i) {
      OpMoves(s, Install(s.core, i), i, InstalledOp(s.core.ops[i], s.core.phase));
    } else {
      OpMoves(s, Install(s.core, i), i, RejectedOp(s.core.ops[i]));
    }
  }

  lemma WriterMoves(s: State, i: nat, e: WriterStep)
    requires WriterEnabled(s, i, e) && TokenAt(s, Doing(i))
    ensures Step(s, WriterApply(s, i, e), Doing(i))
  {
  }

  lemma SettleMoves(s: State, i: nat, e: OutcomeStep)
    requires OutcomeEnabled(s, i, e) && TokenAt(s, Doing(i))
    ensures Step(s, OutcomeApply(s, i, e), Doing(i))
  {
    hide FinishOp;
  }

  lemma SpawnMoves(s: State, target: nat, wanted: bool)
    requires TokenAt(s, Abandoner(|s.abandons|))
    ensures Step(s, Spawn(s, target, wanted), Abandoner(|s.abandons|))
  {
  }

  // A change of the operations that leaves every stage and ID as it was.
  lemma QuietMoves(s: State, k: Core)
    requires |k.ops| == |s.core.ops| && (k.err.None? ==> s.core.err.None? && k.reserved == s.core.reserved) && (s.core.closing ==> k.closing)
    requires forall j :: 0 <= j < |k.ops| ==> k.ops[j].stage == s.core.ops[j].stage && k.ops[j].spec == s.core.ops[j].spec
    requires TokenAt(s, Closer)
    ensures Step(s, s.(core := k), Closer)
  {
  }

  lemma EarlyAbandonMoves(s: State, t: nat, e: AbandonStep)
    requires AbandonEnabled(s, t, e) && TokenAt(s, Abandoner(t))
    requires e.ReserveAid? || e.TakeAbandonToken? || e.AbandonAcquireFails? || e.CheckAbandonToken?
    requires TryReserve(s.core).Some? ==> TryReserve(s.core).value !in s.core.reserved
    ensures Step(s, AbandonApply(s, t, e), Abandoner(t))
  {
    hide TryReserve, IsPending;
  }

  lemma LateAbandonMoves(s: State, t: nat, e: AbandonStep)
    requires AbandonEnabled(s, t, e) && TokenAt(s, Abandoner(t)) && (e.BuryTarget? || e.LeaveAbandon? || e.ReleaseAid?)
    ensures Step(s, AbandonApply(s, t, e), Abandoner(t))
  {
    hide AbandonMessage, IsPending, WriteFailure;
    assert TombstoneOp(s.core.ops[s.abandons[t].target]).stage == s.core.ops[s.abandons[t].target].stage;
    assert TombstoneOp(s.core.ops[s.abandons[t].target]).spec == s.core.ops[s.abandons[t].target].spec;
    hide TombstoneOp;
  }

  lemma AbandonMoves(s: State, t: nat, e: AbandonStep)
    requires AbandonEnabled(s, t, e) && !e.FailAbandon? && TokenAt(s, Abandoner(t))
    requires TryReserve(s.core).Some? ==> TryReserve(s.core).value !in s.core.reserved
    ensures Step(s, AbandonApply(s, t, e), Abandoner(t))
  {
    hide Step, AbandonApply, TryReserve, TokenAt;
    if e.BuryTarget? || e.LeaveAbandon? || e.ReleaseAid? { LateAbandonMoves(s, t, e); } else { EarlyAbandonMoves(s, t, e); }
  }

  // A task that was about to retire the connection is over.
  lemma OverMoves(s: State, t: nat)
    requires t < |s.abandons| && s.abandons[t].stage.Failing? && TokenAt(s, Abandoner(t))
    ensures Step(s, SetTask(s, t, AbandonStage.Over), Abandoner(t))
  {
  }

  lemma CloseMoves(s: State, e: CloseStep)
    requires CloseEnabled(s, e) && TokenAt(s, Closer) && (s.core.closing <==> !s.closer.NotStarted?)
    requires TryReserve(s.core).Some? ==> TryReserve(s.core).value !in s.core.reserved
    ensures Step(s, CloseApply(s, e), Closer)
  {
    hide TryReserve, UnbindMessage;
  }

  lemma CallKeepsWorkers(s: State, e: CallStep)
    requires WorkersInv(s) && CallEnabled(s, e)
    ensures WorkersInv(Progress(s, e))
  {
    var s' := Progress(s, e);
    assert forall w :: Pos(s', w) == Pos(s, w);
    hide Pos, Claim, Holds, Inside, Entered, Committed;
    assert forall c :: 0 <= c < |s.calls| ==> s'.calls[c].owner == s.calls[c].owner;
  }
}
