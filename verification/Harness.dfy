// The harness object (harness.ts, class Harness): the sessions it has, the barrier it is in, and the methods
// that make the steps of the fleet.

module ReshapeHarness {
  import opened Basics
  import opened Barrier
  import S = SessionRuns

  // ---------------------------------------------------------------- what the fields stand for

  /** What `holdAtBoundary` returns: whom to release, and the runs to wait for. */
  datatype HeldSession = HeldSession(session: S.HarnessSession, gate: nat, inFlight: set<nat>)

  type Holds = map<string, HeldSession>

  type Sessions = map<string, S.HarnessSession>

  /** A session of this id is among those opened, at its number. */
  ghost predicate IsBorn(born: seq<S.HarnessSession>, id: string, session: S.HarnessSession) {
    session.id == id && session.number < |born| && born[session.number] == session
  }

  ghost predicate Numbered(born: seq<S.HarnessSession>) { forall i: nat | i < |born| :: born[i].number == i }

  ghost predicate AreBorn(born: seq<S.HarnessSession>, sessions: Sessions) {
    forall id | id in sessions :: IsBorn(born, id, sessions[id])
  }

  ghost predicate HeldAreBorn(born: seq<S.HarnessSession>, holds: Holds) {
    forall id | id in holds :: IsBorn(born, id, holds[id].session)
  }

  ghost predicate Awaits(holds: Holds, session: S.HarnessSession) {
    session.id in holds && holds[session.id].session == session
  }

  ghost function InstancesOf(born: seq<S.HarnessSession>): map<nat, S.Session>
    reads born
  {
    map i: nat | i < |born| :: born[i].Now()
  }

  ghost function NamesOf(born: seq<S.HarnessSession>): map<nat, string> { map i: nat | i < |born| :: born[i].id }

  ghost function NumbersOf(sessions: Sessions): map<string, nat> { map id | id in sessions :: sessions[id].number }

  ghost function HoldsOf(holds: Holds): map<string, Hold> {
    map id | id in holds :: Hold(holds[id].session.number, holds[id].gate)
  }

  ghost function AwaitedOf(born: seq<S.HarnessSession>, holds: Holds): map<nat, set<nat>> {
    map i: nat | i < |born| && Awaits(holds, born[i]) :: holds[born[i].id].inFlight
  }

  // ---------------------------------------------------------------- the harness

  /** `awaited` are the holds `rendezvous` waits for: those there were when it began. */
  class Harness {
    var activeSessions: Sessions
    var activeBarrier: Option<Holds>
    var awaited: Holds
    var phase: Phase
    var gates: nat
    var reshapes: nat
    /** Every session ever opened, at its number. */
    ghost var born: seq<S.HarnessSession>

    ghost predicate Valid()
      reads this
    {
      && Numbered(born) && AreBorn(born, activeSessions)
      && (activeBarrier.Some? ==> HeldAreBorn(born, activeBarrier.value) && HeldAreBorn(born, awaited))
    }

    ghost function BarrierNow(): Option<BarrierState>
      reads this
    {
      if activeBarrier.None? then None
      else Some(BarrierState(HoldsOf(activeBarrier.value), AwaitedOf(born, awaited), phase))
    }

    /** The fleet of the sessions there are. */
    ghost function Now(): Fleet
      reads this, born
    {
      Fleet(InstancesOf(born), NamesOf(born), NumbersOf(activeSessions), BarrierNow(), gates, reshapes)
    }

    constructor ()
      ensures Valid() && Now() == EMPTY
    {
      activeSessions, activeBarrier, awaited, phase := map[], None, map[], Gathering;
      gates, reshapes, born := 0, 0, [];
    }

    /** withBarrier up to its rendezvous: every active session concerned is gated, and no other. */
    method GateConcerned(concerned: set<string>)
      requires Valid() && activeBarrier.None?
      modifies `activeBarrier, `awaited, `phase, `gates
      modifies activeSessions.Values`runGate
      ensures Valid() && Now() == HoldAll(old(Now()), concerned)
    {
      ghost var f := Now();
      var holds := HoldEach(activeSessions, concerned, gates, born);
      Rendezvous(holds);
      IsHoldAll(f, Now(), concerned);
    }

    /** The holds are there, and from now on waited for. */
    method Rendezvous(holds: Holds)
      requires Valid() && HeldAreBorn(born, holds)
      modifies `activeBarrier, `awaited, `phase, `gates
      ensures Valid() && InstancesOf(born) == old(InstancesOf(born)) && gates == old(gates) + 1
      ensures BarrierNow() == Some(BarrierState(HoldsOf(holds), AwaitedOf(born, holds), Gathering))
    {
      activeBarrier, awaited, phase, gates := Some(holds), holds, Gathering, gates + 1;
    }

    /** `rendezvous` at its deadline: the ids of those still running what their hold found. */
    method StillRunning() returns (stuck: set<string>)
      requires Valid() && activeBarrier.Some?
      ensures forall id :: id in stuck <==> id in awaited && awaited[id].session.runs * awaited[id].inFlight != {}
      ensures stuck == {} <==> Settled(Now(), Now().barrier.value)
    {
      stuck := set id | id in awaited && awaited[id].session.runs * awaited[id].inFlight != {};
      assert forall id | id in awaited :: id !in stuck ==> awaited[id].session.runs * awaited[id].inFlight == {};
      SettledMeans(Now(), born, awaited);
    }

    /** Everybody awaited reached the boundary: the barrier's function starts. */
    method Reshape()
      requires Valid() && activeBarrier.Some?
      modifies `phase, `reshapes
      ensures Valid() && Now() == Started(old(Now()))
    {
      phase, reshapes := Reshaping, reshapes + 1;
      assert InstancesOf(born) == old(InstancesOf(born));
    }

    /** The deadline: with somebody still running the barrier gives up, otherwise its function starts. */
    method Expire() returns (stuck: set<string>)
      requires Valid() && activeBarrier.Some?
      modifies `phase, `reshapes, `activeBarrier
      modifies (set id | id in activeBarrier.value :: activeBarrier.value[id].session)`runGate
      modifies (set id | id in activeBarrier.value :: activeBarrier.value[id].session)`wakeScheduled
      ensures Valid() && Now() == Expired(old(Now()))
      ensures stuck == {} <==> activeBarrier.Some?
    {
      stuck := StillRunning();
      if stuck == {} { Reshape(); } else { ReleaseHolds(); }
    }

    /** The `finally` of withBarrier: each hold opens its own gate, and a wake is due behind it. */
    method ReleaseHolds()
      requires Valid() && activeBarrier.Some?
      modifies `activeBarrier
      modifies (set id | id in activeBarrier.value :: activeBarrier.value[id].session)`runGate
      modifies (set id | id in activeBarrier.value :: activeBarrier.value[id].session)`wakeScheduled
      ensures Valid() && activeBarrier.None? && Now() == ReleaseAll(old(Now()))
    {
      ghost var f := Now();
      FreeEach(activeBarrier.value, born);
      DropBarrier();
      IsReleased(f, Now());
    }

    method DropBarrier()
      requires Valid()
      modifies `activeBarrier
      ensures Valid() && BarrierNow().None? && InstancesOf(born) == old(InstancesOf(born))
    {
      activeBarrier := None;
    }

    /** The tail of openFromStore: registered, and born gated while a barrier stands. */
    method Register(id: string, interrupted: bool) returns (session: S.HarnessSession)
      requires Valid()
      modifies `activeSessions, `activeBarrier, `gates, `born
      ensures Valid() && fresh(session) && born == old(born) + [session]
        && activeSessions == old(activeSessions)[id := session]
      ensures Now() == Bear(old(Now()), id, |old(born)|, interrupted)
    {
      session := new S.HarnessSession(id, |born|, interrupted);
      if activeBarrier.Some? { var inFlight := session.HoldAtBoundary(gates); }
      assert InstancesOf(born) == old(InstancesOf(born));
      Enlist(session);
      if activeBarrier.Some? { HoldNew(session); }
    }

    method Enlist(session: S.HarnessSession)
      requires Valid() && session.number == |born|
      modifies `activeSessions, `born
      ensures Valid() && born == old(born) + [session] && activeSessions == old(activeSessions)[session.id := session]
      ensures Now() == Enlisted(old(Now()), session.id, |old(born)|, session.Now())
    {
      ghost var f, b := Now(), BarrierNow();
      OneMore(born, session, activeSessions);
      if activeBarrier.Some? { OneMoreWaits(born, session, activeBarrier.value, awaited); }
      AddToBorn(session);
      assert BarrierNow() == b;
      IsEnlisted(f, Now(), session.id, |old(born)|, session.Now());
    }

    method AddToBorn(session: S.HarnessSession)
      modifies `activeSessions, `born
      ensures born == old(born) + [session] && activeSessions == old(activeSessions)[session.id := session]
      ensures InstancesOf(born) == old(InstancesOf(born + [session]))
    {
      activeSessions := activeSessions[session.id := session];
      born := born + [session];
    }

    method HoldNew(session: S.HarnessSession)
      requires Valid() && activeBarrier.Some? && IsBorn(born, session.id, session)
      modifies `activeBarrier, `gates
      ensures Valid() && Now() == HeldAtBirth(old(Now()), session.id, session.number)
    {
      OneMoreHeld(born, session, activeBarrier.value, gates);
      activeBarrier := Some(activeBarrier.value[session.id := HeldSession(session, gates, {})]);
      gates := gates + 1;
      assert InstancesOf(born) == old(InstancesOf(born));
    }

    /** A closed session leaves, unless a later one has its id. */
    method Unregister(session: S.HarnessSession)
      requires Valid() && IsBorn(born, session.id, session)
      modifies `activeSessions
      ensures Valid() && Now() == Left(old(Now()), session.number)
    {
      NumbersWithout(born, activeSessions, session);
      if session.id in activeSessions && activeSessions[session.id] == session {
        activeSessions := activeSessions - {session.id};
      }
      assert InstancesOf(born) == old(InstancesOf(born));
    }
  }

  // ---------------------------------------------------------------- the fleet, part by part

  lemma IsEnlisted(f: Fleet, g: Fleet, id: string, i: nat, s: S.Session)
    requires g.instances == f.instances[i := s] && g.names == f.names[i := id] && g.active == f.active[id := i]
    requires g.barrier == f.barrier && g.gates == f.gates && g.reshapes == f.reshapes
    ensures g == Enlisted(f, id, i, s)
  {
  }

  lemma IsReleased(f: Fleet, g: Fleet)
    requires f.barrier.Some? && g.barrier.None?
    requires g.instances == Released(f.instances, f.names, f.barrier.value.holds)
    requires g.names == f.names && g.active == f.active && g.gates == f.gates && g.reshapes == f.reshapes
    ensures g == ReleaseAll(f)
  {
  }

  // ---------------------------------------------------------------- gating

  /** A fleet that in every part is what `HoldAll` makes of another. */
  lemma IsHoldAll(f: Fleet, g: Fleet, concerned: set<string>)
    requires g.instances == Gated(f.instances, Targets(f.active, concerned), f.gates)
    requires g.barrier == Some(BarrierState(HoldsFor(f.active, concerned, f.gates),
                                            InFlight(f.instances, Targets(f.active, concerned)), Gathering))
    requires g.names == f.names && g.active == f.active && g.gates == f.gates + 1 && g.reshapes == f.reshapes
    ensures g == HoldAll(f, concerned)
  {
  }

  ghost predicate Concerns(sessions: Sessions, concerned: set<string>, session: S.HarnessSession) {
    session.id in concerned && session.id in sessions && sessions[session.id] == session
  }

  /** What the sessions are once those concerned are gated. */
  ghost predicate GatedFrom(before: map<nat, S.Session>, born: seq<S.HarnessSession>, sessions: Sessions,
      concerned: set<string>, gate: nat)
    reads born
  {
    && (forall i: nat :: i in before <==> i < |born|)
    && (forall i: nat | i < |born| ::
          born[i].Now() == if Concerns(sessions, concerned, born[i]) then S.Held(before[i], gate) else before[i])
  }

  /** The holds a barrier begins with. */
  ghost predicate HoldsFrom(holds: Holds, sessions: Sessions, concerned: set<string>, gate: nat)
    reads sessions.Values
  {
    && holds.Keys == sessions.Keys * concerned
    && forall id | id in holds :: holds[id] == HeldSession(sessions[id], gate, sessions[id].runs)
  }

  method GateEach(sessions: Sessions, concerned: set<string>, gate: nat, ghost born: seq<S.HarnessSession>)
      returns (holds: Holds)
    requires Numbered(born) && AreBorn(born, sessions)
    modifies sessions.Values`runGate
    ensures HoldsFrom(holds, sessions, concerned, gate)
    ensures GatedFrom(old(InstancesOf(born)), born, sessions, concerned, gate)
  {
    holds := map[];
    var todo := sessions.Keys * concerned;
    while todo != {}
      invariant todo <= sessions.Keys * concerned && holds.Keys == sessions.Keys * concerned - todo
      invariant forall id | id in holds :: holds[id] == HeldSession(sessions[id], gate, sessions[id].runs)
      invariant forall i: nat | i < |born| ::
        born[i].Now() ==
          if Concerns(sessions, concerned, born[i]) && born[i].id in holds
          then S.Held(old(born[i].Now()), gate) else old(born[i].Now())
      decreases todo
    {
      var id :| id in todo;
      assert IsBorn(born, id, sessions[id]);
      var inFlight := sessions[id].HoldAtBoundary(gate);
      holds := holds[id := HeldSession(sessions[id], gate, inFlight)];
      todo := todo - {id};
    }
  }

  lemma TargetIs(born: seq<S.HarnessSession>, sessions: Sessions, concerned: set<string>, i: nat)
    requires Numbered(born) && AreBorn(born, sessions) && i < |born|
    ensures i in Targets(NumbersOf(sessions), concerned) <==> Concerns(sessions, concerned, born[i])
  {
  }

  lemma InstancesAreGated(before: map<nat, S.Session>, born: seq<S.HarnessSession>, sessions: Sessions,
      concerned: set<string>, gate: nat)
    requires Numbered(born) && AreBorn(born, sessions) && GatedFrom(before, born, sessions, concerned, gate)
    ensures InstancesOf(born) == Gated(before, Targets(NumbersOf(sessions), concerned), gate)
  {
    var t := Gated(before, Targets(NumbersOf(sessions), concerned), gate);
    forall i: nat | i < |born| ensures InstancesOf(born)[i] == t[i] { TargetIs(born, sessions, concerned, i); }
  }

  lemma HoldsAre(sessions: Sessions, concerned: set<string>, holds: Holds, gate: nat)
    requires HoldsFrom(holds, sessions, concerned, gate)
    ensures HoldsOf(holds) == HoldsFor(NumbersOf(sessions), concerned, gate)
  {
  }

  lemma AwaitedAre(before: map<nat, S.Session>, born: seq<S.HarnessSession>, sessions: Sessions, concerned: set<string>,
                   holds: Holds, gate: nat)
    requires Numbered(born) && AreBorn(born, sessions)
    requires GatedFrom(before, born, sessions, concerned, gate) && HoldsFrom(holds, sessions, concerned, gate)
    ensures AwaitedOf(born, holds) == InFlight(before, Targets(NumbersOf(sessions), concerned))
  {
    var t := InFlight(before, Targets(NumbersOf(sessions), concerned));
    forall i: nat | i < |born|
      ensures (Awaits(holds, born[i]) <==> i in t) && (i in t ==> holds[born[i].id].inFlight == t[i])
    {
      TargetIs(born, sessions, concerned, i);
      AwaitsWhenHeld(born, sessions, concerned, holds, gate, i);
    }
  }

  lemma AwaitsWhenHeld(born: seq<S.HarnessSession>, sessions: Sessions, concerned: set<string>, holds: Holds, gate: nat,
      i: nat)
    requires i < |born| && HoldsFrom(holds, sessions, concerned, gate)
    ensures Awaits(holds, born[i]) <==> Concerns(sessions, concerned, born[i])
    ensures Awaits(holds, born[i]) ==> holds[born[i].id].inFlight == born[i].Now().runs
  {
  }

  /** What the fields stand for when the holds are there. */
  lemma BarrierBegins(before: map<nat, S.Session>, born: seq<S.HarnessSession>, sessions: Sessions,
      concerned: set<string>, holds: Holds, gate: nat)
    requires Numbered(born) && AreBorn(born, sessions)
    requires GatedFrom(before, born, sessions, concerned, gate) && HoldsFrom(holds, sessions, concerned, gate)
    ensures InstancesOf(born) == Gated(before, Targets(NumbersOf(sessions), concerned), gate)
    ensures HoldsOf(holds) == HoldsFor(NumbersOf(sessions), concerned, gate)
    ensures AwaitedOf(born, holds) == InFlight(before, Targets(NumbersOf(sessions), concerned))
    ensures HeldAreBorn(born, holds)
  {
    InstancesAreGated(before, born, sessions, concerned, gate);
    HoldsAre(sessions, concerned, holds, gate);
    AwaitedAre(before, born, sessions, concerned, holds, gate);
    HeldOnesAreBorn(born, sessions, concerned, holds, gate);
  }

  lemma HeldOnesAreBorn(born: seq<S.HarnessSession>, sessions: Sessions, concerned: set<string>, holds: Holds,
      gate: nat)
    requires AreBorn(born, sessions) && HoldsFrom(holds, sessions, concerned, gate)
    ensures HeldAreBorn(born, holds)
  {
  }

  /** A session that leaves takes its number along, where it is the one registered. */
  lemma NumbersWithout(born: seq<S.HarnessSession>, sessions: Sessions, session: S.HarnessSession)
    requires AreBorn(born, sessions) && IsBorn(born, session.id, session)
    ensures AreBorn(born, sessions - {session.id})
    ensures NumbersOf(sessions - {session.id}) == NumbersOf(sessions) - {session.id}
    ensures session.id in sessions && sessions[session.id] == session <==>
      session.id in NumbersOf(sessions) && NumbersOf(sessions)[session.id] == session.number
  {
  }

  method HoldEach(sessions: Sessions, concerned: set<string>, gate: nat, ghost born: seq<S.HarnessSession>)
      returns (holds: Holds)
    requires Numbered(born) && AreBorn(born, sessions)
    modifies sessions.Values`runGate
    ensures InstancesOf(born) == Gated(old(InstancesOf(born)), Targets(NumbersOf(sessions), concerned), gate)
    ensures HoldsOf(holds) == HoldsFor(NumbersOf(sessions), concerned, gate) && HeldAreBorn(born, holds)
    ensures AwaitedOf(born, holds) == InFlight(old(InstancesOf(born)), Targets(NumbersOf(sessions), concerned))
  {
    ghost var before := InstancesOf(born);
    holds := GateEach(sessions, concerned, gate, born);
    BarrierBegins(before, born, sessions, concerned, holds, gate);
  }

  /** A session more, under the next number. */
  lemma OneMore(born: seq<S.HarnessSession>, session: S.HarnessSession, sessions: Sessions)
    requires Numbered(born) && AreBorn(born, sessions) && session.number == |born|
    ensures Numbered(born + [session]) && AreBorn(born + [session], sessions[session.id := session])
    ensures InstancesOf(born + [session]) == InstancesOf(born)[|born| := session.Now()]
    ensures NamesOf(born + [session]) == NamesOf(born)[|born| := session.id]
    ensures NumbersOf(sessions[session.id := session]) == NumbersOf(sessions)[session.id := |born|]
  {
  }

  lemma OneMoreWaits(born: seq<S.HarnessSession>, session: S.HarnessSession, holds: Holds, awaited: Holds)
    requires Numbered(born) && HeldAreBorn(born, holds) && HeldAreBorn(born, awaited) && session.number == |born|
    ensures HeldAreBorn(born + [session], holds) && HeldAreBorn(born + [session], awaited)
    ensures AwaitedOf(born + [session], awaited) == AwaitedOf(born, awaited)
  {
  }

  lemma OneMoreHeld(born: seq<S.HarnessSession>, session: S.HarnessSession, holds: Holds, gate: nat)
    requires HeldAreBorn(born, holds) && IsBorn(born, session.id, session)
    ensures var more := holds[session.id := HeldSession(session, gate, {})];
      HeldAreBorn(born, more) && HoldsOf(more) == HoldsOf(holds)[session.id := Hold(session.number, gate)]
  {
  }

  // ---------------------------------------------------------------- waiting and releasing

  lemma SettledMeans(f: Fleet, born: seq<S.HarnessSession>, awaited: Holds)
    requires Numbered(born) && HeldAreBorn(born, awaited)
    requires f.instances == InstancesOf(born) && f.barrier.Some? && f.barrier.value.awaited == AwaitedOf(born, awaited)
    ensures Settled(f, f.barrier.value) <==>
      forall id | id in awaited :: awaited[id].session.runs * awaited[id].inFlight == {}
  {
    forall id | id in awaited
      ensures awaited[id].session.number in f.barrier.value.awaited && awaited[id].session.number in f.instances
    {
      assert IsBorn(born, id, awaited[id].session);
    }
  }

  /** What the sessions are once every hold is released. */
  ghost predicate ReleasedFrom(before: map<nat, S.Session>, born: seq<S.HarnessSession>, holds: Holds)
    reads born
  {
    && (forall i: nat :: i in before <==> i < |born|)
    && (forall i: nat | i < |born| ::
          born[i].Now() == if Awaits(holds, born[i]) then S.Freed(before[i], holds[born[i].id].gate) else before[i])
  }

  method ReleaseEach(holds: Holds, ghost born: seq<S.HarnessSession>)
    requires Numbered(born) && HeldAreBorn(born, holds)
    modifies (set id | id in holds :: holds[id].session)`runGate
    modifies (set id | id in holds :: holds[id].session)`wakeScheduled
    ensures ReleasedFrom(old(InstancesOf(born)), born, holds)
  {
    var todo := holds.Keys;
    while todo != {}
      invariant todo <= holds.Keys
      invariant forall i: nat | i < |born| ::
        born[i].Now() ==
          if Awaits(holds, born[i]) && born[i].id !in todo
          then S.Freed(old(born[i].Now()), holds[born[i].id].gate) else old(born[i].Now())
      decreases todo
    {
      var id :| id in todo;
      assert IsBorn(born, id, holds[id].session);
      holds[id].session.ReleaseHold(holds[id].gate);
      todo := todo - {id};
    }
  }

  method FreeEach(holds: Holds, ghost born: seq<S.HarnessSession>)
    requires Numbered(born) && HeldAreBorn(born, holds)
    modifies (set id | id in holds :: holds[id].session)`runGate
    modifies (set id | id in holds :: holds[id].session)`wakeScheduled
    ensures InstancesOf(born) == Released(old(InstancesOf(born)), NamesOf(born), HoldsOf(holds))
  {
    ghost var before := InstancesOf(born);
    ReleaseEach(holds, born);
    InstancesAreReleased(before, born, holds);
  }

  lemma InstancesAreReleased(before: map<nat, S.Session>, born: seq<S.HarnessSession>, holds: Holds)
    requires Numbered(born) && HeldAreBorn(born, holds) && ReleasedFrom(before, born, holds)
    ensures InstancesOf(born) == Released(before, NamesOf(born), HoldsOf(holds))
  {
    var t := Released(before, NamesOf(born), HoldsOf(holds));
    forall i: nat | i < |born| ensures InstancesOf(born)[i] == t[i] { ReleasedAt(born, holds, i); }
  }

  lemma ReleasedAt(born: seq<S.HarnessSession>, holds: Holds, i: nat)
    requires Numbered(born) && HeldAreBorn(born, holds) && i < |born|
    ensures Awaits(holds, born[i]) <==> born[i].id in holds && holds[born[i].id].session.number == i
  {
  }

  lemma OneStepped(before: map<nat, S.Session>, born: seq<S.HarnessSession>, i: nat)
    requires i < |born| && before.Keys == InstancesOf(born).Keys
    requires forall j: nat | j < |born| && j != i :: born[j].Now() == before[j]
    ensures InstancesOf(born) == before[i := born[i].Now()]
  {
  }

  /** A step of one session is a step of the fleet. */
  twostate lemma SessionStepIsFleets(h: Harness, i: nat, op: S.Op)
    requires old(h.Valid()) && unchanged(h) && i < |h.born|
    requires forall j: nat | j < |h.born| && j != i :: h.born[j].Now() == old(h.born[j].Now())
    requires old(Enabled(h.Now(), InSession(i, op)))
    requires h.born[i].Now() == S.Step(old(h.born[i].Now()), op)
    ensures h.Valid() && h.Now() == Step(old(h.Now()), InSession(i, op))
  {
    OneStepped(old(InstancesOf(h.born)), h.born, i);
    assert h.BarrierNow() == old(h.BarrierNow());
  }
}
