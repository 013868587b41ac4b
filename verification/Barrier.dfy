// The reshape barrier (harness.ts, Harness.withBarrier and rendezvous, and the born-gated tail of
// openFromStore): gate the sessions concerned, wait until the runs they had are over, run the
// reshape in the quiet, release every gate whatever happened.

module Barrier {
  import opened Basics
  import S = SessionRuns

  datatype Phase = Gathering | Reshaping

  datatype Hold = Hold(instance: nat, gate: nat)

  /** `awaited` is, per held instance, the runs its hold found in flight. */
  datatype BarrierState = BarrierState(holds: map<string, Hold>, awaited: map<nat, set<nat>>, phase: Phase)

  /** `names` gives each instance its session id, `active` the instance registered under an id,
      `reshapes` counts how often a barrier's function was started. */
  datatype Fleet = Fleet(
    instances: map<nat, S.Session>,
    names: map<nat, string>,
    active: map<string, nat>,
    barrier: Option<BarrierState>,
    gates: nat,
    reshapes: nat)

  const EMPTY := Fleet(map[], map[], map[], None, 0, 0)

  datatype Op =
    | InSession(instance: nat, op: S.Op)
    | Born(id: string, instance: nat, interrupted: bool)
    | Unregister(instance: nat)
    | StartBarrier(concerned: set<string>)
    | Settle
    | Timeout
    | FinishReshape

  /** All that the runs found in flight have come to an end. */
  predicate Settled(f: Fleet, b: BarrierState)
  {
    forall i | i in b.awaited && i in f.instances :: f.instances[i].runs * b.awaited[i] == {}
  }

  predicate Enabled(f: Fleet, op: Op) {
    match op
    case InSession(i, op) => i in f.instances && S.Enabled(f.instances[i], op) && !op.Hold? && !op.Release?
    // one open instance per session id
    case Born(id, i, _) =>
      i !in f.instances && (forall j | j in f.instances && f.instances[j].open :: j in f.names && f.names[j] != id)
    case Unregister(i) => i in f.instances && i in f.names && !f.instances[i].open
    case StartBarrier(_) => f.barrier.None?
    case Settle => f.barrier.Some? && f.barrier.value.phase == Gathering && Settled(f, f.barrier.value)
    case Timeout => f.barrier.Some? && f.barrier.value.phase == Gathering && f.barrier.value.holds != map[]
    case FinishReshape => f.barrier.Some? && f.barrier.value.phase == Reshaping
  }

  /** The instances registered for the sessions concerned. */
  function Targets(active: map<string, nat>, concerned: set<string>): set<nat> {
    set id | id in active && id in concerned :: active[id]
  }

  /** `holds.set(id, session.holdAtBoundary())` for every active session concerned. */
  function HoldAll(f: Fleet, concerned: set<string>): Fleet {
    var targets := Targets(f.active, concerned);
    f.(instances := Gated(f.instances, targets, f.gates),
       barrier := Some(BarrierState(HoldsFor(f.active, concerned, f.gates), InFlight(f.instances, targets), Gathering)),
       gates := f.gates + 1)
  }

  function Gated(instances: map<nat, S.Session>, targets: set<nat>, gate: nat): map<nat, S.Session> {
    map i | i in instances :: if i in targets then S.Held(instances[i], gate) else instances[i]
  }

  function HoldsFor(active: map<string, nat>, concerned: set<string>, gate: nat): map<string, Hold> {
    map id | id in active && id in concerned :: Hold(active[id], gate)
  }

  function InFlight(instances: map<nat, S.Session>, targets: set<nat>): map<nat, set<nat>> {
    map i | i in instances && i in targets :: instances[i].runs
  }

  /** A session opens under an id, gated while a barrier stands. */
  function Bear(f: Fleet, id: string, i: nat, interrupted: bool): Fleet {
    if f.barrier.None? then Enlisted(f, id, i, S.Opened(interrupted))
    else HeldAtBirth(Enlisted(f, id, i, S.Held(S.Opened(interrupted), f.gates)), id, i)
  }

  function Enlisted(f: Fleet, id: string, i: nat, s: S.Session): Fleet {
    f.(instances := f.instances[i := s], names := f.names[i := id], active := f.active[id := i])
  }

  function HeldAtBirth(f: Fleet, id: string, i: nat): Fleet
    requires f.barrier.Some?
  {
    var b := f.barrier.value;
    f.(barrier := Some(b.(holds := b.holds[id := Hold(i, f.gates)])), gates := f.gates + 1)
  }

  /** The barrier's function starts. */
  function Started(f: Fleet): Fleet
    requires f.barrier.Some?
  {
    f.(barrier := Some(f.barrier.value.(phase := Reshaping)), reshapes := f.reshapes + 1)
  }

  /** The `finally` of withBarrier: release every hold. */
  function ReleaseAll(f: Fleet): Fleet
    requires f.barrier.Some?
  {
    f.(instances := Released(f.instances, f.names, f.barrier.value.holds), barrier := None)
  }

  function Released(instances: map<nat, S.Session>, names: map<nat, string>, holds: map<string, Hold>):
      map<nat, S.Session> {
    map i | i in instances ::
      if i in names && names[i] in holds && holds[names[i]].instance == i
      then S.Freed(instances[i], holds[names[i]].gate) else instances[i]
  }

  /** The deadline: give up if somebody is still running, go on if nobody is. */
  function Expired(f: Fleet): Fleet
    requires f.barrier.Some?
  {
    if Settled(f, f.barrier.value) then Started(f) else ReleaseAll(f)
  }

  /** A closed instance leaves, unless a later one has its id. */
  function Left(f: Fleet, i: nat): Fleet
    requires i in f.names
  {
    if f.names[i] in f.active && f.active[f.names[i]] == i then f.(active := f.active - {f.names[i]}) else f
  }

  function Step(f: Fleet, op: Op): Fleet
    requires Enabled(f, op)
  {
    match op
    case InSession(i, op) => f.(instances := f.instances[i := S.Step(f.instances[i], op)])
    case Born(id, i, interrupted) => Bear(f, id, i, interrupted)
    case Unregister(i) => Left(f, i)
    case StartBarrier(concerned) => HoldAll(f, concerned)
    case Settle => Started(f)
    case Timeout => Expired(f)
    case FinishReshape => ReleaseAll(f)
  }

  // ---------------------------------------------------------------- the invariant

  ghost predicate Inv(f: Fleet) {
    && f.names.Keys == f.instances.Keys
    && (forall id | id in f.active :: f.active[id] in f.instances && f.names[f.active[id]] == id)
    && (forall i | i in f.instances :: InstanceInv(f, i))
    && (f.barrier.Some? ==> forall id | id in f.barrier.value.holds :: HoldInv(f, f.barrier.value, id))
  }

  /** An open instance is the registered one of its id, and gated only by the barrier that holds it. */
  ghost predicate InstanceInv(f: Fleet, i: nat)
    requires i in f.instances && i in f.names
  {
    f.instances[i].open ==>
      && f.names[i] in f.active && f.active[f.names[i]] == i
      && (f.instances[i].gate.Some? ==>
            && f.barrier.Some?
            && f.names[i] in f.barrier.value.holds
            && f.barrier.value.holds[f.names[i]] == Hold(i, f.instances[i].gate.value))
  }

  /** A held instance keeps its gate while it is open, and has no runs but those awaited. */
  ghost predicate HoldInv(f: Fleet, b: BarrierState, id: string)
    requires id in b.holds
  {
    var hold := b.holds[id];
    var i := hold.instance;
    && i in f.instances && i in f.names && f.names[i] == id
    && (f.instances[i].open ==> f.instances[i].gate == Some(hold.gate))
    && f.instances[i].passed == map[]
    && f.instances[i].runs <= (if b.phase == Gathering && i in b.awaited then b.awaited[i] else {})
  }

  /** No session concerned has a caller between the gate and its run. This is what taking the
      return from `parkAtGate` and the `beginRun` after it as one step amounts to. */
  predicate NobodyInTheGap(f: Fleet, concerned: set<string>) {
    forall id | id in f.active && id in concerned && f.active[id] in f.instances ::
      f.instances[f.active[id]].passed == map[]
  }

  lemma StartSafe(f: Fleet, concerned: set<string>)
    requires Inv(f) && f.barrier.None? && NobodyInTheGap(f, concerned)
    ensures Inv(HoldAll(f, concerned))
  {
  }

  lemma ReleasedIsFree(f: Fleet, i: nat)
    requires Inv(f) && f.barrier.Some? && i in f.instances
    ensures var t := ReleaseAll(f);
      i in t.instances && t.instances[i].open == f.instances[i].open
        && (t.instances[i].open ==> t.instances[i].gate.None?)
  {
    assert InstanceInv(f, i);
  }

  lemma ReleaseSafe(f: Fleet)
    requires Inv(f) && f.barrier.Some?
    ensures Inv(ReleaseAll(f))
    ensures forall i | i in ReleaseAll(f).instances && ReleaseAll(f).instances[i].open ::
      ReleaseAll(f).instances[i].gate.None?
  {
    var t := ReleaseAll(f);
    forall i | i in t.instances
      ensures InstanceInv(t, i) && (t.instances[i].open ==> t.instances[i].gate.None?)
    {
      ReleasedIsFree(f, i);
      assert InstanceInv(f, i);
    }
  }

  lemma ReleaseKeepsRuns(f: Fleet, i: nat)
    requires f.barrier.Some? && i in f.instances
    ensures i in ReleaseAll(f).instances && ReleaseAll(f).instances[i].runs == f.instances[i].runs
  {
  }

  lemma BornHolds(f: Fleet, id: string, i: nat, interrupted: bool, x: string)
    requires Inv(f) && f.barrier.Some? && i !in f.instances
    requires x == id || x in f.barrier.value.holds
    ensures var t := Bear(f, id, i, interrupted);
      t.barrier.Some? && x in t.barrier.value.holds && HoldInv(t, t.barrier.value, x)
  {
    if x != id { assert HoldInv(f, f.barrier.value, x); }
  }

  lemma BornInstance(f: Fleet, id: string, i: nat, interrupted: bool, j: nat)
    requires Inv(f) && i !in f.instances && (j == i || j in f.instances)
    requires j in f.instances && f.instances[j].open ==> f.names[j] != id
    ensures var t := Bear(f, id, i, interrupted);
      j in t.instances && j in t.names && InstanceInv(t, j)
  {
    if j != i { assert InstanceInv(f, j); }
  }

  /** Every id has the instance last registered for it. */
  lemma BornIsActive(f: Fleet, id: string, i: nat, interrupted: bool)
    requires Inv(f) && i !in f.instances
    ensures var t := Bear(f, id, i, interrupted);
      && t.names.Keys == t.instances.Keys == f.instances.Keys + {i}
      && (forall x | x in t.active :: t.active[x] in t.instances && t.names[t.active[x]] == x)
  {
  }

  lemma BornSafe(f: Fleet, id: string, i: nat, interrupted: bool)
    requires Inv(f) && i !in f.instances
    requires forall j | j in f.instances && f.instances[j].open :: f.names[j] != id
    ensures Inv(Bear(f, id, i, interrupted))
  {
    var t := Bear(f, id, i, interrupted);
    BornIsActive(f, id, i, interrupted);
    forall j | j in t.instances ensures InstanceInv(t, j) { BornInstance(f, id, i, interrupted, j); }
    if t.barrier.Some? {
      forall x | x in t.barrier.value.holds ensures HoldInv(t, t.barrier.value, x) {
        BornHolds(f, id, i, interrupted, x);
      }
    }
  }

  lemma InSessionSafe(f: Fleet, i: nat, op: S.Op)
    requires Inv(f) && Enabled(f, InSession(i, op))
    ensures Inv(Step(f, InSession(i, op)))
  {
    var s := S.Step(f.instances[i], op);
    S.GatedOnlyLosesRuns(f.instances[i], op);
    InstanceChanges(f, i, s);
  }

  lemma InstanceChanges(f: Fleet, i: nat, s: S.Session)
    requires Inv(f) && i in f.instances
    requires s.open ==> f.instances[i].open && s.gate == f.instances[i].gate
    requires (f.instances[i].open ==> f.instances[i].gate.Some?) && f.instances[i].passed == map[]
      ==> s.runs <= f.instances[i].runs && s.passed == map[]
    ensures Inv(f.(instances := f.instances[i := s]))
  {
  }

  lemma StepSafe(f: Fleet, op: Op)
    requires Inv(f) && Enabled(f, op)
    requires op.StartBarrier? ==> NobodyInTheGap(f, op.concerned)
    ensures Inv(Step(f, op))
  {
    var t := Step(f, op);
    match op
    case InSession(i, o) => InSessionSafe(f, i, o);
    case Born(id, i, interrupted) => BornSafe(f, id, i, interrupted);
    case StartBarrier(concerned) => StartSafe(f, concerned);
    case FinishReshape => ReleaseSafe(f);
    case Unregister(i) =>
      forall j | j in t.instances ensures InstanceInv(t, j) { assert InstanceInv(f, j); }
      if t.barrier.Some? {
        forall x | x in t.barrier.value.holds ensures HoldInv(t, t.barrier.value, x) {
          assert HoldInv(f, f.barrier.value, x);
        }
      }
    case _ =>
      if Settled(f, f.barrier.value) { SettledSafe(f); } else { ReleaseSafe(f); }
  }

  /** Once the awaited runs are over, no held session has any. */
  lemma SettledSafe(f: Fleet)
    requires Inv(f) && f.barrier.Some? && f.barrier.value.phase == Gathering && Settled(f, f.barrier.value)
    ensures Inv(Started(f))
  {
  }

  // ---------------------------------------------------------------- every run of the fleet

  predicate GapFree(ops: seq<Op>) {
    ops != [] ==>
      && GapFree(ops[..|ops| - 1])
      && (ops[|ops| - 1].StartBarrier? ==> NobodyInTheGap(Reach(ops[..|ops| - 1]), ops[|ops| - 1].concerned))
  }

  function Reach(ops: seq<Op>): Fleet {
    if ops == [] then EMPTY
    else
      var f := Reach(ops[..|ops| - 1]);
      if Enabled(f, ops[|ops| - 1]) then Step(f, ops[|ops| - 1]) else f
  }

  lemma {:induction false} ReachSafe(ops: seq<Op>)
    requires GapFree(ops)
    ensures Inv(Reach(ops))
  {
    if ops != [] {
      ReachSafe(ops[..|ops| - 1]);
      var f := Reach(ops[..|ops| - 1]);
      if Enabled(f, ops[|ops| - 1]) { StepSafe(f, ops[|ops| - 1]); }
    }
  }

  /** While the reshape runs, no session the barrier holds has a run in flight: those gated at its
      start and those born since. Outside a barrier, no open session is gated. */
  lemma BarrierExclusion(ops: seq<Op>, i: nat)
    requires GapFree(ops)
    requires i in Reach(ops).instances
    ensures var f := Reach(ops); var s := f.instances[i];
      && (f.barrier.None? ==> !s.open || s.gate.None?)
      && (f.barrier.Some? && f.barrier.value.phase == Reshaping ==>
            forall id | id in f.barrier.value.holds && f.barrier.value.holds[id].instance == i :: s.runs == {})
  {
    ReachSafe(ops);
    var f := Reach(ops);
    assert InstanceInv(f, i);
    if f.barrier.Some? {
      forall id | id in f.barrier.value.holds && f.barrier.value.holds[id].instance == i
        ensures f.barrier.value.phase == Reshaping ==> f.instances[i].runs == {}
      {
        assert HoldInv(f, f.barrier.value, id);
      }
    }
  }

  /** Every open session that appears while a barrier stands is held by it. */
  lemma BornHeld(ops: seq<Op>, id: string, i: nat, interrupted: bool)
    requires GapFree(ops) && Reach(ops).barrier.Some? && Enabled(Reach(ops), Born(id, i, interrupted))
    ensures var f := Reach(ops + [Born(id, i, interrupted)]);
      f.barrier.Some? && id in f.barrier.value.holds && f.barrier.value.holds[id].instance == i
        && f.instances[i].gate.Some?
  {
    assert (ops + [Born(id, i, interrupted)])[..|ops|] == ops;
  }

  /** A barrier that times out leaves the world running and has changed nothing: its function was
      not started, no run was touched, and every open session is free. */
  lemma TimeoutChangesNothing(f: Fleet)
    requires Inv(f) && Enabled(f, Timeout) && !Settled(f, f.barrier.value)
    ensures var t := Step(f, Timeout);
      && t.barrier.None? && t.reshapes == f.reshapes && t.active == f.active && t.instances.Keys == f.instances.Keys
      && (forall i | i in t.instances && t.instances[i].open :: t.instances[i].gate.None?)
      && (forall i | i in f.instances :: t.instances[i].runs == f.instances[i].runs)
  {
    ReleaseSafe(f);
    forall i | i in f.instances ensures ReleaseAll(f).instances[i].runs == f.instances[i].runs {
      ReleaseKeepsRuns(f, i);
    }
  }
}
