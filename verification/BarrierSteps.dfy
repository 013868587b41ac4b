// What each step of the reshape barrier does, in full (harness.ts, withBarrier, rendezvous and the born-gated
// tail of openFromStore): who is gated and who is not, when the function may start, who is set free.

module BarrierSteps {
  import opened Basics
  import opened Barrier
  import S = SessionRuns

  /** The instance registered under one of the ids. */
  predicate IsConcerned(f: Fleet, concerned: set<string>, i: nat) {
    i in f.names && f.names[i] in concerned && f.names[i] in f.active && f.active[f.names[i]] == i
  }

  /** All but the gate and the wake of a session is as it was. */
  predicate SameButGate(s: S.Session, t: S.Session) {
    t == s.(gate := t.gate, wakeScheduled := t.wakeScheduled)
  }

  /** Every run an instance had when it was held has come to its end. */
  ghost predicate RunsAreOver(f: Fleet) {
    f.barrier.Some? &&
    forall i, r | i in f.barrier.value.awaited && r in f.barrier.value.awaited[i] && i in f.instances ::
      r !in f.instances[i].runs
  }

  lemma TargetsAre(f: Fleet, concerned: set<string>, i: nat)
    requires Inv(f)
    ensures i in Targets(f.active, concerned) <==> IsConcerned(f, concerned, i)
  {
    if IsConcerned(f, concerned, i) { assert f.names[i] in f.active; }
  }

  /** A barrier gates the registered sessions it concerns, with a gate nobody had, and no other; it holds each
      under its id, and waits for exactly the runs they have. */
  lemma StartingExactly(f: Fleet, concerned: set<string>, i: nat)
    requires Inv(f) && f.barrier.None? && i in f.instances
    ensures var t := Step(f, StartBarrier(concerned));
      && i in t.instances && t.barrier.Some? && t.barrier.value.phase == Gathering
      && t.instances[i] ==
           (if IsConcerned(f, concerned, i) then f.instances[i].(gate := Some(f.gates)) else f.instances[i])
      && (i in t.barrier.value.awaited <==> IsConcerned(f, concerned, i))
      && (i in t.barrier.value.awaited ==> t.barrier.value.awaited[i] == f.instances[i].runs)
      && t.barrier.value.holds.Keys == f.active.Keys * concerned
      && (forall id | id in t.barrier.value.holds :: t.barrier.value.holds[id] == Hold(f.active[id], f.gates))
      && t.active == f.active && t.names == f.names && t.gates > f.gates && t.reshapes == f.reshapes
  {
    TargetsAre(f, concerned, i);
  }

  /** Its function may start exactly when the runs it waits for are over, and starts once. */
  lemma SettlingExactly(f: Fleet)
    requires f.barrier.Some? && f.barrier.value.phase == Gathering
    ensures Enabled(f, Settle) <==> RunsAreOver(f)
    ensures RunsAreOver(f) ==>
      && Step(f, Settle) == f.(barrier := Some(f.barrier.value.(phase := Reshaping)), reshapes := f.reshapes + 1)
  {
    RunsOverMeansSettled(f);
  }

  lemma NoneInCommon(runs: set<nat>, awaited: set<nat>)
    ensures runs * awaited == {} <==> forall r | r in awaited :: r !in runs
  {
    if runs * awaited == {} {
      forall r | r in awaited ensures r !in runs { assert r in runs ==> r in runs * awaited; }
    }
  }

  lemma RunsOverMeansSettled(f: Fleet)
    requires f.barrier.Some?
    ensures RunsAreOver(f) <==> Settled(f, f.barrier.value)
  {
    var b := f.barrier.value;
    forall i | i in b.awaited && i in f.instances
      ensures f.instances[i].runs * b.awaited[i] == {} <==> forall r | r in b.awaited[i] :: r !in f.instances[i].runs
    {
      NoneInCommon(f.instances[i].runs, b.awaited[i]);
    }
  }

  /** The barrier's deadline: it goes on where nobody is stuck, and otherwise is over. */
  lemma DeadlineExactly(f: Fleet)
    requires Enabled(f, Timeout)
    ensures Step(f, Timeout) == (if RunsAreOver(f) then Step(f, Settle) else ReleaseAll(f))
    ensures Step(f, Timeout).barrier.Some? <==> RunsAreOver(f)
  {
    RunsOverMeansSettled(f);
  }

  /** The instance is under a hold of the barrier. */
  predicate IsHeld(f: Fleet, i: nat) {
    f.barrier.Some? && i in f.names && f.names[i] in f.barrier.value.holds
      && f.barrier.value.holds[f.names[i]].instance == i
  }

  /** When a barrier is over, those it held are open to callers again and get their wake, no other session
      is touched, and nothing but gates and wakes has changed. */
  lemma ReleasingExactly(f: Fleet, i: nat)
    requires Inv(f) && f.barrier.Some? && i in f.instances
    ensures var t := ReleaseAll(f);
      && t.barrier.None? && t.instances.Keys == f.instances.Keys
      && (!IsHeld(f, i) ==> t.instances[i] == f.instances[i])
      && (IsHeld(f, i) ==> SameButGate(f.instances[i], t.instances[i]) && t.instances[i].wakeScheduled)
      && (IsHeld(f, i) && f.instances[i].open ==> f.instances[i].gate.Some? && t.instances[i].gate.None?)
      && t.active == f.active && t.names == f.names && t.reshapes == f.reshapes
  {
    if IsHeld(f, i) { assert HoldInv(f, f.barrier.value, f.names[i]); }
  }

  /** A session that opens has no run, no input and no caller, and is registered under its id; under a barrier
      it is gated and held, and the barrier waits for no more than before. */
  lemma OpeningExactly(f: Fleet, id: string, i: nat, interrupted: bool)
    requires Enabled(f, Born(id, i, interrupted))
    ensures var t := Step(f, Born(id, i, interrupted));
      && t.names == f.names[i := id] && t.active == f.active[id := i] && t.reshapes == f.reshapes
      && i in t.instances && t.instances[i].open && t.instances[i].runs == {} && t.instances[i].queued == 0
      && t.instances[i].parked == map[] && t.instances[i].passed == map[]
      && t.instances[i].interrupted == interrupted
      && (forall j :: j in t.instances <==> j == i || j in f.instances)
      && (forall j | j in f.instances :: t.instances[j] == f.instances[j])
      && (f.barrier.None? ==> t.barrier.None? && t.instances[i].gate.None?)
  {
  }

  lemma OpeningUnderBarrier(f: Fleet, id: string, i: nat, interrupted: bool)
    requires Enabled(f, Born(id, i, interrupted)) && f.barrier.Some?
    ensures var t := Step(f, Born(id, i, interrupted)); var b := f.barrier.value;
      && t.gates > f.gates && t.instances[i].gate == Some(f.gates)
      && t.barrier == Some(BarrierState(b.holds[id := Hold(i, f.gates)], b.awaited, b.phase))
  {
  }

  /** A closed session that leaves takes its registration along and no other's. */
  lemma LeavingExactly(f: Fleet, i: nat)
    requires Enabled(f, Unregister(i))
    ensures var t := Step(f, Unregister(i));
      && (forall id :: id in t.active <==> id in f.active && !(id == f.names[i] && f.active[id] == i))
      && (forall id | id in t.active :: t.active[id] == f.active[id])
      && t == f.(active := t.active)
  {
  }
}
