// The gap before a barrier (harness.ts, runPrompt and withBarrier): a caller that has passed the gate but
// not begun its run when a barrier starts. Exactly such a caller breaks the barrier's exclusion.

module BarrierGap {
  import opened Basics
  import opened Barrier
  import S = SessionRuns

  /** The fleet after some more steps, skipping what cannot happen. */
  function Continue(f: Fleet, ops: seq<Op>): Fleet
    decreases ops
  {
    if ops == [] then f else Continue(if Enabled(f, ops[0]) then Step(f, ops[0]) else f, ops[1..])
  }

  lemma {:induction false} ContinueAppend(f: Fleet, a: seq<Op>, b: seq<Op>)
    ensures Continue(f, a + b) == Continue(Continue(f, a), b)
    decreases a
  {
    if a == [] {
      assert a + b == b;
    } else {
      assert (a + b)[1..] == a[1..] + b;
      ContinueAppend(if Enabled(f, a[0]) then Step(f, a[0]) else f, a[1..], b);
    }
  }

  predicate NoStart(ops: seq<Op>) { forall i | 0 <= i < |ops| :: !ops[i].StartBarrier? }

  /** While the barrier's function runs, no held session has a run. */
  ghost predicate Excludes(f: Fleet) {
    f.barrier.Some? && f.barrier.value.phase == Reshaping ==>
      forall id | id in f.barrier.value.holds && f.barrier.value.holds[id].instance in f.instances ::
        f.instances[f.barrier.value.holds[id].instance].runs == {}
  }

  /** However it goes on, as far as this barrier is concerned. */
  ghost predicate AlwaysExcludes(f: Fleet) { forall ops | NoStart(ops) :: Excludes(Continue(f, ops)) }

  lemma {:induction false} InvContinues(f: Fleet, ops: seq<Op>)
    requires Inv(f) && NoStart(ops)
    ensures Inv(Continue(f, ops))
    decreases ops
  {
    if ops != [] {
      if Enabled(f, ops[0]) { StepSafe(f, ops[0]); }
      forall i | 0 <= i < |ops[1..]| ensures !ops[1..][i].StartBarrier? { assert ops[1..][i] == ops[i + 1]; }
      InvContinues(if Enabled(f, ops[0]) then Step(f, ops[0]) else f, ops[1..]);
    }
  }

  lemma InvExcludes(f: Fleet)
    requires Inv(f)
    ensures Excludes(f)
  {
    if f.barrier.Some? {
      forall id | id in f.barrier.value.holds ensures HoldInv(f, f.barrier.value, id) { }
    }
  }

  // ---------------------------------------------------------------- ending the runs a barrier waits for

  /** Only the runs of one instance differ, and its turn: what the barrier and the gate know is the same. */
  ghost predicate SameButRuns(f: Fleet, g: Fleet) {
    && g.barrier == f.barrier && g.instances.Keys == f.instances.Keys
    && forall i | i in f.instances ::
      g.instances[i].passed == f.instances[i].passed && g.instances[i].runs <= f.instances[i].runs
  }

  /** The runs of an instance come to their end one after another. */
  lemma {:induction false} EndRuns(f: Fleet, i: nat) returns (ops: seq<Op>)
    requires i in f.instances
    ensures NoStart(ops) && SameButRuns(f, Continue(f, ops)) && Continue(f, ops).instances[i].runs == {}
    decreases f.instances[i].runs, f.instances[i].turnActive
  {
    var s := f.instances[i];
    if s.turnActive {
      var op := InSession(i, S.TurnEnds);
      assert Enabled(f, op);
      var rest := EndRuns(Step(f, op), i);
      ops := [op] + rest;
      assert ops[1..] == rest;
    } else if s.runs != {} {
      var r :| r in s.runs;
      var op := InSession(i, S.EndRun(r));
      assert Enabled(f, op);
      var rest := EndRuns(Step(f, op), i);
      ops := [op] + rest;
      assert ops[1..] == rest;
    } else {
      ops := [];
    }
  }

  lemma {:induction false} EndAllRuns(f: Fleet, todo: set<nat>) returns (ops: seq<Op>)
    requires todo <= f.instances.Keys
    ensures NoStart(ops) && SameButRuns(f, Continue(f, ops))
    ensures forall i | i in todo :: Continue(f, ops).instances[i].runs == {}
    decreases todo
  {
    if todo == {} {
      ops := [];
    } else {
      var i :| i in todo;
      var first := EndRuns(f, i);
      var rest := EndAllRuns(Continue(f, first), todo - {i});
      ContinueAppend(f, first, rest);
      ops := first + rest;
    }
  }

  /** Once the runs awaited are over, the barrier's function starts, and a caller in the gap begins. */
  lemma BeginsUnderBarrier(f: Fleet, id: string, i: nat, r: nat)
    requires f.barrier.Some? && f.barrier.value.phase == Gathering && Settled(f, f.barrier.value)
    requires id in f.barrier.value.holds && f.barrier.value.holds[id].instance == i
    requires i in f.instances && r in f.instances[i].passed && f.instances[i].runs == {}
    ensures !Excludes(Continue(f, [Settle, InSession(i, S.BeginPassed(r))]))
  {
    var begin := InSession(i, S.BeginPassed(r));
    var settled := Step(f, Settle);
    assert Enabled(f, Settle) && Enabled(settled, begin);
    var last, none: seq<Op> := [begin], [];
    assert [Settle, begin][1..] == last && last[1..] == none;
    assert Continue(f, [Settle, begin]) == Continue(settled, last) == Continue(Step(settled, begin), none);
    assert Step(settled, begin).instances[i].runs == {r};
  }

  /** A caller in the gap gets its run while the barrier's function runs. */
  lemma GapBreaksExclusion(f: Fleet, concerned: set<string>) returns (ops: seq<Op>)
    requires Inv(f) && f.barrier.None? && !NobodyInTheGap(f, concerned)
    ensures NoStart(ops) && !Excludes(Continue(HoldAll(f, concerned), ops))
  {
    var id :| id in f.active && id in concerned && f.active[id] in f.instances
      && f.instances[f.active[id]].passed != map[];
    var i := f.active[id];
    var r :| r in f.instances[i].passed;
    var g := HoldAll(f, concerned);
    assert g.instances[i].passed == f.instances[i].passed && i in g.barrier.value.awaited;
    var ending := EndAllRuns(g, g.barrier.value.awaited.Keys);
    var quiet := Continue(g, ending);
    BeginsUnderBarrier(quiet, id, i, r);
    var last := [Settle, InSession(i, S.BeginPassed(r))];
    ContinueAppend(g, ending, last);
    ops := ending + last;
  }

  /** Main result: a barrier keeps its promise, whatever happens while it stands, exactly when no caller of
      a session concerned stands between the gate and its run when it starts. */
  lemma ExclusionExactly(f: Fleet, concerned: set<string>)
    requires Inv(f) && f.barrier.None?
    ensures AlwaysExcludes(HoldAll(f, concerned)) <==> NobodyInTheGap(f, concerned)
  {
    var g := HoldAll(f, concerned);
    if NobodyInTheGap(f, concerned) {
      StartSafe(f, concerned);
      forall ops | NoStart(ops) ensures Excludes(Continue(g, ops)) {
        InvContinues(g, ops);
        InvExcludes(Continue(g, ops));
      }
    } else {
      var ops := GapBreaksExclusion(f, concerned);
    }
  }

  // ---------------------------------------------------------------- and there are such callers

  /** A session is born and held; a caller parks, the barrier goes by, and the caller leaves the gate. */
  const TO_THE_GAP: seq<Op> := [
    Born("x", 0, false), StartBarrier({"x"}), InSession(0, S.Enter(S.PromptEntry, 7)), Settle, FinishReshape,
    InSession(0, S.PassGate(7))]

  function After(n: nat): Fleet
    requires n <= 6
  {
    Reach(TO_THE_GAP[..n])
  }

  lemma AfterNext(n: nat)
    requires n < 6 && Enabled(After(n), TO_THE_GAP[n])
    ensures After(n + 1) == Step(After(n), TO_THE_GAP[n])
  {
    assert TO_THE_GAP[..n + 1][..n] == TO_THE_GAP[..n];
  }

  /** Held, with the caller parked at its gate. */
  lemma ParkedAtTheGate()
    ensures var f := After(3);
      && f.instances.Keys == {0} && f.names == map[0 := "x"] && f.active == map["x" := 0]
      && f.instances[0] == S.Held(S.Opened(false), 0).(parked := map[7 := S.PromptEntry])
      && f.barrier == Some(BarrierState(map["x" := Hold(0, 0)], map[0 := {}], Gathering))
  {
    assert TO_THE_GAP[..0] == [];
    AfterNext(0);
    var f := After(1);
    assert f.instances == map[0 := S.Opened(false)] && f.active == map["x" := 0] && f.gates == 0;
    AfterNext(1);
    assert "x" in f.active && f.active["x"] == 0;
    assert After(2).instances[0] == S.Held(S.Opened(false), 0);
    assert After(2).barrier.value.holds == map["x" := Hold(0, 0)] && After(2).barrier.value.awaited == map[0 := {}];
    AfterNext(2);
  }

  /** The barrier goes by, and the caller is parked at an open gate. */
  lemma GateIsOpen()
    ensures var f := After(5);
      && f.barrier.None? && f.instances.Keys == {0} && f.active == map["x" := 0]
      && f.instances[0].open && f.instances[0].gate.None? && f.instances[0].parked == map[7 := S.PromptEntry]
  {
    ParkedAtTheGate();
    AfterNext(3);
    AfterNext(4);
  }

  /** The fleets of the exclusion theorem do come to stand in the gap. */
  lemma GapIsReached()
    ensures GapFree(TO_THE_GAP) && Inv(Reach(TO_THE_GAP)) && Reach(TO_THE_GAP).barrier.None?
    ensures !NobodyInTheGap(Reach(TO_THE_GAP), {"x"})
  {
    GateIsOpen();
    AfterNext(5);
    assert TO_THE_GAP[..6] == TO_THE_GAP;
    assert 7 in After(6).instances[0].passed && After(6).active == map["x" := 0];
    NoGapOnTheWay(6);
    ReachSafe(TO_THE_GAP);
  }

  lemma {:induction false} NoGapOnTheWay(n: nat)
    requires n <= 6
    ensures GapFree(TO_THE_GAP[..n])
  {
    if n > 0 {
      NoGapOnTheWay(n - 1);
      assert TO_THE_GAP[..n][..n - 1] == TO_THE_GAP[..n - 1];
      if n == 2 {
        assert TO_THE_GAP[..0] == [];
        AfterNext(0);
        assert After(1).instances[0].passed == map[];
      }
    }
  }
}
