// Run accounting of one session (harness.ts, class HarnessSession): which runs are in flight, the
// barrier gate that parks new ones, and the wake that starts a turn for input queued while idle.
//
// The message bus tells its listener of a message unless a turn is active then, and a turn is
// active, and drains the bus, only inside a run. Steps are the synchronous stretches of
// the code between its awaits.

module SessionRuns {
  import opened Basics

  /** Which entry point a parked caller came in by. */
  datatype Entry = PromptEntry | ResumeEntry | StreamEntry

  /** `parked` callers wait at the gate; `passed` ones have returned from it and not begun their
      run yet. `queued` counts the messages on the bus. */
  datatype Session = Session(
    open: bool,
    gate: Option<nat>,
    runs: set<nat>,
    parked: map<nat, Entry>,
    passed: map<nat, Entry>,
    wakeScheduled: bool,
    interrupted: bool,
    queued: nat,
    turnActive: bool)

  /** A session as it is opened, over an empty bus. */
  function Opened(interrupted: bool): Session {
    Session(true, None, {}, map[], map[], false, interrupted, 0, false)
  }

  datatype Op =
    | Enqueue
    | WakeFires(run: nat)
    | Enter(entry: Entry, run: nat)
    | PassGate(run: nat)
    | BeginPassed(run: nat)
    | TurnBegins
    | TurnEnds
    | Drain(left: nat)
    | SetInterrupted(flag: bool)
    | EndRun(run: nat)
    | Hold(gate: nat)
    | Release(gate: nat)
    | Close

  /** Run numbers are new when they are first used. */
  predicate FreshRun(s: Session, r: nat) { r !in s.runs && r !in s.parked && r !in s.passed }

  predicate Enabled(s: Session, op: Op) {
    match op
    case WakeFires(r) => s.wakeScheduled && FreshRun(s, r)
    case Enter(_, r) => FreshRun(s, r)
    case PassGate(r) => r in s.parked && (s.gate.None? || !s.open)
    case BeginPassed(r) => r in s.passed
    case TurnBegins => s.runs != {}
    case TurnEnds => s.turnActive
    case Drain(left) => s.runs != {} && left <= s.queued
    case SetInterrupted(_) => s.runs != {}
    case EndRun(r) => r in s.runs && !(s.turnActive && s.runs == {r})
    case _ => true
  }

  function Woken(s: Session): Session { s.(wakeScheduled := true) }

  /** The run entry points past the closed check and the gate. */
  function Begin(s: Session, entry: Entry, r: nat): Session {
    if entry.ResumeEntry? && s.runs != {} then s else s.(runs := s.runs + {r})
  }

  function Held(s: Session, gate: nat): Session { s.(gate := Some(gate)) }

  /** A hold opens its own gate and no other; whatever queued up meanwhile gets its wake. */
  function Freed(s: Session, gate: nat): Session {
    Woken(if s.gate == Some(gate) then s.(gate := None) else s)
  }

  function Step(s: Session, op: Op): Session
    requires Enabled(s, op)
  {
    match op
    case Enqueue =>
      var s' := s.(queued := s.queued + 1);
      if s.turnActive then s' else Woken(s')
    case WakeFires(r) =>
      var s' := s.(wakeScheduled := false);
      if !s.open || s.interrupted || s.gate.Some? || s.runs != {} || s.queued == 0 then s'
      else Begin(s', PromptEntry, r)
    case Enter(entry, r) =>
      if !s.open then s
      else if s.gate.Some? then s.(parked := s.parked[r := entry])
      else Begin(s, entry, r)
    case PassGate(r) =>
      var s' := s.(parked := s.parked - {r});
      if s.open then s'.(passed := s.passed[r := s.parked[r]])
      else if s.parked[r].StreamEntry? then Woken(s')
      else s'
    case BeginPassed(r) => Begin(s.(passed := s.passed - {r}), s.passed[r], r)
    case TurnBegins => s.(turnActive := true)
    case TurnEnds => s.(turnActive := false)
    case Drain(left) => s.(queued := left)
    case SetInterrupted(flag) => s.(interrupted := flag)
    case EndRun(r) => Woken(s.(runs := s.runs - {r}))
    case Hold(g) => Held(s, g)
    case Release(g) => Freed(s, g)
    case Close => s.(open := false)
  }

  function Reach(interrupted: bool, ops: seq<Op>): Session {
    if ops == [] then Opened(interrupted)
    else
      var s := Reach(interrupted, ops[..|ops| - 1]);
      if Enabled(s, ops[|ops| - 1]) then Step(s, ops[|ops| - 1]) else s
  }

  /** Nothing stops the session from taking its queued input now, and no run is there to take it. */
  predicate CouldTakeInput(s: Session) {
    s.open && !s.interrupted && s.gate.None? && s.runs == {} && s.queued > 0
  }

  lemma StepStrandsNothing(s: Session, op: Op)
    requires Enabled(s, op)
    requires (CouldTakeInput(s) ==> s.wakeScheduled) && (s.turnActive ==> s.runs != {})
    ensures var t := Step(s, op); (CouldTakeInput(t) ==> t.wakeScheduled) && (t.turnActive ==> t.runs != {})
  {
  }

  /** No stranded input: whatever happened, queued input that nobody will drain has a wake coming. */
  lemma {:induction false} NoStrandedInput(interrupted: bool, ops: seq<Op>)
    ensures var s := Reach(interrupted, ops);
      (CouldTakeInput(s) ==> s.wakeScheduled) && (s.turnActive ==> s.runs != {})
  {
    if ops != [] {
      var before := ops[..|ops| - 1];
      NoStrandedInput(interrupted, before);
      if Enabled(Reach(interrupted, before), ops[|ops| - 1]) {
        StepStrandsNothing(Reach(interrupted, before), ops[|ops| - 1]);
      }
    }
  }

  /** And a wake, when it comes, starts the run: in every run of the session exactly then, and only the one;
      where it changes nothing it was not due or something else stands in its way. */
  lemma WakeTakesInput(interrupted: bool, ops: seq<Op>, r: nat)
    requires FreshRun(Reach(interrupted, ops), r)
    ensures var s, t := Reach(interrupted, ops), Reach(interrupted, ops + [WakeFires(r)]);
      t.runs == (if CouldTakeInput(s) then {r} else s.runs) && !CouldTakeInput(t)
  {
    NoStrandedInput(interrupted, ops);
    assert (ops + [WakeFires(r)])[..|ops|] == ops;
  }

  lemma StepKeepsWake(s: Session, op: Op)
    requires Enabled(s, op) && s.wakeScheduled && !op.WakeFires?
    ensures Step(s, op).wakeScheduled
  {
  }

  /** Only a wake takes the wake off again: until it fires, whatever else happens, it stays due. */
  lemma {:induction false} WakeStaysDue(interrupted: bool, ops: seq<Op>, more: seq<Op>)
    requires CouldTakeInput(Reach(interrupted, ops)) && forall i | 0 <= i < |more| :: !more[i].WakeFires?
    ensures Reach(interrupted, ops + more).wakeScheduled
  {
    if more == [] {
      assert ops + more == ops;
      NoStrandedInput(interrupted, ops);
    } else {
      var n := |more| - 1;
      var before := ops + more[..n];
      WakeStaysDue(interrupted, ops, more[..n]);
      assert (ops + more)[..|ops| + n] == before && (ops + more)[|ops| + n] == more[n];
      if Enabled(Reach(interrupted, before), more[n]) { StepKeepsWake(Reach(interrupted, before), more[n]); }
    }
  }

  /** Behind its gate a session only loses runs, and nothing of its own opens the gate. */
  lemma GatedOnlyLosesRuns(s: Session, op: Op)
    requires Enabled(s, op) && !op.Hold? && !op.Release?
    ensures var t := Step(s, op);
      && (t.open ==> s.open && t.gate == s.gate)
      && ((s.open ==> s.gate.Some?) && s.passed == map[] ==> t.runs <= s.runs && t.passed == map[])
  {
  }

  // ---------------------------------------------------------------- the session object

  class HarnessSession {
    const id: string
    /** The number of the object among all the sessions of its harness. */
    ghost const number: nat
    var open: bool
    var runGate: Option<nat>
    var runs: set<nat>
    var parked: map<nat, Entry>
    var passed: map<nat, Entry>
    var wakeScheduled: bool
    var lastRunInterrupted: bool
    var queued: nat
    var turnActive: bool

    constructor (id: string, ghost number: nat, interrupted: bool)
      ensures Now() == Opened(interrupted) && this.id == id && this.number == number
    {
      this.id, this.number := id, number;
      open, runGate, runs, parked, passed := true, None, {}, map[], map[];
      wakeScheduled, lastRunInterrupted, queued, turnActive := false, interrupted, 0, false;
    }

    function Now(): Session
      reads this
    {
      Session(open, runGate, runs, parked, passed, wakeScheduled, lastRunInterrupted, queued, turnActive)
    }

    method ScheduleIdleWake()
      modifies `wakeScheduled
      ensures wakeScheduled
    {
      if wakeScheduled { return; }
      wakeScheduled := true;
    }

    /** A message lands on the bus. */
    method Enqueued()
      modifies `queued, `wakeScheduled
      ensures Now() == Step(old(Now()), Enqueue)
    {
      queued := queued + 1;
      if !turnActive { ScheduleIdleWake(); }
    }

    /** The scheduled microtask. */
    method IdleWake(run: nat)
      requires Enabled(Now(), WakeFires(run))
      modifies `wakeScheduled, `runs
      ensures Now() == Step(old(Now()), WakeFires(run))
    {
      wakeScheduled := false;
      if !open || lastRunInterrupted { return; }
      if runGate.Some? { return; }
      if runs != {} { return; }
      if queued == 0 { return; }
      BeginRun(run);
    }

    method BeginRun(run: nat)
      modifies `runs
      ensures runs == old(runs) + {run}
    {
      runs := runs + {run};
    }

    /** `prompt`, `resume` or `promptStream`, up to the run or to the wait at the gate. */
    method EnterRun(entry: Entry, run: nat)
      requires FreshRun(Now(), run)
      modifies `runs, `parked
      ensures Now() == Step(old(Now()), Enter(entry, run))
      ensures old(open) && old(runGate).None? && (entry.ResumeEntry? ==> old(runs) == {}) ==> runs == old(runs) + {run}
      ensures old(open) && old(runGate).Some? ==> runs == old(runs) && parked == old(parked)[run := entry]
    {
      if !open { return; }
      if runGate.Some? {
        parked := parked[run := entry];
        return;
      }
      if entry.ResumeEntry? && runs != {} { return; }
      BeginRun(run);
    }

    /** A parked caller looks at the gate again: through it, or failed because the session closes. */
    method LeaveGate(run: nat)
      requires Enabled(Now(), PassGate(run))
      modifies `parked, `passed, `wakeScheduled
      ensures Now() == Step(old(Now()), PassGate(run))
    {
      var entry := parked[run];
      parked := parked - {run};
      if open {
        passed := passed[run := entry];
      } else if entry.StreamEntry? {
        ScheduleIdleWake();
      }
    }

    /** The caller's own continuation behind the gate. */
    method BeginAfterGate(run: nat)
      requires run in passed
      modifies `passed, `runs
      ensures Now() == Step(old(Now()), BeginPassed(run))
      ensures !(old(passed)[run].ResumeEntry? && old(runs) != {}) ==> runs == old(runs) + {run}
    {
      var entry := passed[run];
      passed := passed - {run};
      if entry.ResumeEntry? && runs != {} { return; }
      BeginRun(run);
    }

    method RunEnded(run: nat)
      requires Enabled(Now(), EndRun(run))
      modifies `runs, `wakeScheduled
      ensures Now() == Step(old(Now()), EndRun(run))
    {
      runs := runs - {run};
      ScheduleIdleWake();
    }

    /** `holdAtBoundary`: refuse new runs from here on; what is in flight is what to wait for. */
    method HoldAtBoundary(gate: nat) returns (inFlight: set<nat>)
      modifies `runGate
      ensures Now() == Held(old(Now()), gate) && inFlight == runs
    {
      runGate := Some(gate);
      inFlight := runs;
    }

    /** A hold's `release`: it opens its own gate and no other. */
    method ReleaseHold(gate: nat)
      modifies `runGate, `wakeScheduled
      ensures Now() == Freed(old(Now()), gate)
    {
      if runGate == Some(gate) { runGate := None; }
      ScheduleIdleWake();
    }

    method BeginClose()
      modifies `open
      ensures Now() == Step(old(Now()), Close)
    {
      open := false;
    }
  }
}
