// Who runs in a session (harness.ts, the run entry points): every caller that comes in is parked, about to run,
// running, or done for a reason, and nobody else runs.

module SessionCallers {
  import opened Basics
  import opened SessionRuns

  /** The caller is at the gate, past it, or running. */
  predicate InHand(s: Session, r: nat, entry: Entry) {
    || (r in s.parked && s.parked[r] == entry)
    || (r in s.passed && s.passed[r] == entry)
    || r in s.runs
  }

  /** A caller comes in: on an open session without a gate it runs at once, unless it is a resume and another
      run is there; with a gate it is parked as what it is; and a closed session does not take it. */
  lemma EnteringExactly(interrupted: bool, ops: seq<Op>, entry: Entry, r: nat)
    requires FreshRun(Reach(interrupted, ops), r)
    ensures var s, t := Reach(interrupted, ops), Reach(interrupted, ops + [Enter(entry, r)]);
      && t.runs == s.runs + (if s.open && s.gate.None? && (entry.ResumeEntry? ==> s.runs == {}) then {r} else {})
      && t.parked == (if s.open && s.gate.Some? then s.parked[r := entry] else s.parked)
      && t == s.(runs := t.runs, parked := t.parked)
  {
    ReachNext(interrupted, ops, Enter(entry, r));
  }

  /** Past the gate: once it is open, the parked caller passes; it fails when the session closes. */
  lemma PassingExactly(interrupted: bool, ops: seq<Op>, r: nat)
    requires var s := Reach(interrupted, ops); r in s.parked && (s.gate.None? || !s.open)
    ensures var s, t := Reach(interrupted, ops), Reach(interrupted, ops + [PassGate(r)]);
      && t.parked == s.parked - {r} && t.runs == s.runs
      && t.passed == (if s.open then s.passed[r := s.parked[r]] else s.passed)
      && t.wakeScheduled == (s.wakeScheduled || (!s.open && s.parked[r].StreamEntry?))
      && t == s.(parked := t.parked, passed := t.passed, wakeScheduled := t.wakeScheduled)
  {
    ReachNext(interrupted, ops, PassGate(r));
  }

  lemma ReachNext(interrupted: bool, ops: seq<Op>, op: Op)
    ensures var s := Reach(interrupted, ops);
      Reach(interrupted, ops + [op]) == if Enabled(s, op) then Step(s, op) else s
  {
    assert (ops + [op])[..|ops|] == ops;
  }

  /** And then it runs, unless it is a resume and another run is there. */
  lemma BeginningExactly(interrupted: bool, ops: seq<Op>, r: nat)
    requires r in Reach(interrupted, ops).passed
    ensures var s, t := Reach(interrupted, ops), Reach(interrupted, ops + [BeginPassed(r)]);
      && t.passed == s.passed - {r} && t.parked == s.parked
      && t.runs == s.runs + (if s.passed[r].ResumeEntry? && s.runs != {} then {} else {r})
  {
    ReachNext(interrupted, ops, BeginPassed(r));
  }

  /** A hold has its gate stand, and its release opens that gate and no other; either way nothing else changes
      but that a wake is due after a release. */
  lemma GateExactly(interrupted: bool, ops: seq<Op>, gate: nat)
    ensures var s := Reach(interrupted, ops);
      && Reach(interrupted, ops + [Hold(gate)]) == s.(gate := Some(gate))
      && var t := Reach(interrupted, ops + [Release(gate)]);
         && t.wakeScheduled && (s.gate == Some(gate) ==> t.gate == None) && (s.gate != Some(gate) ==> t.gate == s.gate)
         && t == s.(gate := t.gate, wakeScheduled := true)
  {
    ReachNext(interrupted, ops, Hold(gate));
    ReachNext(interrupted, ops, Release(gate));
  }

  /** A message more is queued, and a wake is due unless a turn will drain it; a run that ends is gone, and a
      wake is due. */
  lemma QueueingExactly(interrupted: bool, ops: seq<Op>, r: nat)
    ensures var s := Reach(interrupted, ops);
      && Reach(interrupted, ops + [Enqueue]) ==
           s.(queued := s.queued + 1, wakeScheduled := s.wakeScheduled || !s.turnActive)
      && (r in s.runs && (s.turnActive ==> s.runs != {r}) ==>
            Reach(interrupted, ops + [EndRun(r)]) == s.(runs := s.runs - {r}, wakeScheduled := true))
  {
    ReachNext(interrupted, ops, Enqueue);
    ReachNext(interrupted, ops, EndRun(r));
  }

  /** What lets a caller go: its run ends, or the session closes while it is parked, or it is a resume and comes
      to begin while another run is there. */
  predicate LetsGo(s: Session, op: Op, r: nat, entry: Entry) {
    || (op == EndRun(r) && r in s.runs)
    || (op == PassGate(r) && r in s.parked && !s.open)
    || (op == BeginPassed(r) && r in s.passed && entry.ResumeEntry? && s.runs != {})
  }

  /** A caller is in one place at a time. */
  predicate Apart(s: Session) {
    s.runs !! s.parked.Keys && s.runs !! s.passed.Keys && s.parked.Keys !! s.passed.Keys
  }

  lemma StepKeepsApart(s: Session, op: Op)
    requires Enabled(s, op) && Apart(s)
    ensures Apart(Step(s, op))
  {
  }

  lemma {:induction false} AlwaysApart(interrupted: bool, ops: seq<Op>)
    ensures Apart(Reach(interrupted, ops))
  {
    if ops != [] {
      var s := Reach(interrupted, ops[..|ops| - 1]);
      AlwaysApart(interrupted, ops[..|ops| - 1]);
      if Enabled(s, ops[|ops| - 1]) { StepKeepsApart(s, ops[|ops| - 1]); }
    }
  }

  lemma StepKeepsCaller(s: Session, op: Op, r: nat, entry: Entry)
    requires Enabled(s, op) && Apart(s) && InHand(s, r, entry)
    ensures InHand(Step(s, op), r, entry) || LetsGo(s, op, r, entry)
  {
  }

  /** It was let go after its first `n` steps. */
  ghost predicate WasLetGo(interrupted: bool, ops: seq<Op>, n: nat, r: nat, entry: Entry) {
    exists j | n <= j < |ops| :: LetsGo(Reach(interrupted, ops[..j]), ops[j], r, entry)
  }

  /** A caller that is in hand at some point of a run of the session is so ever after, or was let go. */
  lemma {:induction false} CallerIsNotLost(interrupted: bool, ops: seq<Op>, n: nat, r: nat, entry: Entry)
    requires n <= |ops| && InHand(Reach(interrupted, ops[..n]), r, entry)
    ensures InHand(Reach(interrupted, ops), r, entry) || WasLetGo(interrupted, ops, n, r, entry)
  {
    if n == |ops| {
      assert ops[..n] == ops;
    } else {
      var before, op := ops[..|ops| - 1], ops[|ops| - 1];
      assert before[..n] == ops[..n];
      CallerIsNotLost(interrupted, before, n, r, entry);
      if WasLetGo(interrupted, before, n, r, entry) {
        var j :| n <= j < |before| && LetsGo(Reach(interrupted, before[..j]), before[j], r, entry);
        assert before[..j] == ops[..j] && before[j] == ops[j];
      } else {
        var s := Reach(interrupted, before);
        AlwaysApart(interrupted, before);
        if Enabled(s, op) { StepKeepsCaller(s, op, r, entry); }
      }
    }
  }

  /** Its run ends, or it fails at the gate because the session closes. */
  predicate EndsOrFails(s: Session, op: Op, r: nat) {
    (op == EndRun(r) && r in s.runs) || (op == PassGate(r) && r in s.parked && !s.open)
  }

  ghost predicate EndedOrFailed(interrupted: bool, ops: seq<Op>, n: nat, r: nat) {
    exists j | n <= j < |ops| :: EndsOrFails(Reach(interrupted, ops[..j]), ops[j], r)
  }

  lemma OnlyResumesAreRefused(interrupted: bool, ops: seq<Op>, n: nat, r: nat, entry: Entry)
    requires !entry.ResumeEntry? && WasLetGo(interrupted, ops, n, r, entry)
    ensures EndedOrFailed(interrupted, ops, n, r)
  {
    var j :| n <= j < |ops| && LetsGo(Reach(interrupted, ops[..j]), ops[j], r, entry);
    assert EndsOrFails(Reach(interrupted, ops[..j]), ops[j], r);
  }

  /** Main result on callers: a prompt or stream that an open session takes is parked, past the gate or running
      ever after, until its run has ended or it failed because the session closes. */
  lemma NoCallerIsLost(interrupted: bool, ops: seq<Op>, entry: Entry, r: nat, more: seq<Op>)
    requires !entry.ResumeEntry? && Reach(interrupted, ops).open && FreshRun(Reach(interrupted, ops), r)
    ensures var all := ops + [Enter(entry, r)] + more;
      InHand(Reach(interrupted, all), r, entry) || EndedOrFailed(interrupted, all, |ops| + 1, r)
  {
    var all, n := ops + [Enter(entry, r)] + more, |ops| + 1;
    EnteringExactly(interrupted, ops, entry, r);
    assert all[..n] == ops + [Enter(entry, r)];
    CallerIsNotLost(interrupted, all, n, r, entry);
    if WasLetGo(interrupted, all, n, r, entry) { OnlyResumesAreRefused(interrupted, all, n, r, entry); }
  }

  predicate IsThere(s: Session, r: nat) { r in s.runs || r in s.parked || r in s.passed }

  /** The step by which a run comes up. */
  predicate BringsIn(op: Op, r: nat) { op == WakeFires(r) || (op.Enter? && op.run == r) }

  lemma StepBringsIn(s: Session, op: Op, r: nat)
    requires Enabled(s, op) && IsThere(Step(s, op), r)
    ensures IsThere(s, r) || BringsIn(op, r)
  {
  }

  /** Nobody runs who did not come in, or was started by a wake. */
  lemma {:induction false} EveryRunCameIn(interrupted: bool, ops: seq<Op>, r: nat)
    requires IsThere(Reach(interrupted, ops), r)
    ensures exists j | 0 <= j < |ops| :: BringsIn(ops[j], r)
  {
    if ops != [] {
      var before, op := ops[..|ops| - 1], ops[|ops| - 1];
      var s := Reach(interrupted, before);
      if Enabled(s, op) { StepBringsIn(s, op, r); }
      if IsThere(s, r) {
        EveryRunCameIn(interrupted, before, r);
        var j :| 0 <= j < |before| && BringsIn(before[j], r);
        assert ops[j] == before[j];
      }
    }
  }
}
