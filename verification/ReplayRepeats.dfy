// What Code Mode's replay repeats (run-code-tool.ts): whatever the program and the engine, a completed
// call is dispatched again exactly when an execution departs from its journal. That departure need not
// show in the result, when the execution that departs is itself paused.

module ReplayRepeats {
  import opened Basics
  import opened Replay

  /** The sequence numbers that have completed. */
  function Done(h: Host, log: seq<Dispatch>): set<nat> {
    if log == [] then {}
    else Done(h, log[..|log| - 1]) + if h.Asks(log) then {} else {log[|log| - 1].sequence}
  }

  /** Some call was dispatched again after it had completed. */
  predicate Repeated(h: Host, log: seq<Dispatch>) {
    log != [] && (Repeated(h, log[..|log| - 1]) || log[|log| - 1].sequence in Done(h, log[..|log| - 1]))
  }

  lemma {:induction false} DoneMeans(h: Host, log: seq<Dispatch>, c: nat)
    ensures c in Done(h, log) <==> exists i | 0 <= i < |log| :: Completed(h, log, i) && log[i].sequence == c
  {
    if log != [] {
      var before, d := log[..|log| - 1], log[|log| - 1];
      assert log == before + [d];
      DoneMeans(h, before, c);
      forall i | 0 <= i < |before| ensures Completed(h, log, i) == Completed(h, before, i) && log[i] == before[i] {
        EarlierDispatchesKeep(h, before, d, i);
      }
      assert log[..|before| + 1] == log;
    }
  }

  /** What `Repeated` says of the places in a log. */
  lemma {:induction false} RepeatedMeans(h: Host, log: seq<Dispatch>)
    ensures Repeated(h, log) <==>
      exists i, j | 0 <= i < j < |log| :: Completed(h, log, i) && log[j].sequence == log[i].sequence
  {
    if log != [] {
      var before, d := log[..|log| - 1], log[|log| - 1];
      assert log == before + [d];
      RepeatedMeans(h, before);
      DoneMeans(h, before, d.sequence);
      forall i | 0 <= i < |before| ensures Completed(h, log, i) == Completed(h, before, i) && log[i] == before[i] {
        EarlierDispatchesKeep(h, before, d, i);
      }
    }
  }

  /** The journal has exactly what completed, and something repeated exactly if it had when the execution
      began or the execution has departed from its journal. */
  ghost predicate Accounts(h: Host, s: Run, repeated: bool) {
    && s.journal.Keys == Done(h, s.log)
    && (Repeated(h, s.log) <==> repeated || s.divergedAt.Some?)
    && (s.replaying || s.divergedAt.Some? || forall c | c in s.journal :: c <= s.calls)
  }

  lemma LiveAccounts(h: Host, resume: Option<Continuation>, s: Run, name: string, args: Json)
    ensures var t := Live(h, resume, s, name, args).0;
      && (s.journal.Keys == Done(h, s.log) ==> t.journal.Keys == Done(h, t.log))
      && (Repeated(h, t.log) <==> Repeated(h, s.log) || s.calls in Done(h, s.log))
  {
    var d := Dispatch(s.calls, name, args, ApprovalFor(resume, s.calls));
    assert (s.log + [d])[..|s.log|] == s.log;
  }

  /** A live call that is no departure has not completed before. */
  lemma FreshAccounts(h: Host, resume: Option<Continuation>, s: Run, name: string, args: Json, repeated: bool)
    requires Accounts(h, s, repeated) && (s.replaying ==> s.calls + 1 !in s.journal)
    ensures Accounts(h, Live(h, resume, s.(calls := s.calls + 1), name, args).0, repeated)
  {
    LiveAccounts(h, resume, s.(calls := s.calls + 1), name, args);
  }

  /** A departure dispatches a call that has completed. */
  lemma DepartureAccounts(h: Host, resume: Option<Continuation>, s: Run, name: string, args: Json, repeated: bool)
    requires Accounts(h, s, repeated) && s.calls + 1 in s.journal
    ensures var t := s.(calls := s.calls + 1, replaying := false, divergedAt := Some(s.calls + 1));
      Accounts(h, Live(h, resume, t, name, args).0, repeated)
  {
    LiveAccounts(h, resume, s.(calls := s.calls + 1, replaying := false, divergedAt := Some(s.calls + 1)), name, args);
  }

  lemma SameLogAccounts(h: Host, s: Run, t: Run, repeated: bool)
    requires Accounts(h, s, repeated) && t.log == s.log && t.journal == s.journal && t.divergedAt == s.divergedAt
    requires t.replaying == s.replaying && s.calls <= t.calls
    ensures Accounts(h, t, repeated)
  {
  }

  /** What one binding call can do to the run. */
  lemma BindCases(h: Host, resume: Option<Continuation>, s: Run, name: string, args: Json)
    ensures var t, c := Bind(h, resume, s, name, args).0, s.calls + 1;
      || (t.log == s.log && t.journal == s.journal && t.divergedAt == s.divergedAt
        && t.replaying == s.replaying && s.calls <= t.calls)
      || ((s.replaying ==> c !in s.journal) && t == Live(h, resume, s.(calls := c), name, args).0)
      || (c in s.journal &&
        t == Live(h, resume, s.(calls := c, replaying := false, divergedAt := Some(c)), name, args).0)
  {
  }

  lemma BindAccounts(h: Host, resume: Option<Continuation>, s: Run, name: string, args: Json, repeated: bool)
    requires Accounts(h, s, repeated)
    ensures Accounts(h, Bind(h, resume, s, name, args).0, repeated)
  {
    var t, c := Bind(h, resume, s, name, args).0, s.calls + 1;
    BindCases(h, resume, s, name, args);
    if t.log == s.log && t.journal == s.journal && t.divergedAt == s.divergedAt
      && t.replaying == s.replaying && s.calls <= t.calls {
      SameLogAccounts(h, s, t, repeated);
    } else if (s.replaying ==> c !in s.journal) && t == Live(h, resume, s.(calls := c), name, args).0 {
      FreshAccounts(h, resume, s, name, args, repeated);
    } else {
      DepartureAccounts(h, resume, s, name, args, repeated);
    }
  }

  lemma {:induction false} ExecuteAccounts(h: Host, p: Program, resume: Option<Continuation>, s: Run,
      outs: seq<Outcome>, steps: nat, repeated: bool)
    requires Accounts(h, s, repeated)
    ensures Accounts(h, Execute(h, p, resume, s, outs, steps).run, repeated)
    decreases steps
  {
    if p(outs).Call? && steps > 0 {
      var Call(name, args) := p(outs);
      BindAccounts(h, resume, s, name, args, repeated);
      var (s', outcome) := Bind(h, resume, s, name, args);
      if s'.pause.None? { ExecuteAccounts(h, p, resume, s', outs + [outcome], steps - 1, repeated); }
    }
  }

  /** Some execution of the series departed from its journal. */
  predicate Departs(h: Host, p: Program, resume: Option<Continuation>, journal: Journal, log: seq<Dispatch>,
                    answers: seq<Json>, steps: nat)
    decreases |answers|
  {
    var e := Execute(h, p, resume, StartRun(resume, journal, log), [], steps);
    || e.run.divergedAt.Some?
    || (e.ending.Waiting? && answers != [] &&
        Departs(h, p, Some(Continuation(e.ending.pause.sequence, ApprovalOf(answers[0]))),
          e.run.journal, e.run.log, answers[1..], steps))
  }

  lemma {:induction false} SeriesAccounts(h: Host, p: Program, resume: Option<Continuation>, journal: Journal,
                                          log: seq<Dispatch>, answers: seq<Json>, steps: nat)
    requires journal.Keys == Done(h, log) && (resume.None? ==> journal == map[])
    ensures Repeated(h, Paused(h, p, resume, journal, log, answers, steps).log) <==>
      Repeated(h, log) || Departs(h, p, resume, journal, log, answers, steps)
    decreases |answers|
  {
    ExecuteAccounts(h, p, resume, StartRun(resume, journal, log), [], steps, Repeated(h, log));
    var e := Execute(h, p, resume, StartRun(resume, journal, log), [], steps);
    if e.ending.Waiting? && answers != [] {
      var next := Some(Continuation(e.ending.pause.sequence, ApprovalOf(answers[0])));
      SeriesAccounts(h, p, next, e.run.journal, e.run.log, answers[1..], steps);
    }
  }

  /** Main result on side effects, for every program and every engine: across all executions of a paused
      program a completed call is dispatched again exactly when some execution departed from its journal. */
  lemma RepeatsExactlyWhenDeparting(h: Host, p: Program, answers: seq<Json>, steps: nat)
    ensures (exists i, j | 0 <= i < j < |Paused(h, p, None, map[], [], answers, steps).log| ::
        var log := Paused(h, p, None, map[], [], answers, steps).log;
        Completed(h, log, i) && log[j].sequence == log[i].sequence)
      <==> Departs(h, p, None, map[], [], answers, steps)
  {
    SeriesAccounts(h, p, None, map[], [], answers, steps);
    RepeatedMeans(h, Paused(h, p, None, map[], [], answers, steps).log);
  }

  /** And a departure takes an approval that was answered after a call failed without an error text, in the
      program's uninterrupted run: what a host can look for. */
  lemma DepartsOnlyAfterSilence(h: Host, p: Program, answers: seq<Json>, steps: nat)
    requires Departs(h, p, None, map[], [], answers, steps)
    ensures AnsweredAfterSilence(h, Uninterrupted(h, p, [], [], answers, None, steps).log)
  {
    RepeatsExactlyWhenDeparting(h, p, answers, steps);
    if !AnsweredAfterSilence(h, Uninterrupted(h, p, [], [], answers, None, steps).log) {
      AtMostOnce(h, p, answers, steps);
      var r := Paused(h, p, None, map[], [], answers, steps);
      OrderlyRepeatsNothing(h, r.log, |r.outcomes|);
    }
  }

  lemma OrderlyRepeatsNothing(h: Host, log: seq<Dispatch>, n: nat)
    requires Orderly(h, log, n)
    ensures forall i, j | 0 <= i < j < |log| && Completed(h, log, i) :: log[j].sequence != log[i].sequence
  {
    forall i, j | 0 <= i < j < |log| && Completed(h, log, i) ensures log[j].sequence != log[i].sequence {
      assert Before(h, log, i, j);
    }
  }

  // ---------------------------------------------------------------- a departure the last result does not show

  /** Calls `a`; then `b`, or, if `a` failed with no text at all, `c`; then `d` twice, and ends. */
  function Branching(outs: seq<Outcome>): Step {
    if |outs| == 0 then Call("a", JNull)
    else if |outs| == 1 then Call(if outs[0] == Failed("a", "") then "c" else "b", JNull)
    else if |outs| < 4 then Call("d", JNull)
    else Finish(JNull)
  }

  /** `a` fails without a text, and `d` asks for an approval. */
  function Replies(log: seq<Dispatch>): Reply {
    if log == [] then Reply("", false, None, None)
    else
      var d := log[|log| - 1];
      Reply("", d.name == "a", None, if d.name == "d" && d.approval.None? then Some(JNull) else None)
  }

  const HOST := Host(Replies, _ => false, _ => None, _ => "", 4, true)

  const OLD_A := Failed("a", "")

  const VALUE := Resolved(JStr(""))

  function Kept(name: string): Entry { Entry(name, "", "", name == "a", None) }

  /** The run after its next call went live, to the end or to the question. */
  function Went(resume: Option<Continuation>, s: Run, name: string): Run {
    var c := s.calls + 1;
    var log := s.log + [Dispatch(c, name, JNull, ApprovalFor(resume, c))];
    if name == "d" && ApprovalFor(resume, c).None? then s.(calls := c, log := log, pause := Some(Pause(c, JNull)))
    else s.(calls := c, log := log, journal := s.journal[c := Kept(name)])
  }

  lemma GoesLive(resume: Option<Continuation>, s: Run, outs: seq<Outcome>, name: string, steps: nat)
    requires s.pause.None? && s.calls < 4 && !(s.replaying && s.calls + 1 in s.journal)
    requires Branching(outs) == Call(name, JNull) && steps > 0
    ensures var t := Went(resume, s, name);
      Execute(HOST, Branching, resume, s, outs, steps) ==
        if t.pause.Some? then Execution(Waiting(t.pause.value), outs, t)
        else Execute(HOST, Branching, resume, t,
          outs + [if name == "a" then Failed("a", NO_ERROR_TEXT) else VALUE], steps - 1)
  {
  }

  /** A live call that does not ask. */
  lemma GoesOn(resume: Option<Continuation>, s: Run, outs: seq<Outcome>, name: string, more: seq<Outcome>, steps: nat)
    returns (t: Run)
    requires s.pause.None? && s.calls < 4 && !(s.replaying && s.calls + 1 in s.journal)
    requires Branching(outs) == Call(name, JNull) && steps > 0 && name != "a" && more == outs + [VALUE]
    requires Went(resume, s, name).pause.None?
    ensures t == Went(resume, s, name)
    ensures Execute(HOST, Branching, resume, s, outs, steps) == Execute(HOST, Branching, resume, t, more, steps - 1)
  {
    t := Went(resume, s, name);
    GoesLive(resume, s, outs, name, steps);
  }

  lemma GoesByJournal(resume: Option<Continuation>, s: Run, outs: seq<Outcome>, name: string, steps: nat)
    requires s.pause.None? && s.calls < 4 && s.replaying && s.calls + 1 in s.journal
      && s.journal[s.calls + 1] == Kept(name)
    requires Branching(outs) == Call(name, JNull) && steps > 0
    ensures Execute(HOST, Branching, resume, s, outs, steps) ==
      Execute(HOST, Branching, resume, s.(calls := s.calls + 1, replayed := s.replayed + 1),
              outs + [if name == "a" then OLD_A else VALUE], steps - 1)
  {
  }

  /** The same with what comes of it named. */
  lemma ReplaysOn(r: Option<Continuation>, s: Run, outs: seq<Outcome>, name: string, t: Run, more: seq<Outcome>,
      steps: nat)
    requires s.pause.None? && s.calls < 4 && s.replaying && s.calls + 1 in s.journal
      && s.journal[s.calls + 1] == Kept(name)
    requires Branching(outs) == Call(name, JNull) && steps > 0
    requires t == s.(calls := s.calls + 1, replayed := s.replayed + 1)
    requires more == outs + [if name == "a" then OLD_A else VALUE]
    ensures Execute(HOST, Branching, r, s, outs, steps) == Execute(HOST, Branching, r, t, more, steps - 1)
  {
    GoesByJournal(r, s, outs, name, steps);
  }

  lemma GoesAway(resume: Option<Continuation>, s: Run, outs: seq<Outcome>, name: string, steps: nat)
    requires s.pause.None? && s.calls < 4 && s.replaying && s.calls + 1 in s.journal
      && s.journal[s.calls + 1].name != name
    requires Branching(outs) == Call(name, JNull) && steps > 0
    ensures Execute(HOST, Branching, resume, s, outs, steps) ==
      Execute(HOST, Branching, resume, s.(replaying := false, divergedAt := Some(s.calls + 1)), outs, steps)
  {
  }

  /** First `a` and `b` complete, and `d` asks. */
  lemma FirstExecution(steps: nat) returns (s: Run)
    requires steps > 4
    ensures s.pause == Some(Pause(3, JNull)) && s.journal == map[1 := Kept("a"), 2 := Kept("b")]
    ensures |s.log| == 3 && s.log[1].sequence == 2 && Completed(HOST, s.log, 1)
    ensures exists outs ::
      Execute(HOST, Branching, None, StartRun(None, map[], []), [], steps) == Execution(Waiting(s.pause.value), outs, s)
  {
    var s0 := StartRun(None, map[], []);
    var s1 := Went(None, s0, "a");
    var s2 := Went(None, s1, "b");
    s := Went(None, s2, "d");
    GoesLive(None, s0, [], "a", steps);
    GoesLive(None, s1, [Failed("a", NO_ERROR_TEXT)], "b", steps - 1);
    GoesLive(None, s2, [Failed("a", NO_ERROR_TEXT), VALUE], "d", steps - 2);
    assert s.log[..2] == s2.log;
  }

  /** Then `a` is replayed, and `c` is not what the journal has next. */
  lemma Mismatch(first: Run, r: Option<Continuation>, steps: nat) returns (s: Run)
    requires steps > 4 && first.journal == map[1 := Kept("a"), 2 := Kept("b")] && r.Some?
    ensures s == Run(1, first.journal, false, 1, Some(2), None, first.log)
    ensures Execute(HOST, Branching, r, StartRun(r, first.journal, first.log), [], steps) ==
      Execute(HOST, Branching, r, s, [OLD_A], steps - 1)
  {
    var s0 := StartRun(r, first.journal, first.log);
    var s1 := s0.(calls := 1, replayed := 1);
    s := s1.(replaying := false, divergedAt := Some(2));
    ReplaysOn(r, s0, [], "a", s1, [OLD_A], steps);
    GoesAway(r, s1, [OLD_A], "c", steps - 1);
  }

  lemma WentAway(first: Run, r: Option<Continuation>, s: Run)
    requires first.journal == map[1 := Kept("a"), 2 := Kept("b")] && r.Some? && r.value.pendingCall == 3
    requires s == Run(1, first.journal, false, 1, Some(2), None, first.log)
    ensures var log := first.log + [Dispatch(2, "c", JNull, None)];
      Went(r, s, "c") == Run(2, map[1 := Kept("a"), 2 := Kept("c")], false, 1, Some(2), None, log)
  {
    assert first.journal[2 := Kept("c")] == map[1 := Kept("a"), 2 := Kept("c")];
  }

  /** So `c` goes live in the place of `b`. */
  lemma Departure(first: Run, r: Option<Continuation>, steps: nat) returns (s: Run)
    requires steps > 4 && first.journal == map[1 := Kept("a"), 2 := Kept("b")] && r.Some? && r.value.pendingCall == 3
    ensures var log := first.log + [Dispatch(2, "c", JNull, None)];
      s == Run(2, map[1 := Kept("a"), 2 := Kept("c")], false, 1, Some(2), None, log)
    ensures Execute(HOST, Branching, r, StartRun(r, first.journal, first.log), [], steps) ==
      Execute(HOST, Branching, r, s, [OLD_A, VALUE], steps - 2)
  {
    var s1 := Mismatch(first, r, steps);
    WentAway(first, r, s1);
    s := GoesOn(r, s1, [OLD_A], "c", [OLD_A, VALUE], steps - 1);
  }

  /** The first `d` has its answer, and the second asks. */
  lemma SecondExecution(first: Run, answer: Answer, steps: nat) returns (s: Run)
    requires steps > 4 && first.journal == map[1 := Kept("a"), 2 := Kept("b")]
    ensures s.pause == Some(Pause(4, JNull)) && s.journal == map[1 := Kept("a"), 2 := Kept("c"), 3 := Kept("d")]
    ensures s.divergedAt == Some(2) && |s.log| == |first.log| + 3
    ensures s.log[..|first.log|] == first.log && s.log[|first.log|].sequence == 2
    ensures var r := Some(Continuation(3, answer));
      exists outs ::
        Execute(HOST, Branching, r, StartRun(r, first.journal, first.log), [], steps) ==
          Execution(Waiting(s.pause.value), outs, s)
  {
    var r := Some(Continuation(3, answer));
    var s2 := Departure(first, r, steps);
    var s3 := Went(r, s2, "d");
    s := Went(r, s3, "d");
    GoesLive(r, s2, [OLD_A, VALUE], "d", steps - 2);
    GoesLive(r, s3, [OLD_A, VALUE, VALUE], "d", steps - 3);
  }

  lemma AllReplayed(second: Run, r: Option<Continuation>, steps: nat) returns (s: Run)
    requires steps > 4 && second.journal == map[1 := Kept("a"), 2 := Kept("c"), 3 := Kept("d")] && r.Some?
    ensures s == Run(3, second.journal, true, 3, None, None, second.log)
    ensures Execute(HOST, Branching, r, StartRun(r, second.journal, second.log), [], steps) ==
      Execute(HOST, Branching, r, s, [OLD_A, VALUE, VALUE], steps - 3)
  {
    var s0 := StartRun(r, second.journal, second.log);
    var s1 := s0.(calls := 1, replayed := 1);
    var s2 := s1.(calls := 2, replayed := 2);
    s := s2.(calls := 3, replayed := 3);
    ReplaysOn(r, s0, [], "a", s1, [OLD_A], steps);
    ReplaysOn(r, s1, [OLD_A], "c", s2, [OLD_A, VALUE], steps - 1);
    ReplaysOn(r, s2, [OLD_A, VALUE], "d", s, [OLD_A, VALUE, VALUE], steps - 2);
  }

  /** At last everything is replayed but the second `d`, which has its answer. */
  lemma ThirdExecution(second: Run, answer: Answer, steps: nat) returns (s: Run)
    requires steps > 4 && second.journal == map[1 := Kept("a"), 2 := Kept("c"), 3 := Kept("d")]
    ensures s.divergedAt.None? && |s.log| == |second.log| + 1 && s.log[..|second.log|] == second.log
    ensures var r := Some(Continuation(4, answer));
      exists outs ::
        Execute(HOST, Branching, r, StartRun(r, second.journal, second.log), [], steps) ==
          Execution(Returned(JNull), outs, s)
  {
    var r := Some(Continuation(4, answer));
    var s3 := AllReplayed(second, r, steps);
    s := Went(r, s3, "d");
    GoesLive(r, s3, [OLD_A, VALUE, VALUE], "d", steps - 3);
  }

  /** A program whose final result says nothing of a departure although the call at its second place ran
      twice, once as `b` and once as `c`: the execution that departed was itself paused. */
  lemma DepartureGoesUnsaid(x: Json, y: Json, steps: nat)
    requires steps > 4
    ensures var result := Paused(HOST, Branching, None, map[], [], [x, y], steps);
      result.ending == Returned(JNull) && result.divergedAt.None? && Repeated(HOST, result.log)
  {
    var first := FirstExecution(steps);
    var second := SecondExecution(first, ApprovalOf(x), steps);
    var third := ThirdExecution(second, ApprovalOf(y), steps);
    var r1, r2 := Some(Continuation(3, ApprovalOf(x))), Some(Continuation(4, ApprovalOf(y)));
    var all, rest, none := [x, y], [y], [];
    assert all[1..] == rest && rest[1..] == none;
    assert Paused(HOST, Branching, r2, second.journal, second.log, none, steps).log == third.log;
    assert Paused(HOST, Branching, r1, first.journal, first.log, rest, steps) ==
      Paused(HOST, Branching, r2, second.journal, second.log, none, steps);
    assert Paused(HOST, Branching, None, map[], [], all, steps) ==
      Paused(HOST, Branching, r1, first.journal, first.log, rest, steps);
    assert third.log[..2] == second.log[..2] == first.log[..2];
    assert third.log[3] == second.log[3] && third.log[1] == first.log[1];
    RepeatedMeans(HOST, third.log);
  }
}
