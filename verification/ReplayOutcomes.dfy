// What a program is told of its calls (run-code-tool.ts): whatever the program and the engine, and through all
// its executions, what a call comes to is read off the engine's reply to a completed dispatch of it.

module ReplayOutcomes {
  import opened Basics
  import opened Replay

  /** What a program is told when a call with this reply completes: an error's text, or a default one; for a
      tool with an output schema the structured result, or else what its text is as JSON, if it begins as an
      object or a list does and parses; and the text. */
  predicate Tells(h: Host, name: string, reply: Reply, outcome: Outcome) {
    var json := Trim(reply.text);
    var parses := json != "" && (json[0] == '{' || json[0] == '[') && h.parseJson(json).Some?;
    var structured := !reply.isError && h.hasOutputSchema(name);
    && (reply.isError && reply.text != "" ==> outcome == Failed(name, reply.text))
    && (reply.isError && reply.text == "" ==> outcome == Failed(name, NO_ERROR_TEXT))
    && (!reply.isError && !h.hasOutputSchema(name) ==> outcome == Resolved(JStr(reply.text)))
    && (structured && reply.structured.Some? ==> outcome == Resolved(reply.structured.value))
    && (structured && reply.structured.None? && parses ==> outcome == Resolved(h.parseJson(json).value))
    && (structured && reply.structured.None? && !parses ==> outcome == Resolved(JStr(reply.text)))
  }

  /** The same from the journal, where an error without a text has lost its default. */
  predicate TellsAgain(h: Host, name: string, reply: Reply, outcome: Outcome) {
    if reply.isError && reply.text == "" then outcome == Failed(name, "") else Tells(h, name, reply, outcome)
  }

  /** Dispatch `i` is that call, and has completed. */
  predicate IsThatCall(h: Host, log: seq<Dispatch>, i: nat, c: nat, name: string, args: string)
    requires i < |log|
  {
    Completed(h, log, i) && log[i].sequence == c && log[i].name == name && h.encode(log[i].args) == args
  }

  /** The program is told what one of the dispatches of a call came to. */
  ghost predicate Answered(h: Host, log: seq<Dispatch>, c: nat, name: string, args: string, outcome: Outcome) {
    exists i | 0 <= i < |log| ::
      && IsThatCall(h, log, i, c, name, args)
      && (Tells(h, name, h.ReplyTo(log[..i + 1]), outcome) || TellsAgain(h, name, h.ReplyTo(log[..i + 1]), outcome))
  }

  /** A journal entry is what a dispatch of that call came to. */
  ghost predicate Recorded(h: Host, log: seq<Dispatch>, c: nat, entry: Entry) {
    exists i | 0 <= i < |log| ::
      && IsThatCall(h, log, i, c, entry.name, entry.args)
      && TellsAgain(h, entry.name, h.ReplyTo(log[..i + 1]), ReplayedOutcome(entry))
  }

  ghost predicate AllRecorded(h: Host, log: seq<Dispatch>, journal: Journal) {
    forall c | c in journal :: Recorded(h, log, c, journal[c])
  }

  // ---------------------------------------------------------------- one call

  lemma StillThatCall(h: Host, log: seq<Dispatch>, more: seq<Dispatch>, i: nat, c: nat, name: string, args: string)
    requires i < |log| && log <= more && IsThatCall(h, log, i, c, name, args)
    ensures IsThatCall(h, more, i, c, name, args) && more[..i + 1] == log[..i + 1]
  {
  }

  lemma RecordedStays(h: Host, log: seq<Dispatch>, more: seq<Dispatch>, c: nat, entry: Entry)
    requires log <= more && Recorded(h, log, c, entry)
    ensures Recorded(h, more, c, entry)
  {
    var i :| 0 <= i < |log| && IsThatCall(h, log, i, c, entry.name, entry.args)
      && TellsAgain(h, entry.name, h.ReplyTo(log[..i + 1]), ReplayedOutcome(entry));
    StillThatCall(h, log, more, i, c, entry.name, entry.args);
  }

  lemma AnsweredStays(h: Host, log: seq<Dispatch>, more: seq<Dispatch>, c: nat, name: string, args: string, o: Outcome)
    requires log <= more && Answered(h, log, c, name, args, o)
    ensures Answered(h, more, c, name, args, o)
  {
    var i :| 0 <= i < |log| && IsThatCall(h, log, i, c, name, args)
      && (Tells(h, name, h.ReplyTo(log[..i + 1]), o) || TellsAgain(h, name, h.ReplyTo(log[..i + 1]), o));
    StillThatCall(h, log, more, i, c, name, args);
  }

  /** What a live call and its journal entry say of the reply. */
  lemma ReplyIsTold(h: Host, name: string, args: Json, reply: Reply)
    ensures Tells(h, name, reply, LiveOutcome(h, name, reply))
    ensures TellsAgain(h, name, reply, ReplayedOutcome(EntryOf(h, name, args, reply)))
  {
  }

  lemma LiveTells(h: Host, resume: Option<Continuation>, s: Run, name: string, args: Json)
    requires AllRecorded(h, s.log, s.journal)
    ensures var (t, outcome) := Live(h, resume, s, name, args);
      && s.log <= t.log && t.calls == s.calls && AllRecorded(h, t.log, t.journal)
      && (s.pause.None? && t.pause.None? ==> Answered(h, t.log, s.calls, name, h.encode(args), outcome))
  {
    var (t, outcome) := Live(h, resume, s, name, args);
    var i := |s.log|;
    assert t.log[..i + 1] == t.log;
    forall c | c in s.journal ensures Recorded(h, t.log, c, s.journal[c]) {
      RecordedStays(h, s.log, t.log, c, s.journal[c]);
    }
    ReplyIsTold(h, name, args, h.ReplyTo(t.log));
    if !h.Asks(t.log) {
      assert IsThatCall(h, t.log, i, s.calls, name, h.encode(args));
      assert Recorded(h, t.log, s.calls, EntryOf(h, name, args, h.ReplyTo(t.log)));
    }
  }

  /** A call whose record stands in the journal. */
  lemma ReplayTells(h: Host, s: Run, c: nat, name: string, args: Json)
    requires AllRecorded(h, s.log, s.journal) && c in s.journal
    requires s.journal[c].name == name && s.journal[c].args == h.encode(args)
    ensures Answered(h, s.log, c, name, h.encode(args), ReplayedOutcome(s.journal[c]))
  {
    var entry := s.journal[c];
    assert Recorded(h, s.log, c, entry);
    var i :| 0 <= i < |s.log| && IsThatCall(h, s.log, i, c, name, entry.args)
      && TellsAgain(h, name, h.ReplyTo(s.log[..i + 1]), ReplayedOutcome(entry));
  }

  /** What a call that is neither refused nor past the limit does to the run, and what the program is told. */
  ghost predicate Told(h: Host, s: Run, t: Run, name: string, args: Json, outcome: Outcome) {
    && s.log <= t.log && t.calls == s.calls + 1 && AllRecorded(h, t.log, t.journal)
    && (t.pause.None? ==> Answered(h, t.log, s.calls + 1, name, h.encode(args), outcome))
  }

  lemma LiveIsTold(h: Host, resume: Option<Continuation>, s: Run, s': Run, name: string, args: Json)
    requires AllRecorded(h, s.log, s.journal) && s.pause.None?
    requires s'.log == s.log && s'.journal == s.journal && s'.pause.None? && s'.calls == s.calls + 1
    ensures var (t, outcome) := Live(h, resume, s', name, args); Told(h, s, t, name, args, outcome)
  {
    LiveTells(h, resume, s', name, args);
  }

  /** The entry the journal has for the next call, if it is of that call. */
  predicate HasEntry(h: Host, s: Run, name: string, args: Json) {
    && s.replaying && s.calls + 1 in s.journal
    && s.journal[s.calls + 1].name == name && s.journal[s.calls + 1].args == h.encode(args)
  }

  lemma ReplayIsTold(h: Host, resume: Option<Continuation>, s: Run, name: string, args: Json)
    requires AllRecorded(h, s.log, s.journal) && s.pause.None? && s.calls < h.maxToolCalls
    requires HasEntry(h, s, name, args)
    ensures var (t, outcome) := Bind(h, resume, s, name, args); Told(h, s, t, name, args, outcome)
  {
    var c := s.calls + 1;
    ReplayTells(h, s, c, name, args);
    var t := s.(calls := c, replayed := s.replayed + 1);
    assert Bind(h, resume, s, name, args) == (t, ReplayedOutcome(s.journal[c]));
  }

  /** How the run stands before a live call: as departed from its journal, or not. */
  function BeforeLive(s: Run): Run {
    var c := s.calls + 1;
    if s.replaying && c in s.journal then s.(calls := c, replaying := false, divergedAt := Some(c)) else s.(calls := c)
  }

  lemma BindGoesLive(h: Host, resume: Option<Continuation>, s: Run, name: string, args: Json)
    requires s.pause.None? && s.calls < h.maxToolCalls && !HasEntry(h, s, name, args)
    ensures Bind(h, resume, s, name, args) == Live(h, resume, BeforeLive(s), name, args)
  {
  }

  lemma GoesThrough(h: Host, resume: Option<Continuation>, s: Run, name: string, args: Json)
    requires AllRecorded(h, s.log, s.journal) && s.pause.None? && s.calls < h.maxToolCalls
    ensures var (t, outcome) := Bind(h, resume, s, name, args); Told(h, s, t, name, args, outcome)
  {
    if HasEntry(h, s, name, args) {
      ReplayIsTold(h, resume, s, name, args);
    } else {
      BindGoesLive(h, resume, s, name, args);
      LiveIsTold(h, resume, s, BeforeLive(s), name, args);
    }
  }

  /** One binding call, live or from the journal: refused while pausing and past the limit, and otherwise told
      what a dispatch of it came to, unless that stopped to ask. */
  lemma BindTells(h: Host, resume: Option<Continuation>, s: Run, name: string, args: Json)
    requires AllRecorded(h, s.log, s.journal)
    ensures var (t, outcome) := Bind(h, resume, s, name, args);
      && (s.pause.Some? ==> t == s && outcome == Failed(name, PAUSING))
      && (s.pause.None? && s.calls >= h.maxToolCalls ==>
            t == s.(calls := s.calls + 1) && outcome == Failed(name, LIMIT_REACHED))
      && (s.pause.None? && s.calls < h.maxToolCalls ==> Told(h, s, t, name, args, outcome))
  {
    if s.pause.None? && s.calls < h.maxToolCalls { GoesThrough(h, resume, s, name, args); }
  }

  /** And what it does outside: nothing when the journal has it, and otherwise one dispatch, with the user's
      answer if it is the call that asked. An entry of another call is departed from, once and for all. */
  lemma BindDispatches(h: Host, resume: Option<Continuation>, s: Run, name: string, args: Json)
    requires s.pause.None? && s.calls < h.maxToolCalls
    ensures var t, c, has := Bind(h, resume, s, name, args).0, s.calls + 1, HasEntry(h, s, name, args);
      && (has ==> t.log == s.log && t.journal == s.journal && t.replayed == s.replayed + 1 && t.replaying)
      && (!has ==> |t.log| == |s.log| + 1 && s.log <= t.log && t.replayed == s.replayed)
      && (!has ==>
            var d := t.log[|s.log|];
            && d.sequence == c && d.name == name && d.args == args
            && (resume.Some? && resume.value.pendingCall == c ==> d.approval == Some(resume.value.answer))
            && (resume.None? || resume.value.pendingCall != c ==> d.approval == None))
      && (var departs := s.replaying && c in s.journal && !has;
          && (t.replaying <==> s.replaying && !departs)
          && t.divergedAt == if departs then Some(c) else s.divergedAt)
  {
    if !HasEntry(h, s, name, args) { BindGoesLive(h, resume, s, name, args); }
  }

  // ---------------------------------------------------------------- a whole program

  /** The program makes its `k`-th call and is told what it came to. */
  ghost predicate IsTold(h: Host, p: Program, log: seq<Dispatch>, outs: seq<Outcome>, k: nat)
    requires k < |outs|
  {
    && p(outs[..k]).Call?
    && var Call(name, args) := p(outs[..k]);
       if k >= h.maxToolCalls then outs[k] == Failed(name, LIMIT_REACHED)
       else Answered(h, log, k + 1, name, h.encode(args), outs[k])
  }

  ghost predicate AllTold(h: Host, p: Program, log: seq<Dispatch>, outs: seq<Outcome>) {
    forall k | 0 <= k < |outs| :: IsTold(h, p, log, outs, k)
  }

  lemma ToldNext(h: Host, p: Program, resume: Option<Continuation>, s: Run, outs: seq<Outcome>)
    requires AllTold(h, p, s.log, outs) && AllRecorded(h, s.log, s.journal) && s.calls == |outs| && s.pause.None?
    requires p(outs).Call?
    ensures var (t, outcome) := Bind(h, resume, s, p(outs).name, p(outs).args);
      && AllRecorded(h, t.log, t.journal) && AllTold(h, p, t.log, outs) && t.calls == |outs| + 1
      && (t.pause.None? ==> AllTold(h, p, t.log, outs + [outcome]))
  {
    var (t, outcome) := Bind(h, resume, s, p(outs).name, p(outs).args);
    BindTells(h, resume, s, p(outs).name, p(outs).args);
    forall k | 0 <= k < |outs| ensures IsTold(h, p, t.log, outs, k) && IsTold(h, p, t.log, outs + [outcome], k) {
      assert IsTold(h, p, s.log, outs, k);
      assert (outs + [outcome])[..k] == outs[..k];
      if k < h.maxToolCalls {
        AnsweredStays(h, s.log, t.log, k + 1, p(outs[..k]).name, h.encode(p(outs[..k]).args), outs[k]);
      }
    }
    assert (outs + [outcome])[..|outs|] == outs;
  }

  lemma {:induction false} ExecuteTells(h: Host, p: Program, resume: Option<Continuation>, s: Run, outs: seq<Outcome>,
                                        steps: nat)
    requires AllTold(h, p, s.log, outs) && AllRecorded(h, s.log, s.journal) && s.calls == |outs| && s.pause.None?
    ensures var e := Execute(h, p, resume, s, outs, steps);
      && AllTold(h, p, e.run.log, e.outcomes) && AllRecorded(h, e.run.log, e.run.journal)
      && (e.ending.Returned? ==> p(e.outcomes) == Finish(e.ending.value))
    decreases steps
  {
    if p(outs).Call? && steps > 0 {
      ToldNext(h, p, resume, s, outs);
      var (t, outcome) := Bind(h, resume, s, p(outs).name, p(outs).args);
      if t.pause.None? { ExecuteTells(h, p, resume, t, outs + [outcome], steps - 1); }
    }
  }

  lemma {:induction false} SeriesTells(h: Host, p: Program, resume: Option<Continuation>, journal: Journal,
                                       log: seq<Dispatch>, answers: seq<Json>, steps: nat)
    requires AllRecorded(h, log, journal)
    ensures var r := Paused(h, p, resume, journal, log, answers, steps);
      AllTold(h, p, r.log, r.outcomes) && (r.ending.Returned? ==> p(r.outcomes) == Finish(r.ending.value))
    decreases |answers|
  {
    ExecuteTells(h, p, resume, StartRun(resume, journal, log), [], steps);
    var e := Execute(h, p, resume, StartRun(resume, journal, log), [], steps);
    if e.ending.Waiting? && answers != [] {
      var next := Some(Continuation(e.ending.pause.sequence, ApprovalOf(answers[0])));
      SeriesTells(h, p, next, e.run.journal, e.run.log, answers[1..], steps);
    }
  }

  /** Main result on outcomes, for every program and every engine, paused however often: each call was told
      what a completed dispatch of just that call came to, or that the limit was reached, and the value
      returned is the program's own. */
  lemma OutcomesAreReplies(h: Host, p: Program, answers: seq<Json>, steps: nat)
    ensures var r := Paused(h, p, None, map[], [], answers, steps);
      AllTold(h, p, r.log, r.outcomes) && (r.ending.Returned? ==> p(r.outcomes) == Finish(r.ending.value))
  {
    SeriesTells(h, p, None, map[], [], answers, steps);
  }
}
