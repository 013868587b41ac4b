// Code Mode's pause and replay engine (run-code-tool.ts): the bindings a program calls tools
// through, the journal of completed calls, the stop at an approval nobody can give, and the re-run
// from the top against the journal.
//
// A program is any deterministic function of the outcomes it has received. The engine behind
// `dispatch.call` is any function of the whole history of dispatches, so its replies may depend on
// every earlier side effect, on retries and on approvals.

module Replay {
  import opened Basics

  datatype Decision = Approved | Rejected | Cancelled

  datatype Answer = Answer(decision: Decision, session: bool, feedback: Option<string>)

  const NOT_AN_ANSWER := "the answer to the approval request was not an approval response"
  const PAUSING := "the program is pausing for the user's approval"
  const NO_ERROR_TEXT := "the tool reported an error"
  const LIMIT_REACHED := "this program has reached its limit of tool calls"

  /** The user's raw answer as an approval response; what is not one counts as a rejection. */
  function ApprovalOf(raw: Json): (answer: Answer)
    ensures answer.decision == Approved <==> raw.Get("decision") == Some(JStr("approved"))
  {
    var feedback := match raw.Get("feedback") case Some(JStr(s)) => Some(s) case _ => None;
    var session := raw.Get("scope") == Some(JStr("session"));
    match raw.Get("decision")
    case Some(JStr(d)) =>
      if d == "approved" then Answer(Approved, session, feedback)
      else if d == "rejected" then Answer(Rejected, session, feedback)
      else if d == "cancelled" then Answer(Cancelled, session, feedback)
      else Answer(Rejected, false, Some(NOT_AN_ANSWER))
    case _ => Answer(Rejected, false, Some(NOT_AN_ANSWER))
  }

  /** A raw answer that is an approval response. */
  predicate IsResponse(raw: Json) {
    raw.Get("decision") in {Some(JStr("approved")), Some(JStr("rejected")), Some(JStr("cancelled"))}
  }

  /** What is approved, cancelled, widened to the session or said is what the raw answer says, no more and no
      less, if it is a response; if not, that is all that is said. */
  lemma AnswerSaysNoMore(raw: Json)
    ensures ApprovalOf(raw).decision == Cancelled <==> raw.Get("decision") == Some(JStr("cancelled"))
    ensures ApprovalOf(raw).session <==> IsResponse(raw) && raw.Get("scope") == Some(JStr("session"))
    ensures IsResponse(raw) ==>
      forall s :: ApprovalOf(raw).feedback == Some(s) <==> raw.Get("feedback") == Some(JStr(s))
    ensures !IsResponse(raw) ==> ApprovalOf(raw).feedback == Some(NOT_AN_ANSWER)
  {
  }

  /** What a tool call comes to inside the program: a value, or a thrown ToolCallFailure. */
  datatype Outcome = Resolved(value: Json) | Failed(tool: string, message: string)

  datatype Step = Call(name: string, args: Json) | Finish(value: Json)

  type Program = seq<Outcome> -> Step

  /** One nested call handed to the engine. */
  datatype Dispatch = Dispatch(sequence: nat, name: string, args: Json, approval: Option<Answer>)

  /** The engine's reply. `interrupt` means an approval is needed and nobody can give it. */
  datatype Reply = Reply(text: string, isError: bool, structured: Option<Json>, interrupt: Option<Json>)

  /** Everything around one program: the engine, the tools' schemas, and the limits. */
  datatype Host = Host(
    engine: seq<Dispatch> -> Reply,
    hasOutputSchema: string -> bool,
    parseJson: string -> Option<Json>,
    encode: Json -> string,
    maxToolCalls: nat,
    canPause: bool)
  {
    /** The engine's reply to the last dispatch of `log`. */
    function ReplyTo(log: seq<Dispatch>): Reply { engine(log) }

    /** Whether the last dispatch of `log` stopped at an approval instead of completing. */
    predicate Asks(log: seq<Dispatch>) { canPause && ReplyTo(log).interrupt.Some? }
  }

  /** A completed call as the journal keeps it. */
  datatype Entry = Entry(name: string, args: string, text: string, isError: bool, value: Option<Json>)

  type Journal = map<nat, Entry>

  datatype Pause = Pause(sequence: nat, request: Json)

  datatype Continuation = Continuation(pendingCall: nat, answer: Answer)

  /** The structured result of a tool with an output schema. When there is none, its text may be JSON, and
      is parsed if it begins as an object or a list does. */
  function StructuredValueOf(h: Host, reply: Reply): Json {
    if reply.structured.Some? then reply.structured.value
    else
      var trimmed := Trim(reply.text);
      var parsed := if trimmed != "" && trimmed[0] in "{[" then h.parseJson(trimmed) else None;
      parsed.GetOr(JStr(reply.text))
  }

  function EntryOf(h: Host, name: string, args: Json, reply: Reply): Entry {
    var value := if h.hasOutputSchema(name) && !reply.isError then Some(StructuredValueOf(h, reply)) else None;
    Entry(name, h.encode(args), reply.text, reply.isError, value)
  }

  /** What the program sees when the call runs live. */
  function LiveOutcome(h: Host, name: string, reply: Reply): Outcome {
    if reply.isError then Failed(name, if |reply.text| > 0 then reply.text else NO_ERROR_TEXT)
    else if h.hasOutputSchema(name) then Resolved(StructuredValueOf(h, reply))
    else Resolved(JStr(reply.text))
  }

  /** What the program sees when the call is answered from the journal. */
  function ReplayedOutcome(entry: Entry): Outcome {
    if entry.isError then Failed(entry.name, entry.text)
    else Resolved(entry.value.GetOr(JStr(entry.text)))
  }

  // ---------------------------------------------------------------- one binding call

  /** The bookkeeping of one execution of the program. */
  datatype Run = Run(
    calls: nat,
    journal: Journal,
    replaying: bool,
    replayed: nat,
    divergedAt: Option<nat>,
    pause: Option<Pause>,
    log: seq<Dispatch>)

  function StartRun(resume: Option<Continuation>, journal: Journal, log: seq<Dispatch>): Run {
    Run(0, journal, resume.Some?, 0, None, None, log)
  }

  function ApprovalFor(resume: Option<Continuation>, sequence: nat): Option<Answer> {
    if resume.Some? && sequence == resume.value.pendingCall then Some(resume.value.answer) else None
  }

  function Live(h: Host, resume: Option<Continuation>, s: Run, name: string, args: Json): (Run, Outcome) {
    var log := s.log + [Dispatch(s.calls, name, args, ApprovalFor(resume, s.calls))];
    var reply := h.ReplyTo(log);
    if h.Asks(log) then
      (s.(log := log, pause := Some(Pause(s.calls, reply.interrupt.value))), Failed(name, PAUSING))
    else
      (s.(log := log, journal := s.journal[s.calls := EntryOf(h, name, args, reply)]), LiveOutcome(h, name, reply))
  }

  /** `tools.name(args)` as the program calls it. */
  function Bind(h: Host, resume: Option<Continuation>, s: Run, name: string, args: Json): (Run, Outcome) {
    if s.pause.Some? then (s, Failed(name, PAUSING))
    else
      var c := s.calls + 1;
      if c > h.maxToolCalls then (s.(calls := c), Failed(name, LIMIT_REACHED))
      else if s.replaying && c in s.journal then
        var entry := s.journal[c];
        if entry.name == name && entry.args == h.encode(args) then
          (s.(calls := c, replayed := s.replayed + 1), ReplayedOutcome(entry))
        else
          Live(h, resume, s.(calls := c, replaying := false, divergedAt := Some(c)), name, args)
      else
        Live(h, resume, s.(calls := c), name, args)
  }

  // ---------------------------------------------------------------- one execution, and a paused series of them

  /** How an execution ended; `CutOff` is the runtime stopping the program at its budget. */
  datatype Ending = Returned(value: Json) | Waiting(pause: Pause) | CutOff

  datatype Execution = Execution(ending: Ending, outcomes: seq<Outcome>, run: Run)

  /** Run the program from where `outs` leaves it, for at most `steps` more tool calls. */
  function Execute(h: Host, p: Program, resume: Option<Continuation>, s: Run, outs: seq<Outcome>, steps: nat): Execution
    decreases steps
  {
    match p(outs)
    case Finish(value) => Execution(Returned(value), outs, s)
    case Call(name, args) =>
      if steps == 0 then Execution(CutOff, outs, s)
      else
        var (s', outcome) := Bind(h, resume, s, name, args);
        if s'.pause.Some? then Execution(Waiting(s'.pause.value), outs, s')
        else Execute(h, p, resume, s', outs + [outcome], steps - 1)
  }

  /** What a whole history of executions comes to. */
  datatype Result = Result(ending: Ending, outcomes: seq<Outcome>, log: seq<Dispatch>, divergedAt: Option<nat>)

  /** After an execution: stop, or save the journal, take the next answer and run from the top. */
  function AfterPause(h: Host, p: Program, e: Execution, answers: seq<Json>, steps: nat): Result
    decreases |answers|, 0
  {
    if e.ending.Waiting? && answers != [] then
      Paused(h, p, Some(Continuation(e.ending.pause.sequence, ApprovalOf(answers[0]))),
        e.run.journal, e.run.log, answers[1..], steps)
    else Result(e.ending, e.outcomes, e.run.log, e.run.divergedAt)
  }

  /** The program as Code Mode runs it: paused at every approval, re-run after every answer. */
  function Paused(h: Host, p: Program, resume: Option<Continuation>, journal: Journal, log: seq<Dispatch>,
                  answers: seq<Json>, steps: nat): Result
    decreases |answers|, 1
  {
    AfterPause(h, p, Execute(h, p, resume, StartRun(resume, journal, log), [], steps), answers, steps)
  }

  /** The reference: one uninterrupted run in which each approval is answered on the spot. No
      journal, no re-run; `approval` is the answer about to be handed to the call that asked. */
  function Uninterrupted(h: Host, p: Program, log: seq<Dispatch>, outs: seq<Outcome>, answers: seq<Json>,
                         approval: Option<Answer>, steps: nat): Result
    decreases steps, |answers|
  {
    match p(outs)
    case Finish(value) => Result(Returned(value), outs, log, None)
    case Call(name, args) =>
      var sequence := |outs| + 1;
      if steps == 0 then Result(CutOff, outs, log, None)
      else if sequence > h.maxToolCalls then
        Uninterrupted(h, p, log, outs + [Failed(name, LIMIT_REACHED)], answers, None, steps - 1)
      else
        var log' := log + [Dispatch(sequence, name, args, approval)];
        if !h.Asks(log') then
          Uninterrupted(h, p, log', outs + [LiveOutcome(h, name, h.ReplyTo(log'))], answers, None, steps - 1)
        else if answers == [] then
          Result(Waiting(Pause(sequence, h.ReplyTo(log').interrupt.value)), outs, log', None)
        else
          Uninterrupted(h, p, log', outs, answers[1..], Some(ApprovalOf(answers[0])), steps)
  }

  // ---------------------------------------------------------------- transparency

  /** Dispatch `i` of `log` ran to completion. */
  predicate Completed(h: Host, log: seq<Dispatch>, i: nat)
    requires i < |log|
  {
    !h.Asks(log[..i + 1])
  }

  /** Dispatch `i` completed with an error that says nothing. */
  predicate Silent(h: Host, log: seq<Dispatch>, i: nat)
    requires i < |log|
  {
    Completed(h, log, i) && h.ReplyTo(log[..i + 1]).isError && h.ReplyTo(log[..i + 1]).text == ""
  }

  predicate HasSilent(h: Host, log: seq<Dispatch>) {
    exists i | 0 <= i < |log| :: Silent(h, log, i)
  }

  /** An approval was answered after some call had failed without a word. */
  predicate AnsweredAfterSilence(h: Host, log: seq<Dispatch>) {
    exists j | 0 <= j < |log| :: log[j].approval.Some? && HasSilent(h, log[..j])
  }

  lemma HasSilentGrows(h: Host, log: seq<Dispatch>, d: Dispatch)
    ensures HasSilent(h, log + [d]) <==> HasSilent(h, log) || Silent(h, log + [d], |log|)
  {
    forall i | 0 <= i < |log| ensures Silent(h, log + [d], i) == Silent(h, log, i) {
      assert (log + [d])[..i + 1] == log[..i + 1];
    }
    if HasSilent(h, log + [d]) && !Silent(h, log + [d], |log|) {
      var i :| 0 <= i < |log + [d]| && Silent(h, log + [d], i);
      assert Silent(h, log, i);
    }
    if HasSilent(h, log) {
      var i :| 0 <= i < |log| && Silent(h, log, i);
      assert Silent(h, log + [d], i);
    }
  }

  lemma AnsweredAfterSilenceGrows(h: Host, log: seq<Dispatch>, d: Dispatch)
    ensures AnsweredAfterSilence(h, log + [d]) <==>
      AnsweredAfterSilence(h, log) || (d.approval.Some? && HasSilent(h, log))
  {
    var log' := log + [d];
    forall j | 0 <= j <= |log| ensures log'[..j] == log[..j] { }
    assert log'[..|log|] == log;
    if AnsweredAfterSilence(h, log) {
      var j :| 0 <= j < |log| && log[j].approval.Some? && HasSilent(h, log[..j]);
      assert log'[j].approval.Some? && HasSilent(h, log'[..j]);
    }
    if d.approval.Some? && HasSilent(h, log) {
      assert log'[|log|].approval.Some? && HasSilent(h, log'[..|log|]);
    }
    if AnsweredAfterSilence(h, log') {
      var j :| 0 <= j < |log'| && log'[j].approval.Some? && HasSilent(h, log'[..j]);
      if j < |log| { assert log[j].approval.Some? && HasSilent(h, log[..j]); }
    }
  }

  lemma AnsweredAfterSilencePrefix(h: Host, log: seq<Dispatch>, log': seq<Dispatch>)
    requires log <= log' && AnsweredAfterSilence(h, log)
    ensures AnsweredAfterSilence(h, log')
  {
    var j :| 0 <= j < |log| && log[j].approval.Some? && HasSilent(h, log[..j]);
    assert log'[..j] == log[..j];
    assert log'[j].approval.Some? && HasSilent(h, log'[..j]);
  }

  /** A journaled call replays as it ran, except exactly when it was an error without text. */
  lemma ReplayMatchesLive(h: Host, name: string, args: Json, reply: Reply)
    ensures ReplayedOutcome(EntryOf(h, name, args, reply)) == LiveOutcome(h, name, reply)
       <==> !(reply.isError && reply.text == "")
  {
  }

  /** After `outs[..k]` the program calls a tool, and a re-run gives it `seen` for that call. */
  ghost predicate Replays(h: Host, p: Program, j: Journal, outs: seq<Outcome>, k: nat, seen: Outcome)
    requires k <= |outs|
  {
    && p(outs[..k]).Call?
    && var Call(name, args) := p(outs[..k]);
       if k + 1 > h.maxToolCalls then seen == Failed(name, LIMIT_REACHED)
       else
         && k + 1 in j
         && j[k + 1].name == name
         && j[k + 1].args == h.encode(args)
         && ReplayedOutcome(j[k + 1]) == seen
  }

  /** The first `n` calls replay exactly as `outs` has them. */
  ghost predicate Faithful(h: Host, p: Program, j: Journal, outs: seq<Outcome>, n: nat)
    requires n <= |outs|
  {
    forall k | 0 <= k < n :: Replays(h, p, j, outs, k, outs[k])
  }

  /** Call `k` failed in silence: it ran as one outcome and replays as another. */
  ghost predicate Spoiled(h: Host, p: Program, j: Journal, outs: seq<Outcome>, k: nat)
    requires k < |outs|
  {
    && Faithful(h, p, j, outs, k)
    && exists seen :: seen != outs[k] && Replays(h, p, j, outs, k, seen)
  }

  /** How the journal stands to what the program has seen: faithful until a call fails in silence. */
  ghost predicate Tracks(h: Host, p: Program, s: Run, outs: seq<Outcome>) {
    && s.calls == |outs| && s.pause.None? && s.divergedAt.None?
    && (forall c | c in s.journal :: 1 <= c <= |outs|)
    && !AnsweredAfterSilence(h, s.log)
    && if HasSilent(h, s.log) then exists k | 0 <= k < |outs| :: Spoiled(h, p, s.journal, outs, k)
       else Faithful(h, p, s.journal, outs, |outs|)
  }

  lemma FaithfulCarries(h: Host, p: Program, j: Journal, outs: seq<Outcome>, n: nat, j': Journal, outs': seq<Outcome>)
    requires n <= |outs| && outs <= outs' && Faithful(h, p, j, outs, n)
    requires forall c | c in j && c <= n :: c in j' && j'[c] == j[c]
    ensures Faithful(h, p, j', outs', n)
  {
    forall k | 0 <= k < n ensures Replays(h, p, j', outs', k, outs'[k]) {
      assert Replays(h, p, j, outs, k, outs[k]);
      assert outs'[..k] == outs[..k];
    }
  }

  lemma SpoiledCarries(h: Host, p: Program, j: Journal, outs: seq<Outcome>, k: nat, j': Journal, outs': seq<Outcome>)
    requires k < |outs| && outs <= outs' && Spoiled(h, p, j, outs, k)
    requires forall c | c in j && c <= |outs| :: c in j' && j'[c] == j[c]
    ensures Spoiled(h, p, j', outs', k)
  {
    FaithfulCarries(h, p, j, outs, k, j', outs');
    var seen :| seen != outs[k] && Replays(h, p, j, outs, k, seen);
    assert outs'[..k] == outs[..k];
    assert Replays(h, p, j', outs', k, seen);
  }

  /** One call that does not stop the program keeps the journal's standing. */
  lemma StepTracks(h: Host, p: Program, resume: Option<Continuation>, s: Run, outs: seq<Outcome>, name: string,
      args: Json)
    requires Tracks(h, p, s, outs)
    requires p(outs) == Call(name, args)
    requires Bind(h, resume, s, name, args).0.pause.None?
    requires !(ApprovalFor(resume, |outs| + 1).Some? && HasSilent(h, s.log) && |outs| + 1 <= h.maxToolCalls)
    ensures Tracks(h, p, Bind(h, resume, s, name, args).0, outs + [Bind(h, resume, s, name, args).1])
  {
    var (s', outcome) := Bind(h, resume, s, name, args);
    var outs', j, j' := outs + [outcome], s.journal, s'.journal;
    var n := |outs|;
    assert outs'[..n] == outs;
    if n + 1 <= h.maxToolCalls {
      var d := Dispatch(n + 1, name, args, ApprovalFor(resume, n + 1));
      HasSilentGrows(h, s.log, d);
      AnsweredAfterSilenceGrows(h, s.log, d);
      assert s'.log[..|s.log| + 1] == s'.log;
      ReplayMatchesLive(h, name, args, h.ReplyTo(s'.log));
    }
    if HasSilent(h, s.log) {
      var k :| 0 <= k < n && Spoiled(h, p, j, outs, k);
      SpoiledCarries(h, p, j, outs, k, j', outs');
    } else {
      FaithfulCarries(h, p, j, outs, n, j', outs');
      if HasSilent(h, s'.log) {
        assert Replays(h, p, j', outs', n, ReplayedOutcome(j'[n + 1]));
        assert Spoiled(h, p, j', outs', n);
      } else {
        assert Replays(h, p, j', outs', n, outs'[n]);
      }
    }
  }

  /** A re-run works through its journal: nothing is dispatched, nothing diverges, and the program
      has been given the same outcomes. */
  lemma {:induction false} ReplaysPrefix(h: Host, p: Program, resume: Option<Continuation>, s: Run, k: nat,
                                         outs: seq<Outcome>, total: nat) returns (r: Run)
    requires k <= |outs| <= total
    requires Faithful(h, p, s.journal, outs, |outs|)
    requires s.replaying && s.calls == k && s.pause.None? && s.divergedAt.None?
    ensures Execute(h, p, resume, s, outs[..k], total - k) == Execute(h, p, resume, r, outs, total - |outs|)
    ensures r.calls == |outs| && r.journal == s.journal && r.log == s.log
    ensures r.replaying && r.pause.None? && r.divergedAt.None?
    decreases |outs| - k
  {
    if k == |outs| {
      assert outs[..k] == outs;
      r := s;
    } else {
      assert Replays(h, p, s.journal, outs, k, outs[k]);
      var Call(name, args) := p(outs[..k]);
      var (s', outcome) := Bind(h, resume, s, name, args);
      assert outcome == outs[k];
      assert outs[..k] + [outcome] == outs[..k + 1];
      r := ReplaysPrefix(h, p, resume, s', k + 1, outs, total);
    }
  }

  /** An execution only adds outcomes, and leaves the journal of calls already made alone. */
  lemma {:induction false} ExecuteGrows(h: Host, p: Program, resume: Option<Continuation>, s: Run, outs: seq<Outcome>,
      steps: nat)
    requires s.pause.None?
    ensures var e := Execute(h, p, resume, s, outs, steps);
      && outs <= e.outcomes
      && (forall c | c in s.journal && c <= s.calls :: c in e.run.journal && e.run.journal[c] == s.journal[c])
    decreases steps
  {
    if p(outs).Call? && steps > 0 {
      var Call(name, args) := p(outs);
      var (s', outcome) := Bind(h, resume, s, name, args);
      if s'.pause.None? { ExecuteGrows(h, p, resume, s', outs + [outcome], steps - 1); }
    }
  }

  lemma {:induction false} UninterruptedGrows(h: Host, p: Program, log: seq<Dispatch>, outs: seq<Outcome>,
      answers: seq<Json>, approval: Option<Answer>, steps: nat)
    ensures var u := Uninterrupted(h, p, log, outs, answers, approval, steps); log <= u.log && outs <= u.outcomes
    decreases steps, |answers|
  {
    if p(outs).Call? && steps > 0 {
      var Call(name, args) := p(outs);
      var log' := log + [Dispatch(|outs| + 1, name, args, approval)];
      if |outs| + 1 > h.maxToolCalls {
        UninterruptedGrows(h, p, log, outs + [Failed(name, LIMIT_REACHED)], answers, None, steps - 1);
      } else if !h.Asks(log') {
        UninterruptedGrows(h, p, log', outs + [LiveOutcome(h, name, h.ReplyTo(log'))], answers, None, steps - 1);
      } else if answers != [] {
        UninterruptedGrows(h, p, log', outs, answers[1..], Some(ApprovalOf(answers[0])), steps);
      }
    }
  }

  /** Once a spoiled call is replayed, its wrong outcome stays in every result that follows. */
  lemma {:induction false} SpoiledShows(h: Host, p: Program, resume: Continuation, j: Journal, log: seq<Dispatch>,
                                        answers: seq<Json>, steps: nat, outs: seq<Outcome>, k: nat)
    requires k < |outs| <= steps && Spoiled(h, p, j, outs, k)
    ensures var r := Paused(h, p, Some(resume), j, log, answers, steps); k < |r.outcomes| && r.outcomes[k] != outs[k]
    decreases |answers|
  {
    var seen :| seen != outs[k] && Replays(h, p, j, outs, k, seen);
    var before := outs[..k];
    FaithfulBefore(h, p, j, outs, k);
    var r := ReplaysPrefix(h, p, Some(resume), StartRun(Some(resume), j, log), 0, before, steps);
    assert before[..0] == [];
    var Call(name, args) := p(before);
    var (s', outcome) := Bind(h, Some(resume), r, name, args);
    assert outcome == seen;
    ExecuteGrows(h, p, Some(resume), s', before + [seen], steps - k - 1);
    var e := Execute(h, p, Some(resume), StartRun(Some(resume), j, log), [], steps);
    assert e == Execute(h, p, Some(resume), s', before + [seen], steps - k - 1);
    assert e.outcomes[k] == seen;
    if e.ending.Waiting? && answers != [] {
      FaithfulCarries(h, p, j, outs, k, e.run.journal, outs);
      assert Replays(h, p, e.run.journal, outs, k, seen);
      SpoiledShows(h, p, Continuation(e.ending.pause.sequence, ApprovalOf(answers[0])),
        e.run.journal, e.run.log, answers[1..], steps, outs, k);
    }
  }

  lemma FaithfulBefore(h: Host, p: Program, j: Journal, outs: seq<Outcome>, k: nat)
    requires k <= |outs| && Faithful(h, p, j, outs, k)
    ensures Faithful(h, p, j, outs[..k], k)
  {
    forall i | 0 <= i < k ensures Replays(h, p, j, outs[..k], i, outs[..k][i]) {
      assert Replays(h, p, j, outs, i, outs[i]);
      assert outs[..k][..i] == outs[..i];
    }
  }

  /** A call that stops to ask leaves the journal as it was, and nothing silent behind. */
  lemma AskKeeps(h: Host, p: Program, resume: Option<Continuation>, s: Run, outs: seq<Outcome>, name: string,
      args: Json)
    requires Tracks(h, p, s, outs)
    requires Bind(h, resume, s, name, args).0.pause.Some?
    requires ApprovalFor(resume, |outs| + 1).Some? ==> !HasSilent(h, s.log)
    ensures var s' := Bind(h, resume, s, name, args).0;
      && s' == s.(calls := |outs| + 1, log := s'.log,
                  pause := Some(Pause(|outs| + 1, h.ReplyTo(s'.log).interrupt.value)))
      && s'.log == s.log + [Dispatch(|outs| + 1, name, args, ApprovalFor(resume, |outs| + 1))]
      && h.Asks(s'.log) && |outs| + 1 <= h.maxToolCalls
      && HasSilent(h, s'.log) == HasSilent(h, s.log) && !AnsweredAfterSilence(h, s'.log)
  {
    var s' := Bind(h, resume, s, name, args).0;
    var d := Dispatch(|outs| + 1, name, args, ApprovalFor(resume, |outs| + 1));
    HasSilentGrows(h, s.log, d);
    AnsweredAfterSilenceGrows(h, s.log, d);
    assert s'.log[..|s.log| + 1] == s'.log;
  }

  /** From any point the journal keeps track of, the paused series and the uninterrupted run come
      to the same result exactly when no approval is answered after a silent failure. */
  lemma {:induction false} Simulates(h: Host, p: Program, resume: Option<Continuation>, s: Run, outs: seq<Outcome>,
                                     answers: seq<Json>, steps: nat)
    requires Tracks(h, p, s, outs)
    requires resume.Some? ==> resume.value.pendingCall <= |outs| + 1
    requires ApprovalFor(resume, |outs| + 1).Some? ==> !HasSilent(h, s.log)
    ensures var u := Uninterrupted(h, p, s.log, outs, answers, ApprovalFor(resume, |outs| + 1), steps);
      AfterPause(h, p, Execute(h, p, resume, s, outs, steps), answers, steps + |outs|) == u
      <==> !AnsweredAfterSilence(h, u.log)
    decreases |answers|, steps, 1
  {
    if p(outs).Call? && steps > 0 {
      if Bind(h, resume, s, p(outs).name, p(outs).args).0.pause.None? {
        CallSimulates(h, p, resume, s, outs, answers, steps);
      } else {
        AskSimulates(h, p, resume, s, outs, answers, steps);
      }
    }
  }

  /** `Simulates` where the next call completes. */
  lemma {:induction false} CallSimulates(h: Host, p: Program, resume: Option<Continuation>, s: Run, outs: seq<Outcome>,
                                         answers: seq<Json>, steps: nat)
    requires Tracks(h, p, s, outs) && p(outs).Call? && steps > 0
    requires resume.Some? ==> resume.value.pendingCall <= |outs| + 1
    requires ApprovalFor(resume, |outs| + 1).Some? ==> !HasSilent(h, s.log)
    requires Bind(h, resume, s, p(outs).name, p(outs).args).0.pause.None?
    ensures var u := Uninterrupted(h, p, s.log, outs, answers, ApprovalFor(resume, |outs| + 1), steps);
      AfterPause(h, p, Execute(h, p, resume, s, outs, steps), answers, steps + |outs|) == u
      <==> !AnsweredAfterSilence(h, u.log)
    decreases |answers|, steps, 0
  {
    var Call(name, args) := p(outs);
    var (s', outcome) := Bind(h, resume, s, name, args);
    StepTracks(h, p, resume, s, outs, name, args);
    Simulates(h, p, resume, s', outs + [outcome], answers, steps - 1);
  }

  /** `Simulates` where the next call stops to ask. */
  lemma {:induction false} AskSimulates(h: Host, p: Program, resume: Option<Continuation>, s: Run, outs: seq<Outcome>,
                                        answers: seq<Json>, steps: nat)
    requires Tracks(h, p, s, outs) && p(outs).Call? && steps > 0
    requires ApprovalFor(resume, |outs| + 1).Some? ==> !HasSilent(h, s.log)
    requires Bind(h, resume, s, p(outs).name, p(outs).args).0.pause.Some?
    ensures var u := Uninterrupted(h, p, s.log, outs, answers, ApprovalFor(resume, |outs| + 1), steps);
      AfterPause(h, p, Execute(h, p, resume, s, outs, steps), answers, steps + |outs|) == u
      <==> !AnsweredAfterSilence(h, u.log)
    decreases |answers|, steps, 0
  {
    AskKeeps(h, p, resume, s, outs, p(outs).name, p(outs).args);
    if answers != [] {
      var s' := Bind(h, resume, s, p(outs).name, p(outs).args).0;
      ResumesAfterAsk(h, p, s, s'.log, outs, answers, steps);
    }
  }

  /** After a silent failure the answer shows: the result is another than the uninterrupted run's. */
  lemma ShowsAfterSilence(h: Host, p: Program, s: Run, log: seq<Dispatch>, outs: seq<Outcome>, answer: Answer,
      answers: seq<Json>, steps: nat)
    requires Tracks(h, p, s, outs) && HasSilent(h, s.log) && HasSilent(h, log)
    requires steps > 0 && p(outs).Call? && |outs| + 1 <= h.maxToolCalls
    ensures
      var u := Uninterrupted(h, p, log, outs, answers, Some(answer), steps);
      && Paused(h, p, Some(Continuation(|outs| + 1, answer)), s.journal, log, answers, steps + |outs|) != u
      && AnsweredAfterSilence(h, u.log)
  {
    var resume := Continuation(|outs| + 1, answer);
    var u := Uninterrupted(h, p, log, outs, answers, Some(answer), steps);
    var k :| 0 <= k < |outs| && Spoiled(h, p, s.journal, outs, k);
    SpoiledShows(h, p, resume, s.journal, log, answers, steps + |outs|, outs, k);
    UninterruptedGrows(h, p, log, outs, answers, Some(answer), steps);
    var Call(name, args) := p(outs);
    var d := Dispatch(|outs| + 1, name, args, Some(answer));
    AnsweredAfterSilenceGrows(h, log, d);
    UninterruptedDispatches(h, p, log, outs, answers, Some(answer), steps);
    AnsweredAfterSilencePrefix(h, log + [d], u.log);
  }

  /** The answered half of `Simulates`: the call that asked is about to get its answer. */
  lemma {:induction false} ResumesAfterAsk(h: Host, p: Program, s: Run, log: seq<Dispatch>, outs: seq<Outcome>,
      answers: seq<Json>, steps: nat)
    requires answers != []
    requires Tracks(h, p, s, outs)
    requires HasSilent(h, log) == HasSilent(h, s.log) && !AnsweredAfterSilence(h, log)
    requires steps > 0 && p(outs).Call? && |outs| + 1 <= h.maxToolCalls
    ensures
      var answer := ApprovalOf(answers[0]);
      var u := Uninterrupted(h, p, log, outs, answers[1..], Some(answer), steps);
      Paused(h, p, Some(Continuation(|outs| + 1, answer)), s.journal, log, answers[1..], steps + |outs|) == u
      <==> !AnsweredAfterSilence(h, u.log)
    decreases |answers|, 0
  {
    var answer := ApprovalOf(answers[0]);
    if HasSilent(h, s.log) {
      ShowsAfterSilence(h, p, s, log, outs, answer, answers[1..], steps);
    } else {
      var resume := Continuation(|outs| + 1, answer);
      var r := ReplaysPrefix(h, p, Some(resume), StartRun(Some(resume), s.journal, log), 0, outs, steps + |outs|);
      assert outs[..0] == [];
      Simulates(h, p, Some(resume), r, outs, answers[1..], steps);
    }
  }

  lemma UninterruptedDispatches(h: Host, p: Program, log: seq<Dispatch>, outs: seq<Outcome>, answers: seq<Json>,
                                approval: Option<Answer>, steps: nat)
    requires p(outs).Call? && |outs| + 1 <= h.maxToolCalls && steps > 0
    ensures log + [Dispatch(|outs| + 1, p(outs).name, p(outs).args, approval)] <=
      Uninterrupted(h, p, log, outs, answers, approval, steps).log
  {
    var Call(name, args) := p(outs);
    var log' := log + [Dispatch(|outs| + 1, name, args, approval)];
    if !h.Asks(log') {
      UninterruptedGrows(h, p, log', outs + [LiveOutcome(h, name, h.ReplyTo(log'))], answers, None, steps - 1);
    } else if answers != [] {
      UninterruptedGrows(h, p, log', outs, answers[1..], Some(ApprovalOf(answers[0])), steps);
    }
  }

  /** Main result. However often a program is paused and answered, it ends as one uninterrupted run
      would, having seen the same outcomes and caused the same dispatches in the same order, and
      without ever departing from its journal: exactly when no approval was answered after a call
      that had failed without an error text. */
  lemma TransparentReplay(h: Host, p: Program, answers: seq<Json>, steps: nat)
    ensures var u := Uninterrupted(h, p, [], [], answers, None, steps);
      Paused(h, p, None, map[], [], answers, steps) == u <==> !AnsweredAfterSilence(h, u.log)
  {
    Simulates(h, p, None, StartRun(None, map[], []), [], answers, steps);
  }

  /** A host whose tools always say what went wrong, and so never betrays a pause. */
  lemma TransparentWhenErrorsHaveText(h: Host, p: Program, answers: seq<Json>, steps: nat)
    requires forall log: seq<Dispatch> :: h.ReplyTo(log).isError ==> h.ReplyTo(log).text != ""
    ensures Paused(h, p, None, map[], [], answers, steps) == Uninterrupted(h, p, [], [], answers, None, steps)
  {
    TransparentReplay(h, p, answers, steps);
  }

  // ---------------------------------------------------------------- at most once, and the approval's addressee

  /** A log in which no sequence number completes twice, no answered call repeats, and an approval
      goes exactly to a call that has just asked. `n` calls are behind it. */
  ghost predicate Orderly(h: Host, log: seq<Dispatch>, n: nat) {
    && (forall i | 0 <= i < |log| :: OrderlyAt(h, log, n, i))
    && (forall i, j | 0 <= i < j < |log| :: Before(h, log, i, j))
  }

  ghost predicate OrderlyAt(h: Host, log: seq<Dispatch>, n: nat, i: nat)
    requires i < |log|
  {
    && 1 <= log[i].sequence <= n + 1
    && (Completed(h, log, i) ==> log[i].sequence <= n)
    && (log[i].approval.Some? <==> Repeats(h, log, i))
  }

  ghost predicate Before(h: Host, log: seq<Dispatch>, i: nat, j: nat)
    requires i < |log| && j < |log|
  {
    if Completed(h, log, i) then log[i].sequence < log[j].sequence else log[i].sequence <= log[j].sequence
  }

  /** Dispatch `i` is the call before it over again, which had stopped to ask. */
  predicate Repeats(h: Host, log: seq<Dispatch>, i: nat)
    requires i < |log|
  {
    && 0 < i
    && !Completed(h, log, i - 1)
    && log[i].sequence == log[i - 1].sequence
    && log[i].name == log[i - 1].name
    && log[i].args == log[i - 1].args
  }

  lemma EarlierDispatchesKeep(h: Host, log: seq<Dispatch>, d: Dispatch, i: nat)
    requires i < |log|
    ensures Completed(h, log + [d], i) == Completed(h, log, i) && Repeats(h, log + [d], i) == Repeats(h, log, i)
  {
    assert (log + [d])[..i + 1] == log[..i + 1];
    if i > 0 { assert (log + [d])[..i] == log[..i]; }
  }

  /** The next dispatch of the uninterrupted run: the call the program makes now, for the first
      time or over again with its answer. */
  lemma OrderlyExtends(h: Host, log: seq<Dispatch>, n: nat, d: Dispatch)
    requires Orderly(h, log, n)
    requires d.sequence == n + 1
    requires if d.approval.Some?
             then |log| > 0 && h.Asks(log) && log[|log| - 1] == d.(approval := log[|log| - 1].approval)
             else forall i | 0 <= i < |log| :: log[i].sequence <= n
    ensures Orderly(h, log + [d], if h.Asks(log + [d]) then n else n + 1)
    ensures forall i | 0 <= i <= |log| :: (log + [d])[i].sequence <= n + 1
  {
    forall i | 0 <= i <= |log| ensures (log + [d])[i].sequence <= n + 1 {
      if i < |log| { assert OrderlyAt(h, log, n, i); }
    }
    var log', n', last := log + [d], if h.Asks(log + [d]) then n else n + 1, |log|;
    assert log'[..last + 1] == log' && log'[..last] == log;
    forall i | 0 <= i < |log'| ensures OrderlyAt(h, log', n', i) {
      if i < last {
        EarlierDispatchesKeep(h, log, d, i);
        assert OrderlyAt(h, log, n, i);
      } else if last > 0 {
        EarlierDispatchesKeep(h, log, d, last - 1);
        assert log[..last] == log;
      }
    }
    forall i, j | 0 <= i < j < |log'| ensures Before(h, log', i, j) {
      EarlierDispatchesKeep(h, log, d, i);
      assert OrderlyAt(h, log, n, i);
      if j < last { assert Before(h, log, i, j); }
    }
  }

  lemma {:induction false} UninterruptedIsOrderly(h: Host, p: Program, log: seq<Dispatch>, outs: seq<Outcome>,
                                                  answers: seq<Json>, approval: Option<Answer>, steps: nat)
    requires Orderly(h, log, |outs|)
    requires p(outs).Call? && |outs| + 1 <= h.maxToolCalls ==>
               if approval.Some?
               then |log| > 0 && h.Asks(log)
                 && log[|log| - 1] == Dispatch(|outs| + 1, p(outs).name, p(outs).args, log[|log| - 1].approval)
               else forall i | 0 <= i < |log| :: log[i].sequence <= |outs|
    requires |outs| + 1 > h.maxToolCalls ==> forall i | 0 <= i < |log| :: log[i].sequence <= |outs|
    ensures var r := Uninterrupted(h, p, log, outs, answers, approval, steps); Orderly(h, r.log, |r.outcomes|)
    decreases steps, |answers|
  {
    if p(outs).Call? && steps > 0 {
      var Call(name, args) := p(outs);
      if |outs| + 1 > h.maxToolCalls {
        var n := |outs| + 1;
        forall i | 0 <= i < |log| ensures OrderlyAt(h, log, n, i) { assert OrderlyAt(h, log, n - 1, i); }
        UninterruptedIsOrderly(h, p, log, outs + [Failed(name, LIMIT_REACHED)], answers, None, steps - 1);
      } else {
        var d := Dispatch(|outs| + 1, name, args, approval);
        OrderlyExtends(h, log, |outs|, d);
        var log' := log + [d];
        if !h.Asks(log') {
          UninterruptedIsOrderly(h, p, log', outs + [LiveOutcome(h, name, h.ReplyTo(log'))], answers, None, steps - 1);
        } else if answers != [] {
          UninterruptedIsOrderly(h, p, log', outs, answers[1..], Some(ApprovalOf(answers[0])), steps);
        }
      }
    }
  }

  /** Across all executions of a paused program, no sequence number is executed to completion
      twice, and an approval reaches exactly the call that asked for it. */
  lemma AtMostOnce(h: Host, p: Program, answers: seq<Json>, steps: nat)
    requires !AnsweredAfterSilence(h, Uninterrupted(h, p, [], [], answers, None, steps).log)
    ensures var r := Paused(h, p, None, map[], [], answers, steps); Orderly(h, r.log, |r.outcomes|)
  {
    TransparentReplay(h, p, answers, steps);
    UninterruptedIsOrderly(h, p, [], [], answers, None, steps);
  }

  // ---------------------------------------------------------------- the tool itself

  /** One execution of the program: the variables its bindings share, and the bindings. */
  class ProgramRun {
    const host: Host
    const resume: Option<Continuation>
    var calls: nat
    var journal: Journal
    var replaying: bool
    var replayed: nat
    var divergedAt: Option<nat>
    var pause: Option<Pause>
    var log: seq<Dispatch>

    constructor (host: Host, resume: Option<Continuation>, journal: Journal, log: seq<Dispatch>)
      ensures this.host == host && this.resume == resume
      ensures State() == StartRun(resume, journal, log)
    {
      this.host, this.resume := host, resume;
      this.calls, this.journal, this.replaying, this.replayed := 0, journal, resume.Some?, 0;
      this.divergedAt, this.pause, this.log := None, None, log;
    }

    function State(): Run
      reads this
    {
      Run(calls, journal, replaying, replayed, divergedAt, pause, log)
    }

    /** `tools.name(args)`. */
    method Call(name: string, args: Json) returns (outcome: Outcome)
      modifies this
      ensures State() == Bind(host, resume, old(State()), name, args).0
      ensures outcome == Bind(host, resume, old(State()), name, args).1
    {
      if pause.Some? { return Failed(name, PAUSING); }
      calls := calls + 1;
      if calls > host.maxToolCalls { return Failed(name, LIMIT_REACHED); }
      if replaying && calls in journal {
        if journal[calls].name == name && journal[calls].args == host.encode(args) {
          replayed := replayed + 1;
          return ReplayedOutcome(journal[calls]);
        }
        replaying, divergedAt := false, Some(calls);
      }
      outcome := CallLive(name, args);
    }

    /** The rest of a call the journal does not answer: dispatch it, then pause or record it. */
    method CallLive(name: string, args: Json) returns (outcome: Outcome)
      modifies `log, `pause, `journal
      ensures State() == Live(host, resume, old(State()), name, args).0
      ensures outcome == Live(host, resume, old(State()), name, args).1
    {
      var approval := if resume.Some? && calls == resume.value.pendingCall then Some(resume.value.answer) else None;
      log := log + [Dispatch(calls, name, args, approval)];
      var result := host.engine(log);
      if result.interrupt.Some? && host.canPause {
        pause := Some(Pause(calls, result.interrupt.value));
        return Failed(name, PAUSING);
      }
      var value: Option<Json> := None;
      if host.hasOutputSchema(name) && !result.isError { value := Some(StructuredValueOf(host, result)); }
      journal := journal[calls := Entry(name, host.encode(args), result.text, result.isError, value)];
      if result.isError { return Failed(name, if |result.text| > 0 then result.text else NO_ERROR_TEXT); }
      return Resolved(if value.Some? then value.value else JStr(result.text));
    }
  }

  const JOURNAL_KEY_PREFIX := "code-mode:journal:"

  /** The RunCode tool with its durable journal store and the engine it dispatches to. */
  class RunCodeTool {
    const host: Host
    var store: map<string, Journal>
    var log: seq<Dispatch>

    constructor (host: Host)
      ensures this.host == host && store == map[] && log == []
    {
      this.host, this.store, this.log := host, map[], [];
    }

    /** Run the program once, from the top, for at most `steps` tool calls. A pause leaves its
        journal in the store; a re-run that reaches its end deletes it. */
    method RunProgram(program: Program, key: string, resume: Option<Continuation>, steps: nat)
      returns (ending: Ending, outcomes: seq<Outcome>, divergedAt: Option<nat>)
      modifies this
      ensures
        var journal := if resume.Some? && key in old(store) then old(store)[key] else map[];
        var e := Execute(host, program, resume, StartRun(resume, journal, old(log)), [], steps);
        && ending == e.ending && outcomes == e.outcomes && divergedAt == e.run.divergedAt && log == e.run.log
        && store == if e.ending.Waiting? then old(store)[key := e.run.journal]
                    else if resume.Some? then old(store) - {key} else old(store)
    {
      var journal: Journal := if resume.Some? && key in store then store[key] else map[];
      var run := new ProgramRun(host, resume, journal, log);
      outcomes := [];
      var left := steps;
      ghost var whole := Execute(host, program, resume, run.State(), outcomes, left);
      while true
        invariant run.host == host && run.resume == resume && run.pause.None?
        invariant fresh(run)
        invariant unchanged(this)
        invariant whole == Execute(host, program, resume, run.State(), outcomes, left)
        decreases left
      {
        match program(outcomes)
        case Finish(value) =>
          ending := Returned(value);
          break;
        case Call(name, args) =>
          if left == 0 {
            ending := CutOff;
            break;
          }
          var outcome := run.Call(name, args);
          if run.pause.Some? {
            ending := Waiting(run.pause.value);
            break;
          }
          outcomes, left := outcomes + [outcome], left - 1;
      }
      log, divergedAt := run.log, run.divergedAt;
      if ending.Waiting? {
        store := store[key := run.journal];
      } else if resume.Some? {
        store := store - {key};
      }
    }

    /** The whole life of one tool call: each time it pauses, the user's next answer resumes it. */
    method RunWithAnswers(program: Program, toolCallId: string, answers: seq<Json>, steps: nat) returns (result: Result)
      modifies this
      ensures result == Paused(host, program, None, map[], old(log), answers, steps)
      ensures log == result.log
    {
      var key := JOURNAL_KEY_PREFIX + toolCallId;
      var resume: Option<Continuation> := None;
      var rest := answers;
      while true
        invariant resume.Some? ==> key in store
        invariant Paused(host, program, None, map[], old(log), answers, steps)
               == Paused(host, program, resume, if resume.Some? then store[key] else map[], log, rest, steps)
        decreases |rest|
      {
        var ending, outcomes, divergedAt := RunProgram(program, key, resume, steps);
        if !ending.Waiting? || rest == [] {
          result := Result(ending, outcomes, log, divergedAt);
          return;
        }
        resume := Some(Continuation(ending.pause.sequence, ApprovalOf(rest[0])));
        rest := rest[1..];
      }
    }
  }
}
