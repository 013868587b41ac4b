// What a fleet of agents spends (stats.ts): running totals turned into increments, the increments summed
// per agent and over the fleet. Token counts are integers and cost an exact real.

module Usage {
  import opened Basics

  datatype Counters = Counters(sent: int, received: int, wakes: int, input: int, output: int, total: int, cost: real)

  const NONE := Counters(0, 0, 0, 0, 0, 0, 0.0)

  /** `accumulate`. */
  function Plus(a: Counters, b: Counters): Counters {
    Counters(a.sent + b.sent, a.received + b.received, a.wakes + b.wakes,
             a.input + b.input, a.output + b.output, a.total + b.total, a.cost + b.cost)
  }

  function Minus(a: Counters, b: Counters): Counters {
    Counters(a.sent - b.sent, a.received - b.received, a.wakes - b.wakes,
             a.input - b.input, a.output - b.output, a.total - b.total, a.cost - b.cost)
  }

  datatype Usage = Usage(input: nat, output: nat, total: Option<nat>, cost: Option<real>)

  function Current(u: Usage): (c: Counters)
    ensures c.input >= 0 && c.output >= 0 && c.total >= 0
  {
    NONE.(input := u.input, output := u.output, total := u.total.GetOr(u.input + u.output), cost := u.cost.GetOr(0.0))
  }

  /** What a report is compared with: the last one of the agent, unless its total went down, which means
      that a run began to count anew. */
  function Previous(last: Option<Counters>, current: Counters): Counters {
    if last.None? || current.total < last.value.total then NONE else last.value
  }

  function Delta(last: Option<Counters>, current: Counters): Counters { Minus(current, Previous(last, current)) }

  /** A component of the counters, or any sum of components. */
  ghost predicate Linear(v: Counters -> real) {
    && v(NONE) == 0.0
    && (forall a, b {:trigger v(Plus(a, b))} :: v(Plus(a, b)) == v(a) + v(b))
    && (forall a, b {:trigger v(Minus(a, b))} :: v(Minus(a, b)) == v(a) - v(b))
  }

  const INPUT := (c: Counters) => c.input as real

  const OUTPUT := (c: Counters) => c.output as real

  const TOTAL := (c: Counters) => c.total as real

  const COST := (c: Counters) => c.cost

  const SENT := (c: Counters) => c.sent as real

  const RECEIVED := (c: Counters) => c.received as real

  const WAKES := (c: Counters) => c.wakes as real

  lemma ComponentsAreLinear()
    ensures Linear(INPUT) && Linear(OUTPUT) && Linear(TOTAL) && Linear(COST)
    ensures Linear(SENT) && Linear(RECEIVED) && Linear(WAKES)
  {
  }

  // ---------------------------------------------------------------- one agent

  /** A component of the increments of an agent's first `n` reports, summed. */
  function Spend(reports: seq<Counters>, v: Counters -> real, n: nat := |reports|): real
    requires n <= |reports|
  {
    if n == 0 then 0.0
    else Spend(reports, v, n - 1) + v(Delta(if n == 1 then None else Some(reports[n - 2]), reports[n - 1]))
  }

  /** A report after which the total goes down, or the last one. */
  predicate EndsRun(reports: seq<Counters>, i: nat)
    requires i < |reports|
  {
    i == |reports| - 1 || reports[i + 1].total < reports[i].total
  }

  /** The last reports of the maximal segments in which the total does not go down, summed. */
  function SegmentEnds(reports: seq<Counters>, v: Counters -> real, n: nat := |reports|): real
    requires n <= |reports|
  {
    if n == 0 then 0.0
    else SegmentEnds(reports, v, n - 1) + if EndsRun(reports, n - 1) then v(reports[n - 1]) else 0.0
  }

  lemma {:induction false} SpendTo(reports: seq<Counters>, v: Counters -> real, n: nat)
    requires Linear(v) && 0 < n <= |reports|
    ensures Spend(reports, v, n) == SegmentEnds(reports, v, n - 1) + v(reports[n - 1])
  {
    if n > 1 { SpendTo(reports, v, n - 1); }
  }

  /** Telescoping: every component of what is summed is that of the segments' last reports. */
  lemma SpendTelescopes(reports: seq<Counters>, v: Counters -> real)
    requires Linear(v)
    ensures Spend(reports, v) == SegmentEnds(reports, v)
  {
    if reports != [] { SpendTo(reports, v, |reports|); }
  }

  lemma {:induction false} SpendPrefix(reports: seq<Counters>, c: Counters, v: Counters -> real, n: nat)
    requires n <= |reports|
    ensures Spend(reports + [c], v, n) == Spend(reports, v, n)
  {
    if n > 0 { SpendPrefix(reports, c, v, n - 1); }
  }

  /** No increment of the token total is negative; one of the input tokens is exactly when the total held
      and the input went down. */
  lemma IncrementSigns(last: Option<Counters>, u: Usage)
    ensures Delta(last, Current(u)).total >= 0
    ensures Delta(last, Current(u)).input < 0 <==>
      last.Some? && Current(u).total >= last.value.total && Current(u).input < last.value.input
    ensures Delta(last, Current(u)).output < 0 <==>
      last.Some? && Current(u).total >= last.value.total && Current(u).output < last.value.output
  {
  }

  // ---------------------------------------------------------------- what the runs really cost

  /** The total an agent is counted for, from the totals it reported. */
  function Counted(totals: seq<nat>): int {
    if totals == [] then 0
    else
      var n := |totals| - 1;
      Counted(totals[..n]) + totals[n] - if n == 0 || totals[n] < totals[n - 1] then 0 else totals[n - 1]
  }

  /** The reports of which these are the totals. */
  predicate HaveTotals(reports: seq<Counters>, totals: seq<nat>) {
    |reports| == |totals| && forall i | 0 <= i < |totals| :: reports[i].total == totals[i]
  }

  lemma {:induction false} CountedIsSpend(reports: seq<Counters>, totals: seq<nat>, n: nat)
    requires n <= |totals| && HaveTotals(reports, totals)
    ensures Spend(reports, TOTAL, n) == Counted(totals[..n]) as real
  {
    if n > 0 {
      CountedIsSpend(reports, totals, n - 1);
      assert totals[..n] == totals[..n - 1] + [totals[n - 1]];
      CountedMore(totals[..n - 1], totals[n - 1]);
    }
  }

  /** What the last report before takes off a report of `total`. */
  function TakenOff(before: seq<nat>, total: nat): nat {
    if before == [] || total < before[|before| - 1] then 0 else before[|before| - 1]
  }

  lemma CountedMore(before: seq<nat>, total: nat)
    ensures Counted(before + [total]) == Counted(before) + total - TakenOff(before, total)
  {
  }

  /** The running totals one run reports: at least one, never going down. */
  predicate IsRun(run: seq<nat>) { run != [] && forall i | 0 < i < |run| :: run[i - 1] <= run[i] }

  predicate AreRuns(runs: seq<seq<nat>>) { forall i | 0 <= i < |runs| :: IsRun(runs[i]) }

  function Last(run: seq<nat>): nat
    requires run != []
  {
    run[|run| - 1]
  }

  /** The totals that the first `n` runs report. */
  function Reported(runs: seq<seq<nat>>, n: nat := |runs|): seq<nat>
    requires n <= |runs|
  {
    if n == 0 then [] else Reported(runs, n - 1) + runs[n - 1]
  }

  /** What the first `n` runs cost. */
  function Cost(runs: seq<seq<nat>>, n: nat := |runs|): nat
    requires AreRuns(runs) && n <= |runs|
  {
    if n == 0 then 0
    else
      assert IsRun(runs[n - 1]);
      Cost(runs, n - 1) + Last(runs[n - 1])
  }

  /** A run that starts to report no lower than the one before it ended is taken for its continuation. */
  predicate Continues(runs: seq<seq<nat>>, i: nat)
    requires AreRuns(runs) && 0 < i < |runs|
  {
    assert IsRun(runs[i]) && IsRun(runs[i - 1]);
    runs[i][0] >= Last(runs[i - 1])
  }

  /** The last totals of runs, among the first `n`, that another one continues. */
  function Missed(runs: seq<seq<nat>>, n: nat := |runs|): nat
    requires AreRuns(runs) && n <= |runs|
  {
    if n < 2 then 0
    else
      assert IsRun(runs[n - 2]);
      Missed(runs, n - 1) + if Continues(runs, n - 1) then Last(runs[n - 2]) else 0
  }

  lemma {:induction false} CountedRun(before: seq<nat>, run: seq<nat>)
    requires IsRun(run)
    ensures Counted(before + run) == Counted(before) + Last(run) - TakenOff(before, run[0])
  {
    var n := |run| - 1;
    var rest := before + run[..n];
    assert before + run == rest + [run[n]];
    CountedMore(rest, run[n]);
    if n == 0 {
      assert rest == before;
    } else {
      CountedRun(before, run[..n]);
      assert TakenOff(rest, run[n]) == run[n - 1];
    }
  }

  lemma {:induction false} CountedIsCostLessMissed(runs: seq<seq<nat>>, n: nat)
    requires AreRuns(runs) && n <= |runs|
    ensures Counted(Reported(runs, n)) == Cost(runs, n) - Missed(runs, n)
    ensures n > 0 ==> IsRun(runs[n - 1]) && Reported(runs, n) != [] && Last(Reported(runs, n)) == Last(runs[n - 1])
  {
    if n > 0 {
      CountedIsCostLessMissed(runs, n - 1);
      assert IsRun(runs[n - 1]);
      CountedRun(Reported(runs, n - 1), runs[n - 1]);
      assert TakenOff(Reported(runs, n - 1), runs[n - 1][0]) ==
        if n > 1 && Continues(runs, n - 1) then Last(runs[n - 2]) else 0;
    }
  }

  lemma {:induction false} NothingMissed(runs: seq<seq<nat>>, n: nat)
    requires AreRuns(runs) && n <= |runs|
    ensures Missed(runs, n) == 0 <==> forall i | 0 < i < n :: Continues(runs, i) ==> Last(runs[i - 1]) == 0
  {
    if n >= 2 { NothingMissed(runs, n - 1); }
  }

  // ---------------------------------------------------------------- the fleet

  /** What happens, in order: an agent reports its usage, or one of its messages is counted. */
  datatype Event = Reports(agent: string, usage: Usage) | Counts(agent: string, counts: Counters)

  datatype Books = Books(last: map<string, Counters>, store: map<string, Counters>)

  function Of(m: map<string, Counters>, agent: string): Counters { if agent in m then m[agent] else NONE }

  function LastOf(b: Books, agent: string): Option<Counters> { if agent in b.last then Some(b.last[agent]) else None }

  function Increment(b: Books, e: Event): Counters {
    match e
    case Reports(agent, u) => Delta(LastOf(b, agent), Current(u))
    case Counts(agent, counts) => counts
  }

  function Next(b: Books, e: Event): Books {
    Books(if e.Reports? then b.last[e.agent := Current(e.usage)] else b.last,
          b.store[e.agent := Plus(Of(b.store, e.agent), Increment(b, e))])
  }

  /** The books after the first `n` events. */
  function After(events: seq<Event>, n: nat := |events|): Books
    requires n <= |events|
  {
    if n == 0 then Books(map[], map[]) else Next(After(events, n - 1), events[n - 1])
  }

  /** The reports of one agent among them. */
  function ReportsOf(events: seq<Event>, agent: string, n: nat := |events|): seq<Counters>
    requires n <= |events|
  {
    if n == 0 then []
    else
      var e := events[n - 1];
      if e.Reports? && e.agent == agent then ReportsOf(events, agent, n - 1) + [Current(e.usage)]
      else ReportsOf(events, agent, n - 1)
  }

  function CountsOf(events: seq<Event>, agent: string, v: Counters -> real, n: nat := |events|): real
    requires n <= |events|
  {
    if n == 0 then 0.0
    else
      var e := events[n - 1];
      CountsOf(events, agent, v, n - 1) + if e.Counts? && e.agent == agent then v(e.counts) else 0.0
  }

  lemma {:induction false} LastReported(events: seq<Event>, agent: string, n: nat)
    requires n <= |events|
    ensures LastOf(After(events, n), agent) ==
      var rs := ReportsOf(events, agent, n); if rs == [] then None else Some(rs[|rs| - 1])
  {
    if n > 0 { LastReported(events, agent, n - 1); }
  }

  lemma SpendStep(reports: seq<Counters>, c: Counters, v: Counters -> real)
    ensures Spend(reports + [c], v) ==
      Spend(reports, v) + v(Delta(if reports == [] then None else Some(reports[|reports| - 1]), c))
  {
    SpendPrefix(reports, c, v, |reports|);
  }

  /** What one event does to the books, the reports and the counts of an agent. */
  predicate OneEvent(e: Event, agent: string, v: Counters -> real, rs: seq<Counters>, rs': seq<Counters>,
                     counts: real, counts': real) {
    && rs' == (if e.Reports? && e.agent == agent then rs + [Current(e.usage)] else rs)
    && counts' == counts + if e.Counts? && e.agent == agent then v(e.counts) else 0.0
  }

  lemma StoreStep(b: Books, b': Books, e: Event, agent: string, v: Counters -> real, rs: seq<Counters>,
      rs': seq<Counters>, counts: real, counts': real)
    requires Linear(v) && b' == Next(b, e) && LastOf(b, agent) == (if rs == [] then None else Some(rs[|rs| - 1]))
    requires v(Of(b.store, agent)) == counts + Spend(rs, v) && OneEvent(e, agent, v, rs, rs', counts, counts')
    ensures v(Of(b'.store, agent)) == counts' + Spend(rs', v)
  {
    if e.Reports? && e.agent == agent { SpendStep(rs, Current(e.usage), v); }
  }

  lemma {:induction false} StoredIsSpend(events: seq<Event>, agent: string, v: Counters -> real, n: nat)
    requires Linear(v) && n <= |events|
    ensures v(Of(After(events, n).store, agent)) ==
      CountsOf(events, agent, v, n) + Spend(ReportsOf(events, agent, n), v)
  {
    if n == 0 {
      NothingStored(agent, v, After(events, n), ReportsOf(events, agent, n), CountsOf(events, agent, v, n));
    } else {
      StoredIsSpend(events, agent, v, n - 1);
      StoredNext(events, agent, v, n);
    }
  }

  lemma NothingStored(agent: string, v: Counters -> real, b: Books, rs: seq<Counters>, counts: real)
    requires Linear(v) && b == Books(map[], map[]) && rs == [] && counts == 0.0
    ensures v(Of(b.store, agent)) == counts + Spend(rs, v)
  {
  }

  lemma StoredNext(events: seq<Event>, agent: string, v: Counters -> real, n: nat)
    requires Linear(v) && 0 < n <= |events|
    requires v(Of(After(events, n - 1).store, agent)) ==
      CountsOf(events, agent, v, n - 1) + Spend(ReportsOf(events, agent, n - 1), v)
    ensures v(Of(After(events, n).store, agent)) ==
      CountsOf(events, agent, v, n) + Spend(ReportsOf(events, agent, n), v)
  {
    var rs, counts := ReportsOf(events, agent, n), CountsOf(events, agent, v, n);
    var rs0, counts0 := ReportsOf(events, agent, n - 1), CountsOf(events, agent, v, n - 1);
    LastReported(events, agent, n - 1);
    StoreStep(After(events, n - 1), After(events, n), events[n - 1], agent, v, rs0, rs, counts0, counts);
  }

  /** Main result: however agents interleave, what is stored of one, in any component, is the last reports
      of its own segments, and its own counts. */
  lemma StoredOfEach(events: seq<Event>, agent: string, v: Counters -> real)
    requires Linear(v)
    ensures v(Of(After(events).store, agent)) == CountsOf(events, agent, v) + SegmentEnds(ReportsOf(events, agent), v)
  {
    StoredIsSpend(events, agent, v, |events|);
    SpendTelescopes(ReportsOf(events, agent), v);
  }

  /** Main result on a budget's exactness: among any other agents and with any counts, the tokens stored of
      an agent that reports as these runs do are what the runs cost, less the last totals of the runs taken
      for continued. */
  lemma StoredIsCostLessMissed(events: seq<Event>, agent: string, runs: seq<seq<nat>>)
    requires AreRuns(runs) && HaveTotals(ReportsOf(events, agent), Reported(runs))
    ensures TOTAL(Of(After(events).store, agent)) ==
      CountsOf(events, agent, TOTAL) + (Cost(runs) - Missed(runs)) as real
  {
    var reports, totals := ReportsOf(events, agent), Reported(runs);
    ComponentsAreLinear();
    StoredIsSpend(events, agent, TOTAL, |events|);
    CountedIsSpend(reports, totals, |totals|);
    assert totals[..|totals|] == totals;
    CountedIsCostLessMissed(runs, |runs|);
  }

  /** The tokens stored are exact exactly when every run starts below the end of the one before it, or
      after one that cost nothing. */
  lemma ExactlyCounted(events: seq<Event>, agent: string, runs: seq<seq<nat>>)
    requires AreRuns(runs) && HaveTotals(ReportsOf(events, agent), Reported(runs))
    ensures TOTAL(Of(After(events).store, agent)) == CountsOf(events, agent, TOTAL) + Cost(runs) as real <==>
      forall i | 0 < i < |runs| :: Continues(runs, i) ==> Last(runs[i - 1]) == 0
  {
    StoredIsCostLessMissed(events, agent, runs);
    NothingMissed(runs, |runs|);
  }

  lemma {:induction false} OneSegment(reports: seq<Counters>, v: Counters -> real, n: nat)
    requires n < |reports| && forall i | 0 < i < |reports| :: reports[i - 1].total <= reports[i].total
    ensures SegmentEnds(reports, v, n) == 0.0
  {
    if n > 0 { OneSegment(reports, v, n - 1); }
  }

  /** The last report of an agent in a run of events. */
  predicate LastReport(events: seq<Event>, agent: string, i: nat)
    requires i < |events|
  {
    && events[i].Reports? && events[i].agent == agent
    && forall j | i < j < |events| :: !(events[j].Reports? && events[j].agent == agent)
  }

  lemma {:induction false} LastReportIsLast(events: seq<Event>, agent: string, i: nat, n: nat)
    requires i < n <= |events| && LastReport(events, agent, i)
    ensures var rs := ReportsOf(events, agent, n); rs != [] && rs[|rs| - 1] == Current(events[i].usage)
  {
    if n > i + 1 { LastReportIsLast(events, agent, i, n - 1); }
  }

  /** While the totals an agent reports do not go down, what is stored of it is what its last report says: its
      input, output and cost, and the total it gives or else input and output together. */
  lemma StoredIsLastReport(events: seq<Event>, agent: string, i: nat)
    requires i < |events| && LastReport(events, agent, i)
    requires var rs := ReportsOf(events, agent); forall k | 0 < k < |rs| :: rs[k - 1].total <= rs[k].total
    ensures var c, u := Of(After(events).store, agent), events[i].usage;
      && c.input as real == CountsOf(events, agent, INPUT) + u.input as real
      && c.output as real == CountsOf(events, agent, OUTPUT) + u.output as real
      && c.total as real == CountsOf(events, agent, TOTAL) +
           (if u.total.Some? then u.total.value else u.input + u.output) as real
      && c.cost == CountsOf(events, agent, COST) + (if u.cost.Some? then u.cost.value else 0.0)
      && c.sent as real == CountsOf(events, agent, SENT) && c.received as real == CountsOf(events, agent, RECEIVED)
      && c.wakes as real == CountsOf(events, agent, WAKES)
  {
    ComponentsAreLinear();
    LastReportIsLast(events, agent, i, |events|);
    StoredOfLast(events, agent, INPUT);
    StoredOfLast(events, agent, OUTPUT);
    StoredOfLast(events, agent, TOTAL);
    StoredOfLast(events, agent, COST);
    StoredOfLast(events, agent, SENT);
    StoredOfLast(events, agent, RECEIVED);
    StoredOfLast(events, agent, WAKES);
  }

  lemma StoredOfLast(events: seq<Event>, agent: string, v: Counters -> real)
    requires Linear(v)
    requires var rs := ReportsOf(events, agent); rs != [] && forall k | 0 < k < |rs| :: rs[k - 1].total <= rs[k].total
    ensures var rs := ReportsOf(events, agent);
      v(Of(After(events).store, agent)) == CountsOf(events, agent, v) + v(rs[|rs| - 1])
  {
    var rs := ReportsOf(events, agent);
    StoredOfEach(events, agent, v);
    OneSegment(rs, v, |rs| - 1);
  }

  /** The reduction over the agents, in the order they came up. */
  function Sum(store: map<string, Counters>, agents: seq<string>, n: nat := |agents|): Counters
    requires n <= |agents|
  {
    if n == 0 then NONE else Plus(Sum(store, agents, n - 1), Of(store, agents[n - 1]))
  }

  /** A component of all increments there were. */
  function Everything(events: seq<Event>, v: Counters -> real, n: nat := |events|): real
    requires n <= |events|
  {
    if n == 0 then 0.0 else Everything(events, v, n - 1) + v(Increment(After(events, n - 1), events[n - 1]))
  }

  /** Agents in order of their first event. */
  function Agents(events: seq<Event>, n: nat := |events|): seq<string>
    requires n <= |events|
  {
    if n == 0 then []
    else
      var before := Agents(events, n - 1);
      if events[n - 1].agent in before then before else before + [events[n - 1].agent]
  }

  ghost predicate Distinct(agents: seq<string>) { forall i, j | 0 <= i < j < |agents| :: agents[i] != agents[j] }

  lemma {:induction false} SumUpdate(store: map<string, Counters>, agents: seq<string>, a: string, c: Counters,
      v: Counters -> real, n: nat)
    requires Linear(v) && Distinct(agents) && n <= |agents|
    ensures v(Sum(store[a := c], agents, n)) ==
      v(Sum(store, agents, n)) + if a in agents[..n] then v(c) - v(Of(store, a)) else 0.0
  {
    if n > 0 {
      SumUpdate(store, agents, a, c, v, n - 1);
      assert agents[..n] == agents[..n - 1] + [agents[n - 1]];
    }
  }

  lemma {:induction false} SumPrefix(store: map<string, Counters>, agents: seq<string>, a: string, n: nat)
    requires n <= |agents|
    ensures Sum(store, agents + [a], n) == Sum(store, agents, n)
  {
    if n > 0 { SumPrefix(store, agents, a, n - 1); }
  }

  lemma {:induction false} AgentsDistinct(events: seq<Event>, n: nat)
    requires n <= |events|
    ensures Distinct(Agents(events, n))
    ensures forall a :: a in Agents(events, n) <==> a in After(events, n).store
  {
    if n > 0 { AgentsDistinct(events, n - 1); }
  }

  /** What is added for one of the agents is added to the sum. */
  lemma SumAdds(store: map<string, Counters>, agents: seq<string>, a: string, more: Counters, v: Counters -> real)
    requires Linear(v) && Distinct(agents) && a in agents
    ensures v(Sum(store[a := Plus(Of(store, a), more)], agents)) == v(Sum(store, agents)) + v(more)
  {
    SumUpdate(store, agents, a, Plus(Of(store, a), more), v, |agents|);
    assert agents[..|agents|] == agents;
  }

  /** An agent that comes up has nothing yet. */
  lemma SumWithNew(store: map<string, Counters>, agents: seq<string>, a: string, v: Counters -> real)
    requires Linear(v) && a !in store
    ensures v(Sum(store, agents + [a])) == v(Sum(store, agents))
  {
    SumPrefix(store, agents, a, |agents|);
  }

  lemma FleetStep(b: Books, e: Event, agents: seq<string>, v: Counters -> real)
    requires Linear(v) && Distinct(agents) && forall a :: a in agents <==> a in b.store
    ensures var more := if e.agent in agents then agents else agents + [e.agent];
      v(Sum(Next(b, e).store, more)) == v(Sum(b.store, agents)) + v(Increment(b, e))
  {
    if e.agent in agents {
      SumAdds(b.store, agents, e.agent, Increment(b, e), v);
    } else {
      SumWithNew(b.store, agents, e.agent, v);
      SumAdds(b.store, agents + [e.agent], e.agent, Increment(b, e), v);
    }
  }

  /** Conservation: the fleet's totals are, in any component, every increment ever added, once. */
  lemma {:induction false} FleetIsEverything(events: seq<Event>, v: Counters -> real, n: nat)
    requires Linear(v) && n <= |events|
    ensures v(Sum(After(events, n).store, Agents(events, n))) == Everything(events, v, n)
  {
    if n > 0 {
      FleetIsEverything(events, v, n - 1);
      AgentsDistinct(events, n - 1);
      FleetStep(After(events, n - 1), events[n - 1], Agents(events, n - 1), v);
    }
  }

  // ---------------------------------------------------------------- the classes

  class UsageDiff {
    var lastUsage: map<string, Counters>

    ghost predicate Valid()
      reads this
    {
      forall a | a in lastUsage :: lastUsage[a].sent == lastUsage[a].received == lastUsage[a].wakes == 0
    }

    constructor ()
      ensures Valid() && lastUsage == map[]
    {
      lastUsage := map[];
    }

    method Increment(agent: string, usage: Usage) returns (delta: Counters)
      requires Valid()
      modifies this
      ensures Valid()
      ensures delta == Delta(if agent in old(lastUsage) then Some(old(lastUsage)[agent]) else None, Current(usage))
      ensures lastUsage == old(lastUsage)[agent := Current(usage)]
    {
      var current := Current(usage);
      var previous := if agent !in lastUsage || current.total < lastUsage[agent].total then NONE else lastUsage[agent];
      lastUsage := lastUsage[agent := current];
      delta := NONE.(input := current.input - previous.input, output := current.output - previous.output,
                     total := current.total - previous.total, cost := current.cost - previous.cost);
    }
  }

  class MemoryPeerStatsStore {
    var perAgent: map<string, Counters>
    var order: seq<string>

    ghost predicate Valid()
      reads this
    {
      && (forall a :: a in order <==> a in perAgent)
      && (forall i, j | 0 <= i < j < |order| :: order[i] != order[j])
    }

    constructor ()
      ensures Valid() && perAgent == map[] && order == []
    {
      perAgent, order := map[], [];
    }

    method Add(agent: string, delta: Counters)
      requires Valid()
      modifies this
      ensures Valid() && perAgent == old(perAgent)[agent := Plus(Of(old(perAgent), agent), delta)]
      ensures order == if agent in old(order) then old(order) else old(order) + [agent]
    {
      if agent !in perAgent {
        order := order + [agent];
        perAgent := perAgent[agent := Plus(NONE, delta)];
      } else {
        perAgent := perAgent[agent := Plus(perAgent[agent], delta)];
      }
    }

    method Snapshot() returns (agents: seq<(string, Counters)>, totals: Counters)
      requires Valid()
      ensures |agents| == |order| && forall i | 0 <= i < |agents| :: agents[i] == (order[i], perAgent[order[i]])
      ensures totals == Sum(perAgent, order)
    {
      agents, totals := [], NONE;
      for i := 0 to |order|
        invariant |agents| == i && forall j | 0 <= j < i :: agents[j] == (order[j], perAgent[order[j]])
        invariant totals == Sum(perAgent, order, i)
      {
        agents := agents + [(order[i], perAgent[order[i]])];
        totals := Plus(totals, perAgent[order[i]]);
      }
    }
  }
}
