// Which tools to declare when not all fit the budget (declarations.ts, renderToolCatalog): a turn for each
// server in every round, its cheapest tool first, as long as there is room.

module Catalog {

  /** A tool and its declaration as text, as rendered for it alone. */
  datatype Tool = Tool(name: string, text: string)

  /** Estimated tokens: characters over four, rounded up. */
  function Cost(t: Tool): (c: nat)
    ensures 4 * c - 3 <= |t.text| <= 4 * c
  {
    (|t.text| + 3) / 4
  }

  // ---------------------------------------------------------------- orders and sorting

  /** Comparison by code unit. */
  predicate NameLe(a: string, b: string) {
    a == "" || (b != "" && (a[0] < b[0] || (a[0] == b[0] && NameLe(a[1..], b[1..]))))
  }

  /** Up to `k` two names are the same; there the first one ends, or has the lesser character. */
  predicate PartAt(a: string, b: string, k: nat) {
    && k <= |a| && k <= |b| && a[..k] == b[..k]
    && (k == |a| || (k < |b| && a[k] < b[k]))
  }

  lemma {:induction false} NameLeExactly(a: string, b: string)
    ensures NameLe(a, b) <==> exists k: nat :: PartAt(a, b, k)
  {
    if a == "" {
      assert PartAt(a, b, 0);
    } else if b != "" && a[0] == b[0] {
      NameLeExactly(a[1..], b[1..]);
      if NameLe(a, b) {
        var k: nat :| PartAt(a[1..], b[1..], k);
        assert a[..k + 1] == [a[0]] + a[1..][..k] && b[..k + 1] == [b[0]] + b[1..][..k];
        assert PartAt(a, b, k + 1);
      }
      if k: nat :| PartAt(a, b, k) {
        assert k > 0 && a[1..][..k - 1] == a[..k][1..] && b[1..][..k - 1] == b[..k][1..];
        assert PartAt(a[1..], b[1..], k - 1);
      }
    } else if b != "" && a[0] < b[0] {
      assert PartAt(a, b, 0);
    } else {
      forall k: nat ensures !PartAt(a, b, k) {
        if 0 < k <= |a| && k <= |b| { assert a[..k][0] == a[0] && b[..k][0] == b[0]; }
      }
    }
  }

  /** Cheapest first, then by name. */
  predicate CheaperLe(a: Tool, b: Tool) { Cost(a) < Cost(b) || (Cost(a) == Cost(b) && NameLe(a.name, b.name)) }

  predicate ByNameLe(a: Tool, b: Tool) { NameLe(a.name, b.name) }

  function Insert<T>(le: (T, T) -> bool, x: T, s: seq<T>): (r: seq<T>)
    ensures |r| == |s| + 1
  {
    if s == [] then [x] else if le(x, s[0]) then [x] + s else [s[0]] + Insert(le, x, s[1..])
  }

  function Sort<T>(le: (T, T) -> bool, s: seq<T>): (r: seq<T>)
    ensures |r| == |s|
  {
    if s == [] then [] else Insert(le, s[0], Sort(le, s[1..]))
  }

  /** How often `x` occurs. */
  function Occurs<T(==)>(s: seq<T>, x: T): nat {
    if s == [] then 0 else (if s[0] == x then 1 else 0) + Occurs(s[1..], x)
  }

  lemma {:induction false} OccursAppend<T>(a: seq<T>, b: seq<T>, x: T)
    ensures Occurs(a + b, x) == Occurs(a, x) + Occurs(b, x)
  {
    if a == [] {
      assert a + b == b;
    } else {
      OccursAppend(a[1..], b, x);
      assert (a + b)[1..] == a[1..] + b;
    }
  }

  lemma {:induction false} OccursIn<T>(s: seq<T>, x: T)
    ensures x in s <==> Occurs(s, x) > 0
  {
    if s != [] { OccursIn(s[1..], x); }
  }

  lemma {:induction false} InsertOccurs<T>(le: (T, T) -> bool, y: T, s: seq<T>, x: T)
    ensures Occurs(Insert(le, y, s), x) == Occurs(s, x) + if x == y then 1 else 0
  {
    if s != [] && !le(y, s[0]) {
      InsertOccurs(le, y, s[1..], x);
    } else {
      assert Insert(le, y, s)[1..] == s;
    }
  }

  lemma {:induction false} SortOccurs<T>(le: (T, T) -> bool, s: seq<T>, x: T)
    ensures Occurs(Sort(le, s), x) == Occurs(s, x)
  {
    if s != [] {
      SortOccurs(le, s[1..], x);
      InsertOccurs(le, s[0], Sort(le, s[1..]), x);
    }
  }

  ghost predicate TotalOrder<T(!new)>(le: (T, T) -> bool) {
    && (forall a, b :: le(a, b) || le(b, a))
    && (forall a, b, c :: le(a, b) && le(b, c) ==> le(a, c))
  }

  predicate Sorted<T>(le: (T, T) -> bool, s: seq<T>) {
    forall i, j | 0 <= i < j < |s| :: le(s[i], s[j])
  }

  lemma {:induction false} InsertSorts<T(!new)>(le: (T, T) -> bool, x: T, s: seq<T>)
    requires TotalOrder(le) && Sorted(le, s)
    ensures Sorted(le, Insert(le, x, s))
    ensures forall y | y in Insert(le, x, s) :: y == x || y in s
  {
    if s != [] && !le(x, s[0]) {
      InsertSorts(le, x, s[1..]);
      var rest := Insert(le, x, s[1..]);
      forall y | y in rest ensures le(s[0], y) && (y == x || y in s) {
        if y != x { var j :| 0 <= j < |s[1..]| && s[1..][j] == y; }
      }
      assert Insert(le, x, s) == [s[0]] + rest;
    } else if s != [] {
      forall j | 0 <= j < |s| ensures le(x, s[j]) {
        if j > 0 { assert le(s[0], s[j]); }
      }
    }
  }

  lemma {:induction false} SortSorts<T(!new)>(le: (T, T) -> bool, s: seq<T>)
    requires TotalOrder(le)
    ensures Sorted(le, Sort(le, s))
  {
    if s != [] {
      SortSorts(le, s[1..]);
      InsertSorts(le, s[0], Sort(le, s[1..]));
    }
  }

  lemma {:induction false} NamesOrdered(a: string, b: string, c: string)
    ensures NameLe(a, b) || NameLe(b, a)
    ensures NameLe(a, b) && NameLe(b, c) ==> NameLe(a, c)
  {
    if a != "" && b != "" {
      if c != "" {
        NamesOrdered(a[1..], b[1..], c[1..]);
      } else {
        NamesOrdered(a[1..], b[1..], "");
      }
    }
  }

  lemma OrdersAreTotal()
    ensures TotalOrder(NameLe) && TotalOrder(CheaperLe) && TotalOrder(ByNameLe)
  {
    forall a, b, c ensures NameLe(a, b) || NameLe(b, a)
      ensures NameLe(a, b) && NameLe(b, c) ==> NameLe(a, c) {
      NamesOrdered(a, b, c);
    }
  }

  // ---------------------------------------------------------------- the picks

  /** What group `g` contributes when its first `k` are picked. */
  function CostTo(queue: seq<Tool>, k: nat): nat
    requires k <= |queue|
  {
    if k == 0 then 0 else CostTo(queue, k - 1) + Cost(queue[k - 1])
  }

  /** How many each group has contributed. */
  predicate Counts(queues: seq<seq<Tool>>, taken: seq<nat>) {
    |taken| == |queues| && forall g | 0 <= g < |queues| :: taken[g] <= |queues[g]|
  }

  function Spent(queues: seq<seq<Tool>>, taken: seq<nat>, n: nat := |queues|): nat
    requires Counts(queues, taken) && n <= |queues|
  {
    if n == 0 then 0 else Spent(queues, taken, n - 1) + CostTo(queues[n - 1], taken[n - 1])
  }

  /** How often `x` is among the first `taken[g]` of each group. */
  function Chosen(queues: seq<seq<Tool>>, taken: seq<nat>, x: Tool, n: nat := |queues|): nat
    requires Counts(queues, taken) && n <= |queues|
  {
    if n == 0 then 0 else Chosen(queues, taken, x, n - 1) + Occurs(queues[n - 1][..taken[n - 1]], x)
  }

  /** Group `g` has contributed in every round before `round` and has a tool left. */
  predicate Active(queues: seq<seq<Tool>>, taken: seq<nat>, round: nat, g: nat)
    requires Counts(queues, taken) && g < |queues|
  {
    taken[g] == round < |queues[g]|
  }

  predicate FitsNext(queues: seq<seq<Tool>>, taken: seq<nat>, budget: int, g: nat)
    requires Counts(queues, taken) && g < |queues| && taken[g] < |queues[g]|
  {
    Spent(queues, taken) + Cost(queues[g][taken[g]]) <= budget
  }

  /** The turn of group `g` in a round: it contributes its next tool if that fits, and else is out. */
  function Turn(queues: seq<seq<Tool>>, budget: int, taken: seq<nat>, round: nat, g: nat): (r: seq<nat>)
    requires Counts(queues, taken) && g < |queues|
    ensures Counts(queues, r)
  {
    if Active(queues, taken, round, g) && FitsNext(queues, taken, budget, g) then taken[g := round + 1] else taken
  }

  /** The counts when `round` rounds are over and, in the next one, the first `n` groups had their turn. */
  function Taken(queues: seq<seq<Tool>>, budget: int, round: nat, n: nat): (r: seq<nat>)
    requires n <= |queues|
    ensures Counts(queues, r)
    decreases round, n
  {
    if n > 0 then Turn(queues, budget, Taken(queues, budget, round, n - 1), round, n - 1)
    else if round > 0 then Taken(queues, budget, round - 1, |queues|)
    else seq(|queues|, _ => 0)
  }

  /** The tools picked by then, in order. */
  function Picked(queues: seq<seq<Tool>>, budget: int, round: nat, n: nat): seq<Tool>
    requires n <= |queues|
    decreases round, n
  {
    if n > 0 then
      var taken := Taken(queues, budget, round, n - 1);
      Picked(queues, budget, round, n - 1) +
      if Taken(queues, budget, round, n) != taken then [queues[n - 1][taken[n - 1]]] else []
    else if round > 0 then Picked(queues, budget, round - 1, |queues|)
    else []
  }

  lemma {:induction false} SpentStep(queues: seq<seq<Tool>>, taken: seq<nat>, g: nat, n: nat)
    requires Counts(queues, taken) && g < |queues| && n <= |queues| && taken[g] < |queues[g]|
    ensures Spent(queues, taken[g := taken[g] + 1], n) ==
      Spent(queues, taken, n) + if g < n then Cost(queues[g][taken[g]]) else 0
  {
    if n > 0 { SpentStep(queues, taken, g, n - 1); }
  }

  lemma {:induction false} ChosenStep(queues: seq<seq<Tool>>, taken: seq<nat>, g: nat, x: Tool, n: nat)
    requires Counts(queues, taken) && g < |queues| && n <= |queues| && taken[g] < |queues[g]|
    ensures Chosen(queues, taken[g := taken[g] + 1], x, n) ==
      Chosen(queues, taken, x, n) + if g < n && queues[g][taken[g]] == x then 1 else 0
  {
    if n > 0 {
      ChosenStep(queues, taken, g, x, n - 1);
      if g == n - 1 {
        assert queues[g][..taken[g] + 1] == queues[g][..taken[g]] + [queues[g][taken[g]]];
        OccursAppend(queues[g][..taken[g]], [queues[g][taken[g]]], x);
      }
    }
  }

  function TotalCost(tools: seq<Tool>): nat { CostTo(tools, |tools|) }

  lemma {:induction false} CostToAppend(tools: seq<Tool>, t: Tool, k: nat)
    requires k <= |tools|
    ensures CostTo(tools + [t], k) == CostTo(tools, k)
  {
    if k > 0 { CostToAppend(tools, t, k - 1); }
  }

  /** A turn takes nothing, or the next tool of its group. */
  predicate OneTurn(queues: seq<seq<Tool>>, g: nat, taken: seq<nat>, after: seq<nat>,
                    picked: seq<Tool>, more: seq<Tool>)
    requires Counts(queues, taken) && Counts(queues, after) && g < |queues|
  {
    || (after == taken && more == picked)
    || (taken[g] < |queues[g]| && after == taken[g := taken[g] + 1] && more == picked + [queues[g][taken[g]]])
  }

  lemma TurnIsOne(queues: seq<seq<Tool>>, budget: int, round: nat, n: nat)
    requires 0 < n <= |queues|
    ensures OneTurn(queues, n - 1, Taken(queues, budget, round, n - 1), Taken(queues, budget, round, n),
                    Picked(queues, budget, round, n - 1), Picked(queues, budget, round, n))
  {
    var picked := Picked(queues, budget, round, n - 1);
    assert picked + [] == picked;
  }

  lemma TurnCosts(queues: seq<seq<Tool>>, g: nat, taken: seq<nat>, after: seq<nat>, picked: seq<Tool>, more: seq<Tool>)
    requires Counts(queues, taken) && Counts(queues, after) && g < |queues|
    requires OneTurn(queues, g, taken, after, picked, more) && TotalCost(picked) == Spent(queues, taken)
    ensures TotalCost(more) == Spent(queues, after)
  {
    if more != picked {
      SpentStep(queues, taken, g, |queues|);
      CostToAppend(picked, queues[g][taken[g]], |picked|);
    }
  }

  lemma TurnTakes(queues: seq<seq<Tool>>, g: nat, taken: seq<nat>, after: seq<nat>, picked: seq<Tool>, more: seq<Tool>,
      x: Tool)
    requires Counts(queues, taken) && Counts(queues, after) && g < |queues|
    requires OneTurn(queues, g, taken, after, picked, more) && Occurs(picked, x) == Chosen(queues, taken, x)
    ensures Occurs(more, x) == Chosen(queues, after, x)
  {
    if more != picked {
      ChosenStep(queues, taken, g, x, |queues|);
      OccursAppend(picked, [queues[g][taken[g]]], x);
    }
  }

  /** What was picked costs what was spent. */
  lemma {:induction false} PicksCost(queues: seq<seq<Tool>>, budget: int, round: nat, n: nat)
    requires n <= |queues|
    ensures TotalCost(Picked(queues, budget, round, n)) == Spent(queues, Taken(queues, budget, round, n))
    decreases round, n
  {
    var after, more := Taken(queues, budget, round, n), Picked(queues, budget, round, n);
    if n > 0 {
      PicksCost(queues, budget, round, n - 1);
      TurnIsOne(queues, budget, round, n);
      TurnCosts(queues, n - 1, Taken(queues, budget, round, n - 1), after, Picked(queues, budget, round, n - 1), more);
    } else if round > 0 {
      PicksCost(queues, budget, round - 1, |queues|);
    } else {
      NothingSpent(queues, Tool("", ""), |queues|);
    }
  }

  /** Cheapest first: what was picked are the first tools of every group's queue, each as often as it
      occurs there. */
  lemma {:induction false} PicksAreTaken(queues: seq<seq<Tool>>, budget: int, round: nat, n: nat, x: Tool)
    requires n <= |queues|
    ensures Occurs(Picked(queues, budget, round, n), x) == Chosen(queues, Taken(queues, budget, round, n), x)
    decreases round, n
  {
    var after, more := Taken(queues, budget, round, n), Picked(queues, budget, round, n);
    if n > 0 {
      PicksAreTaken(queues, budget, round, n - 1, x);
      TurnIsOne(queues, budget, round, n);
      var taken, picked := Taken(queues, budget, round, n - 1), Picked(queues, budget, round, n - 1);
      TurnTakes(queues, n - 1, taken, after, picked, more, x);
    } else if round > 0 {
      PicksAreTaken(queues, budget, round - 1, |queues|, x);
    } else {
      NothingSpent(queues, x, |queues|);
    }
  }

  /** Budget: what is picked never costs more. */
  lemma {:induction false} WithinBudget(queues: seq<seq<Tool>>, budget: int, round: nat, n: nat)
    requires budget >= 0 && n <= |queues|
    ensures Spent(queues, Taken(queues, budget, round, n)) <= budget
    decreases round, n
  {
    if n > 0 {
      WithinBudget(queues, budget, round, n - 1);
      var before := Taken(queues, budget, round, n - 1);
      if before[n - 1] < |queues[n - 1]| { SpentStep(queues, before, n - 1, |queues|); }
    } else if round > 0 {
      WithinBudget(queues, budget, round - 1, |queues|);
    } else {
      NothingSpent(queues, Tool("", ""), |queues|);
    }
  }

  lemma {:induction false} NothingSpent(queues: seq<seq<Tool>>, x: Tool, n: nat)
    requires n <= |queues|
    ensures Spent(queues, seq(|queues|, _ => 0), n) == 0 && Chosen(queues, seq(|queues|, _ => 0), x, n) == 0
  {
    if n > 0 { NothingSpent(queues, x, n - 1); }
  }

  /** Out for good: the group's next tool does not fit, and nothing is ever given back. */
  predicate Out(queues: seq<seq<Tool>>, taken: seq<nat>, budget: int, g: nat)
    requires Counts(queues, taken) && g < |queues|
  {
    taken[g] < |queues[g]| ==> !FitsNext(queues, taken, budget, g)
  }

  /** Where each group stands in a round: one that had its turn has contributed one more than the
      rounds before, and one still waiting exactly as many, unless it is out. */
  ghost predicate InStep(queues: seq<seq<Tool>>, budget: int, taken: seq<nat>, round: nat, n: nat)
    requires Counts(queues, taken) && n <= |queues|
  {
    forall g | 0 <= g < |queues| ::
      var turns := if g < n then round + 1 else round;
      taken[g] <= turns && (taken[g] < turns ==> Out(queues, taken, budget, g))
  }

  /** Round robin: after `round` rounds every group that is not out has contributed exactly `round`. */
  lemma {:induction false} RoundsInStep(queues: seq<seq<Tool>>, budget: int, round: nat, n: nat)
    requires n <= |queues|
    ensures InStep(queues, budget, Taken(queues, budget, round, n), round, n)
    decreases round, n
  {
    if n > 0 {
      RoundsInStep(queues, budget, round, n - 1);
      var before := Taken(queues, budget, round, n - 1);
      TurnInStep(queues, budget, before, round, n - 1);
    } else if round > 0 {
      RoundsInStep(queues, budget, round - 1, |queues|);
    }
  }

  lemma TurnInStep(queues: seq<seq<Tool>>, budget: int, taken: seq<nat>, round: nat, n: nat)
    requires Counts(queues, taken) && n < |queues| && InStep(queues, budget, taken, round, n)
    ensures InStep(queues, budget, Turn(queues, budget, taken, round, n), round, n + 1)
  {
    var after := Turn(queues, budget, taken, round, n);
    if taken[n] < |queues[n]| { SpentStep(queues, taken, n, |queues|); }
    forall g | 0 <= g < |queues|
      ensures var turns := if g < n + 1 then round + 1 else round;
        after[g] <= turns && (after[g] < turns ==> Out(queues, after, budget, g)) {
      if g != n { assert after[g] == taken[g]; }
    }
  }

  function Longest(queues: seq<seq<Tool>>): (m: nat)
    ensures forall g | 0 <= g < |queues| :: |queues[g]| <= m
  {
    if queues == [] then 0
    else
      var m := Longest(queues[..|queues| - 1]);
      if |queues[|queues| - 1]| > m then |queues[|queues| - 1]| else m
  }

  /** The counts in the end: there is nothing left to take after as many rounds as the longest group
      has tools. */
  function Final(queues: seq<seq<Tool>>, budget: int): (r: seq<nat>)
    ensures Counts(queues, r)
  {
    Taken(queues, budget, Longest(queues), 0)
  }

  function FinalPicks(queues: seq<seq<Tool>>, budget: int): seq<Tool> {
    Picked(queues, budget, Longest(queues), 0)
  }

  /** Maximality: no tool left out fits in what is left of the budget. */
  lemma NothingLeftFits(queues: seq<seq<Tool>>, budget: int, g: nat, k: nat)
    requires g < |queues| && Sorted(CheaperLe, queues[g])
    requires Final(queues, budget)[g] <= k < |queues[g]|
    ensures Spent(queues, Final(queues, budget)) + Cost(queues[g][k]) > budget
  {
    var taken := Final(queues, budget);
    RoundsInStep(queues, budget, Longest(queues), 0);
    assert Out(queues, taken, budget, g);
    if taken[g] < k { assert CheaperLe(queues[g][taken[g]], queues[g][k]); }
  }

  // ---------------------------------------------------------------- the loop

  /** No group in a range is active: their turns change nothing. */
  lemma {:induction false} Skipped(queues: seq<seq<Tool>>, budget: int, round: nat, m: nat, n: nat)
    requires m <= n <= |queues|
    requires forall g | m <= g < n :: Taken(queues, budget, round, m)[g] != round || |queues[g]| <= round
    ensures Taken(queues, budget, round, n) == Taken(queues, budget, round, m)
    ensures Picked(queues, budget, round, n) == Picked(queues, budget, round, m)
    decreases n
  {
    if m < n { Skipped(queues, budget, round, m, n - 1); }
  }

  lemma {:induction false} RoundsStop(queues: seq<seq<Tool>>, budget: int, round: nat, later: nat)
    requires round <= later
    requires forall g | 0 <= g < |queues| :: Taken(queues, budget, round, 0)[g] != round || |queues[g]| <= round
    ensures Taken(queues, budget, later, 0) == Taken(queues, budget, round, 0)
    ensures Picked(queues, budget, later, 0) == Picked(queues, budget, round, 0)
    decreases later
  {
    if round < later {
      RoundsStop(queues, budget, round, later - 1);
      var t := Taken(queues, budget, round, 0);
      RoundsInStep(queues, budget, round, 0);
      Skipped(queues, budget, later - 1, 0, |queues|);
    }
  }

  /** What is left, after `round` rounds, of the active groups among the first `n`. */
  function RestTo(groups: seq<seq<Tool>>, taken: seq<nat>, round: nat, n: nat): seq<seq<Tool>>
    requires Counts(groups, taken) && n <= |groups|
  {
    if n == 0 then []
    else
      RestTo(groups, taken, round, n - 1) +
      if Active(groups, taken, round, n - 1) then [groups[n - 1][round..]] else []
  }

  /** The same for the groups from `n` on. */
  function RestFrom(groups: seq<seq<Tool>>, taken: seq<nat>, round: nat, n: nat): seq<seq<Tool>>
    requires Counts(groups, taken) && n <= |groups|
    decreases |groups| - n
  {
    if n == |groups| then []
    else
      (if Active(groups, taken, round, n) then [groups[n][round..]] else []) + RestFrom(groups, taken, round, n + 1)
  }

  lemma {:induction false} RestIsRest(groups: seq<seq<Tool>>, taken: seq<nat>, round: nat, n: nat)
    requires Counts(groups, taken) && n <= |groups|
    ensures RestTo(groups, taken, round, |groups|) ==
      RestTo(groups, taken, round, n) + RestFrom(groups, taken, round, n)
    decreases |groups| - n
  {
    if n < |groups| {
      RestIsRest(groups, taken, round, n + 1);
      var one := if Active(groups, taken, round, n) then [groups[n][round..]] else [];
      assert RestTo(groups, taken, round, n + 1) == RestTo(groups, taken, round, n) + one;
      assert RestFrom(groups, taken, round, n) == one + RestFrom(groups, taken, round, n + 1);
    }
  }

  lemma {:induction false} AllAtFirst(groups: seq<seq<Tool>>, n: nat)
    requires n <= |groups| && forall g | 0 <= g < |groups| :: groups[g] != []
    ensures RestTo(groups, seq(|groups|, _ => 0), 0, n) == groups[..n]
  {
    if n > 0 { AllAtFirst(groups, n - 1); }
  }

  lemma {:induction false} RestToFrame(groups: seq<seq<Tool>>, taken: seq<nat>, other: seq<nat>, round: nat, n: nat)
    requires Counts(groups, taken) && Counts(groups, other) && n <= |groups| && taken[..n] == other[..n]
    ensures RestTo(groups, taken, round, n) == RestTo(groups, other, round, n)
  {
    if n > 0 {
      assert taken[n - 1] == taken[..n][n - 1] == other[..n][n - 1] == other[n - 1];
      assert taken[..n - 1] == taken[..n][..n - 1] == other[..n][..n - 1] == other[..n - 1];
      RestToFrame(groups, taken, other, round, n - 1);
    }
  }

  /** `picked`, at a cost of `spent`, is what the turns gave. */
  ghost predicate Bought(groups: seq<seq<Tool>>, budget: int, round: nat, n: nat, picked: seq<Tool>, spent: int)
    requires n <= |groups|
  {
    spent == Spent(groups, Taken(groups, budget, round, n)) && picked == Picked(groups, budget, round, n)
  }

  /** A round in progress: the groups before `n` had their turn, `left` is what waits of the others, who
      stand as they did when the round began, and `next` is what goes on to the next round. */
  ghost predicate Progress(groups: seq<seq<Tool>>, budget: int, round: nat, n: nat, left: seq<seq<Tool>>,
                           next: seq<seq<Tool>>, picked: seq<Tool>, spent: int) {
    && n <= |groups|
    && Bought(groups, budget, round, n, picked, spent)
    && left == RestFrom(groups, Taken(groups, budget, round, 0), round, n)
    && next == RestTo(groups, Taken(groups, budget, round, n), round + 1, n)
    && AsBefore(groups, budget, round, n)
  }

  ghost predicate AsBefore(groups: seq<seq<Tool>>, budget: int, round: nat, n: nat)
    requires n <= |groups|
  {
    forall g | n <= g < |groups| :: Taken(groups, budget, round, n)[g] == Taken(groups, budget, round, 0)[g]
  }

  /** Between rounds. */
  ghost predicate Between(groups: seq<seq<Tool>>, budget: int, round: nat, queues: seq<seq<Tool>>, picked: seq<Tool>,
      spent: int) {
    && Bought(groups, budget, round, 0, picked, spent)
    && queues == RestTo(groups, Taken(groups, budget, round, 0), round, |groups|)
  }

  /** The round-robin loop picks exactly what the turns, taken one by one, give each group. */
  method Pick(groups: seq<seq<Tool>>, budget: int) returns (picked: seq<Tool>)
    requires forall g | 0 <= g < |groups| :: groups[g] != []
    ensures picked == FinalPicks(groups, budget)
  {
    var queues, spent := groups, 0;
    picked := [];
    ghost var round := 0;
    Begin(groups, budget);
    while queues != []
      invariant Between(groups, budget, round, queues, picked, spent)
      decreases Longest(groups) - round
    {
      SomeoneLeft(groups, budget, round, |groups|);
      queues, picked, spent := PickRound(groups, budget, queues, picked, spent, round);
      round := round + 1;
    }
    NobodyLeft(groups, budget, round);
  }

  method PickRound(ghost groups: seq<seq<Tool>>, budget: int, queues: seq<seq<Tool>>, picked0: seq<Tool>, spent0: int,
                   ghost round: nat)
    returns (next: seq<seq<Tool>>, picked: seq<Tool>, spent: int)
    requires Between(groups, budget, round, queues, picked0, spent0)
    ensures Between(groups, budget, round + 1, next, picked, spent)
  {
    next, picked, spent := [], picked0, spent0;
    ghost var n: nat := 0;
    RestIsRest(groups, Taken(groups, budget, round, 0), round, 0);
    for x := 0 to |queues|
      invariant Progress(groups, budget, round, n, queues[x..], next, picked, spent)
    {
      n := PassOver(groups, budget, round, n, queues[x..], next, picked, spent);
      TakeTurn(groups, budget, round, n, queues[x..], next, picked, spent);
      assert queues[x..][1..] == queues[x + 1..];
      n := n + 1;
      var queue := queues[x];
      var head := queue[0];
      if spent + Cost(head) > budget { continue; }
      queue := queue[1..];
      picked := picked + [head];
      spent := spent + Cost(head);
      if |queue| > 0 { next := next + [queue]; }
    }
    PassToEnd(groups, budget, round, n, next, picked, spent);
    RoundOver(groups, budget, round, next, picked, spent);
  }

  lemma Begin(groups: seq<seq<Tool>>, budget: int)
    requires forall g | 0 <= g < |groups| :: groups[g] != []
    ensures Between(groups, budget, 0, groups, [], 0)
  {
    NothingSpent(groups, Tool("", ""), |groups|);
    AllAtFirst(groups, |groups|);
  }

  /** While some group is left, there were fewer rounds than the longest group has tools. */
  lemma {:induction false} SomeoneLeft(groups: seq<seq<Tool>>, budget: int, round: nat, n: nat)
    requires n <= |groups| && RestTo(groups, Taken(groups, budget, round, 0), round, n) != []
    ensures round < Longest(groups)
  {
    if !Active(groups, Taken(groups, budget, round, 0), round, n - 1) { SomeoneLeft(groups, budget, round, n - 1); }
  }

  lemma {:induction false} NoneActive(groups: seq<seq<Tool>>, taken: seq<nat>, round: nat, n: nat)
    requires Counts(groups, taken) && n <= |groups| && RestTo(groups, taken, round, n) == []
    ensures forall g | 0 <= g < n :: !Active(groups, taken, round, g)
  {
    if n > 0 { NoneActive(groups, taken, round, n - 1); }
  }

  lemma NobodyLeft(groups: seq<seq<Tool>>, budget: int, round: nat)
    requires RestTo(groups, Taken(groups, budget, round, 0), round, |groups|) == []
    ensures Taken(groups, budget, round, 0) == Final(groups, budget)
    ensures Picked(groups, budget, round, 0) == FinalPicks(groups, budget)
  {
    var taken := Taken(groups, budget, round, 0);
    NoneActive(groups, taken, round, |groups|);
    forall g | 0 <= g < |groups| ensures taken[g] != round || |groups[g]| <= round {
      assert !Active(groups, taken, round, g);
    }
    if round <= Longest(groups) {
      RoundsStop(groups, budget, round, Longest(groups));
    } else {
      RoundsStop(groups, budget, Longest(groups), round);
    }
  }

  lemma PassOne(groups: seq<seq<Tool>>, budget: int, round: nat, n: nat, left: seq<seq<Tool>>,
                next: seq<seq<Tool>>, picked: seq<Tool>, spent: int)
    requires Progress(groups, budget, round, n, left, next, picked, spent)
    requires n < |groups| && !Active(groups, Taken(groups, budget, round, 0), round, n)
    ensures Progress(groups, budget, round, n + 1, left, next, picked, spent)
  {
    assert Taken(groups, budget, round, n)[n] == Taken(groups, budget, round, 0)[n];
    RoundsInStep(groups, budget, round, n);
    assert Taken(groups, budget, round, n + 1) == Taken(groups, budget, round, n);
  }

  /** The first of the groups left is the next active one. */
  lemma {:induction false} PassOver(groups: seq<seq<Tool>>, budget: int, round: nat, n: nat, left: seq<seq<Tool>>,
                                    next: seq<seq<Tool>>, picked: seq<Tool>, spent: int)
    returns (g: nat)
    requires Progress(groups, budget, round, n, left, next, picked, spent) && left != []
    ensures Progress(groups, budget, round, g, left, next, picked, spent)
    ensures g < |groups| && Active(groups, Taken(groups, budget, round, 0), round, g)
    decreases |groups| - n
  {
    g := n;
    if !Active(groups, Taken(groups, budget, round, 0), round, n) {
      PassOne(groups, budget, round, n, left, next, picked, spent);
      g := PassOver(groups, budget, round, n + 1, left, next, picked, spent);
    }
  }

  lemma {:induction false} PassToEnd(groups: seq<seq<Tool>>, budget: int, round: nat, n: nat,
                                     next: seq<seq<Tool>>, picked: seq<Tool>, spent: int)
    requires Progress(groups, budget, round, n, [], next, picked, spent)
    ensures Progress(groups, budget, round, |groups|, [], next, picked, spent)
    decreases |groups| - n
  {
    if n < |groups| {
      PassOne(groups, budget, round, n, [], next, picked, spent);
      PassToEnd(groups, budget, round, n + 1, next, picked, spent);
    }
  }

  lemma RoundOver(groups: seq<seq<Tool>>, budget: int, round: nat, next: seq<seq<Tool>>, picked: seq<Tool>, spent: int)
    requires Progress(groups, budget, round, |groups|, [], next, picked, spent)
    ensures Between(groups, budget, round + 1, next, picked, spent)
  {
  }

  /** The turn of an active group. */
  lemma TakeTurn(groups: seq<seq<Tool>>, budget: int, round: nat, g: nat, left: seq<seq<Tool>>,
                 next: seq<seq<Tool>>, picked: seq<Tool>, spent: int)
    requires Progress(groups, budget, round, g, left, next, picked, spent)
    requires g < |groups| && Active(groups, Taken(groups, budget, round, 0), round, g)
    ensures left != [] && left[0] != []
    ensures var queue := left[0];
      if spent + Cost(queue[0]) > budget then Progress(groups, budget, round, g + 1, left[1..], next, picked, spent)
      else Progress(groups, budget, round, g + 1, left[1..], if |queue| > 1 then next + [queue[1..]] else next,
                    picked + [queue[0]], spent + Cost(queue[0]))
  {
    var taken, after := Taken(groups, budget, round, g), Taken(groups, budget, round, g + 1);
    assert taken[g] == Taken(groups, budget, round, 0)[g];
    SpentStep(groups, taken, g, |groups|);
    RestToFrame(groups, taken, after, round + 1, g);
  }
}
