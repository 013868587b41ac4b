// The catalog as a whole (declarations.ts, renderToolCatalog): tools grouped by server, each group
// cheapest first, the round-robin picks of Catalog over them, and the text they make.

module ToolCatalog {
  import opened Catalog

  // ---------------------------------------------------------------- grouping

  function UpToSeparator(s: string): string {
    if s == "" || (|s| >= 2 && s[0] == '_' && s[1] == '_') then "" else [s[0]] + UpToSeparator(s[1..])
  }

  /** The server in `mcp__<server>__<tool>`; the empty name for every other tool. */
  function NamespaceOf(name: string): string {
    if |name| >= 5 && name[..5] == "mcp__" then UpToSeparator(name[5..]) else ""
  }

  /** Two underscores at `i`. */
  predicate Separates(s: string, i: nat) { i + 1 < |s| && s[i] == '_' && s[i + 1] == '_' }

  /** The text up to the first two underscores, or all of it. */
  predicate IsUpTo(s: string, part: string) {
    && part <= s && (part == s || Separates(s, |part|))
    && forall i | 0 <= i < |part| :: !Separates(s, i)
  }

  lemma {:induction false} UpToSeparatorExactly(s: string, part: string)
    ensures UpToSeparator(s) == part <==> IsUpTo(s, part)
  {
    if s != "" && !Separates(s, 0) {
      var rest := s[1..];
      forall i: nat ensures Separates(s, i + 1) <==> Separates(rest, i) { }
      UpToSeparatorExactly(rest, UpToSeparator(rest));
      if part != "" {
        UpToSeparatorExactly(rest, part[1..]);
        assert part == [part[0]] + part[1..];
        if IsUpTo(s, part) {
          assert part[0] == s[0] && part[1..] <= rest;
          forall i | 0 <= i < |part[1..]| ensures !Separates(rest, i) { assert !Separates(s, i + 1); }
        }
        if UpToSeparator(s) == part {
          forall i | 0 <= i < |part| ensures !Separates(s, i) { if i > 0 { assert !Separates(rest, i - 1); } }
        }
      }
    }
  }

  /** The server of a tool is what stands between `mcp__` and the next two underscores, and no other tool has
      one. */
  lemma NamespaceExactly(name: string, ns: string)
    ensures NamespaceOf(name) == ns <==> if "mcp__" <= name then IsUpTo(name[5..], ns) else ns == ""
  {
    if "mcp__" <= name { UpToSeparatorExactly(name[5..], ns); }
  }

  function InNamespace(tools: seq<Tool>, ns: string): seq<Tool> {
    if tools == [] then []
    else
      var t := tools[|tools| - 1];
      InNamespace(tools[..|tools| - 1], ns) + if NamespaceOf(t.name) == ns then [t] else []
  }

  /** Namespaces in order of first appearance. */
  function Namespaces(tools: seq<Tool>): seq<string> {
    if tools == [] then []
    else
      var ns := NamespaceOf(tools[|tools| - 1].name);
      var r := Namespaces(tools[..|tools| - 1]);
      if ns in r then r else r + [ns]
  }

  /** The queue of each namespace, cheapest tool first. */
  function QueuesOf(tools: seq<Tool>, names: seq<string>): (r: seq<seq<Tool>>)
    ensures |r| == |names|
    ensures forall g | 0 <= g < |r| :: r[g] == Sort(CheaperLe, InNamespace(tools, names[g]))
  {
    seq(|names|, g requires 0 <= g < |names| => Sort(CheaperLe, InNamespace(tools, names[g])))
  }

  function Queues(tools: seq<Tool>): seq<seq<Tool>> { QueuesOf(tools, Sort(NameLe, Namespaces(tools))) }

  method MakeGroups(tools: seq<Tool>) returns (order: seq<string>, groups: map<string, seq<Tool>>)
    ensures order == Namespaces(tools)
    ensures forall ns | ns in order :: ns in groups && groups[ns] == InNamespace(tools, ns)
  {
    order, groups := [], map[];
    for i := 0 to |tools|
      invariant order == Namespaces(tools[..i])
      invariant forall ns :: ns in groups <==> ns in order
      invariant forall ns | ns in groups :: groups[ns] == InNamespace(tools[..i], ns)
    {
      assert tools[..i + 1][..i] == tools[..i];
      var ns := NamespaceOf(tools[i].name);
      GroupNotEmpty(tools[..i], ns);
      if ns in groups {
        groups := groups[ns := groups[ns] + [tools[i]]];
      } else {
        order := order + [ns];
        groups := groups[ns := [tools[i]]];
      }
    }
    assert tools[..|tools|] == tools;
  }

  method MakeQueues(tools: seq<Tool>) returns (queues: seq<seq<Tool>>)
    ensures queues == Queues(tools)
  {
    var order, groups := MakeGroups(tools);
    var names := Sort(NameLe, order);
    SortMembers(order);
    queues := seq(|names|, g requires 0 <= g < |names| => Sort(CheaperLe, groups[names[g]]));
  }

  lemma SortMembers(names: seq<string>)
    ensures forall x :: x in Sort(NameLe, names) <==> x in names
  {
    forall x ensures x in Sort(NameLe, names) <==> x in names {
      SortOccurs(NameLe, names, x);
      OccursIn(names, x);
      OccursIn(Sort(NameLe, names), x);
    }
  }

  lemma {:induction false} GroupNotEmpty(tools: seq<Tool>, ns: string)
    ensures InNamespace(tools, ns) != [] <==> ns in Namespaces(tools)
  {
    if tools != [] { GroupNotEmpty(tools[..|tools| - 1], ns); }
  }

  // ---------------------------------------------------------------- what grouping keeps

  ghost predicate Distinct(names: seq<string>) { forall x | x in names :: Occurs(names, x) == 1 }

  /** Each queue holds the tools of its namespace, cheapest first, and each tool is in one. */
  ghost predicate Grouped(tools: seq<Tool>, names: seq<string>, queues: seq<seq<Tool>>) {
    && Distinct(names) && |queues| == |names|
    && (forall t | t in tools :: NamespaceOf(t.name) in names)
    && (forall g | 0 <= g < |queues| :: HoldsGroup(tools, names[g], queues[g]))
  }

  ghost predicate HoldsGroup(tools: seq<Tool>, ns: string, queue: seq<Tool>) {
    && queue != [] && Sorted(CheaperLe, queue)
    && forall x :: Occurs(queue, x) == if NamespaceOf(x.name) == ns then Occurs(tools, x) else 0
  }

  lemma {:induction false} NamespacesDistinct(tools: seq<Tool>)
    ensures Distinct(Namespaces(tools))
    ensures forall t | t in tools :: NamespaceOf(t.name) in Namespaces(tools)
  {
    if tools != [] {
      var n := |tools| - 1;
      var before, ns := Namespaces(tools[..n]), NamespaceOf(tools[n].name);
      NamespacesDistinct(tools[..n]);
      forall t | t in tools ensures NamespaceOf(t.name) in Namespaces(tools) {
        if t != tools[n] { assert t in tools[..n]; }
      }
      forall x | x in Namespaces(tools) ensures Occurs(Namespaces(tools), x) == 1 {
        OccursAppend(before, [ns], x);
        OccursIn(before, x);
      }
    }
  }

  lemma OccursLast(s: seq<Tool>, t: Tool, x: Tool)
    ensures Occurs(s + [t], x) == Occurs(s, x) + if t == x then 1 else 0
  {
    OccursAppend(s, [t], x);
  }

  /** A group of some tools has all of those in its namespace, and no others, as often. */
  predicate HasThose(group: seq<Tool>, tools: seq<Tool>, ns: string, x: Tool) {
    Occurs(group, x) == if NamespaceOf(x.name) == ns then Occurs(tools, x) else 0
  }

  lemma NoneHasThose(ns: string, x: Tool)
    ensures HasThose([], [], ns, x)
  {
  }

  lemma GroupNext(before: seq<Tool>, t: Tool, tools: seq<Tool>, ns: string, x: Tool, group: seq<Tool>, more: seq<Tool>)
    requires tools == before + [t] && more == if NamespaceOf(t.name) == ns then group + [t] else group
    requires HasThose(group, before, ns, x)
    ensures HasThose(more, tools, ns, x)
  {
    OccursLast(before, t, x);
    OccursLast(group, t, x);
  }

  lemma GroupLast(tools: seq<Tool>, ns: string)
    requires tools != []
    ensures var t, group := tools[|tools| - 1], InNamespace(tools[..|tools| - 1], ns);
      InNamespace(tools, ns) == if NamespaceOf(t.name) == ns then group + [t] else group
  {
  }

  lemma {:induction false} GroupHasThose(tools: seq<Tool>, ns: string, x: Tool)
    ensures HasThose(InNamespace(tools, ns), tools, ns, x)
  {
    if tools == [] {
      NoneHasThose(ns, x);
    } else {
      var before, t := tools[..|tools| - 1], tools[|tools| - 1];
      GroupHasThose(before, ns, x);
      GroupLast(tools, ns);
      GroupNext(before, t, tools, ns, x, InNamespace(before, ns), InNamespace(tools, ns));
    }
  }

  lemma GroupOccurs(tools: seq<Tool>, ns: string, x: Tool)
    ensures Occurs(InNamespace(tools, ns), x) == if NamespaceOf(x.name) == ns then Occurs(tools, x) else 0
  {
    GroupHasThose(tools, ns, x);
  }

  lemma QueueHoldsGroup(tools: seq<Tool>, ns: string)
    requires ns in Namespaces(tools)
    ensures HoldsGroup(tools, ns, Sort(CheaperLe, InNamespace(tools, ns)))
  {
    OrdersAreTotal();
    GroupNotEmpty(tools, ns);
    var group := InNamespace(tools, ns);
    SortSorts(CheaperLe, group);
    forall x ensures Occurs(Sort(CheaperLe, group), x) == if NamespaceOf(x.name) == ns then Occurs(tools, x) else 0 {
      SortOccurs(CheaperLe, group, x);
      GroupOccurs(tools, ns, x);
    }
  }

  lemma QueuesAreGrouped(tools: seq<Tool>)
    ensures Grouped(tools, Sort(NameLe, Namespaces(tools)), Queues(tools))
  {
    var names := Sort(NameLe, Namespaces(tools));
    NamespacesDistinct(tools);
    SortMembers(Namespaces(tools));
    forall x | x in names ensures Occurs(names, x) == 1 {
      SortOccurs(NameLe, Namespaces(tools), x);
    }
    forall g | 0 <= g < |names| ensures HoldsGroup(tools, names[g], Queues(tools)[g]) {
      assert names[g] in Namespaces(tools);
      QueueHoldsGroup(tools, names[g]);
    }
  }

  // ---------------------------------------------------------------- the catalog

  /** The declarations of a list of tools: their texts, a line break between each two. */
  function Joined(tools: seq<Tool>): string {
    if tools == [] then ""
    else if |tools| == 1 then tools[0].text
    else Joined(tools[..|tools| - 1]) + "\n" + tools[|tools| - 1].text
  }

  datatype ToolCatalog = ToolCatalog(declarations: string, shown: nat, total: nat)

  /** What the catalog shows. */
  function Shown(tools: seq<Tool>, budget: int): seq<Tool> { FinalPicks(Queues(tools), budget) }

  method RenderToolCatalog(tools: seq<Tool>, budget: int) returns (catalog: ToolCatalog)
    ensures catalog == ToolCatalog(Joined(Sort(ByNameLe, Shown(tools, budget))), |Shown(tools, budget)|, |tools|)
  {
    var queues := MakeQueues(tools);
    EveryQueueHasTools(tools);
    var picked := Pick(queues, budget);
    catalog := ToolCatalog(Joined(Sort(ByNameLe, picked)), |picked|, |tools|);
  }

  lemma EveryQueueHasTools(tools: seq<Tool>)
    ensures forall g | 0 <= g < |Queues(tools)| :: Queues(tools)[g] != []
  {
    QueuesAreGrouped(tools);
    forall g | 0 <= g < |Queues(tools)| ensures Queues(tools)[g] != [] {
      assert HoldsGroup(tools, Sort(NameLe, Namespaces(tools))[g], Queues(tools)[g]);
    }
  }

  /** Where the text of the `k`-th tool begins: after those before it, with a line break for each. */
  function OffsetOf(tools: seq<Tool>, k: nat): nat
    requires k <= |tools|
  {
    if k == 0 then 0 else OffsetOf(tools, k - 1) + |tools[k - 1].text| + 1
  }

  /** The declarations are the texts of the tools, whole and in order, with line breaks between them. */
  ghost predicate HoldsTexts(text: string, tools: seq<Tool>) {
    && |text| + 1 == OffsetOf(tools, |tools|)
    && (forall k | 0 <= k < |tools| :: HoldsText(text, tools, k))
  }

  ghost predicate HoldsText(text: string, tools: seq<Tool>, k: nat)
    requires k < |tools|
  {
    var start := OffsetOf(tools, k);
    var end := start + |tools[k].text|;
    && end <= |text| && text[start..end] == tools[k].text && (end < |text| ==> text[end] == '\n')
  }

  lemma {:induction false} OffsetsGrow(tools: seq<Tool>, j: nat, k: nat)
    requires j <= k <= |tools|
    ensures OffsetOf(tools, j) <= OffsetOf(tools, k)
    decreases k
  {
    if j < k { OffsetsGrow(tools, j, k - 1); }
  }

  lemma {:induction false} OffsetsAgree(tools: seq<Tool>, t: Tool, k: nat)
    requires k <= |tools|
    ensures OffsetOf(tools + [t], k) == OffsetOf(tools, k)
  {
    if k > 0 { OffsetsAgree(tools, t, k - 1); }
  }

  lemma TextsAppend(text: string, tools: seq<Tool>, t: Tool)
    requires HoldsTexts(text, tools) && tools != []
    ensures HoldsTexts(text + "\n" + t.text, tools + [t])
  {
    var more, all := text + "\n" + t.text, tools + [t];
    var n := |tools|;
    OffsetsAgree(tools, t, n);
    forall k | 0 <= k < |all| ensures HoldsText(more, all, k) {
      if k < n {
        OffsetsAgree(tools, t, k);
        assert HoldsText(text, tools, k);
        var start, end := OffsetOf(tools, k), OffsetOf(tools, k) + |tools[k].text|;
        assert more[..|text|] == text;
        assert more[start..end] == text[start..end];
        OffsetsGrow(tools, k + 1, n);
      }
    }
  }

  /** So it is with what is joined. */
  lemma {:induction false} JoinedHoldsTexts(tools: seq<Tool>)
    requires tools != []
    ensures HoldsTexts(Joined(tools), tools)
  {
    var before, t := tools[..|tools| - 1], tools[|tools| - 1];
    assert tools == before + [t];
    if before != [] {
      JoinedHoldsTexts(before);
      TextsAppend(Joined(before), before, t);
    } else {
      assert OffsetOf(tools, 1) == |t.text| + 1;
      assert t.text[0..|t.text|] == t.text;
    }
  }

  /** Main result on the text: the catalog's declarations are the texts of the tools it shows, each as often as
      it is shown and whole, in order of name. */
  lemma CatalogText(tools: seq<Tool>, budget: int) returns (order: seq<Tool>)
    requires Shown(tools, budget) != []
    ensures order == Sort(ByNameLe, Shown(tools, budget))
    ensures HoldsTexts(Joined(order), order) && Sorted(ByNameLe, order)
    ensures forall x :: Occurs(order, x) == Occurs(Shown(tools, budget), x)
  {
    order := Sort(ByNameLe, Shown(tools, budget));
    JoinedHoldsTexts(order);
    OrdersAreTotal();
    SortSorts(ByNameLe, Shown(tools, budget));
    forall x ensures Occurs(order, x) == Occurs(Shown(tools, budget), x) {
      SortOccurs(ByNameLe, Shown(tools, budget), x);
    }
  }

  /** Length of the declarations: four characters to a token, and the line breaks. */
  lemma {:induction false} JoinedLength(tools: seq<Tool>)
    requires tools != []
    ensures |Joined(tools)| <= 4 * TotalCost(tools) + |tools| - 1
  {
    var n := |tools| - 1;
    assert tools[..n] + [tools[n]] == tools;
    CostToAppend(tools[..n], tools[n], n);
    if n > 0 { JoinedLength(tools[..n]); }
  }

  lemma {:induction false} TotalCostPrepend(t: Tool, tools: seq<Tool>)
    ensures TotalCost([t] + tools) == Cost(t) + TotalCost(tools)
  {
    if tools == [] {
      assert [t] + tools == [t];
      assert TotalCost([t]) == CostTo([t], 0) + Cost(t);
    } else {
      var n := |tools| - 1;
      TotalCostPrepend(t, tools[..n]);
      assert tools[..n] + [tools[n]] == tools;
      CostToAppend(tools[..n], tools[n], n);
      assert ([t] + tools[..n]) + [tools[n]] == [t] + tools;
      CostToAppend([t] + tools[..n], tools[n], n + 1);
    }
  }

  lemma {:induction false} InsertCost(t: Tool, tools: seq<Tool>)
    ensures TotalCost(Insert(ByNameLe, t, tools)) == Cost(t) + TotalCost(tools)
  {
    if tools == [] || ByNameLe(t, tools[0]) {
      assert Insert(ByNameLe, t, tools) == [t] + tools;
      TotalCostPrepend(t, tools);
    } else {
      InsertCost(t, tools[1..]);
      TotalCostPrepend(tools[0], Insert(ByNameLe, t, tools[1..]));
      TotalCostPrepend(tools[0], tools[1..]);
      assert [tools[0]] + tools[1..] == tools;
    }
  }

  lemma {:induction false} SortCost(tools: seq<Tool>)
    ensures TotalCost(Sort(ByNameLe, tools)) == TotalCost(tools)
  {
    if tools != [] {
      SortCost(tools[1..]);
      InsertCost(tools[0], Sort(ByNameLe, tools[1..]));
      TotalCostPrepend(tools[0], tools[1..]);
      assert [tools[0]] + tools[1..] == tools;
    }
  }

  /** Main result on the size: what is shown costs at most the budget, and its text takes at most four
      characters a token of it, and the line breaks. */
  lemma CatalogFits(tools: seq<Tool>, budget: int)
    requires budget >= 0
    ensures TotalCost(Shown(tools, budget)) <= budget
    ensures Shown(tools, budget) != [] ==>
      |Joined(Sort(ByNameLe, Shown(tools, budget)))| <= 4 * budget + |Shown(tools, budget)| - 1
  {
    var queues, shown := Queues(tools), Shown(tools, budget);
    WithinBudget(queues, budget, Longest(queues), 0);
    PicksCost(queues, budget, Longest(queues), 0);
    if shown != [] {
      SortCost(shown);
      JoinedLength(Sort(ByNameLe, shown));
    }
  }

  // ---------------------------------------------------------------- what was left out

  /** A prefix of a queue holds no more of a tool than the queue. */
  lemma PrefixOccurs(queue: seq<Tool>, k: nat, x: Tool)
    requires k <= |queue|
    ensures Occurs(queue, x) == Occurs(queue[..k], x) + Occurs(queue[k..], x)
  {
    assert queue[..k] + queue[k..] == queue;
    OccursAppend(queue[..k], queue[k..], x);
  }

  /** A tool is only ever picked from the queue of its namespace. */
  lemma {:induction false} ChosenFromOwn(tools: seq<Tool>, names: seq<string>, queues: seq<seq<Tool>>, taken: seq<nat>,
      x: Tool, g: nat, n: nat)
    requires Grouped(tools, names, queues) && Counts(queues, taken) && n <= |queues|
    requires g < |queues| && NamespaceOf(x.name) == names[g]
    ensures Chosen(queues, taken, x, n) == if g < n then Occurs(queues[g][..taken[g]], x) else 0
  {
    if n > 0 {
      ChosenFromOwn(tools, names, queues, taken, x, g, n - 1);
      if n - 1 != g {
        assert HoldsGroup(tools, names[n - 1], queues[n - 1]);
        if names[n - 1] == names[g] {
          TwiceOccurs(names, if g < n - 1 then g else n - 1, if g < n - 1 then n - 1 else g);
        }
        PrefixOccurs(queues[n - 1], taken[n - 1], x);
      }
    }
  }

  lemma TwiceOccurs(names: seq<string>, i: nat, j: nat)
    requires i < j < |names| && names[i] == names[j]
    ensures Occurs(names, names[i]) >= 2
  {
    assert names == names[..j] + names[j..];
    OccursAppend(names[..j], names[j..], names[i]);
    assert names[..j][i] == names[i] && names[j..][0] == names[i];
    OccursIn(names[..j], names[i]);
    OccursIn(names[j..], names[i]);
  }

  /** What the catalog shows of a tool: its copies among the first of its group's queue. */
  lemma ShownOfGroup(tools: seq<Tool>, names: seq<string>, queues: seq<seq<Tool>>, budget: int, x: Tool)
      returns (g: nat)
    requires Grouped(tools, names, queues) && x in tools
    ensures g < |queues| && NamespaceOf(x.name) == names[g] && Sorted(CheaperLe, queues[g])
    ensures Occurs(queues[g], x) == Occurs(tools, x)
    ensures var k := Final(queues, budget)[g];
      && Occurs(FinalPicks(queues, budget), x) == Occurs(queues[g][..k], x)
      && Occurs(tools, x) == Occurs(queues[g][..k], x) + Occurs(queues[g][k..], x)
  {
    assert NamespaceOf(x.name) in names;
    g :| 0 <= g < |names| && names[g] == NamespaceOf(x.name);
    assert HoldsGroup(tools, names[g], queues[g]);
    PicksAreTaken(queues, budget, Longest(queues), 0, x);
    ChosenFromOwn(tools, names, queues, Final(queues, budget), x, g, |queues|);
    PrefixOccurs(queues[g], Final(queues, budget)[g], x);
  }

  /** Main result on the choice. Nothing is shown that was not there, and nothing twice. A tool left out
      does not fit in what is left of the budget, and is no cheaper than any tool of its server shown. */
  lemma CatalogIsBest(tools: seq<Tool>, budget: int, u: Tool)
    ensures Occurs(Shown(tools, budget), u) <= Occurs(tools, u)
    ensures Occurs(Shown(tools, budget), u) < Occurs(tools, u) ==> TotalCost(Shown(tools, budget)) + Cost(u) > budget
    ensures Occurs(Shown(tools, budget), u) < Occurs(tools, u) ==>
      forall t | t in Shown(tools, budget) && NamespaceOf(t.name) == NamespaceOf(u.name) :: CheaperLe(t, u)
  {
    QueuesAreGrouped(tools);
    var names, queues, shown := Sort(NameLe, Namespaces(tools)), Queues(tools), Shown(tools, budget);
    OccursIn(tools, u);
    if u !in tools {
      NothingElse(tools, names, queues, budget, u);
    } else {
      var g := ShownOfGroup(tools, names, queues, budget, u);
      var k := Final(queues, budget)[g];
      if Occurs(shown, u) < Occurs(tools, u) {
        OccursIn(queues[g][k..], u);
        var i :| 0 <= i < |queues[g][k..]| && queues[g][k..][i] == u;
        NothingLeftFits(queues, budget, g, k + i);
        PicksCost(queues, budget, Longest(queues), 0);
        forall t | t in shown && NamespaceOf(t.name) == NamespaceOf(u.name) ensures CheaperLe(t, u) {
          CheaperShown(tools, names, queues, budget, t, g, k + i);
        }
      }
    }
  }

  lemma NothingElse(tools: seq<Tool>, names: seq<string>, queues: seq<seq<Tool>>, budget: int, x: Tool)
    requires Grouped(tools, names, queues) && x !in tools
    ensures Occurs(FinalPicks(queues, budget), x) == 0
  {
    OccursIn(tools, x);
    PicksAreTaken(queues, budget, Longest(queues), 0, x);
    NoneChosen(tools, names, queues, Final(queues, budget), x, |queues|);
  }

  lemma {:induction false} NoneChosen(tools: seq<Tool>, names: seq<string>, queues: seq<seq<Tool>>, taken: seq<nat>,
      x: Tool, n: nat)
    requires Grouped(tools, names, queues) && Counts(queues, taken) && n <= |queues| && Occurs(tools, x) == 0
    ensures Chosen(queues, taken, x, n) == 0
  {
    if n > 0 {
      NoneChosen(tools, names, queues, taken, x, n - 1);
      assert HoldsGroup(tools, names[n - 1], queues[n - 1]);
      PrefixOccurs(queues[n - 1], taken[n - 1], x);
    }
  }

  /** A tool shown comes before those left in its group's queue. */
  lemma CheaperShown(tools: seq<Tool>, names: seq<string>, queues: seq<seq<Tool>>, budget: int, t: Tool, g: nat, k: nat)
    requires Grouped(tools, names, queues) && t in FinalPicks(queues, budget)
    requires g < |queues| && names[g] == NamespaceOf(t.name) && Final(queues, budget)[g] <= k < |queues[g]|
    ensures CheaperLe(t, queues[g][k])
  {
    OccursIn(FinalPicks(queues, budget), t);
    if t !in tools { NothingElse(tools, names, queues, budget, t); }
    var h := ShownOfGroup(tools, names, queues, budget, t);
    if h != g { TwiceOccurs(names, if g < h then g else h, if g < h then h else g); }
    var taken := queues[g][..Final(queues, budget)[g]];
    OccursIn(taken, t);
    var j :| 0 <= j < |taken| && taken[j] == t;
    assert CheaperLe(queues[g][j], queues[g][k]);
  }
}
