// What a program calls each tool (declarations.ts, scriptNames; run-code-tool.ts, the aliases of a run;
// runtime-quickjs.ts, installBindings). Characters stand for UTF-16 code units.

module ToolNames {

  predicate IsStart(c: char) { 'A' <= c <= 'Z' || 'a' <= c <= 'z' || c == '_' || c == '$' }

  predicate IsPart(c: char) { IsStart(c) || '0' <= c <= '9' }

  predicate IsIdentifier(s: string) { s != "" && IsStart(s[0]) && forall i | 0 <= i < |s| :: IsPart(s[i]) }

  function Replaced(s: string): (r: string)
    ensures |r| == |s| && forall i | 0 <= i < |s| :: r[i] == if IsPart(s[i]) then s[i] else '_'
  {
    seq(|s|, i requires 0 <= i < |s| => if IsPart(s[i]) then s[i] else '_')
  }

  function ToIdentifier(s: string): (r: string)
    ensures IsIdentifier(r)
    ensures r == s <==> IsIdentifier(s)
  {
    var replaced := Replaced(s);
    if replaced != "" && IsStart(replaced[0]) then replaced else "_" + replaced
  }

  predicate IsDigit(c: char) { '0' <= c <= '9' }

  /** One more underscore goes before a name exactly where there would be nothing, or a digit, to begin with. */
  lemma IdentifierLength(s: string)
    ensures var r, shift := ToIdentifier(s), |ToIdentifier(s)| - |s|;
      && (shift == 0 || shift == 1) && (shift == 1 ==> r[0] == '_')
      && (shift == 1 <==> s == "" || IsDigit(s[0]))
  {
    var replaced := Replaced(s);
    assert s != "" ==> replaced[0] == if IsPart(s[0]) then s[0] else '_';
  }

  /** And every character stays in its place if identifiers may have it, and is an underscore if not. */
  lemma IdentifierExactly(s: string, i: nat)
    requires i < |s|
    ensures var r, shift := ToIdentifier(s), |ToIdentifier(s)| - |s|;
      0 <= shift && (IsPart(s[i]) ==> r[shift + i] == s[i]) && (!IsPart(s[i]) ==> r[shift + i] == '_')
  {
    ShiftedAt(Replaced(s), ToIdentifier(s), i);
  }

  lemma ShiftedAt(replaced: string, r: string, i: nat)
    requires i < |replaced| && (r == replaced || r == "_" + replaced)
    ensures |r| >= |replaced| && r[|r| - |replaced| + i] == replaced[i]
  {
  }

  /** How many of the first `n` names, other than identifiers, would be called `script`. */
  function Claims(names: seq<string>, script: string, n: nat := |names|): nat
    requires n <= |names|
  {
    if n == 0 then 0
    else Claims(names, script, n - 1) + if Wants(names[n - 1], script) then 1 else 0
  }

  predicate Wants(name: string, script: string) { !IsIdentifier(name) && ToIdentifier(name) == script }

  /** A tool is renamed when its name is no identifier, and its script name is neither the name of a tool
      nor wanted twice. */
  ghost predicate Renames(names: seq<string>, name: string) {
    && name in names && !IsIdentifier(name)
    && ToIdentifier(name) !in names && Claims(names, ToIdentifier(name)) == 1
  }

  /** Those of the first `n` names that would be called `script`. */
  function Owners(names: seq<string>, script: string, n: nat): seq<string>
    requires n <= |names|
  {
    if n == 0 then []
    else Owners(names, script, n - 1) + if Wants(names[n - 1], script) then [names[n - 1]] else []
  }

  lemma {:induction false} OwnersClaim(names: seq<string>, script: string, n: nat)
    requires n <= |names|
    ensures |Owners(names, script, n)| == Claims(names, script, n)
    ensures forall o | o in Owners(names, script, n) :: o in names && Wants(o, script)
    ensures forall i | 0 <= i < n && Wants(names[i], script) :: names[i] in Owners(names, script, n)
  {
    if n > 0 {
      OwnersClaim(names, script, n - 1);
      OwnersNext(names, script, n, Owners(names, script, n - 1), Owners(names, script, n));
    }
  }

  lemma OwnersNext(names: seq<string>, script: string, n: nat, before: seq<string>, owners: seq<string>)
    requires 0 < n <= |names|
    requires owners == before + if Wants(names[n - 1], script) then [names[n - 1]] else []
    requires forall o | o in before :: o in names && Wants(o, script)
    requires forall i | 0 <= i < n - 1 && Wants(names[i], script) :: names[i] in before
    ensures forall o | o in owners :: o in names && Wants(o, script)
    ensures forall i | 0 <= i < n && Wants(names[i], script) :: names[i] in owners
  {
  }

  /** The one owner of a script name that is no tool's name is the tool renamed to it. */
  lemma SoleOwner(names: seq<string>, script: string, name: string)
    requires script !in names
    ensures Owners(names, script, |names|) == [name] <==> Renames(names, name) && ToIdentifier(name) == script
  {
    var owners := Owners(names, script, |names|);
    OwnersClaim(names, script, |names|);
    if Renames(names, name) && ToIdentifier(name) == script {
      var i :| 0 <= i < |names| && names[i] == name;
      assert name in owners;
    }
    if owners == [name] {
      assert owners[0] in owners;
    }
  }

  /** The renaming: for exactly the tools that are to be renamed, their script name. */
  ghost predicate Renaming(names: seq<string>, renamed: map<string, string>) {
    && (forall name :: name in renamed <==> Renames(names, name))
    && (forall name | name in renamed :: renamed[name] == ToIdentifier(name))
  }

  /** Of the script names looked at, those with one owner have it renamed, and nobody else is. */
  ghost predicate RenamedFor(names: seq<string>, scripts: seq<string>, renamed: map<string, string>) {
    && (forall name | name in renamed :: Renames(names, name) && renamed[name] == ToIdentifier(name))
    && (forall i, name | 0 <= i < |scripts| && Owners(names, scripts[i], |names|) == [name] :: name in renamed)
  }

  method ScriptNames(names: seq<string>) returns (renamed: map<string, string>)
    ensures Renaming(names, renamed)
  {
    var scripts, candidates := Candidates(names);
    renamed := map[];
    for j := 0 to |scripts|
      invariant RenamedFor(names, scripts[..j], renamed)
    {
      renamed := RenameOwner(names, scripts[..j], scripts[j], candidates[scripts[j]], renamed);
      assert scripts[..j + 1] == scripts[..j] + [scripts[j]];
    }
    assert scripts[..|scripts|] == scripts;
    forall name | Renames(names, name) ensures name in renamed { HasCandidate(names, scripts, name); }
  }

  method RenameOwner(names: seq<string>, ghost before: seq<string>, script: string, owners: seq<string>,
                     renamed0: map<string, string>)
    returns (renamed: map<string, string>)
    requires RenamedFor(names, before, renamed0) && script !in names && owners == Owners(names, script, |names|)
    ensures RenamedFor(names, before + [script], renamed)
  {
    renamed := renamed0;
    if |owners| == 1 {
      SoleOwner(names, script, owners[0]);
      renamed := renamed[owners[0] := script];
    }
  }

  /** A tool that is to be renamed is the one owner of a script name wanted. */
  lemma HasCandidate(names: seq<string>, scripts: seq<string>, name: string)
    requires forall script :: script in scripts <==> script !in names && Claims(names, script) > 0
    requires Renames(names, name)
    ensures exists i | 0 <= i < |scripts| :: Owners(names, scripts[i], |names|) == [name]
  {
    SoleOwner(names, ToIdentifier(name), name);
    var i :| 0 <= i < |scripts| && scripts[i] == ToIdentifier(name);
  }

  method Candidates(names: seq<string>) returns (scripts: seq<string>, candidates: map<string, seq<string>>)
    ensures forall script :: script in candidates <==> script in scripts
    ensures forall script :: script in scripts <==> script !in names && Claims(names, script) > 0
    ensures forall script | script in scripts :: candidates[script] == Owners(names, script, |names|)
  {
    scripts, candidates := [], map[];
    for i := 0 to |names|
      invariant forall script :: script in candidates <==> script in scripts
      invariant forall script :: script in scripts <==> script !in names && Claims(names, script, i) > 0
      invariant forall script | script in scripts :: candidates[script] == Owners(names, script, i)
    {
      if IsIdentifier(names[i]) { continue; }
      var script := ToIdentifier(names[i]);
      if script in names { continue; }
      if script in candidates {
        candidates := candidates[script := candidates[script] + [names[i]]];
      } else {
        OwnersClaim(names, script, i);
        candidates := candidates[script := [names[i]]];
        scripts := scripts + [script];
      }
    }
  }

  // ---------------------------------------------------------------- what the program sees

  /** A property of the `tools` object: the tool its function calls, and whether it is listed. */
  datatype Property = Property(tool: string, enumerable: bool)

  /** An alias that is given: it hides no tool, and there is a tool behind it. */
  predicate Keeps(bindings: seq<string>, aliases: map<string, string>, a: string) {
    a in aliases && a !in bindings && aliases[a] in bindings
  }

  ghost predicate HasAlias(bindings: seq<string>, aliases: map<string, string>, name: string) {
    exists a :: Keeps(bindings, aliases, a) && aliases[a] == name
  }

  method KeptAliases(bindings: seq<string>, aliases: map<string, string>, order: seq<string>)
    returns (kept: seq<string>, aliased: set<string>)
    requires forall a :: a in order <==> a in aliases
    ensures forall a :: a in kept <==> Keeps(bindings, aliases, a)
    ensures forall t :: t in aliased <==> HasAlias(bindings, aliases, t)
  {
    kept, aliased := [], {};
    for j := 0 to |order|
      invariant forall a | a in kept :: Keeps(bindings, aliases, a) && aliases[a] in aliased
      invariant forall i | 0 <= i < j && Keeps(bindings, aliases, order[i]) :: order[i] in kept
      invariant forall t | t in aliased :: HasAlias(bindings, aliases, t)
    {
      if order[j] !in bindings && aliases[order[j]] in bindings {
        assert Keeps(bindings, aliases, order[j]);
        kept := kept + [order[j]];
        aliased := aliased + {aliases[order[j]]};
      }
    }
  }

  /** A tool under its own name, listed unless it has an alias. */
  predicate Own(tools: map<string, Property>, aliased: set<string>, k: string) {
    k in tools && tools[k].tool == k && (tools[k].enumerable <==> k !in aliased)
  }

  method InstallBindings(bindings: seq<string>, aliases: map<string, string>, order: seq<string>)
    returns (tools: map<string, Property>)
    requires forall a :: a in order <==> a in aliases
    ensures Bound(bindings, aliases, tools)
  {
    var kept, aliased := KeptAliases(bindings, aliases, order);
    var functions: map<string, string> := map[];
    tools := map[];
    for i := 0 to |bindings|
      invariant functions.Keys == tools.Keys
      invariant forall k | k in tools :: k in bindings && functions[k] == k && Own(tools, aliased, k)
      invariant forall h | 0 <= h < i :: bindings[h] in tools
    {
      functions := functions[bindings[i] := bindings[i]];
      tools := tools[bindings[i] := Property(bindings[i], bindings[i] !in aliased)];
    }
    for j := 0 to |kept|
      invariant forall k | k in bindings :: k in tools && Own(tools, aliased, k)
      invariant forall k | k in tools ::
        k in bindings || (Keeps(bindings, aliases, k) && tools[k] == Property(aliases[k], true))
      invariant forall h | 0 <= h < j :: kept[h] in tools
    {
      assert kept[j] in kept;
      assert aliases[kept[j]] in functions;
      tools := tools[kept[j] := Property(functions[aliases[kept[j]]], true)];
    }
  }

  /** The aliases of a run: script name to tool. */
  ghost predicate Inverse(renamed: map<string, string>, aliases: map<string, string>) {
    && (forall name | name in renamed :: renamed[name] in aliases && aliases[renamed[name]] == name)
    && (forall a | a in aliases :: aliases[a] in renamed && renamed[aliases[a]] == a)
  }

  /** The name a tool is declared and listed under. */
  function ShownAs(renamed: map<string, string>, name: string): string {
    if name in renamed then renamed[name] else name
  }

  /** The tools of a run, as the program has them. */
  method ToolsOfRun(names: seq<string>) returns (renamed: map<string, string>, tools: map<string, Property>)
    ensures Renaming(names, renamed)
    ensures Sees(names, renamed, tools)
  {
    renamed := ScriptNames(names);
    ScriptNamesDiffer(names, renamed);
    var aliases: map<string, string>, order: seq<string> := map[], [];
    for i := 0 to |names|
      invariant forall a :: a in order <==> a in aliases
      invariant forall name | name in names[..i] && name in renamed ::
        renamed[name] in aliases && aliases[renamed[name]] == name
      invariant forall a | a in aliases :: aliases[a] in renamed && renamed[aliases[a]] == a
    {
      assert names[..i + 1] == names[..i] + [names[i]];
      if names[i] in renamed {
        aliases := aliases[renamed[names[i]] := names[i]];
        order := order + [renamed[names[i]]];
      }
    }
    assert names[..|names|] == names;
    tools := InstallBindings(names, aliases, order);
    SeesEachOnce(names, renamed, aliases, tools);
  }

  /** A tool is listed under exactly one name, the one it is declared under, and that name reaches it;
      its own name reaches it too. */
  ghost predicate SeesTool(renamed: map<string, string>, tools: map<string, Property>, name: string) {
    && name in tools && tools[name].tool == name
    && (forall k | k in tools :: tools[k].enumerable && tools[k].tool == name <==> k == ShownAs(renamed, name))
    && ShownAs(renamed, name) in tools
  }

  /** That of every tool, and no name reaches anything else. */
  ghost predicate Sees(names: seq<string>, renamed: map<string, string>, tools: map<string, Property>) {
    && (forall name | name in names :: SeesTool(renamed, tools, name))
    && (forall k | k in tools :: tools[k].tool in names && (k == tools[k].tool || k == ShownAs(renamed, tools[k].tool)))
  }

  /** The properties of `tools` for a set of bindings and their aliases. */
  ghost predicate Bound(names: seq<string>, aliases: map<string, string>, tools: map<string, Property>) {
    && (forall k :: k in tools <==> k in names || Keeps(names, aliases, k))
    && (forall k | k in names :: tools[k].tool == k && (tools[k].enumerable <==> !HasAlias(names, aliases, k)))
    && (forall k | Keeps(names, aliases, k) :: tools[k] == Property(aliases[k], true))
  }

  /** Every tool is reached by its own name, and by each alias that is no tool's name; no name reaches what is
      not there; and a tool is listed by its own name exactly when no alias of it is. */
  lemma BindingsReach(names: seq<string>, aliases: map<string, string>, tools: map<string, Property>)
    requires Bound(names, aliases, tools)
    ensures forall k :: k in tools <==> k in names || (k in aliases && aliases[k] in names)
    ensures forall k | k in tools :: tools[k].tool == (if k in names then k else aliases[k]) && tools[k].tool in names
    ensures forall k | k in tools && k !in names :: tools[k].enumerable
    ensures forall k | k in names ::
      tools[k].enumerable <==> forall a | a in aliases && aliases[a] == k :: a in names
  {
  }

  lemma SeesEachOnce(names: seq<string>, renamed: map<string, string>, aliases: map<string, string>,
      tools: map<string, Property>)
    requires Renaming(names, renamed) && Inverse(renamed, aliases) && Bound(names, aliases, tools)
    ensures Sees(names, renamed, tools)
  {
  }

  // ---------------------------------------------------------------- script names

  /** Script names are identifiers, no tool has one for its own name, and no two tools share one. */
  lemma ScriptNamesDiffer(names: seq<string>, renamed: map<string, string>)
    requires Renaming(names, renamed)
    ensures forall name | name in renamed :: IsIdentifier(renamed[name]) && renamed[name] !in names
    ensures forall a, b | a in renamed && b in renamed && renamed[a] == renamed[b] :: a == b
  {
    forall a, b | a in renamed && b in renamed && renamed[a] == renamed[b] ensures a == b {
      assert Renames(names, a) && Renames(names, b);
      SoleOwner(names, renamed[a], a);
      SoleOwner(names, renamed[a], b);
    }
  }

  /** A tool keeps a name that is no identifier exactly when its script name is taken, or another place in
      the list would have the same. */
  lemma UnrenamedExactly(names: seq<string>, renamed: map<string, string>, i: nat)
    requires Renaming(names, renamed)
    requires i < |names| && !IsIdentifier(names[i])
    ensures names[i] !in renamed <==>
      || ToIdentifier(names[i]) in names
      || (exists j | 0 <= j < |names| :: j != i && Wants(names[j], ToIdentifier(names[i])))
  {
    ClaimedAgain(names, ToIdentifier(names[i]), i, |names|);
  }

  lemma {:induction false} ClaimedAgain(names: seq<string>, script: string, i: nat, n: nat)
    requires i < |names| && n <= |names| && Wants(names[i], script)
    ensures (Claims(names, script, n) > if i < n then 1 else 0) <==>
      exists j | 0 <= j < n :: j != i && Wants(names[j], script)
    ensures i < n ==> Claims(names, script, n) > 0
  {
    if n > 0 { ClaimedAgain(names, script, i, n - 1); }
  }
}
