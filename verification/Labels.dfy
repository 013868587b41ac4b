// Team labels as a boundary of authority (network.ts: the label helpers, createTeam, spawnTeammate,
// disbandTeam, ownedMembers): whom a creator reaches, and when that is just whom it spawned.

module Labels {
  import opened Basics

  // ---------------------------------------------------------------- labels and ids

  const TEAM := "team:"

  function TeamLabel(creator: string, name: string): string { TEAM + creator + ":" + name }

  function MemberAgentId(team: string, name: string): string { team + "/" + name }

  predicate NameChar(c: char) { 'a' <= c <= 'z' || 'A' <= c <= 'Z' || '0' <= c <= '9' || c == '_' || c == '-' }

  predicate ValidName(name: string) { 0 < |name| <= 48 && forall i | 0 <= i < |name| :: NameChar(name[i]) }

  /** The prefix test: `team` starts with the creator's own prefix. */
  predicate Owns(creator: string, team: string) { TEAM + creator + ":" <= team }

  function LastIndexOf(s: string, c: char): int {
    if s == "" then -1 else if s[|s| - 1] == c then |s| - 1 else LastIndexOf(s[..|s| - 1], c)
  }

  function CreatorOfLabel(team: string): (r: Option<string>) {
    if !(TEAM <= team) then None
    else
      var cut := LastIndexOf(team, ':');
      if cut <= 5 || cut > |team| then None else Some(team[5..cut])
  }

  lemma {:induction false} LastIndexAt(a: string, c: char, b: string)
    requires c !in b
    ensures LastIndexOf(a + [c] + b, c) == |a|
  {
    var s := a + [c] + b;
    if b == "" {
      assert s[|s| - 1] == c;
    } else {
      assert s[|s| - 1] == b[|b| - 1];
      assert s[..|s| - 1] == a + [c] + b[..|b| - 1];
      LastIndexAt(a, c, b[..|b| - 1]);
    }
  }

  lemma {:induction false} LastIndexMeans(s: string, c: char)
    ensures var i := LastIndexOf(s, c);
      -1 <= i < |s| && (i >= 0 ==> s[i] == c) && (forall j | i < j < |s| :: s[j] != c)
  {
    if s != "" && s[|s| - 1] != c { LastIndexMeans(s[..|s| - 1], c); }
  }

  /** A creator is read back from exactly the labels of its teams; every other label is nobody's. */
  lemma CreatorExactly(team: string, creator: string)
    ensures CreatorOfLabel(team) == Some(creator) <==>
      creator != "" && exists name :: ':' !in name && team == TeamLabel(creator, name)
  {
    if creator != "" && exists name :: ':' !in name && team == TeamLabel(creator, name) {
      var name :| ':' !in name && team == TeamLabel(creator, name);
      CreatorRoundTrip(creator, name);
    }
    if CreatorOfLabel(team) == Some(creator) {
      var cut := LastIndexOf(team, ':');
      LastIndexMeans(team, ':');
      var name := team[cut + 1..];
      assert team == team[..5] + team[5..cut] + [':'] + name;
      assert team == TeamLabel(creator, name);
      forall i | 0 <= i < |name| ensures name[i] != ':' { assert name[i] == team[cut + 1 + i]; }
    }
  }

  /** The creator read back from a team, for any creator that has an id at all. */
  lemma CreatorRoundTrip(creator: string, name: string)
    requires ':' !in name
    ensures CreatorOfLabel(TeamLabel(creator, name)) == if creator == "" then None else Some(creator)
  {
    var team := TeamLabel(creator, name);
    assert team == (TEAM + creator) + [':'] + name;
    LastIndexAt(TEAM + creator, ':', name);
    assert team[..5] == TEAM;
    assert team[5..5 + |creator|] == creator;
  }

  /** Whose prefix test a team passes: its creator's, and that of every id of which the creator's id is
      an extension past a colon. */
  lemma OwnsExactly(c: string, creator: string, name: string)
    requires ':' !in name
    ensures Owns(c, TeamLabel(creator, name)) <==> c == creator || c + ":" <= creator
  {
    var team := TeamLabel(creator, name);
    assert team == TEAM + (creator + ":" + name);
    assert TEAM + c + ":" == TEAM + (c + ":");
    var rest := creator + ":" + name;
    assert team[5..] == rest && (TEAM + (c + ":"))[5..] == c + ":";
    forall k | |creator| < k < |rest| ensures rest[k] != ':' { assert rest[k] == name[k - |creator| - 1]; }
    if Owns(c, team) {
      forall i | 0 <= i < |c| + 1 ensures rest[i] == (c + ":")[i] {
        assert team[i + 5] == (TEAM + (c + ":"))[i + 5];
      }
      assert rest[|c|] == ':';
      if |c| == |creator| {
        assert c == rest[..|c|] == creator;
      } else {
        assert c + ":" == rest[..|c| + 1] == creator[..|c| + 1];
      }
    }
  }

  /** Where no creator's id extends another's past a colon, the prefix test and the creator read back
      agree; `a` and `a:b` do not. */
  lemma TestsAgreeExactly(c: string, creator: string, name: string)
    requires ':' !in name && creator != ""
    ensures (Owns(c, TeamLabel(creator, name)) <==> CreatorOfLabel(TeamLabel(creator, name)) == Some(c))
      <==> !(c + ":" <= creator)
  {
    OwnsExactly(c, creator, name);
    CreatorRoundTrip(creator, name);
  }

  /** A member's id says which team and which name. */
  lemma MemberIdInjective(team: string, name: string, team': string, name': string)
    requires '/' !in name && '/' !in name' && MemberAgentId(team, name) == MemberAgentId(team', name')
    ensures team == team' && name == name'
  {
    var id := MemberAgentId(team, name);
    LastIndexAt(team, '/', name);
    LastIndexAt(team', '/', name');
    assert id == team + ['/'] + name && id == team' + ['/'] + name';
    assert team == id[..|team|] && team' == id[..|team|];
    assert name == id[|team| + 1..] && name' == id[|team| + 1..];
  }

  // ---------------------------------------------------------------- teams

  /** The labels an agent wears. */
  type Rows = map<string, seq<string>>

  /** `spawned` is who has been spawned and not disbanded: the member's creator and its team. */
  datatype Member = Member(creator: string, team: string)

  datatype Teams = Teams(rows: Rows, spawned: map<string, Member>)

  function LabelsOf(rows: Rows, id: string): seq<string> { if id in rows then rows[id] else [] }

  function OwnedTeams(creator: string, labels: seq<string>): seq<string> {
    if labels == [] then []
    else (if Owns(creator, labels[0]) then [labels[0]] else []) + OwnedTeams(creator, labels[1..])
  }

  function Created(s: Teams, creator: string, name: string): Teams {
    var team := TeamLabel(creator, name);
    if !ValidName(name) || team in LabelsOf(s.rows, creator) then s
    else s.(rows := s.rows[creator := LabelsOf(s.rows, creator) + [team]])
  }

  /** What the host says of a spawn: the type has a factory, the fleet is within budget, and the factory
      made a session. */
  datatype Host = Host(knowsType: bool, withinBudget: bool, makesSession: bool)

  const LEAD := "lead"

  /** The team a spawn is for, when the creator owns it, or owns just one. */
  function TeamFor(s: Teams, creator: string, name: Option<string>): Option<string> {
    var owned := OwnedTeams(creator, LabelsOf(s.rows, creator));
    if owned == [] then None
    else if name.Some? then
      if TeamLabel(creator, name.value) in owned then Some(TeamLabel(creator, name.value)) else None
    else if |owned| == 1 then Some(owned[0]) else None
  }

  predicate MaySpawn(s: Teams, host: Host, creator: string, teamName: Option<string>, name: string) {
    && host.knowsType && TeamFor(s, creator, teamName).Some?
    && ValidName(name) && name != LEAD
    && MemberAgentId(TeamFor(s, creator, teamName).value, name) !in s.rows
    && host.withinBudget && host.makesSession
  }

  function SpawnedIn(s: Teams, host: Host, creator: string, teamName: Option<string>, name: string): Teams {
    if !MaySpawn(s, host, creator, teamName, name) then s
    else
      var team := TeamFor(s, creator, teamName).value;
      var id := MemberAgentId(team, name);
      Teams(s.rows[id := [team]], s.spawned[id := Member(creator, team)])
  }

  function Shed(labels: seq<string>, team: string): seq<string> {
    if labels == [] then [] else (if labels[0] == team then [] else [labels[0]]) + Shed(labels[1..], team)
  }

  predicate Leads(team: string, id: string) { CreatorOfLabel(team) == Some(id) }

  /** Members leave; the creator sheds the team, and leaves when it owns no other team. */
  function Disbanded(s: Teams, team: string): Teams {
    Teams(map id | id in s.rows && (team !in s.rows[id] || (Leads(team, id) && Shed(s.rows[id], team) != [])) ::
            if team in s.rows[id] then Shed(s.rows[id], team) else s.rows[id],
          map id | id in s.spawned && s.spawned[id].team != team :: s.spawned[id])
  }

  datatype Op =
    | CreateTeam(creator: string, name: string)
    | Spawn(host: Host, creator: string, teamName: Option<string>, name: string)
    | Disband(team: string)

  function Next(s: Teams, op: Op): Teams {
    match op
    case CreateTeam(creator, name) => Created(s, creator, name)
    case Spawn(host, creator, teamName, name) => SpawnedIn(s, host, creator, teamName, name)
    case Disband(team) => Disbanded(s, team)
  }

  function After(ops: seq<Op>): Teams {
    if ops == [] then Teams(map[], map[]) else Next(After(ops[..|ops| - 1]), ops[|ops| - 1])
  }

  /** `ownedMembers`. */
  function OwnedMembers(rows: Rows, creator: string): set<string> {
    set id | id in rows && id != creator && (exists i | 0 <= i < |rows[id]| :: Owns(creator, rows[id][i]))
  }

  /** Those whose label says so: `creatorOfLabel`. */
  function NamedMembers(rows: Rows, creator: string): set<string> {
    set id | id in rows && id != creator && (exists i | 0 <= i < |rows[id]| :: Names(creator, rows[id][i]))
  }

  /** Those it spawned into teams that were not disbanded since. */
  function SpawnedBy(s: Teams, creator: string): set<string> {
    set id | id in s.spawned && s.spawned[id].creator == creator
  }

  predicate Names(creator: string, team: string) { CreatorOfLabel(team) == Some(creator) }

  ghost predicate OwnTeam(id: string, team: string) { exists name :: ':' !in name && team == TeamLabel(id, name) }

  /** A label is a team of the agent's own, or the one it was spawned into. */
  ghost predicate Earned(s: Teams, id: string, team: string) {
    (id != "" && OwnTeam(id, team)) || (id in s.spawned && team == s.spawned[id].team)
  }

  /** A member goes by the id its team gives it and wears that team. */
  ghost predicate IsMember(s: Teams, id: string)
    requires id in s.spawned
  {
    var m := s.spawned[id];
    && id in s.rows && m.team in s.rows[id]
    && m.creator != "" && OwnTeam(m.creator, m.team)
    && (exists name :: id == MemberAgentId(m.team, name))
  }

  ghost predicate WellLabelled(s: Teams) {
    && (forall id | id in s.rows :: forall i | 0 <= i < |s.rows[id]| :: Earned(s, id, s.rows[id][i]))
    && (forall id | id in s.spawned :: IsMember(s, id))
  }

  predicate RealCreators(ops: seq<Op>) {
    forall i | 0 <= i < |ops| :: ops[i].CreateTeam? || ops[i].Spawn? ==> ops[i].creator != ""
  }

  lemma OwnTeamFacts(id: string, team: string, other: string)
    requires OwnTeam(id, team)
    ensures id != "" ==> CreatorOfLabel(team) == Some(id)
    ensures Owns(other, team) <==> other == id || other + ":" <= id
  {
    var name :| ':' !in name && team == TeamLabel(id, name);
    OwnsExactly(other, id, name);
    CreatorRoundTrip(id, name);
  }

  /** No member owns a team it was spawned into: its id is longer than its creator's. */
  lemma MemberIsNoLead(s: Teams, id: string)
    requires id in s.spawned && IsMember(s, id)
    ensures var m := s.spawned[id];
      !Owns(id, m.team) && !Leads(m.team, id) && id != m.creator && CreatorOfLabel(m.team) == Some(m.creator)
  {
    var m := s.spawned[id];
    OwnTeamFacts(m.creator, m.team, id);
    assert |id| > |m.team| > |m.creator|;
  }

  lemma {:induction false} OwnedExactly(creator: string, labels: seq<string>, team: string)
    ensures team in OwnedTeams(creator, labels) <==> team in labels && Owns(creator, team)
  {
    if labels != [] { OwnedExactly(creator, labels[1..], team); }
  }

  lemma {:induction false} ShedExactly(labels: seq<string>, team: string, other: string)
    ensures other in Shed(labels, team) <==> other in labels && other != team
  {
    if labels != [] { ShedExactly(labels[1..], team, other); }
  }

  lemma CreatedIsWell(s: Teams, creator: string, name: string)
    requires WellLabelled(s) && creator != ""
    ensures WellLabelled(Created(s, creator, name))
  {
    var t := Created(s, creator, name);
    if t != s {
      assert OwnTeam(creator, TeamLabel(creator, name));
      forall id | id in t.rows ensures forall i | 0 <= i < |t.rows[id]| :: Earned(t, id, t.rows[id][i]) {
        forall i | 0 <= i < |LabelsOf(s.rows, id)| ensures Earned(t, id, s.rows[id][i]) {
          assert Earned(s, id, s.rows[id][i]);
        }
      }
      forall id | id in t.spawned ensures IsMember(t, id) { assert IsMember(s, id); }
    }
  }

  /** A spawn is into a team of the creator's own, never into one it only passes the prefix test of. */
  lemma SpawnTeamIsOwn(s: Teams, creator: string, teamName: Option<string>)
    requires WellLabelled(s) && TeamFor(s, creator, teamName).Some?
    ensures OwnTeam(creator, TeamFor(s, creator, teamName).value)
  {
    var team := TeamFor(s, creator, teamName).value;
    OwnedExactly(creator, LabelsOf(s.rows, creator), team);
    assert Earned(s, creator, team);
    if creator in s.spawned {
      assert IsMember(s, creator);
      MemberIsNoLead(s, creator);
    }
  }

  lemma SpawnIsWell(s: Teams, host: Host, creator: string, teamName: Option<string>, name: string)
    requires WellLabelled(s) && creator != ""
    ensures WellLabelled(SpawnedIn(s, host, creator, teamName, name))
  {
    if MaySpawn(s, host, creator, teamName, name) {
      var t, team := SpawnedIn(s, host, creator, teamName, name), TeamFor(s, creator, teamName).value;
      var id := MemberAgentId(team, name);
      SpawnTeamIsOwn(s, creator, teamName);
      assert IsMember(t, id);
      forall x | x in t.rows ensures forall i | 0 <= i < |t.rows[x]| :: Earned(t, x, t.rows[x][i]) {
        if x != id {
          forall i | 0 <= i < |t.rows[x]| ensures Earned(t, x, t.rows[x][i]) { assert Earned(s, x, s.rows[x][i]); }
        }
      }
      forall x | x in t.spawned ensures IsMember(t, x) { if x != id { assert IsMember(s, x); } }
    }
  }

  /** A member is gone exactly when its team is, whatever teams it made itself. */
  lemma MemberStays(s: Teams, team: string, id: string)
    requires WellLabelled(s) && id in s.spawned
    ensures id in Disbanded(s, team).rows <==> s.spawned[id].team != team
    ensures s.spawned[id].team != team ==> IsMember(Disbanded(s, team), id)
  {
    var m := s.spawned[id];
    assert IsMember(s, id);
    MemberIsNoLead(s, id);
    ShedExactly(s.rows[id], team, m.team);
    if m.team != team && team in s.rows[id] {
      assert Earned(s, id, team);
      OwnTeamFacts(id, team, id);
    }
  }

  lemma DisbandIsWell(s: Teams, team: string)
    requires WellLabelled(s)
    ensures WellLabelled(Disbanded(s, team))
  {
    var t := Disbanded(s, team);
    forall id | id in t.rows ensures forall i | 0 <= i < |t.rows[id]| :: Earned(t, id, t.rows[id][i]) {
      forall i | 0 <= i < |t.rows[id]| ensures Earned(t, id, t.rows[id][i]) {
        ShedExactly(s.rows[id], team, t.rows[id][i]);
        assert Earned(s, id, t.rows[id][i]);
      }
    }
    forall id | id in t.spawned ensures IsMember(t, id) { MemberStays(s, team, id); }
  }

  /** In every roster reached, whatever ids the creators have and though members make teams of their own. */
  lemma {:induction false} AlwaysWellLabelled(ops: seq<Op>)
    requires RealCreators(ops)
    ensures WellLabelled(After(ops))
  {
    if ops != [] {
      var n := |ops| - 1;
      AlwaysWellLabelled(ops[..n]);
      match ops[n]
      case CreateTeam(creator, name) => CreatedIsWell(After(ops[..n]), creator, name);
      case Spawn(host, creator, teamName, name) => SpawnIsWell(After(ops[..n]), host, creator, teamName, name);
      case Disband(team) => DisbandIsWell(After(ops[..n]), team);
    }
  }

  /** Whom a label gives its wearer to. */
  lemma EarnedLabel(s: Teams, id: string, team: string, creator: string)
    requires WellLabelled(s) && id in s.rows && team in s.rows[id]
    ensures var maker := CreatorOfLabel(team);
      maker.Some? && (maker.value != id ==> id in s.spawned && s.spawned[id].creator == maker.value)
      && (Owns(creator, team) <==> creator == maker.value || creator + ":" <= maker.value)
  {
    assert Earned(s, id, team);
    if id in s.spawned && team == s.spawned[id].team {
      assert IsMember(s, id);
      OwnTeamFacts(s.spawned[id].creator, team, creator);
    } else {
      OwnTeamFacts(id, team, creator);
    }
  }

  /** Main result on the creator read back: in every roster reached, the members whose label names a creator
      are exactly those it spawned into teams not disbanded since. */
  lemma NamedAreItsOwn(ops: seq<Op>, creator: string)
    requires RealCreators(ops)
    ensures var s := After(ops); NamedMembers(s.rows, creator) == SpawnedBy(s, creator)
  {
    AlwaysWellLabelled(ops);
    var s := After(ops);
    forall id ensures id in NamedMembers(s.rows, creator) <==> id in SpawnedBy(s, creator) {
      if id in NamedMembers(s.rows, creator) {
        var i :| 0 <= i < |s.rows[id]| && Names(creator, s.rows[id][i]);
        EarnedLabel(s, id, s.rows[id][i], creator);
      }
      if id in SpawnedBy(s, creator) {
        assert IsMember(s, id);
        MemberIsNoLead(s, id);
        var i :| 0 <= i < |s.rows[id]| && s.rows[id][i] == s.spawned[id].team;
        assert Names(creator, s.rows[id][i]);
      }
    }
  }

  /** A row wears a label whose creator's id extends this one past a colon. */
  predicate WearsExtension(labels: seq<string>, creator: string) {
    exists i | 0 <= i < |labels| :: Extends(CreatorOfLabel(labels[i]), creator)
  }

  predicate Extends(maker: Option<string>, creator: string) { maker.Some? && creator + ":" <= maker.value }

  /** Main result on the prefix test: it gives a creator exactly the members it spawned if and only if nobody
      else on the roster wears a label whose creator's id extends this one past a colon. */
  lemma CreatorReachesItsOwnExactly(ops: seq<Op>, creator: string)
    requires RealCreators(ops)
    ensures var s := After(ops);
      OwnedMembers(s.rows, creator) == SpawnedBy(s, creator) <==>
        forall id | id in s.rows && id != creator && id !in SpawnedBy(s, creator) ::
          !WearsExtension(s.rows[id], creator)
  {
    NamedAreItsOwn(ops, creator);
    AlwaysWellLabelled(ops);
    var s := After(ops);
    forall id | id in s.rows && id != creator
      ensures id in OwnedMembers(s.rows, creator) <==>
        id in SpawnedBy(s, creator) || WearsExtension(s.rows[id], creator)
    {
      forall i | 0 <= i < |s.rows[id]|
        ensures Owns(creator, s.rows[id][i]) <==>
          Names(creator, s.rows[id][i]) || Extends(CreatorOfLabel(s.rows[id][i]), creator)
      {
        EarnedLabel(s, id, s.rows[id][i], creator);
      }
    }
  }

  /** Every label worn was made by somebody forming a team. */
  lemma {:induction false} LabelsAreMade(ops: seq<Op>, id: string, worn: string)
    requires RealCreators(ops) && id in After(ops).rows && worn in After(ops).rows[id]
    ensures exists i | 0 <= i < |ops| :: ops[i].CreateTeam? && Names(ops[i].creator, worn)
  {
    var n := |ops| - 1;
    var before, op := After(ops[..n]), ops[n];
    if id in before.rows && worn in before.rows[id] {
      LabelsAreMade(ops[..n], id, worn);
    } else {
      match op
      case CreateTeam(creator, name) =>
        CreatorRoundTrip(creator, name);
        assert Names(ops[n].creator, worn);
      case Spawn(host, creator, teamName, name) =>
        OwnedExactly(creator, LabelsOf(before.rows, creator), worn);
        LabelsAreMade(ops[..n], creator, worn);
      case Disband(team) => ShedExactly(before.rows[id], team, worn);
    }
  }

  /** Where no team is formed under an id that extends the creator's past a colon, which only ids with colons
      do, the creator reaches exactly its own. */
  lemma CreatorReachesItsOwn(ops: seq<Op>, creator: string)
    requires RealCreators(ops)
    requires forall i | 0 <= i < |ops| :: ops[i].CreateTeam? ==> !(creator + ":" <= ops[i].creator)
    ensures var s := After(ops); OwnedMembers(s.rows, creator) == SpawnedBy(s, creator)
  {
    var s := After(ops);
    forall id | id in s.rows ensures !WearsExtension(s.rows[id], creator) {
      forall i | 0 <= i < |s.rows[id]| ensures !Extends(CreatorOfLabel(s.rows[id][i]), creator) {
        LabelsAreMade(ops, id, s.rows[id][i]);
      }
    }
    CreatorReachesItsOwnExactly(ops, creator);
  }

  /** A roster on which the creator `a` reaches another creator, which it did not spawn. */
  lemma ReachesAnother()
    ensures var s := After([CreateTeam("a:b", "t")]);
      "a:b" in OwnedMembers(s.rows, "a") && SpawnedBy(s, "a") == {} && NamedMembers(s.rows, "a") == {}
  {
    var ops := [CreateTeam("a:b", "t")];
    var s, team := After(ops), TeamLabel("a:b", "t");
    assert ops[..0] == [] && ops[0] == CreateTeam("a:b", "t");
    assert After([]) == Teams(map[], map[]) && ValidName("t");
    assert s == Created(Teams(map[], map[]), "a:b", "t");
    assert s.rows["a:b"] == [] + [team] && s.rows["a:b"][0] == team;
    OwnsExactly("a", "a:b", "t");
    assert "a:b"[..2] == "a:";
    NamedAreItsOwn(ops, "a");
  }

  lemma {:induction false} OneOwned(creator: string, labels: seq<string>, i: nat, j: nat)
    requires i < j < |labels| && Owns(creator, labels[i]) && Owns(creator, labels[j])
    ensures |OwnedTeams(creator, labels)| > 1
  {
    if i > 0 {
      OneOwned(creator, labels[1..], i - 1, j - 1);
    } else {
      OwnedExactly(creator, labels[1..], labels[j]);
      assert labels[1..][j - 1] == labels[j];
    }
  }

  lemma {:induction false} OnlyOwned(creator: string, labels: seq<string>)
    requires |OwnedTeams(creator, labels)| > 1
    ensures exists i, j | 0 <= i < j < |labels| :: Owns(creator, labels[i]) && Owns(creator, labels[j])
  {
    var rest := labels[1..];
    if |OwnedTeams(creator, rest)| > 1 {
      OnlyOwned(creator, rest);
      var i, j :| 0 <= i < j < |rest| && Owns(creator, rest[i]) && Owns(creator, rest[j]);
      assert labels[i + 1] == rest[i] && labels[j + 1] == rest[j];
    } else {
      var other := OwnedTeams(creator, rest)[0];
      OwnedExactly(creator, rest, other);
      var j :| 0 <= j < |rest| && rest[j] == other;
      assert labels[j + 1] == rest[j] && Owns(creator, labels[0]);
    }
  }

  /** Which team a spawn is for: the one named, if the creator wears it, or else the only one of its own that it
      wears. */
  ghost predicate IsFor(labels: seq<string>, creator: string, name: Option<string>, team: string) {
    && team in labels && Owns(creator, team)
    && (name.Some? ==> team == TeamLabel(creator, name.value))
    && (name.None? ==> forall i, j | 0 <= i < j < |labels| :: !(Owns(creator, labels[i]) && Owns(creator, labels[j])))
  }

  lemma TeamForExactly(s: Teams, creator: string, name: Option<string>, team: string)
    ensures TeamFor(s, creator, name) == Some(team) <==> IsFor(LabelsOf(s.rows, creator), creator, name, team)
  {
    var labels := LabelsOf(s.rows, creator);
    var owned := OwnedTeams(creator, labels);
    OwnedExactly(creator, labels, team);
    if name.None? {
      if |owned| > 1 {
        OnlyOwned(creator, labels);
      } else {
        forall i, j | 0 <= i < j < |labels| ensures !(Owns(creator, labels[i]) && Owns(creator, labels[j])) {
          if Owns(creator, labels[i]) && Owns(creator, labels[j]) { OneOwned(creator, labels, i, j); }
        }
        assert team in owned ==> owned == [team];
      }
    }
  }

  /** A spawn makes a member exactly when the host lets it, the name is good and free, and there is a team it is
      for; it then wears that team, and all else stays. */
  lemma SpawnExactly(ops: seq<Op>, host: Host, creator: string, teamName: Option<string>, name: string, team: string)
    requires IsFor(LabelsOf(After(ops).rows, creator), creator, teamName, team)
    ensures var s, t := After(ops), After(ops + [Spawn(host, creator, teamName, name)]);
      var id := team + "/" + name;
      var may := host.knowsType && host.withinBudget && host.makesSession && ValidName(name) && name != "lead";
      if may && id !in s.rows then t.rows == s.rows[id := [team]] && t.spawned == s.spawned[id := Member(creator, team)]
      else t == s
  {
    assert (ops + [Spawn(host, creator, teamName, name)])[..|ops|] == ops;
    TeamForExactly(After(ops), creator, teamName, team);
  }

  /** Without a team it is for, nothing is spawned. */
  lemma SpawnNeedsTeam(ops: seq<Op>, host: Host, creator: string, teamName: Option<string>, name: string)
    requires forall team :: !IsFor(LabelsOf(After(ops).rows, creator), creator, teamName, team)
    ensures After(ops + [Spawn(host, creator, teamName, name)]) == After(ops)
  {
    assert (ops + [Spawn(host, creator, teamName, name)])[..|ops|] == ops;
    var team := TeamFor(After(ops), creator, teamName);
    if team.Some? { TeamForExactly(After(ops), creator, teamName, team.value); }
  }

  /** Forming a team has the creator wear its label, once and after those it had, if the name is good; nothing
      else changes. */
  lemma CreateExactly(ops: seq<Op>, creator: string, name: string)
    ensures var s, t := After(ops), After(ops + [CreateTeam(creator, name)]);
      var team := "team:" + creator + ":" + name;
      var had := if creator in s.rows then s.rows[creator] else [];
      && t.spawned == s.spawned
      && (ValidName(name) && team !in had ==> t.rows == s.rows[creator := had + [team]])
      && (!ValidName(name) || team in had ==> t == s)
  {
    assert (ops + [CreateTeam(creator, name)])[..|ops|] == ops;
    assert TeamLabel(creator, name) == "team:" + creator + ":" + name;
  }

  /** Who does not wear a team's label is not touched by its end; of those who do, only its creator stays, if
      it has another label, without this one and with the others in their order. */
  lemma DisbandExactly(s: Teams, team: string, id: string)
    requires id in s.rows
    ensures var t := Next(s, Disband(team));
      && (team !in s.rows[id] ==> id in t.rows && t.rows[id] == s.rows[id])
      && (team in s.rows[id] ==>
            (id in t.rows <==> Names(id, team) && exists other | other in s.rows[id] :: other != team))
      && (team in s.rows[id] && id in t.rows ==>
            && (forall other :: other in t.rows[id] <==> other in s.rows[id] && other != team)
            && IsWithout(s.rows[id], team, t.rows[id]))
  {
    forall other ensures other in Shed(s.rows[id], team) <==> other in s.rows[id] && other != team {
      ShedExactly(s.rows[id], team, other);
    }
    ShedIsWithout(s.rows[id], team);
    assert Shed(s.rows[id], team) != [] ==> Shed(s.rows[id], team)[0] in Shed(s.rows[id], team);
  }

  /** The same labels in the same order, but for one. */
  ghost predicate IsWithout(labels: seq<string>, team: string, rest: seq<string>)
    decreases labels
  {
    if labels == [] then rest == []
    else if labels[0] == team then IsWithout(labels[1..], team, rest)
    else rest != [] && rest[0] == labels[0] && IsWithout(labels[1..], team, rest[1..])
  }

  lemma {:induction false} ShedIsWithout(labels: seq<string>, team: string)
    ensures IsWithout(labels, team, Shed(labels, team))
  {
    if labels != [] {
      ShedIsWithout(labels[1..], team);
      var rest := Shed(labels[1..], team);
      if labels[0] == team {
        assert Shed(labels, team) == [] + rest == rest;
      } else {
        assert Shed(labels, team)[1..] == rest;
      }
    }
  }

  /** Disbanding a team takes the members spawned into it and no other. */
  lemma DisbandTakesItsTeam(ops: seq<Op>, team: string, id: string)
    requires RealCreators(ops)
    ensures var s, t := After(ops), Disbanded(After(ops), team);
      id in s.spawned ==> (id in t.rows <==> s.spawned[id].team != team) && (id in t.spawned <==> id in t.rows)
  {
    AlwaysWellLabelled(ops);
    if id in After(ops).spawned { MemberStays(After(ops), team, id); }
  }

  // ---------------------------------------------------------------- the network's part

  datatype SpawnResult =
    | Spawned(agentId: string, team: string)
    | UnknownType | NoTeam | NotYourTeam | SeveralTeams | BadName | Reserved | NameTaken | Overspent | FactoryFailed

  method Filtered(creator: string, labels: seq<string>) returns (owned: seq<string>)
    ensures owned == OwnedTeams(creator, labels)
  {
    owned := [];
    for i := 0 to |labels|
      invariant owned + OwnedTeams(creator, labels[i..]) == OwnedTeams(creator, labels)
    {
      assert labels[i..][1..] == labels[i + 1..];
      if Owns(creator, labels[i]) { owned := owned + [labels[i]]; }
    }
  }

  class PeerNetwork {
    var rows: Rows
    ghost var spawned: map<string, Member>

    ghost function Now(): Teams
      reads this
    {
      Teams(rows, spawned)
    }

    constructor ()
      ensures Now() == Teams(map[], map[])
    {
      rows, spawned := map[], map[];
    }

    method CreateTeam(caller: string, name: string) returns (team: Option<string>)
      modifies this
      ensures Now() == Created(old(Now()), caller, name)
      ensures team == if ValidName(name) then Some(TeamLabel(caller, name)) else None
    {
      if !ValidName(name) { return None; }
      var wanted := TeamLabel(caller, name);
      var labels := if caller in rows then rows[caller] else [];
      if wanted !in labels { rows := rows[caller := labels + [wanted]]; }
      team := Some(wanted);
    }

    method SpawnTeammate(host: Host, creator: string, teamName: Option<string>, name: string)
        returns (result: SpawnResult)
      modifies this
      ensures Now() == SpawnedIn(old(Now()), host, creator, teamName, name)
      ensures result.Spawned? <==> MaySpawn(old(Now()), host, creator, teamName, name)
      ensures result.Spawned? ==>
        && result.agentId == MemberAgentId(result.team, name)
        && result.agentId in rows && rows[result.agentId] == [result.team]
    {
      if !host.knowsType { return UnknownType; }
      var owned := Filtered(creator, if creator in rows then rows[creator] else []);
      if owned == [] { return NoTeam; }
      var team;
      if teamName.Some? {
        team := TeamLabel(creator, teamName.value);
        if team !in owned { return NotYourTeam; }
      } else if |owned| == 1 {
        team := owned[0];
      } else {
        return SeveralTeams;
      }
      if !ValidName(name) { return BadName; }
      if name == LEAD { return Reserved; }
      var id := MemberAgentId(team, name);
      if id in rows { return NameTaken; }
      if !host.withinBudget { return Overspent; }
      if !host.makesSession { return FactoryFailed; }
      rows := rows[id := [team]];
      spawned := spawned[id := Member(creator, team)];
      result := Spawned(id, team);
    }

    method DisbandTeam(team: string)
      modifies this
      ensures Now() == Disbanded(old(Now()), team)
    {
      var wearing := set id | id in rows && team in rows[id];
      var creator := CreatorOfLabel(team);
      var leads := creator.Some? && creator.value in wearing;
      var members := if leads then wearing - {creator.value} else wearing;
      rows := rows - members;
      if leads {
        var remaining := Shed(rows[creator.value], team);
        if remaining == [] {
          rows := rows - {creator.value};
        } else {
          rows := rows[creator.value := remaining];
        }
      }
      spawned := map id | id in spawned && spawned[id].team != team :: spawned[id];
      assert rows == Disbanded(old(Now()), team).rows;
    }
  }
}
