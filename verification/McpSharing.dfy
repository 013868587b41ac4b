// What the workspace MCP pool is for (workspace-mcp.ts): borrowers of one directory and configuration share one
// set of connections, for exactly as long as nothing ends it.

module McpSharing {
  import opened Basics
  import opened McpPool

  /** The generations other than `g` are as they were. */
  ghost predicate OthersAsWere<G, L>(s: Pool<G, L>, t: Pool<G, L>, g: G) {
    && (forall h | h in s.records && h != g :: h in t.records && t.records[h] == s.records[h])
    && (forall h | h in s.records && h != g :: h in t.live <==> h in s.live)
  }

  /** A directory's generation of this configuration is lent, and nothing is built, retired or shut down. */
  lemma AcquireShares<G, L>(s: Pool<G, L>, op: Op<G, L>, idleMs: int)
    requires Inv(s) && Enabled(s, op) && op.AcquireBody? && !s.closing
    requires op.key in s.current && s.records[s.current[op.key]].fingerprint == op.fingerprint
    ensures var t, held := Step(s, op, idleMs), s.current[op.key];
      && t.borrows == s.borrows[op.lease := held] && t.current == s.current && t.live == s.live && !t.closing
      && t.records.Keys == s.records.Keys && OthersAsWere(s, t, held)
      && t.records[held] == s.records[held].(leases := s.records[held].leases + 1, armed := false)
  {
  }

  /** A directory that has none gets one. */
  lemma AcquireBuilds<G, L>(s: Pool<G, L>, op: Op<G, L>, idleMs: int)
    requires Inv(s) && Enabled(s, op) && op.AcquireBody? && !s.closing && op.permitted && op.key !in s.current
    ensures var t := Step(s, op, idleMs);
      && t.borrows == s.borrows[op.lease := op.g] && t.current == s.current[op.key := op.g]
      && t.live == s.live + {op.g} && t.records == s.records[op.g := Record(op.key, op.fingerprint, 1, false, false, 0)]
  {
  }

  /** One of another configuration gives way to a new one: it is shut down at once if nobody holds it, and
      otherwise stays up for those who do. */
  lemma AcquireReplaces<G, L>(s: Pool<G, L>, op: Op<G, L>, idleMs: int)
    requires Inv(s) && Enabled(s, op) && op.AcquireBody? && !s.closing && op.permitted && op.key in s.current
    requires s.records[s.current[op.key]].fingerprint != op.fingerprint
    ensures var t, h := Step(s, op, idleMs), s.current[op.key];
      && t.borrows == s.borrows[op.lease := op.g] && t.current == s.current[op.key := op.g] && op.g in t.live
      && op.g in t.records && t.records[op.g] == Record(op.key, op.fingerprint, 1, false, false, 0)
      && OthersAsWere(s, t, h) && h in t.records && (h in t.live <==> s.records[h].leases > 0)
      && t.records[h] == if s.records[h].leases > 0 then s.records[h] else ShutRecord(s.records[h])
  {
    assert RecordInv(s, s.current[op.key]);
    var r := Retired(s, op.key, op.fingerprint);
    assert op.key !in r.current && Step(s, op, idleMs) == Acquired(s, op.key, op.fingerprint, op.g, op.lease);
    RetiredKeepsOthers(s, op.key, op.fingerprint);
  }

  lemma RetiredKeepsOthers<G, L>(s: Pool<G, L>, key: string, fingerprint: Json)
    requires Inv(s) && key in s.current && s.records[s.current[key]].fingerprint != fingerprint
    ensures var t, h := Retired(s, key, fingerprint), s.current[key];
      && t.current == s.current - {key} && t.borrows == s.borrows && t.records.Keys == s.records.Keys
      && t.live == (if s.records[h].leases > 0 then s.live else s.live - {h})
      && t.records == s.records[h := if s.records[h].leases > 0 then s.records[h] else ShutRecord(s.records[h])]
  {
    var h := s.current[key];
    assert s.records == s.records[h := s.records[h]];
  }

  /** Where the host does not run the transports, nothing is built or lent. */
  lemma RefusalBuildsNothing<G, L>(s: Pool<G, L>, op: Op<G, L>, idleMs: int)
    requires Inv(s) && Enabled(s, op) && op.AcquireBody? && !s.closing && !op.permitted
    requires op.key in s.current ==> s.records[s.current[op.key]].fingerprint != op.fingerprint
    ensures var t := Step(s, op, idleMs);
      && t.borrows == s.borrows && t.records.Keys == s.records.Keys
      && t.current == s.current - {op.key} && t.live <= s.live
  {
  }

  /** While others hold it, a generation only has a lease less. */
  lemma GiveBackOneOfMany<G, L>(s: Pool<G, L>, lease: L, idleMs: int)
    requires Inv(s) && lease in s.borrows && s.records[s.borrows[lease]].leases > 1
    ensures var t, g := Step(s, GiveBack(lease), idleMs), s.borrows[lease];
      t == s.(borrows := s.borrows - {lease},
              records := s.records[g := s.records[g].(leases := s.records[g].leases - 1)])
  {
  }

  /** The last lease of a current generation with a grace: it stays, and its timer runs. */
  lemma GiveBackIdles<G, L>(s: Pool<G, L>, lease: L, idleMs: int)
    requires Inv(s) && lease in s.borrows && s.records[s.borrows[lease]].leases == 1
    requires IsCurrent(s, s.borrows[lease]) && idleMs > 0
    ensures var t, g := Step(s, GiveBack(lease), idleMs), s.borrows[lease];
      t == s.(borrows := s.borrows - {lease}, records := s.records[g := s.records[g].(leases := 0, armed := true)])
  {
  }

  /** The last lease of any other: it is shut down, and no longer current. */
  lemma GiveBackShuts<G, L>(s: Pool<G, L>, lease: L, idleMs: int)
    requires Inv(s) && lease in s.borrows && s.records[s.borrows[lease]].leases == 1
    requires !(IsCurrent(s, s.borrows[lease]) && idleMs > 0)
    ensures var t, g := Step(s, GiveBack(lease), idleMs), s.borrows[lease];
      && t.borrows == s.borrows - {lease} && OthersAsWere(s, t, g) && g in t.records
      && g !in t.live && t.records[g] == ShutRecord(s.records[g].(leases := 0))
      && t.current == if IsCurrent(s, g) then s.current - {s.records[g].key} else s.current
  {
    assert RecordInv(s, s.borrows[lease]);
  }

  // ---------------------------------------------------------------- how long a generation is current

  /** The steps that end a generation's time as the one its directory lends: another configuration, its timer,
      the last lease without a grace, and the end of the pool. */
  ghost predicate Ends<G, L>(s: Pool<G, L>, op: Op<G, L>, g: G, idleMs: int)
    requires g in s.records
  {
    match op
    case AcquireBody(key, fingerprint, _, _, _) => key == s.records[g].key && fingerprint != s.records[g].fingerprint
    case GiveBack(lease) => lease in s.borrows && s.borrows[lease] == g && s.records[g].leases == 1 && idleMs <= 0
    case TimerFires(h) => h == g
    case CloseAll => true
  }

  /** `g` is the generation its directory lends, and is of this configuration. */
  ghost predicate Lends<G, L>(s: Pool<G, L>, g: G, key: string, fingerprint: Json) {
    g in s.records && IsCurrent(s, g) && s.records[g].key == key && s.records[g].fingerprint == fingerprint
  }

  lemma ReplacingEndsExactly<G, L>(s: Pool<G, L>, op: Op<G, L>, g: G, key: string, fingerprint: Json, idleMs: int)
    requires Inv(s) && Enabled(s, op) && op.AcquireBody? && Lends(s, g, key, fingerprint)
    requires op.key in s.current && s.records[s.current[op.key]].fingerprint != op.fingerprint && op.permitted
    ensures Lends(Step(s, op, idleMs), g, key, fingerprint) <==> op.key != key
  {
    AcquireReplaces(s, op, idleMs);
    assert op.key == key <==> s.current[op.key] == g;
  }

  lemma BuildingEndsNone<G, L>(s: Pool<G, L>, op: Op<G, L>, g: G, key: string, fingerprint: Json, idleMs: int)
    requires Inv(s) && Enabled(s, op) && op.AcquireBody? && Lends(s, g, key, fingerprint)
    requires op.key !in s.current && op.permitted
    ensures Lends(Step(s, op, idleMs), g, key, fingerprint) && op.key != key
  {
    if !s.closing { AcquireBuilds(s, op, idleMs); }
  }

  lemma AcquireEndsExactly<G, L>(s: Pool<G, L>, op: Op<G, L>, g: G, key: string, fingerprint: Json, idleMs: int)
    requires Inv(s) && Enabled(s, op) && op.AcquireBody? && Lends(s, g, key, fingerprint)
    ensures Lends(Step(s, op, idleMs), g, key, fingerprint) <==> !Ends(s, op, g, idleMs)
  {
    assert g in s.live && !s.closing;
    if op.key in s.current && s.records[s.current[op.key]].fingerprint == op.fingerprint {
      AcquireShares(s, op, idleMs);
    } else if !op.permitted {
      RefusalBuildsNothing(s, op, idleMs);
    } else if op.key in s.current {
      ReplacingEndsExactly(s, op, g, key, fingerprint, idleMs);
    } else {
      BuildingEndsNone(s, op, g, key, fingerprint, idleMs);
    }
  }

  lemma GiveBackEndsExactly<G, L>(s: Pool<G, L>, lease: L, g: G, key: string, fingerprint: Json, idleMs: int)
    requires Inv(s) && lease in s.borrows && Lends(s, g, key, fingerprint)
    ensures Lends(Step(s, GiveBack(lease), idleMs), g, key, fingerprint) <==> !Ends(s, GiveBack(lease), g, idleMs)
  {
    var h := s.borrows[lease];
    ReleaseSafe(s, lease, idleMs);
    if s.records[h].leases > 1 {
      GiveBackOneOfMany(s, lease, idleMs);
    } else if IsCurrent(s, h) && idleMs > 0 {
      GiveBackIdles(s, lease, idleMs);
    } else {
      GiveBackShuts(s, lease, idleMs);
    }
  }

  lemma TimerEndsExactly<G, L>(s: Pool<G, L>, h: G, g: G, key: string, fingerprint: Json, idleMs: int)
    requires Inv(s) && h in s.records && s.records[h].armed && Lends(s, g, key, fingerprint)
    ensures Lends(Step(s, TimerFires(h), idleMs), g, key, fingerprint) <==> h != g
  {
    FireTimerSafe(s, h);
  }

  /** A generation ceases to be the one its directory lends exactly at the steps that end it. */
  lemma EndsExactly<G, L>(s: Pool<G, L>, op: Op<G, L>, g: G, key: string, fingerprint: Json, idleMs: int)
    requires Inv(s) && Enabled(s, op) && Lends(s, g, key, fingerprint)
    ensures Lends(Step(s, op, idleMs), g, key, fingerprint) <==> !Ends(s, op, g, idleMs)
  {
    match op
    case AcquireBody(_, _, _, _, _) => AcquireEndsExactly(s, op, g, key, fingerprint, idleMs);
    case GiveBack(lease) => GiveBackEndsExactly(s, lease, g, key, fingerprint, idleMs);
    case TimerFires(h) => TimerEndsExactly(s, h, g, key, fingerprint, idleMs);
    case CloseAll =>
  }

  /** This step, where it happens, does not end the generation. */
  ghost predicate Spares<G, L>(s: Pool<G, L>, op: Op<G, L>, g: G, idleMs: int) {
    Enabled(s, op) && g in s.records ==> !Ends(s, op, g, idleMs)
  }

  /** Nothing in these further steps ends the generation. */
  ghost predicate Lasts<G, L>(ops: seq<Op<G, L>>, more: seq<Op<G, L>>, g: G, idleMs: int)
    decreases |more|
  {
    more != [] ==>
      var before := more[..|more| - 1];
      Lasts(ops, before, g, idleMs) && Spares(Reach(ops + before, idleMs), more[|more| - 1], g, idleMs)
  }

  lemma ReachNext<G, L>(ops: seq<Op<G, L>>, op: Op<G, L>, idleMs: int)
    ensures var s := Reach(ops, idleMs);
      Reach(ops + [op], idleMs) == if Enabled(s, op) then Step(s, op, idleMs) else s
  {
    assert (ops + [op])[..|ops|] == ops && (ops + [op])[|ops|] == op;
  }

  lemma StaysOneMore<G, L>(ops: seq<Op<G, L>>, before: seq<Op<G, L>>, op: Op<G, L>, more: seq<Op<G, L>>, g: G,
      key: string, fingerprint: Json, idleMs: int)
    requires more == before + [op] && Spares(Reach(ops + before, idleMs), op, g, idleMs)
    requires Lends(Reach(ops + before, idleMs), g, key, fingerprint)
    ensures Lends(Reach(ops + more, idleMs), g, key, fingerprint)
  {
    var s := Reach(ops + before, idleMs);
    assert ops + more == (ops + before) + [op];
    ReachNext(ops + before, op, idleMs);
    if Enabled(s, op) { EndsExactly(s, op, g, key, fingerprint, idleMs); }
  }

  lemma {:induction false} StaysCurrent<G, L>(ops: seq<Op<G, L>>, more: seq<Op<G, L>>, g: G, key: string,
      fingerprint: Json, idleMs: int)
    requires Lends(Reach(ops, idleMs), g, key, fingerprint) && Lasts(ops, more, g, idleMs)
    ensures Lends(Reach(ops + more, idleMs), g, key, fingerprint)
    decreases |more|
  {
    if more == [] {
      assert ops + more == ops;
    } else {
      StaysCurrent(ops, more[..|more| - 1], g, key, fingerprint, idleMs);
      StaysOneMore(ops, more[..|more| - 1], more[|more| - 1], more, g, key, fingerprint, idleMs);
    }
  }

  /** Main result on sharing: two borrowers of a directory with the same configuration hold the same
      connections, whatever others do, as long as no step in between ends them. */
  lemma SameGeneration<G, L>(ops: seq<Op<G, L>>, first: Op<G, L>, more: seq<Op<G, L>>, second: Op<G, L>, idleMs: int)
    requires first.AcquireBody? && second.AcquireBody?
    requires first.key == second.key && first.fingerprint == second.fingerprint
    requires Enabled(Reach(ops, idleMs), first) && first.lease in Reach(ops + [first], idleMs).borrows
    requires Lasts(ops + [first], more, Reach(ops + [first], idleMs).borrows[first.lease], idleMs)
    requires Enabled(Reach(ops + [first] + more, idleMs), second)
    ensures var t := Reach(ops + [first] + more + [second], idleMs);
      second.lease in t.borrows && t.borrows[second.lease] == Reach(ops + [first], idleMs).borrows[first.lease]
  {
    var all := ops + [first] + more;
    ReachNext(ops, first, idleMs);
    LentIsCurrent(Reach(ops, idleMs), first, idleMs);
    var g := Reach(ops + [first], idleMs).borrows[first.lease];
    StaysCurrent(ops + [first], more, g, first.key, first.fingerprint, idleMs);
    ReachNext(all, second, idleMs);
    AcquireShares(Reach(all, idleMs), second, idleMs);
  }

  /** What an acquire lends is the generation of its directory, with its configuration. */
  lemma LentIsCurrent<G, L>(s: Pool<G, L>, op: Op<G, L>, idleMs: int)
    requires Inv(s) && Enabled(s, op) && op.AcquireBody? && op.lease in Step(s, op, idleMs).borrows
    ensures var t := Step(s, op, idleMs);
      !t.closing && Lends(t, t.borrows[op.lease], op.key, op.fingerprint)
  {
    RetiredSafe(s, op.key, op.fingerprint);
    if !s.closing && (op.key in Retired(s, op.key, op.fingerprint).current || op.permitted) {
      AcquireSafe(s, op.key, op.fingerprint, op.g, op.lease);
    }
  }
}
