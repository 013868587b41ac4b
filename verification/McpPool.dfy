// The workspace MCP pool (workspace-mcp.ts): one set of connections per directory, lent to every
// session opened there. A set in use is a generation; an edited configuration replaces it.
//
// The code of `acquire` between its awaits, of `release`, of the idle timer and of `close` runs
// without interruption, so these are the steps, and an interleaving is any sequence of them.

module McpPool {
  import opened Basics

  /** One generation's record: `armed` is its idle timer, `closed` its memoised shutdown promise,
      `shutdowns` how often its servers were really shut down. */
  datatype Record = Record(key: string, fingerprint: Json, leases: nat, armed: bool, closed: bool, shutdowns: nat)

  /** The pool, over generation identities `G` and lease identities `L`. `borrows` holds the leases
      not yet given back. */
  datatype Pool<G, L> = Pool(
    current: map<string, G>,
    live: set<G>,
    records: map<G, Record>,
    borrows: map<L, G>,
    closing: bool)

  ghost function Empty<G, L>(): Pool<G, L> { Pool(map[], {}, map[], map[], false) }

  ghost predicate IsCurrent<G, L>(s: Pool<G, L>, g: G)
    requires g in s.records
  {
    s.records[g].key in s.current && s.current[s.records[g].key] == g
  }

  // ---------------------------------------------------------------- steps

  ghost function ShutRecord(r: Record): Record {
    r.(armed := false, closed := true, shutdowns := if r.closed then r.shutdowns else r.shutdowns + 1)
  }

  ghost function ShutDown<G, L>(s: Pool<G, L>, g: G): Pool<G, L>
    requires g in s.records
  {
    s.(live := s.live - {g}, records := s.records[g := ShutRecord(s.records[g])])
  }

  /** A borrow with another configuration retires the directory's generation. */
  ghost function Retired<G, L>(s: Pool<G, L>, key: string, fingerprint: Json): Pool<G, L>
    requires key in s.current ==> s.current[key] in s.records
  {
    if key !in s.current || s.records[s.current[key]].fingerprint == fingerprint then s
    else
      var g := s.current[key];
      var s' := s.(current := s.current - {key});
      if s.records[g].leases == 0 then ShutDown(s', g) else s'
  }

  /** Make `g` the directory's generation if it has none. */
  ghost function Installed<G, L>(s: Pool<G, L>, key: string, fingerprint: Json, g: G): Pool<G, L> {
    if key in s.current then s
    else s.(current := s.current[key := g], live := s.live + {g},
            records := s.records[g := Record(key, fingerprint, 0, false, false, 0)])
  }

  ghost function Lent<G, L>(s: Pool<G, L>, key: string, lease: L): Pool<G, L>
    requires key in s.current && s.current[key] in s.records
  {
    var g := s.current[key];
    s.(records := s.records[g := s.records[g].(leases := s.records[g].leases + 1, armed := false)],
       borrows := s.borrows[lease := g])
  }

  /** A generation without leases: with a grace the current one only has its timer armed; any other is shut
      down, and is current no more. */
  ghost function Idled<G, L>(s: Pool<G, L>, g: G, idleMs: int): Pool<G, L>
    requires g in s.records
  {
    if IsCurrent(s, g) && idleMs > 0 then s.(records := s.records[g := s.records[g].(armed := true)])
    else ShutDown(if IsCurrent(s, g) then s.(current := s.current - {s.records[g].key}) else s, g)
  }

  ghost function ReturnedLease<G, L>(s: Pool<G, L>, lease: L): Pool<G, L>
    requires lease in s.borrows && s.borrows[lease] in s.records && s.records[s.borrows[lease]].leases > 0
  {
    var g := s.borrows[lease];
    s.(borrows := s.borrows - {lease}, records := s.records[g := s.records[g].(leases := s.records[g].leases - 1)])
  }

  ghost function Released<G, L>(s: Pool<G, L>, lease: L, idleMs: int): Pool<G, L>
    requires lease in s.borrows && s.borrows[lease] in s.records && s.records[s.borrows[lease]].leases > 0
  {
    var g := s.borrows[lease];
    var s' := ReturnedLease(s, lease);
    if s'.records[g].leases == 0 then Idled(s', g, idleMs) else s'
  }

  ghost function TimerFired<G, L>(s: Pool<G, L>, g: G): Pool<G, L>
    requires g in s.records
  {
    var s' := s.(records := s.records[g := s.records[g].(armed := false)]);
    if s'.records[g].leases != 0 || !IsCurrent(s', g) then s'
    else ShutDown(s'.(current := s'.current - {s'.records[g].key}), g)
  }

  ghost function Closed<G, L>(s: Pool<G, L>): Pool<G, L> {
    if s.closing then s
    else
      Pool(map[], {}, map g | g in s.records :: if g in s.live then ShutRecord(s.records[g]) else s.records[g],
           s.borrows, true)
  }

  // ---------------------------------------------------------------- safety

  ghost function Borrowers<G, L>(borrows: map<L, G>, g: G): set<L> {
    set lease | lease in borrows && borrows[lease] == g
  }

  ghost predicate Inv<G, L>(s: Pool<G, L>) {
    && (forall k | k in s.current :: s.current[k] in s.live)
    && (forall g | g in s.live :: g in s.records)
    && (forall k | k in s.current :: s.records[s.current[k]].key == k)
    && (forall l | l in s.borrows :: s.borrows[l] in s.records)
    && (forall g | g in s.records :: RecordInv(s, g))
    && (s.closing ==> s.live == {})
  }

  /** What holds of every generation the pool ever made. */
  ghost predicate RecordInv<G, L>(s: Pool<G, L>, g: G)
    requires g in s.records
  {
    var r := s.records[g];
    // `leases` counts the borrows not yet given back
    && r.leases == |Borrowers(s.borrows, g)|
    // a live generation is current or on loan, and if not on loan its timer is running
    && (g in s.live && r.leases == 0 ==> IsCurrent(s, g) && r.armed)
    // a running timer is only ever that of a current generation nobody holds
    && (r.armed ==> g in s.live && r.leases == 0 && IsCurrent(s, g))
    // shut down at most once, and not live any more from then on
    && (g in s.live <==> !r.closed)
    && r.shutdowns == (if r.closed then 1 else 0)
    // before close, no generation on loan has been shut down
    && (!s.closing && r.leases > 0 ==> !r.closed)
  }

  lemma BorrowersAdd<G, L>(borrows: map<L, G>, lease: L, g: G, h: G)
    requires lease !in borrows
    ensures |Borrowers(borrows[lease := g], h)| == |Borrowers(borrows, h)| + if h == g then 1 else 0
  {
    var after := Borrowers(borrows[lease := g], h);
    if h == g { assert after == Borrowers(borrows, h) + {lease}; }
    else { assert after == Borrowers(borrows, h); }
  }

  lemma BorrowersRemove<G, L>(borrows: map<L, G>, lease: L, h: G)
    requires lease in borrows
    ensures |Borrowers(borrows, h)| == |Borrowers(borrows - {lease}, h)| + if h == borrows[lease] then 1 else 0
  {
    var after := Borrowers(borrows - {lease}, h);
    if h == borrows[lease] { assert Borrowers(borrows, h) == after + {lease}; }
    else { assert Borrowers(borrows, h) == after; }
  }

  lemma RetiredSafe<G, L>(s: Pool<G, L>, key: string, fingerprint: Json)
    requires Inv(s)
    ensures var t := Retired(s, key, fingerprint);
      && Inv(t) && t.borrows == s.borrows && t.closing == s.closing && t.records.Keys == s.records.Keys
      && (key in t.current ==> t.current == s.current && t.records[t.current[key]].fingerprint == fingerprint)
  {
    var t := Retired(s, key, fingerprint);
    forall g | g in t.records ensures RecordInv(t, g) { assert RecordInv(s, g); }
    if key in t.current { assert key in s.current; }
  }

  /** The body of `acquire`: retire what does not match, build what is missing, take a lease. */
  ghost function Acquired<G, L>(s: Pool<G, L>, key: string, fingerprint: Json, g: G, lease: L): Pool<G, L>
    requires key in s.current ==> s.current[key] in s.records
  {
    var t := Installed(Retired(s, key, fingerprint), key, fingerprint, g);
    if t.current[key] in t.records then Lent(t, key, lease) else t
  }

  /** Everything `Inv` says, except that the lease on `key`'s generation is still to be counted. */
  ghost predicate ReadyToLend<G, L>(s: Pool<G, L>, key: string, fingerprint: Json) {
    && key in s.current
    && (forall k | k in s.current :: s.current[k] in s.live)
    && (forall g | g in s.live :: g in s.records)
    && (forall k | k in s.current :: s.records[s.current[k]].key == k)
    && (forall l | l in s.borrows :: s.borrows[l] in s.records)
    && (forall g | g in s.records && g != s.current[key] :: RecordInv(s, g))
    && !s.closing
    && var r := s.records[s.current[key]];
       r.fingerprint == fingerprint && r.leases == |Borrowers(s.borrows, s.current[key])|
         && !r.closed && r.shutdowns == 0
  }

  lemma InstallSafe<G, L>(s: Pool<G, L>, key: string, fingerprint: Json, g: G)
    requires Inv(s) && !s.closing && (key in s.current || g !in s.records)
    requires key in s.current ==> s.records[s.current[key]].fingerprint == fingerprint
    ensures ReadyToLend(Installed(s, key, fingerprint, g), key, fingerprint)
  {
    var t := Installed(s, key, fingerprint, g);
    if key in s.current { assert RecordInv(s, s.current[key]); }
    else { assert Borrowers(s.borrows, g) == {}; }
    forall h | h in t.records && h != t.current[key] ensures RecordInv(t, h) { assert RecordInv(s, h); }
  }

  lemma LendSafe<G, L>(s: Pool<G, L>, key: string, fingerprint: Json, lease: L)
    requires ReadyToLend(s, key, fingerprint) && lease !in s.borrows
    ensures Inv(Lent(s, key, lease))
  {
    var t := Lent(s, key, lease);
    forall h | h in t.records ensures RecordInv(t, h) {
      BorrowersAdd(s.borrows, lease, s.current[key], h);
      if h != s.current[key] { assert RecordInv(s, h); }
    }
  }

  /** A borrower gets the directory's generation of exactly its configuration, still up; every
      other lease keeps the generation it has. */
  lemma AcquireSafe<G, L>(s: Pool<G, L>, key: string, fingerprint: Json, g: G, lease: L)
    requires Inv(s) && !s.closing
    requires lease !in s.borrows && (key in Retired(s, key, fingerprint).current || g !in s.records)
    ensures var t := Acquired(s, key, fingerprint, g, lease);
      && Inv(t) && !t.closing
      && lease in t.borrows && t.borrows == s.borrows[lease := t.borrows[lease]]
      && var held := t.borrows[lease];
         && held in t.live && IsCurrent(t, held)
         && t.records[held].key == key && t.records[held].fingerprint == fingerprint
         && ((held == g && g !in s.records)
           || (key in s.current && s.current[key] == held && t.records.Keys == s.records.Keys))
  {
    RetiredSafe(s, key, fingerprint);
    var r := Retired(s, key, fingerprint);
    InstallSafe(r, key, fingerprint, g);
    LendSafe(Installed(r, key, fingerprint, g), key, fingerprint, lease);
  }

  lemma ShutdownSafe<G, L>(s: Pool<G, L>, t: Pool<G, L>, g: G)
    requires g in s.records && IsCurrent(s, g) ==> t == ShutDown(s.(current := s.current - {s.records[g].key}), g)
    requires g in s.records && !IsCurrent(s, g) ==> t == ShutDown(s, g)
    requires g in s.records && s.records[g].leases == 0
    requires (forall k | k in s.current ::
                s.current[k] in s.live && s.current[k] in s.records && s.records[s.current[k]].key == k)
    requires (forall h | h in s.live :: h in s.records)
    requires (forall l | l in s.borrows :: s.borrows[l] in s.records)
    requires forall h | h in s.records && h != g :: RecordInv(s, h)
    requires s.records[g].leases == |Borrowers(s.borrows, g)|
    requires s.records[g].shutdowns == (if s.records[g].closed then 1 else 0)
    requires s.closing ==> s.live == {}
    ensures Inv(t)
  {
    forall h | h in t.records ensures RecordInv(t, h) {
      if h != g { assert RecordInv(s, h); }
    }
  }

  lemma ReleaseSafe<G, L>(s: Pool<G, L>, lease: L, idleMs: int)
    requires Inv(s) && lease in s.borrows
    ensures RecordInv(s, s.borrows[lease]) && s.records[s.borrows[lease]].leases > 0
    ensures Inv(Released(s, lease, idleMs))
  {
    var g := s.borrows[lease];
    BorrowersRemove(s.borrows, lease, g);
    assert RecordInv(s, g);
    var m := s.(borrows := s.borrows - {lease},
                records := s.records[g := s.records[g].(leases := s.records[g].leases - 1)]);
    forall h | h in m.records && (h != g || m.records[g].leases > 0) ensures RecordInv(m, h) {
      BorrowersRemove(s.borrows, lease, h);
      assert RecordInv(s, h);
    }
    if m.records[g].leases == 0 {
      var t := Idled(m, g, idleMs);
      if IsCurrent(m, g) && idleMs > 0 {
        forall h | h in t.records ensures RecordInv(t, h) {
          if h != g { assert RecordInv(m, h); }
        }
      } else {
        ShutdownSafe(m, t, g);
      }
    }
  }

  /** A timer that fires finds its generation idle and current: the re-check never stops it. */
  lemma FireTimerSafe<G, L>(s: Pool<G, L>, g: G)
    requires Inv(s) && g in s.records && s.records[g].armed
    ensures s.records[g].leases == 0 && IsCurrent(s, g)
    ensures Inv(TimerFired(s, g)) && TimerFired(s, g).records[g].closed
  {
    assert RecordInv(s, g);
    var m := s.(records := s.records[g := s.records[g].(armed := false)]);
    forall h | h in m.records && h != g ensures RecordInv(m, h) { assert RecordInv(s, h); }
    ShutdownSafe(m, TimerFired(s, g), g);
  }

  lemma ClosedSafe<G, L>(s: Pool<G, L>)
    requires Inv(s)
    ensures Inv(Closed(s)) && Closed(s).closing
    ensures forall g | g in s.records :: Closed(s).records[g].closed
  {
    forall g | g in s.records ensures RecordInv(Closed(s), g) && Closed(s).records[g].closed { assert RecordInv(s, g); }
  }

  // ---------------------------------------------------------------- every interleaving

  /** A step of some session, of a timer, or of the host. `permitted` is whether the host runs the
      configuration's transports; `g` and `lease` are the objects the step would create. */
  datatype Op<G, L> =
    | AcquireBody(key: string, fingerprint: Json, permitted: bool, g: G, lease: L)
    | GiveBack(held: L)
    | TimerFires(idle: G)
    | CloseAll

  ghost predicate Enabled<G, L>(s: Pool<G, L>, op: Op<G, L>) {
    match op
    case AcquireBody(_, _, _, g, lease) => g !in s.records && lease !in s.borrows
    case GiveBack(lease) => lease in s.borrows
    case TimerFires(g) => g in s.records && s.records[g].armed
    case CloseAll => true
  }

  ghost function Step<G, L>(s: Pool<G, L>, op: Op<G, L>, idleMs: int): Pool<G, L>
    requires Inv(s) && Enabled(s, op)
  {
    match op
    case AcquireBody(key, fingerprint, permitted, g, lease) =>
      if s.closing then s
      else if key !in Retired(s, key, fingerprint).current && !permitted then Retired(s, key, fingerprint)
      else Acquired(s, key, fingerprint, g, lease)
    case GiveBack(lease) => ReleaseSafe(s, lease, idleMs); Released(s, lease, idleMs)
    case TimerFires(g) => TimerFired(s, g)
    case CloseAll => Closed(s)
  }

  lemma StepSafe<G, L>(s: Pool<G, L>, op: Op<G, L>, idleMs: int)
    requires Inv(s) && Enabled(s, op)
    ensures Inv(Step(s, op, idleMs)) && (s.closing ==> Step(s, op, idleMs).closing)
  {
    match op
    case AcquireBody(key, fingerprint, permitted, g, lease) =>
      if !s.closing {
        RetiredSafe(s, key, fingerprint);
        if key in Retired(s, key, fingerprint).current || permitted {
          AcquireSafe(s, key, fingerprint, g, lease);
        }
      }
    case GiveBack(lease) => ReleaseSafe(s, lease, idleMs);
    case TimerFires(g) => FireTimerSafe(s, g);
    case CloseAll => ClosedSafe(s);
  }

  /** The state a sequence of steps leads to; a step that cannot happen there is skipped. */
  ghost function Reach<G, L>(ops: seq<Op<G, L>>, idleMs: int): (s: Pool<G, L>)
    ensures Inv(s)
    decreases |ops|
  {
    if ops == [] then Empty()
    else
      var s := Reach(ops[..|ops| - 1], idleMs);
      var op := ops[|ops| - 1];
      if Enabled(s, op) then StepSafe(s, op, idleMs); Step(s, op, idleMs) else s
  }

  /** Pool safety over every interleaving, in the pool's own terms. */
  lemma PoolSafety<G, L>(ops: seq<Op<G, L>>, idleMs: int, g: G)
    requires g in Reach(ops, idleMs).records
    ensures var s := Reach(ops, idleMs); var r := s.records[g];
      && r.leases == |Borrowers(s.borrows, g)|
      && (g in s.live ==> IsCurrent(s, g) || r.leases > 0)
      && (g in s.live && r.leases == 0 ==> IsCurrent(s, g) && r.armed)
      && (r.armed ==> r.leases == 0 && IsCurrent(s, g))
      && (!s.closing && r.leases > 0 ==> r.shutdowns == 0)
      && r.shutdowns <= 1
  {
  }

  // ---------------------------------------------------------------- the pool object

  /** The object a lease refers to; what it was built from never changes. */
  class Generation {
    const key: string
    const fingerprint: Json
    var leases: nat
    var idle: bool
    var closed: bool
    ghost var shutdowns: nat

    constructor (key: string, fingerprint: Json)
      ensures AsRecord() == Record(key, fingerprint, 0, false, false, 0)
    {
      this.key, this.fingerprint := key, fingerprint;
      leases, idle, closed, shutdowns := 0, false, false, 0;
    }

    ghost function AsRecord(): Record
      reads this
    {
      Record(key, fingerprint, leases, idle, closed, shutdowns)
    }
  }

  /** One session's hold on a generation. */
  class Lease {
    const held: Generation
    var released: bool

    constructor (held: Generation)
      ensures this.held == held && !released
    {
      this.held, released := held, false;
    }
  }

  class WorkspaceMcpPool {
    const idleMs: int
    var current: map<string, Generation>
    var live: set<Generation>
    var closing: bool
    /** What every generation this pool ever made looks like, and what the leases still out hold. */
    ghost var records: map<Generation, Record>
    ghost var borrows: map<Lease, Generation>

    ghost predicate Valid()
      reads this, records.Keys, borrows.Keys
    {
      Tracked() && Out() && Inv(State())
    }

    /** The ghost records agree with the generations, and nothing else is pooled. */
    ghost predicate Tracked()
      reads `records, `current, `live, records.Keys
    {
      && (forall g | g in records :: records[g] == g.AsRecord())
      && (forall k | k in current :: current[k] in records)
      && (forall g | g in live :: g in records)
    }

    /** The leases still out are exactly those not released. */
    ghost predicate Out()
      reads `borrows, borrows.Keys
    {
      forall l | l in borrows :: borrows[l] == l.held && !l.released
    }

    ghost function State(): Pool<Generation, Lease>
      reads this
    {
      Pool(current, live, records, borrows, closing)
    }

    constructor (idleMs: int)
      ensures Valid() && State() == Empty()
      ensures this.idleMs == idleMs
    {
      this.idleMs := idleMs;
      current, live, closing, records, borrows := map[], {}, false, map[], map[];
    }

    /** `shutdown`: the memoised close of one generation's servers. */
    method Shutdown(generation: Generation)
      requires Tracked() && generation in records
      modifies `live, `records, generation`idle, generation`closed, generation`shutdowns
      ensures Tracked() && State() == ShutDown(old(State()), generation)
    {
      generation.idle := false;
      live := live - {generation};
      if !generation.closed {
        generation.closed := true;
        generation.shutdowns := generation.shutdowns + 1;
      }
      records := records[generation := ShutRecord(records[generation])];
    }

    /** The first half of `acquire`: a generation of another configuration gives way. */
    method RetireMismatch(key: string, fingerprint: Json)
      requires Tracked() && (key in current ==> current[key] in records)
      modifies `live, `current, `records, records.Keys
      ensures Tracked() && State() == Retired(old(State()), key, fingerprint)
    {
      if key in current && current[key].fingerprint != fingerprint {
        var generation := current[key];
        current := current - {key};
        if generation.leases == 0 { Shutdown(generation); }
      }
    }

    /** The second half of `acquire`: build what is missing. */
    method Build(key: string, fingerprint: Json) returns (generation: Generation)
      requires Tracked()
      modifies `current, `live, `records
      ensures Tracked() && key in current && current[key] == generation
      ensures fresh(generation) || key in old(current)
      ensures State() == Installed(old(State()), key, fingerprint, generation)
    {
      if key in current { return current[key]; }
      generation := new Generation(key, fingerprint);
      current, live, records :=
        current[key := generation], live + {generation}, records[generation := generation.AsRecord()];
    }

    /** The end of `acquire`: take the lease and stop the idle timer. */
    method Take(key: string, held: Generation) returns (lease: Lease)
      requires Tracked() && Out() && key in current && current[key] == held
      modifies `records, `borrows, held`leases, held`idle
      ensures Tracked() && Out() && fresh(lease)
      ensures lease.held == held && held in old(records)
      ensures records ==
        old(records)[held := old(records)[held].(leases := old(records)[held].leases + 1, armed := false)]
      ensures borrows == old(borrows)[lease := held]
    {
      held.leases, held.idle := held.leases + 1, false;
      lease := new Lease(held);
      records, borrows :=
        records[held := records[held].(leases := held.leases, armed := false)], borrows[lease := held];
    }

    /** `acquire` from its second `assertOpen` to its wait for the connections: no lease when the
        pool is closed, or when the host does not run what is configured. */
    method Acquire(key: string, fingerprint: Json, permitted: bool) returns (lease: Lease?)
      requires Valid()
      modifies `current, `live, `records, `borrows, records.Keys
      ensures Valid()
      ensures lease == null ==>
        State() == if old(closing) then old(State()) else Retired(old(State()), key, fingerprint)
      ensures lease != null ==>
        !closing && fresh(lease) && State() == Acquired(old(State()), key, fingerprint, lease.held, lease)
    {
      ghost var s := State();
      RetiredSafe(s, key, fingerprint);
      lease := AcquireIfOpen(key, fingerprint, permitted);
      if lease != null { AcquireSafe(s, key, fingerprint, lease.held, lease); }
    }

    method AcquireIfOpen(key: string, fingerprint: Json, permitted: bool) returns (lease: Lease?)
      requires Tracked() && Out()
      modifies `current, `live, `records, `borrows, records.Keys
      ensures Tracked() && Out()
      ensures lease == null ==>
        State() == if old(closing) then old(State()) else Retired(old(State()), key, fingerprint)
      ensures lease != null ==>
        !closing && fresh(lease) && (fresh(lease.held) || key in Retired(old(State()), key, fingerprint).current)
      ensures lease != null ==> State() == Acquired(old(State()), key, fingerprint, lease.held, lease)
    {
      lease := null;
      if !closing {
        RetireMismatch(key, fingerprint);
        if key in current || permitted {
          lease := BuildAndTake(key, fingerprint);
        }
      }
    }

    method BuildAndTake(key: string, fingerprint: Json) returns (lease: Lease)
      requires Tracked() && Out()
      modifies `current, `live, `records, `borrows, records.Keys
      ensures Tracked() && Out() && fresh(lease) && (fresh(lease.held) || key in old(current))
      ensures key in Installed(old(State()), key, fingerprint, lease.held).current
      ensures Installed(old(State()), key, fingerprint, lease.held).current[key] == lease.held
      ensures State() == Lent(Installed(old(State()), key, fingerprint, lease.held), key, lease)
    {
      var held := Build(key, fingerprint);
      lease := Take(key, held);
    }

    /** `release`: giving back twice is giving back once. */
    method Release(lease: Lease)
      requires Valid() && (lease in borrows || lease.released)
      modifies `current, `live, `records, `borrows, lease`released, records.Keys
      ensures Valid() && lease.released
      ensures old(lease.released) ==> State() == old(State())
      ensures !old(lease.released) ==> lease.held in old(records) && old(records)[lease.held].leases > 0
      ensures !old(lease.released) ==> State() == Released(old(State()), lease, idleMs)
    {
      if !lease.released {
        ReleaseSafe(State(), lease, idleMs);
        GiveBackAndIdle(lease);
      }
    }

    method GiveBackAndIdle(lease: Lease)
      requires Tracked() && Out() && lease in borrows && lease.held in records && lease.held.leases > 0
      modifies `current, `live, `records, `borrows, lease`released, records.Keys
      ensures Tracked() && Out() && lease.released
      ensures State() == Released(old(State()), lease, idleMs)
    {
      GiveBack(lease);
      if lease.held.leases == 0 { GoIdle(lease.held); }
    }

    method GiveBack(lease: Lease)
      requires Tracked() && Out() && lease in borrows && lease.held in records && lease.held.leases > 0
      modifies `records, `borrows, lease`released, lease.held`leases
      ensures Tracked() && Out() && lease.released
      ensures records ==
        old(records)[lease.held := old(records)[lease.held].(leases := old(records)[lease.held].leases - 1)]
      ensures borrows == old(borrows) - {lease}
    {
      var held := lease.held;
      lease.released, held.leases := true, held.leases - 1;
      records, borrows := records[held := records[held].(leases := held.leases)], borrows - {lease};
    }

    /** `idle`: close a retired generation now, arm the timer of a current one. */
    method GoIdle(generation: Generation)
      requires Tracked() && generation in records
      modifies `current, `live, `records, generation`idle, generation`closed, generation`shutdowns
      ensures Tracked() && State() == Idled(old(State()), generation, idleMs)
    {
      var isCurrent := generation.key in current && current[generation.key] == generation;
      if !isCurrent || idleMs <= 0 {
        if isCurrent { current := current - {generation.key}; }
        Shutdown(generation);
        return;
      }
      generation.idle := true;
      records := records[generation := records[generation].(armed := true)];
    }

    /** The idle timer's callback. */
    method TimerFires(generation: Generation)
      requires Valid() && generation in records && generation.idle
      modifies `current, `live, `records, records.Keys
      ensures Valid() && State() == TimerFired(old(State()), generation) && generation.closed
    {
      FireTimerSafe(State(), generation);
      FireTimer(generation);
    }

    method FireTimer(generation: Generation)
      requires Tracked() && Out() && generation in records
      modifies `current, `live, `records, generation`idle, generation`closed, generation`shutdowns
      ensures Tracked() && Out() && State() == TimerFired(old(State()), generation)
    {
      generation.idle := false;
      records := records[generation := records[generation].(armed := false)];
      if generation.leases != 0 || generation.key !in current || current[generation.key] != generation { return; }
      current := current - {generation.key};
      Shutdown(generation);
    }

    /** `close`: every generation goes down, on loan or not; idempotent. */
    method Close()
      requires Valid()
      modifies `closing, `current, `live, `records, records.Keys
      ensures Valid() && State() == Closed(old(State()))
    {
      ClosedSafe(State());
      ShutdownEverything();
    }

    method ShutdownEverything()
      requires Tracked()
      modifies `closing, `current, `live, `records, records.Keys
      ensures Tracked() && State() == Closed(old(State()))
    {
      if closing { return; }
      ghost var before, up := records, live;
      closing, current := true, map[];
      var todo := live;
      while todo != {}
        invariant Tracked() && closing && current == map[]
        invariant todo == live <= up
        invariant records == map g | g in before :: if g in up && g !in todo then ShutRecord(before[g]) else before[g]
        decreases todo
      {
        var generation :| generation in todo;
        Shutdown(generation);
        todo := todo - {generation};
      }
    }
  }
}
