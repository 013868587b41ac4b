// The roster and the cards that outlive it (directory.ts): the card store must mirror the durable slice
// of the rows that stand for sessions.

module Directory {
  import opened Basics

  datatype Kind = SessionKind | SubagentKind

  datatype Status = Running | Idle | Parked | Errored

  datatype Ref = Ref(
    agentId: string, name: Option<string>, role: string, kind: Kind, sessionId: string, address: string,
    parentId: Option<string>, labels: Option<seq<string>>, status: Status, description: Option<string>, updatedAt: int)

  /** What is kept of a row; an older card has no session id, and means that of the agent. */
  datatype Card = Card(
    role: string, name: Option<string>, description: Option<string>,
    labels: Option<seq<string>>, sessionId: Option<string>)

  datatype Roster = Roster(refs: map<string, Ref>, cards: map<string, Card>)

  // ---------------------------------------------------------------- what the operations do

  function Or<T>(a: Option<T>, b: Option<T>): Option<T> { if a.Some? then a else b }

  /** A row registered again: what is stated again replaces, what is not stays. */
  function Merged(before: Ref, ref: Ref): Ref {
    ref.(name := Or(ref.name, before.name), parentId := Or(ref.parentId, before.parentId),
         labels := Or(ref.labels, before.labels), description := Or(ref.description, before.description))
  }

  function CardOf(ref: Ref): Card { Card(ref.role, ref.name, ref.description, ref.labels, Some(ref.sessionId)) }

  function RefFromCard(agentId: string, card: Card): Ref {
    Ref(agentId, card.name, card.role, SessionKind, card.sessionId.GetOr(agentId), "main", None, card.labels, Parked,
        card.description, 0)
  }

  function Put(refs: map<string, Ref>, ref: Ref): map<string, Ref> {
    refs[ref.agentId := if ref.agentId in refs then Merged(refs[ref.agentId], ref) else ref]
  }

  function Registered(s: Roster, ref: Ref): Roster {
    var refs := Put(s.refs, ref);
    Roster(refs, if ref.kind == SessionKind then s.cards[ref.agentId := CardOf(refs[ref.agentId])] else s.cards)
  }

  function StatusSet(s: Roster, id: string, status: Status, now: int): Roster {
    if id !in s.refs || s.refs[id].status == status then s
    else s.(refs := s.refs[id := s.refs[id].(status := status, updatedAt := now)])
  }

  function Unregistered(s: Roster, id: string): Roster { Roster(s.refs - {id}, s.cards - {id}) }

  /** A miss falls through to the card. */
  function Got(s: Roster, id: string): Roster {
    if id in s.refs || id !in s.cards then s else s.(refs := s.refs[id := RefFromCard(id, s.cards[id])])
  }

  /** Every card without a row gets one. */
  function Seeded(s: Roster): Roster {
    s.(refs := map id | id in s.refs.Keys + s.cards.Keys ::
      if id in s.refs then s.refs[id] else RefFromCard(id, s.cards[id]))
  }

  // ---------------------------------------------------------------- the mirror

  predicate IsSession(s: Roster, id: string) { id in s.refs && s.refs[id].kind == SessionKind }

  /** A card, with the session id an older one leaves out. */
  function Canon(id: string, card: Card): Card { card.(sessionId := Some(card.sessionId.GetOr(id))) }

  /** A card for every row that stands for a session, no other, and each says what its row does. */
  ghost predicate Mirror(s: Roster) {
    && (forall id :: id in s.cards <==> IsSession(s, id))
    && (forall id | id in s.cards :: Canon(id, s.cards[id]) == CardOf(s.refs[id]))
  }

  /** Rows are kept under their own id. */
  ghost predicate Keyed(s: Roster) { forall id | id in s.refs :: s.refs[id].agentId == id }

  datatype Op =
    | Register(ref: Ref)
    | SetStatus(id: string, status: Status, now: int)
    | Unregister(id: string)
    | Get(id: string)
    | Seed

  function Next(s: Roster, op: Op): Roster {
    match op
    case Register(ref) => Registered(s, ref)
    case SetStatus(id, status, now) => StatusSet(s, id, status, now)
    case Unregister(id) => Unregistered(s, id)
    case Get(id) => Got(s, id)
    case Seed => Seeded(s)
  }

  function After(cards: map<string, Card>, ops: seq<Op>): Roster {
    if ops == [] then Seeded(Roster(map[], cards)) else Next(After(cards, ops[..|ops| - 1]), ops[|ops| - 1])
  }

  /** The step makes a subagent of a session's row. */
  predicate ChangesKind(s: Roster, op: Op) {
    op.Register? && op.ref.kind == SubagentKind && IsSession(s, op.ref.agentId)
  }

  /** A step keeps the mirror exactly when it does not make a subagent of a session. */
  lemma MirrorStep(s: Roster, op: Op)
    requires Mirror(s) && Keyed(s)
    ensures Keyed(Next(s, op))
    ensures Mirror(Next(s, op)) <==> !ChangesKind(s, op)
  {
  }

  ghost predicate KindsKept(cards: map<string, Card>, ops: seq<Op>) {
    forall i | 0 <= i < |ops| :: !ChangesKind(After(cards, ops[..i]), ops[i])
  }

  /** Main result: from whatever cards there were, after any run of operations that turns no session into a
      subagent, the cards mirror the rows. */
  lemma {:induction false} AlwaysMirrors(cards: map<string, Card>, ops: seq<Op>)
    requires KindsKept(cards, ops)
    ensures Mirror(After(cards, ops)) && Keyed(After(cards, ops))
  {
    if ops == [] {
      FreshSeed(cards);
    } else {
      var n := |ops| - 1;
      forall i | 0 <= i < n ensures !ChangesKind(After(cards, ops[..n][..i]), ops[..n][i]) {
        assert ops[..n][..i] == ops[..i] && ops[..n][i] == ops[i];
      }
      AlwaysMirrors(cards, ops[..n]);
      MirrorStep(After(cards, ops[..n]), ops[n]);
    }
  }

  /** A fresh directory seeded from the cards mirrors them, and every row it has is parked. */
  lemma FreshSeed(cards: map<string, Card>)
    ensures var s := Seeded(Roster(map[], cards));
      && Mirror(s) && Keyed(s) && s.refs.Keys == cards.Keys
      && forall id | id in s.refs :: s.refs[id].status == Parked
  {
  }

  /** Across a restart: the rows the next process starts with are, in their durable part, those this one
      ended with. */
  lemma RestartKeepsSlice(cards: map<string, Card>, ops: seq<Op>, id: string)
    requires KindsKept(cards, ops)
    ensures var s, t := After(cards, ops), Seeded(Roster(map[], After(cards, ops).cards));
      && (IsSession(s, id) <==> id in t.refs)
      && (IsSession(s, id) ==> CardOf(t.refs[id]) == CardOf(s.refs[id]) && t.refs[id].status == Parked)
  {
    AlwaysMirrors(cards, ops);
    FreshSeed(After(cards, ops).cards);
    var s := After(cards, ops);
    assert id in s.cards <==> IsSession(s, id);
  }

  /** A field that may be left out: what is stated, and else what was there. */
  predicate Carries<T(==)>(now: Option<T>, stated: Option<T>, before: Option<T>) {
    (stated.Some? ==> now == stated) && (stated.None? ==> now == before)
  }

  /** Whoever registers has its row say what it states, and keep of the row there was what it leaves out; its
      card, if it is a session's, says the same, and no other row or card changes. */
  lemma RegisterExactly(s: Roster, ref: Ref)
    ensures var t, id := Next(s, Register(ref)), ref.agentId;
      && id in t.refs
      && var now, had := t.refs[id], id in s.refs;
         && now.agentId == ref.agentId && now.role == ref.role && now.kind == ref.kind && now.status == ref.status
         && now.sessionId == ref.sessionId && now.address == ref.address && now.updatedAt == ref.updatedAt
         && Carries(now.name, ref.name, if had then s.refs[id].name else None)
         && Carries(now.description, ref.description, if had then s.refs[id].description else None)
         && Carries(now.parentId, ref.parentId, if had then s.refs[id].parentId else None)
         && Carries(now.labels, ref.labels, if had then s.refs[id].labels else None)
         && t.refs.Keys == s.refs.Keys + {id} && (forall a | a in s.refs && a != id :: t.refs[a] == s.refs[a])
         && (ref.kind == SubagentKind ==> t.cards == s.cards)
         && (ref.kind == SessionKind ==>
               && t.cards.Keys == s.cards.Keys + {id}
               && (forall a | a in s.cards && a != id :: t.cards[a] == s.cards[a])
               && t.cards[id].role == now.role && t.cards[id].sessionId == Some(now.sessionId)
               && t.cards[id].name == now.name && t.cards[id].description == now.description
               && t.cards[id].labels == now.labels)
  {
  }

  /** A status set is the status read, with its time, and nothing else of the row or in the cards changes. */
  lemma SetStatusExactly(s: Roster, id: string, status: Status, now: int)
    ensures var t := Next(s, SetStatus(id, status, now));
      && t.cards == s.cards && t.refs.Keys == s.refs.Keys
      && (forall a | a in s.refs && a != id :: t.refs[a] == s.refs[a])
      && (id in s.refs ==>
            && t.refs[id].status == status
            && t.refs[id].updatedAt == (if s.refs[id].status == status then s.refs[id].updatedAt else now)
            && t.refs[id].(status := s.refs[id].status, updatedAt := s.refs[id].updatedAt) == s.refs[id])
  {
  }

  /** Only registering it, setting its status and unregistering it touch an agent's row. */
  predicate Touches(op: Op, id: string) {
    (op.Register? && op.ref.agentId == id) || ((op.SetStatus? || op.Unregister?) && op.id == id)
  }

  lemma OthersLeaveAlone(s: Roster, op: Op, id: string)
    requires !Touches(op, id) && id in s.refs
    ensures id in Next(s, op).refs && Next(s, op).refs[id] == s.refs[id]
    ensures id in Next(s, op).cards <==> id in s.cards
    ensures id in s.cards ==> Next(s, op).cards[id] == s.cards[id]
  {
  }

  /** An agent's row is what it was, and so is its card, after any steps that do not touch it. */
  lemma {:induction false} RowStays(cards: map<string, Card>, ops: seq<Op>, more: seq<Op>, id: string)
    requires id in After(cards, ops).refs && forall i | 0 <= i < |more| :: !Touches(more[i], id)
    ensures var s, t := After(cards, ops), After(cards, ops + more);
      && id in t.refs && t.refs[id] == s.refs[id]
      && (id in t.cards <==> id in s.cards) && (id in s.cards ==> t.cards[id] == s.cards[id])
    decreases |more|
  {
    if more == [] {
      assert ops + more == ops;
    } else {
      var before, op := more[..|more| - 1], more[|more| - 1];
      RowStays(cards, ops, before, id);
      assert (ops + more)[..|ops + more| - 1] == ops + before && (ops + more)[|ops + more| - 1] == op;
      OthersLeaveAlone(After(cards, ops + before), op, id);
    }
  }

  /** Who is unregistered has neither row nor card, and does not come back by being looked up. */
  lemma UnregisteredIsGone(cards: map<string, Card>, ops: seq<Op>, id: string)
    ensures var t := After(cards, ops + [Unregister(id)]);
      && id !in t.refs && id !in t.cards && id !in Next(t, Get(id)).refs && id !in Next(t, Seed).refs
  {
    assert (ops + [Unregister(id)])[..|ops|] == ops;
  }

  /** Registering again without labels keeps them, in the row and in the card. */
  lemma LabelsSurvive(s: Roster, ref: Ref)
    requires Mirror(s) && IsSession(s, ref.agentId) && ref.kind == SessionKind && ref.labels.None?
    ensures var t := Registered(s, ref);
      t.refs[ref.agentId].labels == t.cards[ref.agentId].labels == s.cards[ref.agentId].labels
  {
  }

  /** A card another process added, for an id with no row here, is a row after the next look at it, and
      the mirror is whole again. */
  lemma GetRecovers(s: Roster, id: string, card: Card)
    requires Mirror(s) && id !in s.refs
    ensures var t := Got(s.(cards := s.cards[id := card]), id);
      Mirror(t) && id in t.refs && CardOf(t.refs[id]) == Canon(id, card)
  {
  }

  /** Before seeding, a row registered without labels takes the card's away: every entry point of the
      network waits for seeding. */
  lemma UnseededLosesLabels(card: Card, ref: Ref)
    requires card.labels.Some? && ref.labels.None? && ref.kind == SessionKind
    ensures Registered(Roster(map[], map[ref.agentId := card]), ref).cards[ref.agentId].labels == None
    ensures Registered(Seeded(Roster(map[], map[ref.agentId := card])), ref).cards[ref.agentId].labels == card.labels
  {
  }

  // ---------------------------------------------------------------- the classes

  class MemoryAgentDirectory {
    var refs: map<string, Ref>

    constructor ()
      ensures refs == map[]
    {
      refs := map[];
    }

    method Register(ref: Ref)
      modifies this
      ensures refs == Put(old(refs), ref)
    {
      if ref.agentId !in refs {
        refs := refs[ref.agentId := ref];
      } else {
        refs := refs[ref.agentId := Merged(refs[ref.agentId], ref)];
      }
    }

    method SetStatus(id: string, status: Status, now: int)
      modifies this
      ensures refs == StatusSet(Roster(old(refs), map[]), id, status, now).refs
    {
      if id !in refs || refs[id].status == status { return; }
      refs := refs[id := refs[id].(status := status, updatedAt := now)];
    }

    method Unregister(id: string)
      modifies this
      ensures refs == old(refs) - {id}
    {
      refs := refs - {id};
    }

    method Get(id: string) returns (ref: Option<Ref>)
      ensures ref == if id in refs then Some(refs[id]) else None
    {
      ref := if id in refs then Some(refs[id]) else None;
    }
  }

  class CardSyncedDirectory {
    const inner: MemoryAgentDirectory
    var cards: map<string, Card>

    ghost function Now(): Roster
      reads this, inner
    {
      Roster(inner.refs, cards)
    }

    constructor (inner: MemoryAgentDirectory, cards: map<string, Card>)
      ensures this.inner == inner && this.cards == cards
    {
      this.inner, this.cards := inner, cards;
    }

    /** Row first: the card then repeats what the row has become. */
    method Register(ref: Ref)
      modifies this, inner
      ensures Now() == Registered(old(Now()), ref)
    {
      inner.Register(ref);
      if ref.kind != SessionKind { return; }
      var merged := inner.Get(ref.agentId);
      if merged.None? { return; }
      cards := cards[ref.agentId := CardOf(merged.value)];
    }

    method SetStatus(id: string, status: Status, now: int)
      modifies inner
      ensures Now() == StatusSet(old(Now()), id, status, now)
    {
      inner.SetStatus(id, status, now);
    }

    method Unregister(id: string)
      modifies this, inner
      ensures Now() == Unregistered(old(Now()), id)
    {
      inner.Unregister(id);
      cards := cards - {id};
    }

    method Get(id: string) returns (ref: Option<Ref>)
      modifies inner
      ensures Now() == Got(old(Now()), id)
      ensures ref == if id in inner.refs then Some(inner.refs[id]) else None
    {
      ref := inner.Get(id);
      if ref.Some? || id !in cards { return; }
      inner.Register(RefFromCard(id, cards[id]));
      ref := inner.Get(id);
    }

    method Seed(ids: seq<string>)
      requires forall id :: id in ids <==> id in cards
      modifies inner
      ensures Now() == Seeded(old(Now()))
    {
      ghost var start := inner.refs;
      for i := 0 to |ids|
        invariant forall id | id in start :: id in inner.refs && inner.refs[id] == start[id]
        invariant forall id | id in inner.refs && id !in start ::
          id in cards && inner.refs[id] == RefFromCard(id, cards[id])
        invariant forall j | 0 <= j < i :: ids[j] in inner.refs
      {
        var live := inner.Get(ids[i]);
        if live.Some? { continue; }
        inner.Register(RefFromCard(ids[i], cards[ids[i]]));
      }
      assert forall id | id in cards :: id in inner.refs;
      assert inner.refs == Seeded(Roster(start, cards)).refs;
    }
  }
}
