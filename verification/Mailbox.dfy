// Messages in flight (mailbox.ts): one queue a recipient, first in first out, no empty queue kept.

module Mailbox {
  import opened Basics

  datatype Message = Message(id: string, sender: string, to: string, content: string)

  type Queues = map<string, seq<Message>>

  // ---------------------------------------------------------------- what a mailbox is

  function Pending(q: Queues, agent: string): seq<Message> { if agent in q then q[agent] else [] }

  predicate Full(q: Queues, agent: string, capacity: Option<nat>) {
    capacity.Some? && |Pending(q, agent)| >= capacity.value
  }

  function Enqueued(q: Queues, m: Message, capacity: Option<nat>): Queues {
    if Full(q, m.to, capacity) then q else q[m.to := Pending(q, m.to) + [m]]
  }

  /** This message alone, unless it has the id. */
  function Kept(m: Message, id: string): seq<Message> { if m.id == id then [] else [m] }

  function Without(ms: seq<Message>, id: string): seq<Message> {
    if ms == [] then [] else Kept(ms[0], id) + Without(ms[1..], id)
  }

  function Settled(q: Queues, agent: string, id: string): Queues {
    if agent !in q then q
    else
      var next := Without(q[agent], id);
      if next == [] then q - {agent} else q[agent := next]
  }

  // ---------------------------------------------------------------- what every mailbox keeps

  datatype Op = Enqueue(message: Message, capacity: Option<nat>) | Settle(agent: string, id: string)

  function Step(q: Queues, op: Op): Queues {
    match op
    case Enqueue(m, capacity) => Enqueued(q, m, capacity)
    case Settle(agent, id) => Settled(q, agent, id)
  }

  function After(ops: seq<Op>): Queues {
    if ops == [] then map[] else Step(After(ops[..|ops| - 1]), ops[|ops| - 1])
  }

  /** No queue is empty, and every message waits in its recipient's. */
  ghost predicate Tidy(q: Queues) {
    forall a | a in q :: q[a] != [] && forall i | 0 <= i < |q[a]| :: q[a][i].to == a
  }

  ghost predicate WithinCapacity(q: Queues, capacity: nat) { forall a :: |Pending(q, a)| <= capacity }

  lemma {:induction false} WithoutKeeps(ms: seq<Message>, id: string, to: string)
    requires forall i | 0 <= i < |ms| :: ms[i].to == to
    ensures |Without(ms, id)| <= |ms| && forall i | 0 <= i < |Without(ms, id)| :: Without(ms, id)[i].to == to
  {
    if ms != [] { WithoutKeeps(ms[1..], id, to); }
  }

  lemma {:induction false} WithoutExactly(ms: seq<Message>, id: string, m: Message)
    ensures m in Without(ms, id) <==> m in ms && m.id != id
  {
    if ms != [] { WithoutExactly(ms[1..], id, m); }
  }

  lemma WithoutFirst(m: Message, ms: seq<Message>, id: string)
    ensures Without([m] + ms, id) == Kept(m, id) + Without(ms, id)
  {
    assert ([m] + ms)[1..] == ms;
  }

  /** What stays keeps its order. */
  lemma {:induction false} WithoutLast(ms: seq<Message>, m: Message, id: string)
    ensures Without(ms + [m], id) == Without(ms, id) + Kept(m, id)
  {
    if ms == [] {
      WithoutFirst(m, [], id);
      assert ms + [m] == [m] + [];
    } else {
      var first, rest := Kept(ms[0], id), Without(ms[1..], id);
      assert ms + [m] == [ms[0]] + (ms[1..] + [m]);
      WithoutFirst(ms[0], ms[1..] + [m], id);
      WithoutLast(ms[1..], m, id);
      assert first + (rest + Kept(m, id)) == (first + rest) + Kept(m, id);
    }
  }

  /** A settled message is gone from its recipient's queue and no other message is; other queues do not
      change. */
  lemma SettleTakesOne(q: Queues, agent: string, id: string, other: string)
    requires Tidy(q)
    ensures Tidy(Settled(q, agent, id))
    ensures Pending(Settled(q, agent, id), other) ==
      if other == agent then Without(Pending(q, agent), id) else Pending(q, other)
  {
    if agent in q { WithoutKeeps(q[agent], id, agent); }
  }

  lemma EnqueueAddsLast(q: Queues, m: Message, capacity: Option<nat>, other: string)
    requires Tidy(q)
    ensures Tidy(Enqueued(q, m, capacity))
    ensures Pending(Enqueued(q, m, capacity), other) ==
      Pending(q, other) + if other == m.to && !Full(q, other, capacity) then [m] else []
  {
  }

  /** A message is accepted exactly while its recipient has fewer pending than the capacity; it is then the
      last of them, and otherwise nothing changes. */
  lemma EnqueueExactly(ops: seq<Op>, m: Message, capacity: Option<nat>)
    ensures var q, t := After(ops), After(ops + [Enqueue(m, capacity)]);
      && (capacity.None? || |Pending(q, m.to)| < capacity.value ==> Pending(t, m.to) == Pending(q, m.to) + [m])
      && (capacity.Some? && |Pending(q, m.to)| >= capacity.value ==> t == q)
      && (forall a | a != m.to :: Pending(t, a) == Pending(q, a))
  {
    assert (ops + [Enqueue(m, capacity)])[..|ops|] == ops;
  }

  /** In every mailbox that starts empty. */
  lemma {:induction false} AlwaysTidy(ops: seq<Op>)
    ensures Tidy(After(ops))
  {
    if ops != [] {
      AlwaysTidy(ops[..|ops| - 1]);
      match ops[|ops| - 1]
      case Enqueue(m, capacity) => EnqueueAddsLast(After(ops[..|ops| - 1]), m, capacity, m.to);
      case Settle(agent, id) => SettleTakesOne(After(ops[..|ops| - 1]), agent, id, agent);
    }
  }

  /** Capacity is a hard limit, when every message is enqueued under one. */
  lemma {:induction false} NeverOverCapacity(ops: seq<Op>, capacity: nat)
    requires forall i | 0 <= i < |ops| && ops[i].Enqueue? :: ops[i].capacity == Some(capacity)
    ensures WithinCapacity(After(ops), capacity)
  {
    if ops != [] {
      var before, op := ops[..|ops| - 1], ops[|ops| - 1];
      NeverOverCapacity(before, capacity);
      AlwaysTidy(before);
      forall a ensures |Pending(After(ops), a)| <= capacity {
        match op
        case Enqueue(m, c) =>
          EnqueueAddsLast(After(before), m, c, a);
        case Settle(agent, id) =>
          SettleTakesOne(After(before), agent, id, a);
          if agent in After(before) { WithoutKeeps(After(before)[agent], id, agent); }
      }
    }
  }

  // ---------------------------------------------------------------- in memory

  class MemoryPeerMailbox {
    var queues: Queues

    constructor ()
      ensures queues == map[]
    {
      queues := map[];
    }

    method Enqueue(message: Message, capacity: Option<nat>) returns (accepted: bool)
      modifies this
      ensures accepted == !Full(old(queues), message.to, capacity)
      ensures queues == Enqueued(old(queues), message, capacity)
      ensures accepted <==> capacity.None? || |Pending(old(queues), message.to)| < capacity.value
      ensures accepted ==> Pending(queues, message.to) == Pending(old(queues), message.to) + [message]
      ensures forall a | a != message.to || !accepted :: Pending(queues, a) == Pending(old(queues), a)
    {
      var queue := if message.to in queues then queues[message.to] else [];
      if capacity.Some? && |queue| >= capacity.value { return false; }
      queue := queue + [message];
      queues := queues[message.to := queue];
      return true;
    }

    method PendingOf(agent: string) returns (messages: seq<Message>)
      ensures messages == Pending(queues, agent)
    {
      messages := if agent in queues then queues[agent] else [];
    }

    method Settle(agent: string, id: string)
      modifies this
      ensures queues == Settled(old(queues), agent, id)
    {
      if agent !in queues { return; }
      var next := Filtered(queues[agent], id);
      if |next| == 0 {
        queues := queues - {agent};
      } else {
        queues := queues[agent := next];
      }
    }

    method PendingRecipients() returns (agents: set<string>)
      requires Tidy(queues)
      ensures forall a :: a in agents <==> Pending(queues, a) != []
    {
      agents := queues.Keys;
    }
  }

  /** `filter`, keeping the messages with another id. */
  method Filtered(ms: seq<Message>, id: string) returns (next: seq<Message>)
    ensures next == Without(ms, id)
  {
    next := [];
    for i := 0 to |ms|
      invariant next == Without(ms[..i], id)
    {
      WithoutLast(ms[..i], ms[i], id);
      assert ms[..i + 1] == ms[..i] + [ms[i]];
      if ms[i].id != id { next := next + [ms[i]]; }
    }
    assert ms[..|ms|] == ms;
  }
}
