// Peer messages between the write-ahead ledger and the recipient's conversation (network.ts: dispatch,
// deliver, observe, reconcile, drainInbox, and the mail a disbanded member leaves).

module PeerLedger {
  import opened Basics
  import opened Mailbox

  // ---------------------------------------------------------------- steps, and crashes between them

  /** How a message may leave the ledger other than by entering its recipient's conversation. */
  datatype Exit = Drained | Disbanded | OffRoster | Unreachable

  /** What opening the recipient's session and steering to its frame came to: it failed, no frame was
      running there, or the message is on the frame's queue. */
  datatype Reached = NotReached | NoFrame | OnQueue

  /** `ledger`, `entered`, the ids in some conversation, and `roster` are durable. `queued`, the messages
      on in-memory queues, `settling`, the settlements under way for entered messages, and `leaving`, those
      begun for messages that leave, are not. `accepted` and `exits` say what has happened. */
  datatype Net = Net(
    ledger: Queues, entered: set<string>, queued: set<Message>, settling: set<(string, string)>,
    leaving: set<(string, Exit)>, roster: set<string>, accepted: map<string, Message>, exits: map<string, Exit>)

  datatype Step =
    | Join(agent: string)
    | Depart(agent: string)
    | Accept(message: Message, capacity: Option<nat>)
    | Steer(id: string, answer: Reached)
    | Enter(key: string, id: string)
    | Settle(key: string, id: string)
    | Miss(id: string)
    | Drain(agent: string)
    | Disband(agent: string)
    | Leave(id: string, how: Exit)
    | Crash

  /** `enqueue`, for a message id never used before. */
  function Accepted(s: Net, m: Message, capacity: Option<nat>): Net {
    if m.id in s.accepted || Full(s.ledger, m.to, capacity) then s
    else s.(ledger := Enqueued(s.ledger, m, capacity), accepted := s.accepted[m.id := m])
  }

  /** The answer of the recipient's session, to a first delivery or another. Where no frame runs, the
      message is about to be settled. */
  function Steered(s: Net, id: string, answer: Reached): Net {
    if id !in s.accepted || answer.NotReached? then s
    else if answer.OnQueue? then s.(queued := s.queued + {s.accepted[id]})
    else s.(leaving := s.leaving + {(id, Unreachable)})
  }

  /** A message enters a conversation, from an in-memory queue or from what the session put back on its
      queue out of its own log; the settlement starts, under the key the event's address gives. */
  function Entered(s: Net, key: string, id: string): Net {
    var queued := set m | m in s.queued && m.id != id :: m;
    s.(queued := queued, entered := s.entered + {id}, settling := s.settling + {(key, id)})
  }

  function SettlementDone(s: Net, key: string, id: string): Net {
    if (key, id) in s.settling then
      s.(ledger := Settled(s.ledger, key, id), settling := s.settling - {(key, id)})
    else s
  }

  /** A message whose recipient is found to be off the roster. */
  function Missed(s: Net, id: string): Net {
    if id in s.accepted && s.accepted[id].to !in s.roster then s.(leaving := s.leaving + {(id, OffRoster)}) else s
  }

  /** All that is pending for an agent is to go: somebody drains its queue, or it is disbanded. */
  function TakenUp(s: Net, agent: string, how: Exit): Net {
    s.(leaving := s.leaving + set m | m in Pending(s.ledger, agent) :: (m.id, how))
  }

  function Left(s: Net, id: string, how: Exit): Net {
    if (id, how) in s.leaving && id in s.accepted then
      s.(ledger := Settled(s.ledger, s.accepted[id].to, id), exits := s.exits[id := how])
    else s
  }

  function Crashed(s: Net): Net { s.(queued := {}, settling := {}, leaving := {}) }

  function Next(s: Net, step: Step): Net {
    match step
    case Join(agent) => s.(roster := s.roster + {agent})
    case Depart(agent) => s.(roster := s.roster - {agent})
    case Accept(m, capacity) => Accepted(s, m, capacity)
    case Steer(id, answer) => Steered(s, id, answer)
    case Enter(key, id) => Entered(s, key, id)
    case Settle(key, id) => SettlementDone(s, key, id)
    case Miss(id) => Missed(s, id)
    case Drain(agent) => TakenUp(s, agent, Drained)
    case Disband(agent) => TakenUp(s, agent, Disbanded)
    case Leave(id, how) => Left(s, id, how)
    case Crash => Crashed(s)
  }

  const EMPTY := Net(map[], {}, {}, {}, {}, {}, map[], map[])

  function After(steps: seq<Step>): Net {
    if steps == [] then EMPTY else Next(After(steps[..|steps| - 1]), steps[|steps| - 1])
  }

  /** Message `id` is in the ledger, or entered a conversation, or left by a named exit. */
  ghost predicate Accounted(s: Net, id: string)
    requires id in s.accepted
  {
    s.accepted[id] in Pending(s.ledger, s.accepted[id].to) || id in s.entered || id in s.exits
  }

  /** The ledger and the in-memory queues hold accepted messages, each under its own id. */
  ghost predicate Known(s: Net, m: Message) { m.id in s.accepted && s.accepted[m.id] == m }

  ghost predicate Safe(s: Net) {
    && Tidy(s.ledger)
    && (forall id | id in s.accepted :: s.accepted[id].id == id && Accounted(s, id))
    && (forall a, m | m in Pending(s.ledger, a) :: Known(s, m))
    && (forall m | m in s.queued :: Known(s, m))
    && (forall key, id | (key, id) in s.settling :: id in s.entered)
  }

  lemma SettledPending(q: Queues, key: string, id: string, a: string, m: Message)
    requires Tidy(q)
    ensures m in Pending(Settled(q, key, id), a) <==> m in Pending(q, a) && !(a == key && m.id == id)
  {
    SettleTakesOne(q, key, id, a);
    WithoutExactly(Pending(q, key), id, m);
  }

  /** Settling an id that entered or left by a named exit loses nothing, whatever key it is settled under. */
  lemma SettlingIsSafe(s: Net, key: string, id: string)
    requires Safe(s) && (id in s.entered || id in s.exits)
    ensures Safe(s.(ledger := Settled(s.ledger, key, id)))
  {
    var t := s.(ledger := Settled(s.ledger, key, id));
    SettleTakesOne(s.ledger, key, id, key);
    forall i | i in t.accepted ensures t.accepted[i].id == i && Accounted(t, i) {
      assert Accounted(s, i);
      SettledPending(s.ledger, key, id, s.accepted[i].to, s.accepted[i]);
    }
    forall a, m | m in Pending(t.ledger, a) ensures Known(t, m) {
      SettledPending(s.ledger, key, id, a, m);
      assert Known(s, m);
    }
    forall m | m in t.queued ensures Known(t, m) { assert Known(s, m); }
  }

  lemma AcceptIsSafe(s: Net, m: Message, capacity: Option<nat>)
    requires Safe(s)
    ensures Safe(Accepted(s, m, capacity))
  {
    var t := Accepted(s, m, capacity);
    if m.id !in s.accepted && !Full(s.ledger, m.to, capacity) {
      EnqueueAddsLast(s.ledger, m, capacity, m.to);
      forall id | id in t.accepted ensures t.accepted[id].id == id && Accounted(t, id) {
        if id != m.id {
          assert Accounted(s, id);
          EnqueueAddsLast(s.ledger, m, capacity, s.accepted[id].to);
        }
      }
      forall a, k | k in Pending(t.ledger, a) ensures Known(t, k) {
        EnqueueAddsLast(s.ledger, m, capacity, a);
        if k in Pending(s.ledger, a) { assert Known(s, k); }
      }
      forall k | k in t.queued ensures Known(t, k) { assert Known(s, k); }
    }
  }

  /** What is in memory or on the roster does not matter, as long as what is queued was accepted and what
      is being settled has entered. */
  lemma MemoryIsSafe(s: Net, t: Net)
    requires Safe(s) && s.entered <= t.entered && t.ledger == s.ledger
      && t.accepted == s.accepted && s.exits.Keys <= t.exits.Keys
    requires forall m | m in t.queued :: m in s.queued || Known(s, m)
    requires forall key, id | (key, id) in t.settling :: id in t.entered
    ensures Safe(t)
  {
    forall id | id in t.accepted ensures t.accepted[id].id == id && Accounted(t, id) { assert Accounted(s, id); }
    forall a, m | m in Pending(t.ledger, a) ensures Known(t, m) { assert Known(s, m); }
    forall m | m in t.queued ensures Known(t, m) { assert Known(s, m); }
  }

  lemma LeaveIsSafe(s: Net, id: string, how: Exit)
    requires Safe(s)
    ensures Safe(Left(s, id, how))
  {
    if (id, how) in s.leaving && id in s.accepted {
      var t := s.(exits := s.exits[id := how]);
      MemoryIsSafe(s, t);
      SettlingIsSafe(t, s.accepted[id].to, id);
    }
  }

  lemma NextIsSafe(s: Net, step: Step)
    requires Safe(s)
    ensures Safe(Next(s, step))
  {
    match step
    case Accept(m, capacity) => AcceptIsSafe(s, m, capacity);
    case Settle(key, id) =>
      if (key, id) in s.settling {
        SettlingIsSafe(s, key, id);
        MemoryIsSafe(s.(ledger := Settled(s.ledger, key, id)), Next(s, step));
      }
    case Leave(id, how) => LeaveIsSafe(s, id, how);
    case _ => MemoryIsSafe(s, Next(s, step));
  }

  /** Main result: over every run, crashes between any two steps included, an accepted message is in the
      ledger, or has entered a conversation, or left by a named exit. */
  lemma {:induction false} NothingLost(steps: seq<Step>)
    ensures Safe(After(steps))
  {
    if steps != [] {
      NothingLost(steps[..|steps| - 1]);
      NextIsSafe(After(steps[..|steps| - 1]), steps[|steps| - 1]);
    }
  }

  /** The step by which a message came to leave as it did. */
  predicate IsReason(s: Net, step: Step, m: Message, how: Exit) {
    match how
    case Unreachable => step == Steer(m.id, NoFrame)
    case OffRoster => step == Miss(m.id) && m.to !in s.roster
    case Drained => step == Drain(m.to) && m in Pending(s.ledger, m.to)
    case Disbanded => step == Disband(m.to) && m in Pending(s.ledger, m.to)
  }

  ghost predicate HasReason(steps: seq<Step>, m: Message, how: Exit) {
    exists i | 0 <= i < |steps| :: IsReason(After(steps[..i]), steps[i], m, how)
  }

  lemma ReasonStays(steps: seq<Step>, step: Step, m: Message, how: Exit)
    requires HasReason(steps, m, how)
    ensures HasReason(steps + [step], m, how)
  {
    var i :| 0 <= i < |steps| && IsReason(After(steps[..i]), steps[i], m, how);
    assert (steps + [step])[..i] == steps[..i] && (steps + [step])[i] == steps[i];
  }

  lemma ReasonNow(steps: seq<Step>, step: Step, m: Message, how: Exit)
    requires IsReason(After(steps), step, m, how)
    ensures HasReason(steps + [step], m, how)
  {
    assert (steps + [step])[..|steps|] == steps && (steps + [step])[|steps|] == step;
  }

  ghost predicate Leaves(s: Net, id: string, how: Exit) {
    (id, how) in s.leaving || (id in s.exits && s.exits[id] == how)
  }

  lemma LeavesForAReason(s: Net, step: Step, id: string, how: Exit)
    requires Safe(s) && Leaves(Next(s, step), id, how) && !Leaves(s, id, how)
    ensures id in s.accepted && IsReason(s, step, s.accepted[id], how)
  {
    if step.Drain? || step.Disband? {
      var m :| m in Pending(s.ledger, step.agent) && m.id == id;
      assert Known(s, m);
    }
  }

  lemma AcceptedStays(s: Net, step: Step, id: string)
    requires id in s.accepted
    ensures id in Next(s, step).accepted && Next(s, step).accepted[id] == s.accepted[id]
  {
  }

  /** No exit is only a name: a message that left, or is about to, was in its recipient's queue when that was
      drained or the recipient disbanded, or was looked up while its recipient was off the roster, or sent
      to a session that had no frame running. */
  lemma {:induction false} ExitsHaveReasons(steps: seq<Step>, id: string, how: Exit)
    ensures Leaves(After(steps), id, how) ==>
      id in After(steps).accepted && HasReason(steps, After(steps).accepted[id], how)
  {
    if steps != [] && Leaves(After(steps), id, how) {
      var before, step := steps[..|steps| - 1], steps[|steps| - 1];
      assert steps == before + [step];
      ExitsHaveReasons(before, id, how);
      NothingLost(before);
      var s := After(before);
      if !Leaves(s, id, how) { LeavesForAReason(s, step, id, how); }
      AcceptedStays(s, step, id);
      if Leaves(s, id, how) {
        ReasonStays(before, step, s.accepted[id], how);
      } else {
        ReasonNow(before, step, s.accepted[id], how);
      }
    }
  }

  /** After a crash, what redelivery will find in the ledger is at least every accepted message that
      neither entered nor left. */
  lemma CrashLeavesTheRest(steps: seq<Step>, id: string)
    requires var s := After(steps); id in s.accepted && id !in s.entered && id !in s.exits
    ensures var s, t := After(steps), After(steps + [Crash]);
      && s.accepted[id] in Pending(t.ledger, s.accepted[id].to) && t.ledger == s.ledger && t.entered == s.entered
      && t.queued == {} && t.settling == {} && t.leaving == {}
  {
    assert (steps + [Crash])[..|steps|] == steps;
    NothingLost(steps);
    assert Accounted(After(steps), id);
  }

  /** Delivery is not exactly once: a crash between the message entering and its settlement leaves it in
      the ledger, to be delivered again. */
  lemma MayBeDeliveredTwice(m: Message)
    ensures var s := After([Accept(m, None), Steer(m.id, OnQueue), Enter(m.to, m.id), Crash]);
      m.id in s.entered && m in Pending(s.ledger, m.to)
  {
    var a, b := [Accept(m, None)], [Accept(m, None), Steer(m.id, OnQueue)];
    var c := b + [Enter(m.to, m.id)];
    var d := c + [Crash];
    assert d[..3] == c && c[..2] == b && b[..1] == a && a[..0] == [];
    assert After(a) == Next(EMPTY, Accept(m, None));
    assert After(b) == Next(After(a), Steer(m.id, OnQueue));
    assert After(c) == Next(After(b), Enter(m.to, m.id));
    assert After(d) == Next(After(c), Crash);
    assert d == [Accept(m, None), Steer(m.id, OnQueue), Enter(m.to, m.id), Crash];
  }

  // ---------------------------------------------------------------- one delivery

  /** Who is on the roster, whether the network is attached to a harness, and how each message fares. */
  datatype World = World(roster: set<string>, attached: bool, reached: string -> Reached)

  /** `deliver`: only a recipient without a running frame is settled; a failure leaves the entry. */
  function Delivered(s: Net, m: Message, w: World): Net {
    if !w.attached then s
    else
      var t := Steered(s, m.id, w.reached(m.id));
      if w.reached(m.id).NoFrame? then Left(t, m.id, Unreachable) else t
  }

  predicate Arrives(m: Message, w: World) { w.attached && w.reached(m.id).OnQueue? }

  /** What reconciling does with one entry. */
  function Reconciled(s: Net, m: Message, w: World): Net {
    if m.to !in w.roster then Left(Missed(s, m.id), m.id, OffRoster) else Delivered(s, m, w)
  }

  function ReconciledAll(s: Net, found: seq<Message>, w: World): Net {
    if found == [] then s else Reconciled(ReconciledAll(s, found[..|found| - 1], w), found[|found| - 1], w)
  }

  function Redelivered(found: seq<Message>, w: World): nat {
    if found == [] then 0
    else
      var m := found[|found| - 1];
      Redelivered(found[..|found| - 1], w) + if m.to in w.roster && Arrives(m, w) then 1 else 0
  }

  /** The entry is still in the ledger after reconciling. */
  predicate Stays(m: Message, w: World) { m.to in w.roster && !(w.attached && w.reached(m.id).NoFrame?) }

  lemma DeliveredIsSafe(s: Net, m: Message, w: World)
    requires Safe(s)
    ensures Safe(Delivered(s, m, w))
  {
    NextIsSafe(s, Steer(m.id, w.reached(m.id)));
    LeaveIsSafe(Steered(s, m.id, w.reached(m.id)), m.id, Unreachable);
  }

  lemma ReconciledKeeps(s: Net, m: Message, w: World)
    ensures Reconciled(s, m, w).accepted == s.accepted && Reconciled(s, m, w).roster == s.roster
  {
  }

  lemma ReconciledIsSafe(s: Net, m: Message, w: World)
    requires Safe(s)
    ensures Safe(Reconciled(s, m, w))
    ensures Reconciled(s, m, w).accepted == s.accepted && Reconciled(s, m, w).roster == s.roster
  {
    ReconciledKeeps(s, m, w);
    if m.to in w.roster {
      DeliveredIsSafe(s, m, w);
    } else {
      NextIsSafe(s, Miss(m.id));
      LeaveIsSafe(Missed(s, m.id), m.id, OffRoster);
    }
  }

  lemma ReconciledPending(s: Net, m: Message, w: World, a: string)
    requires Safe(s) && Known(s, m) && w.roster == s.roster
    ensures Pending(Reconciled(s, m, w).ledger, a) ==
      if a == m.to && !Stays(m, w) then Without(Pending(s.ledger, a), m.id) else Pending(s.ledger, a)
  {
    SettleTakesOne(s.ledger, m.to, m.id, a);
  }

  ghost predicate AllKnown(s: Net, found: seq<Message>) { forall m | m in found :: Known(s, m) }

  lemma {:induction false} ReconciledAllIsSafe(s: Net, found: seq<Message>, w: World)
    requires Safe(s)
    ensures Safe(ReconciledAll(s, found, w))
    ensures ReconciledAll(s, found, w).accepted == s.accepted && ReconciledAll(s, found, w).roster == s.roster
  {
    if found != [] {
      ReconciledAllIsSafe(s, found[..|found| - 1], w);
      ReconciledIsSafe(ReconciledAll(s, found[..|found| - 1], w), found[|found| - 1], w);
    }
  }

  /** Reconciling the mail of some recipients leaves the queues of the others alone. */
  lemma {:induction false} OthersUntouched(s: Net, found: seq<Message>, w: World, a: string)
    requires Safe(s) && AllKnown(s, found) && w.roster == s.roster && forall m | m in found :: m.to != a
    ensures Pending(ReconciledAll(s, found, w).ledger, a) == Pending(s.ledger, a)
  {
    if found != [] {
      var before := found[..|found| - 1];
      forall m | m in before ensures Known(s, m) && m.to != a { assert m in found; }
      OthersUntouched(s, before, w, a);
      ReconciledAllIsSafe(s, before, w);
      assert found[|found| - 1] in found;
      ReconciledPending(ReconciledAll(s, before, w), found[|found| - 1], w, a);
    }
  }

  lemma EntryStep(u: Net, last: Message, w: World, m: Message)
    requires Safe(u) && Known(u, last) && Known(u, m) && w.roster == u.roster
    ensures var t := Reconciled(u, last, w);
      && (m in Pending(t.ledger, m.to) <==> m in Pending(u.ledger, m.to) && (m == last ==> Stays(m, w)))
      && (m in t.queued <==> m in u.queued || (m == last && m.to in w.roster && Arrives(m, w)))
      && (m.id in t.exits <==> m.id in u.exits || (m == last && !Stays(m, w)))
  {
    assert last.id == m.id ==> last == m;
    ReconciledPending(u, last, w, m.to);
    WithoutExactly(Pending(u.ledger, m.to), last.id, m);
  }

  /** What becomes of each entry found: it is on its recipient's queue and still in the ledger, or gone by
      a named exit, or, where the recipient could not be reached, still in the ledger. */
  lemma {:induction false} EachEntryOnce(s: Net, found: seq<Message>, w: World, m: Message)
    requires Safe(s) && AllKnown(s, found) && Known(s, m) && w.roster == s.roster
    ensures var t := ReconciledAll(s, found, w);
      && (m in Pending(t.ledger, m.to) <==> m in Pending(s.ledger, m.to) && (m in found ==> Stays(m, w)))
      && (m in t.queued <==> m in s.queued || (m in found && m.to in w.roster && Arrives(m, w)))
      && (m.id in t.exits <==> m.id in s.exits || (m in found && !Stays(m, w)))
  {
    if found != [] {
      var before, last := found[..|found| - 1], found[|found| - 1];
      assert last in found;
      forall k | k in before ensures Known(s, k) { assert k in found; }
      EachEntryOnce(s, before, w, m);
      ReconciledAllIsSafe(s, before, w);
      assert m in found <==> m in before || m == last by { assert found == before + [last]; }
      assert Known(ReconciledAll(s, before, w), last) && Known(ReconciledAll(s, before, w), m);
      EntryStep(ReconciledAll(s, before, w), last, w, m);
    }
  }

  /** Counted as redelivered. */
  predicate Redelivers(m: Message, w: World) { m.to in w.roster && Arrives(m, w) }

  /** The entries counted as dropped are gone from the ledger exactly when the network is attached and
      reaches the session of every recipient on the roster. */
  lemma DroppedIsGoneExactly(s: Net, found: seq<Message>, w: World)
    requires Safe(s) && AllKnown(s, found) && w.roster == s.roster
    requires forall m | m in found :: m in Pending(s.ledger, m.to)
    ensures (forall m | m in found && !Redelivers(m, w) :: m !in Pending(ReconciledAll(s, found, w).ledger, m.to))
      <==> (forall m | m in found && m.to in w.roster :: w.attached && !w.reached(m.id).NotReached?)
  {
    forall m | m in found ensures m in Pending(ReconciledAll(s, found, w).ledger, m.to) <==> Stays(m, w) {
      assert Known(s, m);
      EachEntryOnce(s, found, w, m);
    }
    if m :| m in found && m.to in w.roster && !(w.attached && !w.reached(m.id).NotReached?) {
      assert !Redelivers(m, w) && Stays(m, w);
    }
  }

  /** A message whose recipient is on the roster but cannot be reached is counted as dropped, and stays. */
  lemma DroppedYetKept(m: Message)
    ensures var s := Accepted(EMPTY.(roster := {m.to}), m, None);
      var w := World({m.to}, true, _ => NotReached);
      Redelivered([m], w) == 0 && m in Pending(ReconciledAll(s, [m], w).ledger, m.to)
  {
    var s := Accepted(EMPTY.(roster := {m.to}), m, None);
    var w := World({m.to}, true, _ => NotReached);
    assert [m][..0] == [];
    assert ReconciledAll(s, [m], w) == Reconciled(s, m, w) == s;
  }

  lemma FirstIsIn(ms: seq<Message>)
    ensures ms != [] ==> ms[0] in ms
  {
  }

  lemma NextCounted(s: Net, found: seq<Message>, m: Message, w: World)
    ensures ReconciledAll(s, found + [m], w) == Reconciled(ReconciledAll(s, found, w), m, w)
    ensures Redelivered(found + [m], w) == Redelivered(found, w) + if m.to in w.roster && Arrives(m, w) then 1 else 0
  {
  }

  /** The entries of the recipients listed. */
  function Entries(q: Queues, agents: seq<string>): seq<Message> {
    if agents == [] then [] else Entries(q, agents[..|agents| - 1]) + Pending(q, agents[|agents| - 1])
  }

  lemma {:induction false} NoneToRemove(ms: seq<Message>, id: string)
    requires forall m | m in ms :: m.id != id
    ensures Without(ms, id) == ms
  {
    if ms != [] {
      assert ms[0] in ms && forall m | m in ms[1..] :: m in ms;
      NoneToRemove(ms[1..], id);
    }
  }

  /** A new message that is accepted is the last of its recipient's, unless no frame runs there. */
  lemma DispatchedPending(s: Net, m: Message, capacity: Option<nat>, w: World)
    requires Safe(s) && m.id !in s.accepted && !Full(s.ledger, m.to, capacity)
    ensures var t := Delivered(Accepted(s, m, capacity), m, w);
      && Pending(t.ledger, m.to) ==
           Pending(s.ledger, m.to) + (if w.attached && w.reached(m.id).NoFrame? then [] else [m])
      && (forall a | a != m.to :: Pending(t.ledger, a) == Pending(s.ledger, a))
  {
    var u := Accepted(s, m, capacity);
    AcceptedPending(s, m, capacity);
    DeliveredLedger(u, m, w);
    forall k | k in Pending(s.ledger, m.to) ensures k.id != m.id { assert Known(s, k); }
    SettledAtOnce(s.ledger, u.ledger, m);
  }

  lemma AcceptedPending(s: Net, m: Message, capacity: Option<nat>)
    requires Safe(s) && m.id !in s.accepted && !Full(s.ledger, m.to, capacity)
    ensures var t := Accepted(s, m, capacity);
      && m.id in t.accepted && t.accepted[m.id] == m && Tidy(t.ledger)
      && forall a :: Pending(t.ledger, a) == Pending(s.ledger, a) + (if a == m.to then [m] else [])
  {
    AcceptIsSafe(s, m, capacity);
    forall a ensures Pending(Enqueued(s.ledger, m, capacity), a) ==
      Pending(s.ledger, a) + (if a == m.to then [m] else [])
    {
      EnqueueAddsLast(s.ledger, m, capacity, a);
    }
  }

  lemma DeliveredLedger(s: Net, m: Message, w: World)
    requires m.id in s.accepted && s.accepted[m.id] == m
    ensures Delivered(s, m, w).ledger ==
      if w.attached && w.reached(m.id).NoFrame? then Settled(s.ledger, m.to, m.id) else s.ledger
  {
  }

  /** A message settled right after it was put last leaves the queues as they were. */
  lemma SettledAtOnce(q: Queues, more: Queues, m: Message)
    requires Tidy(more) && forall k | k in Pending(q, m.to) :: k.id != m.id
    requires Pending(more, m.to) == Pending(q, m.to) + [m]
    requires forall a | a != m.to :: Pending(more, a) == Pending(q, a)
    ensures forall a :: Pending(Settled(more, m.to, m.id), a) == Pending(q, a)
  {
    WithoutLast(Pending(q, m.to), m, m.id);
    NoneToRemove(Pending(q, m.to), m.id);
    forall a ensures Pending(Settled(more, m.to, m.id), a) == Pending(q, a) {
      SettleTakesOne(more, m.to, m.id, a);
    }
  }

  /** This message alone, if it is to the agent. */
  function IfTo(m: Message, agent: string): seq<Message> { if m.to == agent then [m] else [] }

  /** The messages to one agent, in order. */
  function To(ms: seq<Message>, agent: string): seq<Message> {
    if ms == [] then [] else IfTo(ms[0], agent) + To(ms[1..], agent)
  }

  lemma ToFirst(m: Message, ms: seq<Message>, agent: string)
    ensures To([m] + ms, agent) == IfTo(m, agent) + To(ms, agent)
  {
    assert ([m] + ms)[1..] == ms;
  }

  lemma FirstOf(m: Message, a: seq<Message>, b: seq<Message>)
    ensures [m] + a + b == [m] + (a + b)
  {
  }

  lemma {:induction false} ToAppend(a: seq<Message>, b: seq<Message>, agent: string)
    ensures To(a + b, agent) == To(a, agent) + To(b, agent)
  {
    if a == [] {
      assert a + b == b;
    } else {
      ToAppend(a[1..], b, agent);
      ToFirst(a[0], a[1..], agent);
      assert a == [a[0]] + a[1..];
      FirstOf(a[0], a[1..], b);
      ToFirst(a[0], a[1..] + b, agent);
    }
  }

  lemma {:induction false} ToOne(ms: seq<Message>, to: string, agent: string)
    requires forall i | 0 <= i < |ms| :: ms[i].to == to
    ensures To(ms, agent) == if to == agent then ms else []
  {
    if ms != [] { ToOne(ms[1..], to, agent); }
  }

  lemma EntriesTo(found: seq<Message>, last: string, ms: seq<Message>, agent: string, share: seq<Message>)
    requires To(found, agent) == share && forall i | 0 <= i < |ms| :: ms[i].to == last
    ensures To(found + ms, agent) == share + (if last == agent then ms else [])
  {
    ToAppend(found, ms, agent);
    ToOne(ms, last, agent);
  }

  /** The entries found are all there are: of each recipient listed the whole queue, in order. */
  lemma {:induction false} EntriesExactly(q: Queues, agents: seq<string>, agent: string)
    requires Tidy(q) && forall i, j | 0 <= i < j < |agents| :: agents[i] != agents[j]
    ensures To(Entries(q, agents), agent) == if agent in agents then Pending(q, agent) else []
  {
    if agents != [] {
      var before, last := agents[..|agents| - 1], agents[|agents| - 1];
      EntriesExactly(q, before, agent);
      assert agents == before + [last];
      EntriesTo(Entries(q, before), last, Pending(q, last), agent, To(Entries(q, before), agent));
    }
  }

  // ---------------------------------------------------------------- the network

  datatype Receipt = Handed | QuotaExceeded | MailboxFull | NotDelivered

  class PeerNetwork {
    var ledger: Queues
    var wokenBy: set<string>
    var roster: set<string>
    ghost var net: Net

    ghost predicate Valid()
      reads this
    {
      net.ledger == ledger && net.roster == roster && Safe(net)
    }

    constructor ()
      ensures Valid() && net == EMPTY && wokenBy == {}
    {
      ledger, wokenBy, roster, net := map[], {}, {}, EMPTY;
    }

    method Join(agent: string)
      requires Valid()
      modifies this`roster, this`net
      ensures Valid() && roster == old(roster) + {agent} && net == Next(old(net), Step.Join(agent))
    {
      NextIsSafe(net, Step.Join(agent));
      roster, net := roster + {agent}, Next(net, Step.Join(agent));
    }

    /** A member of a disbanded team: its mail is dropped, and it leaves the roster. */
    method DisbandMember(agent: string)
      requires Valid()
      modifies this`ledger, this`roster, this`net
      ensures Valid() && roster == old(roster) - {agent} && Pending(ledger, agent) == []
      ensures forall a | a != agent :: Pending(ledger, a) == old(Pending(ledger, a))
      ensures AllLeft(net, old(Pending(ledger, agent)), Disbanded)
    {
      var _ := TakeAll(agent, Disbanded);
      NextIsSafe(net, Depart(agent));
      roster, net := roster - {agent}, Next(net, Depart(agent));
    }

    /** `mailbox.settle`. */
    method SettleIn(agent: string, id: string)
      modifies this`ledger
      ensures ledger == Settled(old(ledger), agent, id)
    {
      if agent !in ledger { return; }
      var next := Filtered(ledger[agent], id);
      if |next| == 0 {
        ledger := ledger - {agent};
      } else {
        ledger := ledger[agent := next];
      }
    }

    /** The same, for an entry that leaves by `how`. */
    method SettleEntry(m: Message, ghost how: Exit)
      requires Valid() && Known(net, m) && (m.id, how) in net.leaving
      modifies this`ledger, this`net
      ensures Valid() && net == Left(old(net), m.id, how)
      ensures ledger == Settled(old(ledger), m.to, m.id) && net.exits == old(net).exits[m.id := how]
      ensures net.accepted == old(net).accepted && net.leaving == old(net).leaving
    {
      LeaveIsSafe(net, m.id, how);
      net := Left(net, m.id, how);
      SettleIn(m.to, m.id);
    }

    method Deliver(m: Message, w: World, running: bool) returns (receipt: Receipt)
      requires Valid() && Known(net, m)
      modifies this`ledger, this`wokenBy, this`net
      ensures Valid() && net == Delivered(old(net), m, w)
      ensures receipt == if Arrives(m, w) then Handed else NotDelivered
      ensures wokenBy == old(wokenBy) + if running then {} else {m.id}
    {
      if !running { wokenBy := wokenBy + {m.id}; }
      if !w.attached { return NotDelivered; }
      match w.reached(m.id)
      case NotReached =>
        return NotDelivered;
      case NoFrame =>
        NextIsSafe(net, Steer(m.id, NoFrame));
        net := Steered(net, m.id, NoFrame);
        SettleEntry(m, Unreachable);
        return NotDelivered;
      case OnQueue =>
        NextIsSafe(net, Steer(m.id, OnQueue));
        net := Steered(net, m.id, OnQueue);
        return Handed;
    }

    /** A message is accepted exactly when it is neither over budget nor over capacity; one that is not
        accepted leaves no trace, and of one that is, the receipt says whether it reached a queue. */
    method Dispatch(m: Message, overspent: bool, capacity: Option<nat>, w: World, running: bool)
        returns (receipt: Receipt)
      requires Valid() && m.id !in net.accepted
      modifies this`ledger, this`wokenBy, this`net
      ensures Valid()
      ensures overspent ==> receipt == QuotaExceeded && net == old(net)
      ensures !overspent && Full(old(ledger), m.to, capacity) ==> receipt == MailboxFull && net == old(net)
      ensures !overspent && !Full(old(ledger), m.to, capacity) ==>
        && net == Delivered(Accepted(old(net), m, capacity), m, w)
        && m.id in net.accepted
        && (receipt == Handed <==> Arrives(m, w)) && (receipt == NotDelivered <==> !Arrives(m, w))
      ensures receipt == QuotaExceeded <==> overspent
      ensures receipt == MailboxFull <==>
        !overspent && capacity.Some? && |Pending(old(ledger), m.to)| >= capacity.value
      ensures receipt in {QuotaExceeded, MailboxFull} ==> ledger == old(ledger) && wokenBy == old(wokenBy)
      ensures receipt in {Handed, NotDelivered} ==>
        && wokenBy == old(wokenBy) + (if running then {} else {m.id})
        && Pending(ledger, m.to) ==
             Pending(old(ledger), m.to) + if w.attached && w.reached(m.id).NoFrame? then [] else [m]
      ensures receipt == Handed <==>
        receipt in {Handed, NotDelivered} && w.attached && w.reached(m.id).OnQueue?
      ensures forall a | a != m.to :: Pending(ledger, a) == Pending(old(ledger), a)
    {
      if overspent { return QuotaExceeded; }
      var accepted := EnqueueEntry(m, capacity);
      if !accepted { return MailboxFull; }
      receipt := Deliver(m, w, running);
      DispatchedPending(old(net), m, capacity, w);
    }

    /** `mailbox.enqueue`. */
    method EnqueueEntry(m: Message, capacity: Option<nat>) returns (accepted: bool)
      requires Valid() && m.id !in net.accepted
      modifies this`ledger, this`net
      ensures Valid() && accepted == !Full(old(ledger), m.to, capacity)
      ensures net == Accepted(old(net), m, capacity) && (accepted ==> Known(net, m))
    {
      var queue := if m.to in ledger then ledger[m.to] else [];
      if capacity.Some? && |queue| >= capacity.value { return false; }
      AcceptIsSafe(net, m, capacity);
      net := Accepted(net, m, capacity);
      ledger := ledger[m.to := queue + [m]];
      return true;
    }

    /** `observe` of a message entering a conversation, and the settlement it starts; the id may be any, of
        a message the session put back on its queue itself, or of none the network knows. */
    method Observe(key: string, id: string) returns (woken: bool)
      requires Valid()
      modifies this`ledger, this`wokenBy, this`net
      ensures Valid() && net == SettlementDone(Entered(old(net), key, id), key, id)
      ensures id in net.entered && forall m | m in Pending(ledger, key) :: m.id != id
      ensures forall m :: m in net.queued <==> m in old(net).queued && m.id != id
      ensures woken == (id in old(wokenBy)) && wokenBy == old(wokenBy) - {id}
    {
      woken := id in wokenBy;
      wokenBy := wokenBy - {id};
      NextIsSafe(net, Enter(key, id));
      net := Entered(net, key, id);
      NextIsSafe(net, Step.Settle(key, id));
      forall m | m in Pending(Settled(net.ledger, key, id), key) ensures m.id != id {
        SettledPending(net.ledger, key, id, key, m);
      }
      net := SettlementDone(net, key, id);
      SettleIn(key, id);
    }

    /** The network while it reconciles: `found` so far, counted as they fared. */
    ghost predicate Reconciling(start: Net, found: seq<Message>, w: World, redelivered: nat, dropped: nat)
      reads this
    {
      && Valid() && AllKnown(start, found) && net == ReconciledAll(start, found, w)
      && redelivered == Redelivered(found, w) && redelivered + dropped == |found|
    }

    /** Every entry the ledger held is counted once: as redelivered when it reached its recipient's queue,
        as dropped otherwise, also where it stays in the ledger because its recipient was not reached. */
    method Reconcile(recipients: seq<string>, w: World, running: set<string>)
      returns (redelivered: nat, dropped: nat, ghost found: seq<Message>)
      requires Valid() && (forall a :: a in recipients <==> a in ledger)
      requires forall i, j | 0 <= i < j < |recipients| :: recipients[i] != recipients[j]
      requires w.roster == roster
      modifies this`ledger, this`wokenBy, this`net
      ensures Reconciling(old(net), found, w, redelivered, dropped)
      ensures found == Entries(old(ledger), recipients)
      ensures forall a :: To(found, a) == Pending(old(ledger), a)
    {
      redelivered, dropped, found := 0, 0, [];
      ghost var start := net;
      for i := 0 to |recipients|
        invariant Reconciling(start, found, w, redelivered, dropped)
        invariant found == Entries(start.ledger, recipients[..i])
        invariant forall m | m in found :: m.to in recipients[..i]
      {
        var a := recipients[i];
        assert recipients[..i + 1] == recipients[..i] + [a];
        assert a !in recipients[..i];
        OthersUntouched(start, found, w, a);
        ghost var before := found;
        redelivered, dropped, found := ReconcileOne(a, w, a in running, start, found, redelivered, dropped);
        forall m | m in found ensures m.to in recipients[..i + 1] {
          if m !in before { assert m in Pending(start.ledger, a); }
        }
      }
      assert recipients[..|recipients|] == recipients;
      forall a ensures To(found, a) == Pending(start.ledger, a) { EntriesExactly(start.ledger, recipients, a); }
    }

    method ReconcileOne(a: string, w: World, running: bool, ghost start: Net, ghost before: seq<Message>,
                        redelivered0: nat, dropped0: nat)
      returns (redelivered: nat, dropped: nat, ghost found: seq<Message>)
      requires Reconciling(start, before, w, redelivered0, dropped0) && Safe(start)
        && w.roster == start.roster == roster
      requires Pending(ledger, a) == Pending(start.ledger, a)
      modifies this`ledger, this`wokenBy, this`net
      ensures Reconciling(start, found, w, redelivered, dropped)
      ensures found == before + Pending(start.ledger, a)
    {
      var messages := if a in ledger then ledger[a] else [];
      redelivered, dropped, found := redelivered0, dropped0, before;
      for j := 0 to |messages|
        invariant Reconciling(start, found, w, redelivered, dropped)
        invariant found == before + messages[..j]
      {
        assert messages[j] in Pending(start.ledger, a);
        assert messages[..j + 1] == messages[..j] + [messages[j]];
        redelivered, dropped := ReconcileNext(messages[j], w, running, start, found, redelivered, dropped);
        found := found + [messages[j]];
      }
      assert messages[..|messages|] == messages;
    }

    method ReconcileNext(m: Message, w: World, running: bool, ghost start: Net, ghost found: seq<Message>,
                         redelivered0: nat, dropped0: nat)
      returns (redelivered: nat, dropped: nat)
      requires Reconciling(start, found, w, redelivered0, dropped0) && Safe(start)
        && w.roster == start.roster == roster && Known(start, m)
      modifies this`ledger, this`wokenBy, this`net
      ensures Reconciling(start, found + [m], w, redelivered, dropped)
    {
      ReconciledAllIsSafe(start, found, w);
      var handed := ReconcileEntry(m, w, running);
      NextCounted(start, found, m, w);
      redelivered, dropped := redelivered0, dropped0;
      if handed { redelivered := redelivered + 1; } else { dropped := dropped + 1; }
    }

    method ReconcileEntry(m: Message, w: World, running: bool) returns (handed: bool)
      requires Valid() && Known(net, m) && w.roster == roster
      modifies this`ledger, this`wokenBy, this`net
      ensures Valid() && net == Reconciled(old(net), m, w)
      ensures handed <==> m.to in w.roster && Arrives(m, w)
    {
      if m.to !in roster {
        NextIsSafe(net, Miss(m.id));
        net := Missed(net, m.id);
        SettleEntry(m, OffRoster);
        return false;
      }
      var receipt := Deliver(m, w, running);
      return receipt.Handed?;
    }

    /** Everything pending for an agent begins to leave. */
    ghost method TakeUp(agent: string, how: Exit)
      requires Valid() && (how.Drained? || how.Disbanded?)
      modifies this`net
      ensures Valid() && net == TakenUp(old(net), agent, how)
      ensures forall m | m in Pending(ledger, agent) :: (m.id, how) in net.leaving
    {
      NextIsSafe(net, if how.Drained? then Drain(agent) else Disband(agent));
      net := TakenUp(net, agent, how);
    }

    /** The first of what is left goes, after those that went before. */
    method TakeNext(ghost start: Queues, agent: string, left: seq<Message>, ghost gone: seq<Message>, ghost how: Exit)
      requires Valid() && left != [] && left[0].to == agent && Known(net, left[0]) && (left[0].id, how) in net.leaving
      requires TakenFrom(start, ledger, agent, left) && AllLeft(net, gone, how)
      modifies this`ledger, this`net
      ensures Valid() && net.accepted == old(net).accepted && net.leaving == old(net).leaving
      ensures TakenFrom(start, ledger, agent, left[1..]) && AllLeft(net, gone + [left[0]], how)
    {
      TakesOneMore(start, ledger, agent, left);
      SettleEntry(left[0], how);
    }

    /** All that was taken up goes. */
    method TakeEach(ghost start: Queues, agent: string, messages: seq<Message>, ghost how: Exit)
      requires Valid() && messages == Pending(ledger, agent) && TakenFrom(start, ledger, agent, messages)
      requires forall m | m in messages :: (m.id, how) in net.leaving
      modifies this`ledger, this`net
      ensures Valid() && TakenFrom(start, ledger, agent, []) && AllLeft(net, messages, how)
    {
      ghost var before := net;
      for i := 0 to |messages|
        invariant Valid() && net.accepted == before.accepted && net.leaving == before.leaving
        invariant TakenFrom(start, ledger, agent, messages[i..])
        invariant AllLeft(net, messages[..i], how)
      {
        assert Known(before, messages[i]);
        TakeNext(start, agent, messages[i..], messages[..i], how);
        assert messages[i..][1..] == messages[i + 1..] && messages[..i + 1] == messages[..i] + [messages[i]];
      }
      assert messages[..|messages|] == messages;
    }

    /** Takes what is pending for an agent out of the ledger: `drainInbox`, and `disbandTeam` for a member. */
    method TakeAll(agent: string, ghost how: Exit) returns (messages: seq<Message>)
      requires Valid() && (how.Drained? || how.Disbanded?)
      modifies this`ledger, this`net
      ensures Valid() && messages == old(Pending(ledger, agent)) && Pending(ledger, agent) == []
      ensures forall a | a != agent :: Pending(ledger, a) == old(Pending(ledger, a))
      ensures AllLeft(net, messages, how)
    {
      messages := if agent in ledger then ledger[agent] else [];
      TakeUp(agent, how);
      TakeEach(ledger, agent, messages, how);
      FirstIsIn(Pending(ledger, agent));
    }
  }

  ghost predicate AllLeft(s: Net, messages: seq<Message>, how: Exit) {
    forall m | m in messages :: m.id in s.exits && s.exits[m.id] == how
  }

  /** Of one queue at most `left` is still there, and the others are as they were. */
  ghost predicate TakenFrom(start: Queues, q: Queues, agent: string, left: seq<Message>) {
    && (forall a | a != agent :: Pending(q, a) == Pending(start, a))
    && (forall m | m in Pending(q, agent) :: m in left)
  }

  lemma TakesOneMore(start: Queues, q: Queues, agent: string, left: seq<Message>)
    requires TakenFrom(start, q, agent, left) && Tidy(q) && left != []
    ensures TakenFrom(start, Settled(q, agent, left[0].id), agent, left[1..])
  {
    var t := Settled(q, agent, left[0].id);
    forall a | a != agent ensures Pending(t, a) == Pending(start, a) { SettleTakesOne(q, agent, left[0].id, a); }
    forall m | m in Pending(t, agent) ensures m in left[1..] { SettledPending(q, agent, left[0].id, agent, m); }
  }
}
