// The gate that bounds parallel nested calls (run-code-tool.ts, class Gate). A waiter that `leave`
// wakes counts itself in only when its own continuation runs, which is a step of its own.

module Gate {
  /** `woken` are the callers whose turn has come but who have not resumed yet. */
  datatype State = State(inside: nat, waiting: seq<nat>, woken: seq<nat>)

  const EMPTY := State(0, [], [])

  datatype Op = Enter(caller: nat) | Leave | Resume

  predicate Enabled(s: State, op: Op) {
    match op
    case Enter(_) => true
    case Leave => s.inside > 0
    case Resume => s.woken != []
  }

  function Step(size: nat, s: State, op: Op): State
    requires Enabled(s, op)
  {
    match op
    case Enter(caller) =>
      if s.inside < size then s.(inside := s.inside + 1) else s.(waiting := s.waiting + [caller])
    case Leave =>
      if s.waiting == [] then s.(inside := s.inside - 1)
      else State(s.inside - 1, s.waiting[1..], s.woken + [s.waiting[0]])
    case Resume => s.(inside := s.inside + 1, woken := s.woken[1..])
  }

  /** A sequence of steps, skipping what cannot happen. */
  function Reach(size: nat, ops: seq<Op>): State {
    if ops == [] then EMPTY
    else
      var s := Reach(size, ops[..|ops| - 1]);
      if Enabled(s, ops[|ops| - 1]) then Step(size, s, ops[|ops| - 1]) else s
  }

  /** The callers that had to queue, in the order they did. */
  function Queued(size: nat, ops: seq<Op>): seq<nat> {
    if ops == [] then []
    else
      var before := ops[..|ops| - 1];
      match ops[|ops| - 1]
      case Enter(caller) =>
        if Reach(size, before).inside < size then Queued(size, before) else Queued(size, before) + [caller]
      case _ => Queued(size, before)
  }

  /** The callers that have been woken, in the order they were. */
  function Woken(size: nat, ops: seq<Op>): seq<nat> {
    if ops == [] then []
    else
      var before := ops[..|ops| - 1];
      var s := Reach(size, before);
      if ops[|ops| - 1].Leave? && s.inside > 0 && s.waiting != [] then Woken(size, before) + [s.waiting[0]]
      else Woken(size, before)
  }

  /** No wake-up is lost: while a caller waits, the places are taken or already promised. */
  lemma {:induction false} NeverLosesWakeup(size: nat, ops: seq<Op>)
    ensures var s := Reach(size, ops); s.waiting != [] ==> s.inside + |s.woken| >= size
  {
    if ops != [] { NeverLosesWakeup(size, ops[..|ops| - 1]); }
  }

  /** First in, first out: those woken so far and those still waiting are the queue, in order. */
  lemma {:induction false} WakesInOrder(size: nat, ops: seq<Op>)
    ensures Woken(size, ops) + Reach(size, ops).waiting == Queued(size, ops)
  {
    if ops != [] {
      WakesInOrder(size, ops[..|ops| - 1]);
      var s := Reach(size, ops[..|ops| - 1]);
      if s.waiting != [] { assert s.waiting == [s.waiting[0]] + s.waiting[1..]; }
    }
  }

  /** Whether some caller got in past one already woken, while every place was promised. */
  predicate CutsIn(size: nat, ops: seq<Op>)
  {
    ops != [] &&
    (CutsIn(size, ops[..|ops| - 1]) ||
     (var s := Reach(size, ops[..|ops| - 1]);
      ops[|ops| - 1].Enter? && s.woken != [] && s.inside < size <= s.inside + |s.woken|))
  }

  /** Places taken and promised never exceed the size, unless somebody cut in. */
  lemma {:induction false} Bounded(size: nat, ops: seq<Op>)
    requires !CutsIn(size, ops)
    ensures var s := Reach(size, ops); s.inside + |s.woken| <= size
  {
    if ops != [] { Bounded(size, ops[..|ops| - 1]); }
  }

  /** Steps in which so many woken callers take their places. */
  function Resumes(k: nat): seq<Op> { seq(k, _ => Resume) }

  /** The gate once everyone woken has resumed. */
  function Resumed(size: nat, ops: seq<Op>): State { Reach(size, ops + Resumes(|Reach(size, ops).woken|)) }

  lemma {:induction false} ResumesOne(size: nat, ops: seq<Op>, k: nat)
    requires k <= |Reach(size, ops).woken|
    ensures var s := Reach(size, ops);
      Reach(size, ops + Resumes(k)) == State(s.inside + k, s.waiting, s.woken[k..])
  {
    if k == 0 {
      assert ops + Resumes(0) == ops;
    } else {
      ResumesOne(size, ops, k - 1);
      assert (ops + Resumes(k))[..|ops| + k - 1] == ops + Resumes(k - 1);
    }
  }

  /** Every place promised is taken when everyone woken resumes. */
  lemma ResumedHoldsAll(size: nat, ops: seq<Op>)
    ensures var s := Reach(size, ops); Resumed(size, ops) == State(s.inside + |s.woken|, s.waiting, [])
  {
    ResumesOne(size, ops, |Reach(size, ops).woken|);
  }

  lemma {:induction false} NobodyHadCutIn(size: nat, ops: seq<Op>, n: nat)
    requires !CutsIn(size, ops) && n <= |ops|
    ensures !CutsIn(size, ops[..n])
  {
    if n == |ops| {
      assert ops[..n] == ops;
    } else {
      NobodyHadCutIn(size, ops[..|ops| - 1], n);
      assert ops[..|ops| - 1][..n] == ops[..n];
    }
  }

  /** Main result: if and only if somebody cuts in during a run, there is a point of it from which the woken
      callers, by resuming, overfill the gate. */
  lemma {:induction false} CuttingInOverfills(size: nat, ops: seq<Op>)
    ensures (exists n | 0 <= n <= |ops| :: Resumed(size, ops[..n]).inside > size) <==> CutsIn(size, ops)
  {
    if CutsIn(size, ops) {
      var before := ops[..|ops| - 1];
      CuttingInOverfills(size, before);
      if CutsIn(size, before) {
        var n :| 0 <= n <= |before| && Resumed(size, before[..n]).inside > size;
        assert before[..n] == ops[..n];
      } else {
        ResumedHoldsAll(size, ops);
        assert ops[..|ops|] == ops;
      }
    } else {
      forall n | 0 <= n <= |ops| ensures Resumed(size, ops[..n]).inside <= size {
        NobodyHadCutIn(size, ops, n);
        Bounded(size, ops[..n]);
        ResumedHoldsAll(size, ops[..n]);
      }
    }
  }

  /** A gate of one that ends up with two inside. */
  lemma OverfullGate()
    ensures Reach(1, [Enter(1), Enter(2), Leave, Enter(3), Resume]).inside == 2
  {
    var ops := [Enter(1), Enter(2), Leave, Enter(3), Resume];
    assert ops[..4] == [Enter(1), Enter(2), Leave, Enter(3)];
    assert ops[..4][..3] == [Enter(1), Enter(2), Leave];
    assert ops[..4][..3][..2] == [Enter(1), Enter(2)];
    assert ops[..4][..3][..2][..1] == [Enter(1)];
    assert ops[..4][..3][..2][..1][..0] == [];
    assert Reach(1, [Enter(1)]) == State(1, [], []);
    assert Reach(1, [Enter(1), Enter(2)]) == State(1, [2], []);
    assert Reach(1, [Enter(1), Enter(2), Leave]) == State(0, [], [2]);
    assert Reach(1, [Enter(1), Enter(2), Leave, Enter(3)]) == State(1, [], [2]);
  }

  class CallGate {
    const size: nat
    var inside: nat
    var waiting: seq<nat>
    /** Waiters whose promise `leave` has resolved and who have yet to run. */
    var woken: seq<nat>

    constructor (size: nat)
      ensures this.size == size && Now() == EMPTY
    {
      this.size := size;
      inside, waiting, woken := 0, [], [];
    }

    function Now(): State
      reads this
    {
      State(inside, waiting, woken)
    }

    /** `enter` up to its wait; `admitted` is whether there is none. */
    method EnterOrWait(caller: nat) returns (admitted: bool)
      modifies this
      ensures Now() == Step(size, old(Now()), Enter(caller))
      ensures admitted <==> waiting == old(waiting)
    {
      if inside < size {
        inside := inside + 1;
        return true;
      }
      waiting := waiting + [caller];
      return false;
    }

    /** The rest of `enter`, once woken. */
    method ResumeWoken() returns (caller: nat)
      requires woken != []
      modifies this
      ensures Now() == Step(size, old(Now()), Resume) && caller == old(woken)[0]
    {
      caller, woken := woken[0], woken[1..];
      inside := inside + 1;
    }

    method LeaveGate()
      requires inside > 0
      modifies this
      ensures Now() == Step(size, old(Now()), Leave)
    {
      inside := inside - 1;
      if waiting != [] {
        woken, waiting := woken + [waiting[0]], waiting[1..];
      }
    }
  }
}
