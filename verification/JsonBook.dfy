// A JSON file whose mutations run one at a time (file-repo.ts, JsonBook and FilePeerMailbox): each loads
// the book once, applies the mutation in memory, writes a temporary file and renames it.

module JsonBook {
  import opened Basics
  import Mailbox

  // ---------------------------------------------------------------- the steps of a file and its chain

  datatype Call<!B> = Read | Mutate(f: B -> B)

  /** Where the operation at the head of the chain is. */
  datatype Stage<!B> = Idle | Begun(call: Call<B>) | Applied | Written

  /** A file, and the process that has it open. `log` is every mutation applied, without those a crash
      took back; the first `saved` of them are in the file, and `resolved` are the places in the log of
      those whose callers were told. Since the process began, at `boot`, `called` are the calls made and
      `begun` of them have begun. `answers` are the books the reads were given. */
  datatype Store<!B> = Store(
    file: B, tmp: Option<B>, book: Option<B>, waiting: seq<Call<B>>, stage: Stage<B>,
    log: seq<B -> B>, saved: nat, resolved: set<int>, boot: nat, called: seq<Call<B>>, begun: nat, answers: seq<B>)

  datatype Op<!B> =
    | Ask(call: Call<B>)
    | Begin
    | Load(readable: bool)
    | Write(ok: bool)
    | Rename(ok: bool)
    | Crash

  /** The book after some mutations, in order. */
  function Book<B>(initial: B, log: seq<B -> B>): B {
    if log == [] then initial else log[|log| - 1](Book(initial, log[..|log| - 1]))
  }

  function Start<B>(initial: B): Store<B> {
    Store(initial, None, None, [], Idle, [], 0, {}, 0, [], 0, [])
  }

  /** `load`, then the call itself, with no await between: a file that cannot be read counts as empty. */
  function Loaded<B>(s: Store<B>, empty: B, readable: bool): Store<B>
    requires s.stage.Begun?
  {
    var book := if s.book.Some? then s.book.value else if readable then s.file else empty;
    match s.stage.call
    case Read => s.(book := Some(book), answers := s.answers + [book], stage := Idle)
    case Mutate(f) => s.(book := Some(f(book)), log := s.log + [f], stage := Applied)
  }

  function Step<B>(s: Store<B>, op: Op<B>, empty: B): Store<B> {
    match op
    case Ask(call) => s.(waiting := s.waiting + [call], called := s.called + [call])
    case Begin =>
      if s.stage.Idle? && s.waiting != [] then
        s.(stage := Begun(s.waiting[0]), waiting := s.waiting[1..], begun := s.begun + 1)
      else s
    case Load(readable) => if s.stage.Begun? then Loaded(s, empty, readable) else s
    case Write(ok) =>
      if s.stage.Applied? && s.book.Some? then
        if ok then s.(tmp := s.book, stage := Written) else s.(tmp := None, stage := Idle)
      else s
    case Rename(ok) =>
      if s.stage.Written? && s.tmp.Some? then
        if ok then
          s.(file := s.tmp.value, tmp := None, saved := |s.log|, resolved := s.resolved + {|s.log| - 1}, stage := Idle)
        else s.(stage := Idle)
      else s
    case Crash =>
      if s.saved <= |s.log| then
        s.(book := None, waiting := [], stage := Idle,
           log := s.log[..s.saved], boot := s.saved, called := [], begun := 0)
      else s
  }

  function Run<B>(initial: B, empty: B, ops: seq<Op<B>>): Store<B> {
    if ops == [] then Start(initial) else Step(Run(initial, empty, ops[..|ops| - 1]), ops[|ops| - 1], empty)
  }

  function Mutations<B>(calls: seq<Call<B>>): seq<B -> B> {
    if calls == [] then []
    else Mutations(calls[..|calls| - 1]) + if calls[|calls| - 1].Mutate? then [calls[|calls| - 1].f] else []
  }

  // ---------------------------------------------------------------- what holds at every instant

  /** The file holds the book after the saved mutations; the book in memory, after all of them. */
  ghost predicate Durable<B>(s: Store<B>, initial: B) {
    && s.saved <= |s.log|
    && s.file == Book(initial, s.log[..s.saved])
    && (s.book.Some? ==> s.book.value == Book(initial, s.log))
    && (s.book.None? ==> s.saved == |s.log|)
    && (s.stage.Written? ==> s.tmp == s.book && s.book.Some?)
    && (s.stage.Applied? ==> s.book.Some?)
    && (s.stage.Applied? || s.stage.Written? ==> s.log != [])
    && (forall i | i in s.resolved :: 0 <= i < s.saved)
  }

  /** Calls begin in order, one at a time, and the log since boot is the mutations
      begun, less the one that has not been applied. */
  ghost predicate InCallOrder<B>(s: Store<B>) {
    && s.boot <= |s.log| && s.begun <= |s.called| && s.waiting == s.called[s.begun..]
    && if s.stage.Begun? then
         s.begun > 0 && s.stage.call == s.called[s.begun - 1] && s.log[s.boot..] == Mutations(s.called[..s.begun - 1])
       else s.log[s.boot..] == Mutations(s.called[..s.begun])
  }

  lemma DurableStep<B>(s: Store<B>, op: Op<B>, initial: B, empty: B)
    requires Durable(s, initial)
    requires op.Load? && !op.readable ==> s.book.Some? || s.file == empty
    ensures Durable(Step(s, op, empty), initial)
  {
    var t := Step(s, op, empty);
    assert s.log[..|s.log|] == s.log;
    if op.Load? && s.stage.Begun? && s.stage.call.Mutate? {
      assert t.log[..|s.log|] == s.log;
      assert t.log[..s.saved] == s.log[..s.saved];
    }
    if op.Crash? { assert t.log[..s.saved] == s.log[..s.saved]; }
    if op.Rename? { assert t.log[..|s.log|] == s.log; }
  }

  /** What the file holds only ever grows, by whole mutations, whatever happens. */
  lemma FileOnlyGrows<B>(s: Store<B>, op: Op<B>, initial: B, empty: B)
    requires Durable(s, initial)
    ensures var t := Step(s, op, empty);
      && s.saved <= t.saved <= |t.log| && t.log[..s.saved] == s.log[..s.saved]
      && s.resolved <= t.resolved
  {
  }

  lemma InCallOrderStep<B>(s: Store<B>, op: Op<B>, empty: B)
    requires InCallOrder(s) && s.saved <= |s.log|
    ensures InCallOrder(Step(s, op, empty))
  {
    var t := Step(s, op, empty);
    match op
    case Ask(call) =>
      assert t.called[..s.begun] == s.called[..s.begun];
      if s.begun > 0 { assert t.called[..s.begun - 1] == s.called[..s.begun - 1]; }
      assert t.called[s.begun..] == s.called[s.begun..] + [call];
    case Begin =>
    case Load(readable) =>
      if s.stage.Begun? {
        assert s.called[..s.begun][..s.begun - 1] == s.called[..s.begun - 1];
        if s.stage.call.Mutate? { assert t.log[s.boot..] == s.log[s.boot..] + [s.stage.call.f]; }
      }
    case Write(ok) =>
    case Rename(ok) =>
    case Crash =>
      assert t.log[t.boot..] == [];
      if s.saved <= |s.log| { assert t.called[..0] == []; }
  }

  /** Every load of the run found the file readable, or nothing in it to lose. */
  ghost predicate Readable<B>(initial: B, empty: B, ops: seq<Op<B>>) {
    forall i | 0 <= i < |ops| && ops[i].Load? && !ops[i].readable ::
      Run(initial, empty, ops[..i]).book.Some? || Run(initial, empty, ops[..i]).file == empty
  }

  /** Main result. At every instant of every run, crashes included, the file holds the book after a
      prefix of the mutations applied, a mutation whose caller was told is in it, and since the process
      began mutations were applied in the order of the calls. */
  lemma {:induction false} AlwaysDurable<B>(initial: B, empty: B, ops: seq<Op<B>>)
    requires Readable(initial, empty, ops)
    ensures Durable(Run(initial, empty, ops), initial) && InCallOrder(Run(initial, empty, ops))
  {
    if ops == [] {
      assert Start(initial).log[..0] == [];
    } else {
      var n := |ops| - 1;
      forall i | 0 <= i < n && ops[..n][i].Load? && !ops[..n][i].readable
        ensures Run(initial, empty, ops[..n][..i]).book.Some? || Run(initial, empty, ops[..n][..i]).file == empty {
        assert ops[..n][..i] == ops[..i];
      }
      AlwaysDurable(initial, empty, ops[..n]);
      DurableStep(Run(initial, empty, ops[..n]), ops[n], initial, empty);
      InCallOrderStep(Run(initial, empty, ops[..n]), ops[n], empty);
    }
  }

  /** A read is given the book after exactly the mutations called before it, on what the process found
      in the file. */
  lemma ReadsInCallOrder<B>(s: Store<B>, readable: bool, initial: B, empty: B)
    requires Durable(s, initial) && InCallOrder(s) && s.stage.Begun? && s.stage.call.Read?
    requires !readable ==> s.book.Some? || s.file == empty
    ensures var t := Step(s, Load(readable), empty);
      && t.answers == s.answers + [Book(initial, s.log[..s.boot] + Mutations(s.called[..s.begun - 1]))]
      && t == s.(answers := t.answers, book := Some(t.answers[|s.answers|]), stage := Idle)
  {
    assert s.log[..s.boot] + s.log[s.boot..] == s.log;
    assert s.log[..|s.log|] == s.log;
  }

  /** The first load of a process that cannot read the file takes the book for empty. File and book then
      still agree, for a read and for every mutation, exactly when there was nothing in the file. */
  lemma UnreadableLosesExactly<B(!new)>(s: Store<B>, initial: B, empty: B)
    requires Durable(s, initial) && s.stage.Begun? && s.book.None?
    ensures Durable(Step(s.(stage := Begun(Read)), Load(false), empty), initial) <==> s.file == empty
    ensures (forall f: B -> B :: Durable(Step(s.(stage := Begun(Mutate(f))), Load(false), empty), initial)) <==>
      s.file == empty
  {
    assert s.log[..|s.log|] == s.log;
    if s.file == empty {
      forall f: B -> B ensures Durable(Step(s.(stage := Begun(Mutate(f))), Load(false), empty), initial) {
        DurableStep(s.(stage := Begun(Mutate(f))), Load(false), initial, empty);
      }
    } else {
      var same: B -> B := b => b;
      var t := Step(s.(stage := Begun(Mutate(same))), Load(false), empty);
      assert t.log[..|s.log|] == s.log;
      assert !Durable(t, initial);
    }
  }

  /** And the next mutation overwrites the file: whatever was in it is gone. */
  lemma UnreadableIsOverwritten<B>(initial: B, empty: B, f: B -> B)
    ensures Run(initial, empty, [Ask(Mutate(f)), Begin, Load(false), Write(true), Rename(true)]).file == f(empty)
  {
    var ops: seq<Op<B>> := [Ask(Mutate(f)), Begin, Load(false), Write(true), Rename(true)];
    assert ops[..4][..3] == ops[..3] && ops[..3][..2] == ops[..2] && ops[..2][..1] == ops[..1] && ops[..1][..0] == [];
    assert Run(initial, empty, ops[..1]) == Step(Start(initial), ops[0], empty);
    assert Run(initial, empty, ops[..2]) == Step(Run(initial, empty, ops[..1]), ops[1], empty);
    assert Run(initial, empty, ops[..3]) == Step(Run(initial, empty, ops[..2]), ops[2], empty);
    assert Run(initial, empty, ops[..4]) == Step(Run(initial, empty, ops[..3]), ops[3], empty);
  }

  /** The calls made since the process began. */
  function AskedSince<B>(ops: seq<Op<B>>): seq<Call<B>> {
    if ops == [] then []
    else
      var before := AskedSince(ops[..|ops| - 1]);
      match ops[|ops| - 1]
      case Ask(call) => before + [call]
      case Crash => []
      case _ => before
  }

  /** No call is forgotten but by a crash. */
  lemma {:induction false} CalledAreAsked<B>(initial: B, empty: B, ops: seq<Op<B>>)
    ensures var s := Run(initial, empty, ops); s.called == AskedSince(ops) && s.saved <= |s.log|
  {
    if ops != [] { CalledAreAsked(initial, empty, ops[..|ops| - 1]); }
  }

  /** A mutation that goes through is in the file, on top of all before it, and its caller is told. */
  lemma MutationIsSaved<B>(s: Store<B>, f: B -> B, readable: bool, initial: B, empty: B)
    requires Durable(s, initial) && s.stage.Idle? && s.waiting != [] && s.waiting[0] == Mutate(f)
    requires !readable ==> s.book.Some? || s.file == empty
    ensures var applied := Step(Step(s, Begin, empty), Load(readable), empty);
      var t := Step(Step(applied, Write(true), empty), Rename(true), empty);
      && t.file == f(Book(initial, s.log)) && t.book == Some(t.file) && t.log == s.log + [f] && t.saved == |t.log|
      && t.resolved == s.resolved + {|s.log|} && t.waiting == s.waiting[1..] && t.stage.Idle?
  {
    assert s.log[..|s.log|] == s.log;
  }

  /** One whose write or rename fails leaves the file as it was, and is in memory for the next one to save. */
  lemma FailedMutationStays<B>(s: Store<B>, f: B -> B, readable: bool, initial: B, empty: B)
    requires Durable(s, initial) && s.stage.Idle? && s.waiting != [] && s.waiting[0] == Mutate(f)
    requires !readable ==> s.book.Some? || s.file == empty
    ensures var applied := Step(Step(s, Begin, empty), Load(readable), empty);
      var unwritten := Step(applied, Write(false), empty);
      var unnamed := Step(Step(applied, Write(true), empty), Rename(false), empty);
      forall t | t == unwritten || t == unnamed ::
        && t.file == s.file && t.resolved == s.resolved && t.saved == s.saved && t.log == s.log + [f]
        && t.book == Some(f(Book(initial, s.log))) && t.waiting == s.waiting[1..] && t.stage.Idle?
  {
    assert s.log[..|s.log|] == s.log;
  }

  // ---------------------------------------------------------------- a mailbox on such a file

  type Queues = Mailbox.Queues

  /** A mutation that is one operation of a mailbox. */
  ghost predicate Does(f: Queues -> Queues, op: Mailbox.Op) { forall q :: f(q) == Mailbox.Step(q, op) }

  ghost predicate IsMail(f: Queues -> Queues, may: Mailbox.Op -> bool) { exists op :: may(op) && Does(f, op) }

  ghost predicate IsMailCall(call: Call<Queues>, may: Mailbox.Op -> bool) { call.Mutate? ==> IsMail(call.f, may) }

  /** Nothing but mailbox operations has been applied or waits to be. */
  ghost predicate OnlyMail(s: Store<Queues>, may: Mailbox.Op -> bool) {
    && (forall i | 0 <= i < |s.log| :: IsMail(s.log[i], may))
    && (forall i | 0 <= i < |s.waiting| :: IsMailCall(s.waiting[i], may))
    && (s.stage.Begun? ==> IsMailCall(s.stage.call, may))
  }

  ghost predicate AsksOnlyMail(ops: seq<Op<Queues>>, may: Mailbox.Op -> bool) {
    forall i | 0 <= i < |ops| && ops[i].Ask? :: IsMailCall(ops[i].call, may)
  }

  lemma OnlyMailStep(s: Store<Queues>, op: Op<Queues>, may: Mailbox.Op -> bool)
    requires OnlyMail(s, may) && (op.Ask? ==> IsMailCall(op.call, may))
    ensures OnlyMail(Step(s, op, map[]), may)
  {
  }

  lemma {:induction false} AlwaysOnlyMail(ops: seq<Op<Queues>>, may: Mailbox.Op -> bool)
    requires AsksOnlyMail(ops, may)
    ensures OnlyMail(Run(map[], map[], ops), may)
  {
    if ops != [] {
      AlwaysOnlyMail(ops[..|ops| - 1], may);
      OnlyMailStep(Run(map[], map[], ops[..|ops| - 1]), ops[|ops| - 1], may);
    }
  }

  /** Mailbox operations that a log is made of. */
  ghost predicate MadeOf(log: seq<Queues -> Queues>, mail: seq<Mailbox.Op>, may: Mailbox.Op -> bool) {
    |mail| == |log| && forall i | 0 <= i < |log| :: may(mail[i]) && Does(log[i], mail[i])
  }

  lemma {:induction false} MailOf(log: seq<Queues -> Queues>, may: Mailbox.Op -> bool) returns (mail: seq<Mailbox.Op>)
    requires forall i | 0 <= i < |log| :: IsMail(log[i], may)
    ensures MadeOf(log, mail, may)
  {
    if log == [] {
      mail := [];
    } else {
      var rest := MailOf(log[..|log| - 1], may);
      assert IsMail(log[|log| - 1], may);
      var op :| may(op) && Does(log[|log| - 1], op);
      mail := rest + [op];
    }
  }

  lemma {:induction false} BookIsMailbox(log: seq<Queues -> Queues>, mail: seq<Mailbox.Op>, may: Mailbox.Op -> bool)
    requires MadeOf(log, mail, may)
    ensures Book(map[], log) == Mailbox.After(mail)
  {
    if log != [] { BookIsMailbox(log[..|log| - 1], mail[..|mail| - 1], may); }
  }

  /** Main result on the mailbox: in every run whose mutations are mailbox operations, crashes included, book
      and file are mailboxes, after the same operations and after a prefix of them that has every one
      whose caller was told. */
  lemma FileIsMailbox(ops: seq<Op<Queues>>, may: Mailbox.Op -> bool) returns (mail: seq<Mailbox.Op>)
    requires Readable(map[], map[], ops) && AsksOnlyMail(ops, may)
    ensures var s := Run(map[], map[], ops);
      && MadeOf(s.log, mail, may) && s.saved <= |mail| && (forall i | i in s.resolved :: 0 <= i < s.saved)
      && s.file == Mailbox.After(mail[..s.saved]) && Mailbox.Tidy(s.file)
      && (s.book.Some? ==> s.book.value == Mailbox.After(mail) && Mailbox.Tidy(s.book.value))
  {
    var s := Run(map[], map[], ops);
    AlwaysDurable(map[], map[], ops);
    AlwaysOnlyMail(ops, may);
    mail := MailOf(s.log, may);
    BookIsMailbox(s.log, mail, may);
    BookIsMailbox(s.log[..s.saved], mail[..s.saved], may);
    Mailbox.AlwaysTidy(mail);
    Mailbox.AlwaysTidy(mail[..s.saved]);
  }

  /** No queue of the file or the book passes the capacity that every message is enqueued under. */
  lemma FileWithinCapacity(ops: seq<Op<Queues>>, capacity: nat)
    requires Readable(map[], map[], ops)
    requires AsksOnlyMail(ops, (op: Mailbox.Op) => op.Enqueue? ==> op.capacity == Some(capacity))
    ensures var s := Run(map[], map[], ops);
      && Mailbox.WithinCapacity(s.file, capacity)
      && (s.book.Some? ==> Mailbox.WithinCapacity(s.book.value, capacity))
  {
    var mail := FileIsMailbox(ops, (op: Mailbox.Op) => op.Enqueue? ==> op.capacity == Some(capacity));
    Mailbox.NeverOverCapacity(mail, capacity);
    Mailbox.NeverOverCapacity(mail[..Run(map[], map[], ops).saved], capacity);
  }

  // ---------------------------------------------------------------- the classes

  /** What became of an operation: it went through, or the write or the rename failed. */
  datatype Outcome = Done | WriteFailed | RenameFailed

  /** The book a call sees: the one in memory, or else the file's, if it can be read. */
  function SeenBy<B>(book: Option<B>, file: B, readable: bool, empty: B): B {
    if book.Some? then book.value else if readable then file else empty
  }

  /** It is the book the machine loads: what a read is given, and what a mutation changes. */
  lemma SeesWhatIsLoaded<B>(s: Store<B>, readable: bool, empty: B)
    requires s.stage.Begun?
    ensures var t, seen := Step(s, Load(readable), empty), SeenBy(s.book, s.file, readable, empty);
      && (s.stage.call.Read? ==> t.answers == s.answers + [seen] && t.book == Some(seen))
      && (s.stage.call.Mutate? ==> t.book == Some(s.stage.call.f(seen)) && t.log == s.log + [s.stage.call.f])
  {
  }

  class Disk<B> {
    var file: B
    var tmp: Option<B>

    constructor (file: B)
      ensures this.file == file
    {
      this.file, tmp := file, None;
    }
  }

  class JsonBook<B> {
    const disk: Disk<B>
    const empty: B
    var book: Option<B>

    /** What the next call will see, if it finds the file readable, or not. */
    ghost function Seen(readable: bool): B
      reads this, disk
    {
      SeenBy(book, disk.file, readable, empty)
    }

    constructor (disk: Disk<B>, empty: B)
      ensures this.disk == disk && this.empty == empty && book == None
    {
      this.disk, this.empty := disk, empty;
      book := None;
    }

    /** `load`: once, and a file that cannot be read counts as empty. */
    method Load(readable: bool) returns (b: B)
      modifies this
      ensures b == old(Seen(readable)) && book == Some(b)
    {
      if book.Some? { return book.value; }
      b := if readable then disk.file else empty;
      book := Some(b);
    }

    method ReadWith<R>(f: B -> R, readable: bool) returns (r: R)
      modifies this
      ensures book == Some(old(Seen(readable))) && r == f(old(Seen(readable)))
    {
      var b := Load(readable);
      r := f(b);
    }

    /** A mutation takes effect in memory whatever happens; in the file, exactly when the caller is told so. */
    method MutateWith<R>(f: B -> (B, R), readable: bool, outcome: Outcome) returns (r: Option<R>)
      modifies this, disk
      ensures book == Some(f(old(Seen(readable))).0)
      ensures disk.file == if outcome.Done? then book.value else old(disk.file)
      ensures r == if outcome.Done? then Some(f(old(Seen(readable))).1) else None
    {
      var b := Load(readable);
      var (next, result) := f(b);
      book := Some(next);
      if outcome.WriteFailed? { return None; }
      disk.tmp := Some(next);
      if outcome.RenameFailed? { return None; }
      disk.file, disk.tmp := disk.tmp.value, None;
      r := Some(result);
    }
  }

  /** The mailbox on a file: the same queues as in memory. */
  class FilePeerMailbox {
    const file: JsonBook<Queues>

    /** What is in the file, and in memory, is a mailbox. */
    ghost predicate Valid()
      reads file, file.disk
    {
      && file.empty == map[] && Mailbox.Tidy(file.disk.file)
      && (file.book.Some? ==> Mailbox.Tidy(file.book.value))
    }

    constructor (disk: Disk<Queues>)
      requires Mailbox.Tidy(disk.file)
      ensures Valid() && fresh(file) && file.disk == disk && file.empty == map[] && file.book == None
    {
      file := new JsonBook(disk, map[]);
    }

    method Enqueue(message: Mailbox.Message, capacity: Option<nat>, readable: bool, outcome: Outcome)
      returns (accepted: Option<bool>)
      requires Valid()
      modifies file, file.disk
      ensures Valid()
      ensures file.book == Some(Mailbox.Enqueued(old(file.Seen(readable)), message, capacity))
      ensures accepted ==
        if outcome.Done? then Some(!Mailbox.Full(old(file.Seen(readable)), message.to, capacity)) else None
      ensures file.disk.file == if outcome.Done? then file.book.value else old(file.disk.file)
      ensures
        var before := Mailbox.Pending(old(file.Seen(readable)), message.to);
        var fits := capacity.None? || |before| < capacity.value;
        && (accepted.Some? <==> outcome.Done?) && (accepted.Some? ==> accepted.value == fits)
        && Mailbox.Pending(file.book.value, message.to) == before + if fits then [message] else []
      ensures forall a | a != message.to ::
        Mailbox.Pending(file.book.value, a) == Mailbox.Pending(old(file.Seen(readable)), a)
    {
      Mailbox.EnqueueAddsLast(file.Seen(readable), message, capacity, message.to);
      accepted := file.MutateWith((book: Queues) =>
        var queue := if message.to in book then book[message.to] else [];
        if capacity.Some? && |queue| >= capacity.value then (book, false)
        else (book[message.to := queue + [message]], true), readable, outcome);
    }

    method PendingOf(agent: string, readable: bool) returns (messages: seq<Mailbox.Message>)
      requires Valid()
      modifies file
      ensures Valid()
      ensures file.book == Some(old(file.Seen(readable)))
      ensures messages == Mailbox.Pending(file.book.value, agent)
    {
      messages := file.ReadWith((book: Queues) => if agent in book then book[agent] else [], readable);
    }

    method Settle(agent: string, id: string, readable: bool, outcome: Outcome)
      requires Valid()
      modifies file, file.disk
      ensures Valid()
      ensures file.book == Some(Mailbox.Settled(old(file.Seen(readable)), agent, id))
      ensures file.disk.file == if outcome.Done? then file.book.value else old(file.disk.file)
    {
      Mailbox.SettleTakesOne(file.Seen(readable), agent, id, agent);
      var _ := file.MutateWith((book: Queues) =>
        if agent !in book then (book, ())
        else
          var next := Mailbox.Without(book[agent], id);
          if |next| == 0 then (book - {agent}, ()) else (book[agent := next], ()), readable, outcome);
    }

    method PendingRecipients(readable: bool) returns (agents: set<string>)
      requires Valid()
      modifies file
      ensures Valid()
      ensures file.book == Some(old(file.Seen(readable)))
      ensures forall a :: a in agents <==> Mailbox.Pending(file.book.value, a) != []
    {
      agents := file.ReadWith((book: Queues) => book.Keys, readable);
    }
  }
}
