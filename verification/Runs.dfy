/** Whole runs of the ledger: single creates and batch inserts split into a read step
    and a commit step, every other request in between, and the nightly offload split
    into its read, its save and its reset. */
module Runs {
  import opened Sequences
  import opened Records
  import opened Ledger
  import opened LedgerTheorems
  import Rebuild

  // ---------------------------------------------------------------------
  // Requests served one after the other
  // ---------------------------------------------------------------------

  datatype Request =
    | Create(studentId: StudentId, userId: string, clock: Clock, invoiceId: string)
    | CreateOffCycle(studentId: StudentId, payId: string, paymentType: string,
                     userId: string, clock: Clock, invoiceId: string)
    | MultiInsert(ids: seq<StudentId>, userId: string, clock: Clock, invoice: nat -> string)
    | Delete(id: nat)
    | DeleteMany(ids: seq<StudentId>, payId: string)
    | Offload(saves: bool)
    | Recover(cursor: seq<Payment>)

  /** offloadAndResetTotalAmount without interference; when the save throws, the
      counter is left as it is. */
  function OffloadTotal(b: Books, saves: bool): Books {
    if b.daily > 0 && saves then b.(flows := b.flows + [b.daily], daily := 0) else b
  }

  function Serve(b: Books, q: Request): Books {
    match q
    case Create(s, u, c, i) => CreatePayment(b, s, u, c, i).0
    case CreateOffCycle(s, p, t, u, c, i) => CreateOffBillCyclePayment(b, s, p, t, u, c, i).0
    case MultiInsert(ids, u, c, i) => CommitMultiInsert(b, ids, u, c, i).0
    case Delete(id) => DeletePayment(b, id).0
    case DeleteMany(ids, payId) => DeleteMultiplePayments(b, ids, payId).0
    case Offload(saves) => OffloadTotal(b, saves)
    case Recover(cursor) => Rebuild.Repair(b, cursor)
  }

  function ServeAll(b: Books, qs: seq<Request>): Books
    decreases |qs|
  {
    if qs == [] then b else ServeAll(Serve(b, qs[0]), qs[1..])
  }

  /** The offload moves a positive counter into a new record, and changes nothing
      otherwise. */
  lemma OffloadEffect(b: Books, saves: bool)
    ensures var c := OffloadTotal(b, saves);
      && c.payments == b.payments && c.students == b.students && c.nextId == b.nextId
      && (b.daily > 0 && saves ==> c.daily == 0 && c.flows == b.flows + [b.daily])
      && (b.daily <= 0 || !saves ==> c.daily == b.daily && c.flows == b.flows)
  {
  }

  lemma OffloadKeeps(b: Books, saves: bool)
    requires Sound(b)
    ensures Sound(OffloadTotal(b, saves)) && Shortfall(OffloadTotal(b, saves)) == Shortfall(b)
    ensures Exact(b) ==> Exact(OffloadTotal(b, saves))
  {
    SumPush(b.flows, b.daily, Self());
  }

  /** What every request keeps of the books. */
  ghost predicate Keeps(b: Books, c: Books, exact: bool) {
    Sound(c) && Shortfall(c) == Shortfall(b) && (exact && Exact(b) ==> Exact(c))
  }

  lemma CreatesKeep(b: Books, q: Request)
    requires Sound(b) && (q.Create? || q.CreateOffCycle? || q.MultiInsert?)
    ensures Keeps(b, Serve(b, q), !q.MultiInsert?)
  {
    match q
    case Create(s, u, c, i) => CreatePaymentKeeps(b, s, u, c, i);
    case CreateOffCycle(s, p, t, u, c, i) => CreateOffBillCycleKeeps(b, s, p, t, u, c, i);
    case MultiInsert(ids, u, c, i) => CommitMultiInsertKeeps(b, ids, u, c, i);
  }

  lemma DeleteKeeps(b: Books, id: nat)
    requires Sound(b)
    ensures Keeps(b, DeletePayment(b, id).0, true)
  {
    var found := Filter(b.payments, HasId(id));
    if found != [] {
      OnlyOne(b.payments, id);
      assert [found[0]] == found;
      RemoveIsSafe(b, HasId(id));
    }
  }

  lemma DeleteManyKeeps(b: Books, ids: seq<StudentId>, payId: string)
    requires Sound(b)
    ensures Keeps(b, DeleteMultiplePayments(b, ids, payId).0, true)
  {
    if Filter(b.payments, ForMonth(ids, payId)) != [] {
      RemoveIsSafe(b, ForMonth(ids, payId));
    }
  }

  lemma ServeKeeps(b: Books, q: Request)
    requires Sound(b)
    ensures Sound(Serve(b, q)) && Shortfall(Serve(b, q)) == Shortfall(b)
    ensures Exact(b) && !q.MultiInsert? && !q.Recover? ==> Exact(Serve(b, q))
  {
    match q
    case Delete(id) => DeleteKeeps(b, id);
    case DeleteMany(ids, payId) => DeleteManyKeeps(b, ids, payId);
    case Offload(saves) => OffloadKeeps(b, saves);
    case Recover(cursor) => Rebuild.RepairKeeps(b, cursor);
    case Create(_, _, _, _) => CreatesKeep(b, q);
    case CreateOffCycle(_, _, _, _, _, _) => CreatesKeep(b, q);
    case MultiInsert(_, _, _, _) => CreatesKeep(b, q);
  }

  /** Money is conserved over every run: from balanced books, the counter plus the
      offloaded totals equals the live payments after any requests whatsoever. */
  lemma {:induction false} MoneyIsConserved(b: Books, qs: seq<Request>)
    requires Sound(b) && Shortfall(b) == 0
    ensures var c := ServeAll(b, qs);
      Sound(c) && c.daily + Sum(c.flows, Self()) == Sum(c.payments, Amount())
    decreases |qs|
  {
    if qs != [] {
      ServeKeeps(b, qs[0]);
      MoneyIsConserved(Serve(b, qs[0]), qs[1..]);
    }
  }

  /** Histories that list exactly their own payments in collection order stay so as
      long as no batch is inserted; a recovery orders them by createdAt. */
  lemma {:induction false} ExactWithoutBatches(b: Books, qs: seq<Request>)
    requires Sound(b) && Exact(b) && forall i | 0 <= i < |qs| :: !qs[i].MultiInsert? && !qs[i].Recover?
    ensures Exact(ServeAll(b, qs))
    decreases |qs|
  {
    if qs != [] {
      ServeKeeps(b, qs[0]);
      ExactWithoutBatches(Serve(b, qs[0]), qs[1..]);
    }
  }

  // ---------------------------------------------------------------------
  // Interleavings
  // ---------------------------------------------------------------------

  /** The nightly job: between runs, after it has read the counter, and after it
      has saved what it read. */
  datatype Cron = Idle | HasRead(total: int) | HasSaved(total: int)

  /** `open` and `batches` hold the single creates and the batch inserts between their
      read and their commit; `committed` lists the single ones that committed, in order. */
  datatype World = World(books: Books, open: seq<Ticket>, committed: seq<Ticket>, cron: Cron, batches: seq<BatchTicket>)

  function Start(b: Books): World {
    World(b, [], [], Idle, [])
  }

  datatype Step =
    | BeginCreate(studentId: StudentId, userId: string, clock: Clock, invoiceId: string)
    | BeginOffCycle(studentId: StudentId, payId: string, paymentType: string,
                    userId: string, clock: Clock, invoiceId: string)
    | BeginBatch(ids: seq<StudentId>, userId: string, clock: Clock, invoice: nat -> string)
    | Finish(i: nat)
    | Abandon(i: nat)
    | FinishBatch(i: nat)
    | AbandonBatch(i: nat)
    | Whole(request: Request)
    | CronRead
    | CronSave(saves: bool)
    | CronReset(resets: bool)

  function Opened(w: World, r: Result<Ticket, Error>): World {
    match r
    case Ok(t) => w.(open := w.open + [t])
    case Err(_) => w
  }

  function OpenedBatch(w: World, r: Result<BatchTicket, Error>): World {
    match r
    case Ok(t) => w.(batches := w.batches + [t])
    case Err(_) => w
  }

  function Next(w: World, step: Step): World {
    match step
    case BeginCreate(s, u, c, i) => Opened(w, ReadRegular(w.books, s, u, c, i))
    case BeginOffCycle(s, p, t, u, c, i) => Opened(w, ReadOffCycle(w.books, s, p, t, u, c, i))
    case Finish(i) =>
      if i >= |w.open| then w
      else
        var (c, r) := Commit(w.books, w.open[i]);
        var rest := w.open[..i] + w.open[i + 1..];
        if r.Ok? then World(c, rest, w.committed + [w.open[i]], w.cron, w.batches)
        else World(c, rest, w.committed, w.cron, w.batches)
    case Abandon(i) =>
      if i >= |w.open| then w else w.(open := w.open[..i] + w.open[i + 1..])
    case BeginBatch(ids, u, c, i) => OpenedBatch(w, ReadBatch(w.books, ids, u, c, i))
    case FinishBatch(i) =>
      if i >= |w.batches| then w
      else w.(books := CommitBatch(w.books, w.batches[i]).0, batches := w.batches[..i] + w.batches[i + 1..])
    case AbandonBatch(i) =>
      if i >= |w.batches| then w else w.(batches := w.batches[..i] + w.batches[i + 1..])
    case Whole(q) => w.(books := Serve(w.books, q))
    case CronRead =>
      if w.cron.Idle? && w.books.daily > 0 then w.(cron := HasRead(w.books.daily)) else w
    case CronSave(saves) =>
      if !w.cron.HasRead? then w
      else if saves then w.(books := w.books.(flows := w.books.flows + [w.cron.total]), cron := HasSaved(w.cron.total))
      else w.(cron := Idle)
    case CronReset(resets) =>
      if !w.cron.HasSaved? then w
      else if resets then w.(books := w.books.(daily := 0), cron := Idle)
      else w.(cron := Idle)
  }

  function Run(w: World, steps: seq<Step>): World
    decreases |steps|
  {
    if steps == [] then w else Run(Next(w, steps[0]), steps[1..])
  }

  // ---------------------------------------------------------------------
  // Steps that follow each other at once are the whole operation
  // ---------------------------------------------------------------------

  lemma RunCons(w: World, step: Step, rest: seq<Step>)
    ensures Run(w, [step] + rest) == Run(Next(w, step), rest)
  {
    assert ([step] + rest)[1..] == rest;
  }

  lemma TwoSteps(w: World, first: Step, second: Step)
    ensures Run(w, [first, second]) == Next(Next(w, first), second)
  {
    RunCons(w, first, [second] + []);
    RunCons(Next(w, first), second, []);
    assert [first] + ([second] + []) == [first, second];
  }

  lemma ThreeSteps(w: World, first: Step, second: Step, third: Step)
    ensures Run(w, [first, second, third]) == Next(Next(Next(w, first), second), third)
  {
    RunCons(w, first, [second, third]);
    TwoSteps(Next(w, first), second, third);
    assert [first] + [second, third] == [first, second, third];
  }

  lemma CronSteps(w: World, saves: bool)
    requires w.cron.Idle?
    ensures Next(Next(Next(w, CronRead), CronSave(saves)), CronReset(true)) == w.(books := OffloadTotal(w.books, saves))
  {
    if w.books.daily > 0 {
      var v := w.(cron := HasRead(w.books.daily));
      assert Next(w, CronRead) == v;
    } else {
      assert Next(w, CronRead) == w;
    }
  }

  lemma SplitOffloadIsWhole(w: World, saves: bool)
    requires w.cron.Idle?
    ensures Run(w, [CronRead, CronSave(saves), CronReset(true)]) == Next(w, Whole(Offload(saves)))
  {
    ThreeSteps(w, CronRead, CronSave(saves), CronReset(true));
    CronSteps(w, saves);
  }

  lemma SplitCreateIsWhole(w: World, s: StudentId, u: string, c: Clock, i: string)
    ensures Run(w, [BeginCreate(s, u, c, i), Finish(|w.open|)]).books == Serve(w.books, Create(s, u, c, i))
  {
    TwoSteps(w, BeginCreate(s, u, c, i), Finish(|w.open|));
  }

  lemma SplitOffCycleIsWhole(w: World, s: StudentId, p: string, t: string, u: string, c: Clock, i: string)
    ensures Run(w, [BeginOffCycle(s, p, t, u, c, i), Finish(|w.open|)]).books
         == Serve(w.books, CreateOffCycle(s, p, t, u, c, i))
  {
    TwoSteps(w, BeginOffCycle(s, p, t, u, c, i), Finish(|w.open|));
  }

  lemma SplitBatchIsWhole(w: World, ids: seq<StudentId>, u: string, c: Clock, i: nat -> string)
    ensures Run(w, [BeginBatch(ids, u, c, i), FinishBatch(|w.batches|)]).books
         == Serve(w.books, MultiInsert(ids, u, c, i))
  {
    TwoSteps(w, BeginBatch(ids, u, c, i), FinishBatch(|w.batches|));
    ReadThenCommitBatch(w.books, ids, u, c, i);
  }

  // ---------------------------------------------------------------------
  // Safety of every interleaving
  // ---------------------------------------------------------------------

  /** The student's version has moved past what a committed ticket expected. */
  ghost predicate Passed(b: Books, t: Ticket) {
    t.studentId in b.students && (t.expected.Some? ==> t.expected.value < b.students[t.studentId].version)
  }

  ghost predicate Rivals(t: Ticket, u: Ticket) {
    t.studentId == u.studentId && t.expected.Some? && u.expected.Some?
  }

  ghost predicate BatchesKnown(b: Books, batches: seq<BatchTicket>) {
    forall t | t in batches :: PicksKnown(b, t)
  }

  ghost predicate Safe(w: World) {
    Sound(w.books) && BatchesKnown(w.books, w.batches) &&
    (forall i | 0 <= i < |w.committed| :: Passed(w.books, w.committed[i])) &&
    (forall i, j | 0 <= i < j < |w.committed| && Rivals(w.committed[i], w.committed[j]) ::
       w.committed[i].expected.value < w.committed[j].expected.value)
  }

  lemma ServeKeepsVersions(b: Books, q: Request)
    requires Sound(b)
    ensures forall s | s in b.students ::
      s in Serve(b, q).students && Serve(b, q).students[s].version >= b.students[s].version
  {
    match q
    case Delete(id) => DeletePaymentKeeps(b, id);
    case DeleteMany(ids, payId) => DeleteMultipleKeeps(b, ids, payId);
    case Create(_, _, _, _) =>
    case CreateOffCycle(_, _, _, _, _, _) =>
    case MultiInsert(_, _, _, _) =>
    case Offload(_) =>
    case Recover(cursor) => Rebuild.RepairKeeps(b, cursor);
  }

  lemma CommitKeepsSafe(b: Books, t: Ticket, committed: seq<Ticket>, open: seq<Ticket>, cron: Cron,
                        batches: seq<BatchTicket>)
    requires Safe(World(b, [], committed, cron, batches)) && Commit(b, t).1.Ok?
    ensures Safe(World(Commit(b, t).0, open, committed + [t], cron, batches))
  {
    var c := Commit(b, t).0;
    assert Sound(c) by {
      CommitKeeps(b, t);
    }
    CommitAdvances(b, t);
    forall k | 0 <= k < |committed|
      ensures Passed(c, committed[k])
      ensures Rivals(committed[k], t) ==> committed[k].expected.value < t.expected.value
    {
      assert Passed(b, committed[k]);
    }
  }

  lemma FinishKeepsSafe(w: World, i: nat)
    requires Safe(w) && i < |w.open|
    ensures Safe(Next(w, Finish(i)))
  {
    if Commit(w.books, w.open[i]).1.Ok? {
      CommitKeepsSafe(w.books, w.open[i], w.committed, w.open[..i] + w.open[i + 1..], w.cron, w.batches);
    } else {
      CommitKeeps(w.books, w.open[i]);
    }
  }

  lemma BatchesStayKnown(b: Books, c: Books, batches: seq<BatchTicket>, i: nat)
    requires BatchesKnown(b, batches) && b.students.Keys <= c.students.Keys
    ensures BatchesKnown(c, batches)
    ensures i < |batches| ==> BatchesKnown(c, batches[..i] + batches[i + 1..])
  {
  }

  lemma FinishBatchKeepsSafe(w: World, i: nat)
    requires Safe(w) && i < |w.batches|
    ensures Safe(Next(w, FinishBatch(i)))
  {
    assert w.batches[i] in w.batches;
    CommitBatchKeeps(w.books, w.batches[i]);
    BatchesStayKnown(w.books, CommitBatch(w.books, w.batches[i]).0, w.batches, i);
  }

  lemma BeginBatchKeepsSafe(w: World, ids: seq<StudentId>, userId: string, clock: Clock, invoice: nat -> string)
    requires Safe(w)
    ensures Safe(Next(w, BeginBatch(ids, userId, clock, invoice)))
  {
  }

  /** Books that are sound and have no older students keep a world safe. */
  lemma NewBooksKeepSafe(w: World, c: Books)
    requires Safe(w) && Sound(c)
    requires forall s | s in w.books.students :: s in c.students && c.students[s].version >= w.books.students[s].version
    ensures Safe(w.(books := c))
  {
    BatchesStayKnown(w.books, c, w.batches, 0);
    forall i | 0 <= i < |w.committed| ensures Passed(c, w.committed[i]) {
      assert Passed(w.books, w.committed[i]);
    }
  }

  lemma NextWhole(w: World, q: Request)
    ensures Next(w, Whole(q)) == w.(books := Serve(w.books, q))
  {
  }

  lemma WholeKeepsSafe(w: World, q: Request)
    requires Safe(w)
    ensures Safe(Next(w, Whole(q)))
  {
    NextWhole(w, q);
    ServeKeeps(w.books, q);
    ServeKeepsVersions(w.books, q);
    NewBooksKeepSafe(w, Serve(w.books, q));
  }

  lemma NextKeepsSafe(w: World, step: Step)
    requires Safe(w)
    ensures Safe(Next(w, step))
  {
    match step
    case Finish(i) =>
      if i < |w.open| {
        FinishKeepsSafe(w, i);
      }
    case FinishBatch(i) =>
      if i < |w.batches| {
        FinishBatchKeepsSafe(w, i);
      }
    case AbandonBatch(i) => BatchesStayKnown(w.books, w.books, w.batches, i);
    case BeginBatch(ids, u, c, i) => BeginBatchKeepsSafe(w, ids, u, c, i);
    case Whole(q) => WholeKeepsSafe(w, q);
    case CronSave(_) =>
    case CronReset(_) =>
    case CronRead =>
    case Abandon(_) =>
    case BeginCreate(_, _, _, _) =>
    case BeginOffCycle(_, _, _, _, _, _) =>
  }

  lemma {:induction false} RunKeepsSafe(w: World, steps: seq<Step>)
    requires Safe(w)
    ensures Safe(Run(w, steps))
    decreases |steps|
  {
    if steps != [] {
      NextKeepsSafe(w, steps[0]);
      RunKeepsSafe(Next(w, steps[0]), steps[1..]);
    }
  }

  /** In every interleaving no two live payments share a student and a billing
      month, every live payment is in its student's history, and of the regular
      creates that read the same version of a student at most one commits. */
  lemma InterleavingsAreSafe(b: Books, steps: seq<Step>)
    requires Sound(b)
    ensures var w := Run(Start(b), steps);
      && (forall i, j | 0 <= i < j < |w.books.payments| ::
            w.books.payments[i].studentId == w.books.payments[j].studentId ==>
            w.books.payments[i].payId != w.books.payments[j].payId)
      && Covered(w.books)
      && (forall i, j | 0 <= i < j < |w.committed| && Rivals(w.committed[i], w.committed[j]) ::
            w.committed[i].expected != w.committed[j].expected)
  {
    RunKeepsSafe(Start(b), steps);
    var w := Run(Start(b), steps);
    var payments := w.books.payments;
    forall i, j | 0 <= i < j < |payments| && payments[i].studentId == payments[j].studentId
      ensures payments[i].payId != payments[j].payId
    {
      assert Slot()(payments[i]) != Slot()(payments[j]);
    }
  }

  /** Two regular creates that are both open on the version the student has now:
      once one commits, the other fails whenever it is tried, whatever runs in
      between. */
  lemma SecondOfTwoFails(w: World, t: Ticket, u: Ticket, between: seq<Step>)
    requires Safe(w) && Rivals(t, u) && t.expected == u.expected
    requires Commit(w.books, t).1.Ok?
    ensures var v := Run(World(Commit(w.books, t).0, w.open, w.committed + [t], w.cron, w.batches), between);
      Commit(v.books, u).1.Err? && Commit(v.books, u).0 == v.books
  {
    var w1 := World(Commit(w.books, t).0, w.open, w.committed + [t], w.cron, w.batches);
    CommitKeepsSafe(w.books, t, w.committed, w.open, w.cron, w.batches);
    RunKeepsSafe(w1, between);
    RunKeepsCommitted(w1, between);
    assert Passed(Run(w1, between).books, w1.committed[|w.committed|]);
  }

  /** In particular of two regular creates for a student that read the same state. */
  lemma RivalReadsFail(w: World, s: StudentId, u: string, c: Clock, i: string, v: string, d: Clock, j: string,
                       between: seq<Step>)
    requires Safe(w)
    requires ReadRegular(w.books, s, u, c, i).Ok? && ReadRegular(w.books, s, v, d, j).Ok?
    requires Commit(w.books, ReadRegular(w.books, s, u, c, i).value).1.Ok?
    ensures var first, second := ReadRegular(w.books, s, u, c, i).value, ReadRegular(w.books, s, v, d, j).value;
      var later := Run(World(Commit(w.books, first).0, w.open, w.committed + [first], w.cron, w.batches), between);
      Commit(later.books, second).1.Err? && Commit(later.books, second).0 == later.books
  {
    SecondOfTwoFails(w, ReadRegular(w.books, s, u, c, i).value, ReadRegular(w.books, s, v, d, j).value, between);
  }

  lemma {:induction false} RunKeepsCommitted(w: World, steps: seq<Step>)
    ensures |w.committed| <= |Run(w, steps).committed|
    ensures forall i | 0 <= i < |w.committed| :: Run(w, steps).committed[i] == w.committed[i]
    decreases |steps|
  {
    if steps != [] {
      RunKeepsCommitted(Next(w, steps[0]), steps[1..]);
    }
  }

  // ---------------------------------------------------------------------
  // The offload race
  // ---------------------------------------------------------------------

  /** What the books fall short by, counting a saved total whose reset is still
      due as not yet moved out of the counter. */
  function Gap(w: World): int {
    Shortfall(w.books) + (if w.cron.HasSaved? then w.cron.total else 0)
  }

  /** What one step wipes out, given the counter changes since the job's read: a
      reset loses those changes, and one that fails leaves the saved total counted
      twice. */
  function Wiped(w: World, step: Step, sinceRead: int): int {
    if !step.CronReset? || !w.cron.HasSaved? then 0
    else if step.resets then sinceRead
    else -w.cron.total
  }

  /** The counter changes since the read, after a step from w to v. */
  function Drift(w: World, step: Step, v: World, sinceRead: int): int {
    if step.CronRead? && w.cron.Idle? then 0 else sinceRead + v.books.daily - w.books.daily
  }

  /** The money that a run's steps wipe out in all. */
  function Overwritten(w: World, steps: seq<Step>, sinceRead: int): int
    decreases |steps|
  {
    if steps == [] then 0
    else
      var v := Next(w, steps[0]);
      Wiped(w, steps[0], sinceRead) + Overwritten(v, steps[1..], Drift(w, steps[0], v, sinceRead))
  }

  ghost predicate CountsSinceRead(w: World, sinceRead: int) {
    !w.cron.Idle? ==> sinceRead == w.books.daily - w.cron.total
  }

  lemma BatchStepGap(w: World, i: nat)
    requires Safe(w)
    ensures Shortfall(Next(w, FinishBatch(i)).books) == Shortfall(w.books) && Next(w, FinishBatch(i)).cron == w.cron
  {
    if i < |w.batches| {
      assert w.batches[i] in w.batches;
      CommitBatchKeeps(w.books, w.batches[i]);
    }
  }

  lemma NextFinish(w: World, i: nat)
    ensures Next(w, Finish(i)).cron == w.cron
    ensures Next(w, Finish(i)).books == if i < |w.open| then Commit(w.books, w.open[i]).0 else w.books
  {
  }

  lemma FinishStepGap(w: World, i: nat)
    requires Safe(w)
    ensures Shortfall(Next(w, Finish(i)).books) == Shortfall(w.books) && Next(w, Finish(i)).cron == w.cron
  {
    NextFinish(w, i);
    if i < |w.open| {
      CommitKeeps(w.books, w.open[i]);
    }
  }

  lemma WholeStepGap(w: World, q: Request)
    requires Safe(w)
    ensures Shortfall(Next(w, Whole(q)).books) == Shortfall(w.books) && Next(w, Whole(q)).cron == w.cron
  {
    NextWhole(w, q);
    ServeKeeps(w.books, q);
  }

  lemma LedgerStepGap(w: World, step: Step)
    requires Safe(w) && (step.Finish? || step.FinishBatch? || step.Whole?)
    ensures Shortfall(Next(w, step).books) == Shortfall(w.books) && Next(w, step).cron == w.cron
  {
    match step
    case Finish(i) => FinishStepGap(w, i);
    case FinishBatch(i) => BatchStepGap(w, i);
    case Whole(q) => WholeStepGap(w, q);
  }

  lemma CronStepGap(w: World, step: Step, sinceRead: int)
    requires !step.Finish? && !step.FinishBatch? && !step.Whole? && CountsSinceRead(w, sinceRead)
    ensures var v := Next(w, step);
      Gap(v) == Gap(w) + Wiped(w, step, sinceRead) && CountsSinceRead(v, Drift(w, step, v, sinceRead))
  {
    if step.CronSave? && w.cron.HasRead? {
      SumPush(w.books.flows, w.cron.total, Self());
    }
  }

  lemma NextGap(w: World, step: Step, sinceRead: int)
    requires Safe(w) && CountsSinceRead(w, sinceRead)
    ensures var v := Next(w, step);
      Gap(v) == Gap(w) + Wiped(w, step, sinceRead) && CountsSinceRead(v, Drift(w, step, v, sinceRead))
  {
    if step.Finish? || step.FinishBatch? || step.Whole? {
      LedgerStepGap(w, step);
    } else {
      CronStepGap(w, step, sinceRead);
    }
  }

  /** With the offload split into its steps, the gap that opens in any run is
      exactly what landed on the counter between a read and its reset. */
  lemma {:induction false} GapIsOverwritten(w: World, steps: seq<Step>, sinceRead: int)
    requires Safe(w) && CountsSinceRead(w, sinceRead)
    ensures Gap(Run(w, steps)) == Gap(w) + Overwritten(w, steps, sinceRead)
    decreases |steps|
  {
    if steps != [] {
      var v := Next(w, steps[0]);
      NextKeepsSafe(w, steps[0]);
      NextGap(w, steps[0], sinceRead);
      GapIsOverwritten(v, steps[1..], Drift(w, steps[0], v, sinceRead));
    }
  }

  /** The offload is safe exactly when nothing is overwritten. */
  lemma SplitOffloadBalancesIff(b: Books, steps: seq<Step>)
    requires Sound(b) && Shortfall(b) == 0
    requires !Run(Start(b), steps).cron.HasSaved?
    ensures var c := Run(Start(b), steps).books;
      (c.daily + Sum(c.flows, Self()) == Sum(c.payments, Amount())) <==>
      (Overwritten(Start(b), steps, 0) == 0)
  {
    GapIsOverwritten(Start(b), steps, 0);
  }

  /** No step of the run moves the counter between a read and its reset, and no
      reset fails. */
  ghost predicate Undisturbed(w: World, steps: seq<Step>)
    decreases |steps|
  {
    steps == [] ||
    (var v := Next(w, steps[0]);
     (if w.cron.HasSaved? && steps[0].CronReset? then steps[0].resets
      else w.cron.Idle? || v.books.daily == w.books.daily) &&
     Undisturbed(v, steps[1..]))
  }

  lemma {:induction false} NothingOverwritten(w: World, steps: seq<Step>, sinceRead: int)
    requires Undisturbed(w, steps) && (!w.cron.Idle? ==> sinceRead == 0)
    ensures Overwritten(w, steps, sinceRead) == 0
    decreases |steps|
  {
    if steps != [] {
      var v := Next(w, steps[0]);
      NothingOverwritten(v, steps[1..], Drift(w, steps[0], v, sinceRead));
    }
  }

  /** What an operator can arrange: while the job runs, nothing else moves the
      counter. */
  lemma QuietOffloadBalances(b: Books, steps: seq<Step>)
    requires Sound(b) && Shortfall(b) == 0 && Undisturbed(Start(b), steps)
    requires !Run(Start(b), steps).cron.HasSaved?
    ensures var c := Run(Start(b), steps).books;
      c.daily + Sum(c.flows, Self()) == Sum(c.payments, Amount())
  {
    NothingOverwritten(Start(b), steps, 0);
    SplitOffloadBalancesIff(b, steps);
  }

  /** A payment that commits between the job's read and its reset disappears from
      the totals with its whole amount. */
  lemma PaymentDuringOffloadIsLost(b: Books, t: Ticket)
    requires Sound(b) && b.daily > 0 && Commit(b, t).1.Ok?
    ensures Shortfall(Run(World(b, [t], [], Idle, []), [CronRead, Finish(0), CronSave(true), CronReset(true)]).books)
         == Shortfall(b) + t.seen.tuitionFee
  {
    var w0 := World(b, [t], [], Idle, []);
    var steps := [CronRead, Finish(0), CronSave(true), CronReset(true)];
    CommitKeeps(b, t);
    GapIsOverwritten(w0, steps, 0);
    OneDuringOffload(b, t);
  }

  lemma FirstStep(w: World, step: Step, rest: seq<Step>, sinceRead: int, v: World)
    requires v == Next(w, step)
    ensures Run(w, [step] + rest) == Run(v, rest)
    ensures Overwritten(w, [step] + rest, sinceRead)
         == Wiped(w, step, sinceRead) + Overwritten(v, rest, Drift(w, step, v, sinceRead))
  {
    assert ([step] + rest)[1..] == rest;
  }

  lemma FinishOnly(b: Books, t: Ticket, total: int)
    requires Commit(b, t).1.Ok?
    ensures Next(World(b, [t], [], HasRead(total), []), Finish(0)) == World(Commit(b, t).0, [], [t], HasRead(total), [])
    ensures Commit(b, t).0.daily == b.daily + t.seen.tuitionFee
  {
    assert [t][0] == t && [t][..0] + [t][1..] == [] && [] + [t] == [t];
  }

  lemma SaveAndReset(c: Books, t: Ticket, total: int, sinceRead: int)
    ensures var w, steps := World(c, [], [t], HasRead(total), []), [CronSave(true)] + ([CronReset(true)] + []);
      Run(w, steps).cron.Idle? && Overwritten(w, steps, sinceRead) == sinceRead
  {
    var w2 := World(c, [], [t], HasRead(total), []);
    var w3 := Next(w2, CronSave(true));
    FirstStep(w2, CronSave(true), [CronReset(true)] + [], sinceRead, w3);
    FirstStep(w3, CronReset(true), [], sinceRead, Next(w3, CronReset(true)));
  }

  lemma OneDuringOffload(b: Books, t: Ticket)
    requires b.daily > 0 && Commit(b, t).1.Ok?
    ensures var w, steps := World(b, [t], [], Idle, []), [CronRead, Finish(0), CronSave(true), CronReset(true)];
      Overwritten(w, steps, 0) == t.seen.tuitionFee && Run(w, steps).cron.Idle?
  {
    var w0, w1 := World(b, [t], [], Idle, []), World(b, [t], [], HasRead(b.daily), []);
    var c := Commit(b, t).0;
    var w2 := World(c, [], [t], HasRead(b.daily), []);
    FinishOnly(b, t, b.daily);
    var s2 := [CronSave(true)] + ([CronReset(true)] + []);
    FirstStep(w0, CronRead, [Finish(0)] + s2, 0, w1);
    FirstStep(w1, Finish(0), s2, 0, w2);
    SaveAndReset(c, t, b.daily, t.seen.tuitionFee);
    assert [CronRead] + ([Finish(0)] + s2) == [CronRead, Finish(0), CronSave(true), CronReset(true)];
  }
}
