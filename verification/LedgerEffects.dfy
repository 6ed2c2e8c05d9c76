/** What each ledger operation records, charges and changes, field by field. */
module LedgerEffects {
  import opened Sequences
  import opened Records
  import opened Ledger
  import opened LedgerTheorems

  // ---------------------------------------------------------------------
  // Created payments
  // ---------------------------------------------------------------------

  /** The payment charges the student's fee and copies his data. */
  ghost predicate Charges(p: Payment, studentId: StudentId, s: Student) {
    && p.studentId == studentId && p.studentName == s.name
    && p.classId == s.classId && p.className == s.className && p.section == s.section
    && p.amount == s.tuitionFee
  }

  ghost predicate Made(p: Payment, userId: string, now: int, paymentType: string, payId: string, invoiceId: string) {
    && p.createdBy == userId && p.paymentDate == now && p.createdAt == now
    && p.paymentType == paymentType && p.payId == payId && p.invoiceId == invoiceId
  }

  /** The payment is appended, its amount added to the counter, one entry to its
      student's history and one to his version; nothing else changes. */
  ghost predicate PostsOnly(b: Books, c: Books, p: Payment) {
    && p.id == b.nextId && c.nextId == b.nextId + 1
    && c.payments == b.payments + [p]
    && c.daily == b.daily + p.amount && c.flows == b.flows
    && c.students.Keys == b.students.Keys
    && (forall s | s in b.students && s != p.studentId :: c.students[s] == b.students[s])
    && p.studentId in b.students
    && c.students[p.studentId].version == b.students[p.studentId].version + 1
    && c.students[p.studentId].history == b.students[p.studentId].history + [Entry(p.id, p.payId)]
    && SameRecord(c.students[p.studentId], b.students[p.studentId])
  }

  /** The students agree but for history and version. */
  ghost predicate SameRecord(s: Student, t: Student) {
    s.name == t.name && s.classId == t.classId && s.className == t.className && s.section == t.section &&
    s.tuitionFee == t.tuitionFee && s.feeType == t.feeType
  }

  ghost predicate SlotFree(b: Books, studentId: StudentId, payId: string) {
    forall p | p in b.payments && p.studentId == studentId :: p.payId != payId
  }

  ghost predicate InvoiceFree(b: Books, invoiceId: string) {
    forall p | p in b.payments :: p.invoiceId != invoiceId
  }

  ghost predicate UnpaidSince(b: Books, studentId: StudentId, midnight: int) {
    forall p | p in b.payments && p.studentId == studentId :: p.paymentDate < midnight
  }

  lemma KeysFreeIff(payments: seq<Payment>, p: Payment)
    ensures KeysFree(payments, p) <==>
      (forall q | q in payments && q.studentId == p.studentId :: q.payId != p.payId) &&
      (forall q | q in payments :: q.invoiceId != p.invoiceId)
  {
    if exists q :: q in payments && q.studentId == p.studentId && q.payId == p.payId {
      assert !KeysFree(payments, p);
    }
  }

  /** The first check that a commit fails. */
  ghost function CommitError(b: Books, t: Ticket): Error {
    if !Complete(t.seen, t.userId, t.payId) then ValidationFailed
    else if !SlotFree(b, t.studentId, t.payId) || !InvoiceFree(b, t.invoiceId) then DuplicateKey
    else ConcurrentModification
  }

  /** A commit records what the ticket has read, in any state it finds. */
  lemma CommitEffect(b: Books, t: Ticket)
    ensures var (c, r) := Commit(b, t);
      && (r.Ok? <==> t.studentId in b.students && Complete(t.seen, t.userId, t.payId) &&
                     SlotFree(b, t.studentId, t.payId) && InvoiceFree(b, t.invoiceId) &&
                     (t.expected.Some? ==> b.students[t.studentId].version == t.expected.value))
      && (r.Ok? ==> Charges(r.value, t.studentId, t.seen) && PostsOnly(b, c, r.value) &&
                    Made(r.value, t.userId, t.now, t.paymentType, t.payId, t.invoiceId))
      && (r.Err? ==> c == b)
      && (r.Err? ==> r.error == CommitError(b, t))
  {
    KeysFreeIff(b.payments, Document(t, b.nextId));
  }

  /** What a regular create reads: it refuses a second payment of the day, and keeps the
      version that it has seen. */
  lemma ReadRegularEffect(b: Books, studentId: StudentId, userId: string, clock: Clock, invoiceId: string)
    ensures var r := ReadRegular(b, studentId, userId, clock, invoiceId);
      && (r.Ok? <==> studentId in b.students && UnpaidSince(b, studentId, clock.midnight))
      && (r.Ok? ==> r.value.studentId == studentId && r.value.seen == b.students[studentId] &&
                    r.value.expected == Some(b.students[studentId].version) &&
                    r.value.payId == clock.payId && r.value.paymentType == "Standard" &&
                    r.value.userId == userId && r.value.invoiceId == invoiceId && r.value.now == clock.now)
      && (r.Err? ==> r.error == if studentId in b.students then PaymentExists else StudentNotFound)
  {
    assert studentId in [studentId];
    assert forall s | s in [studentId] :: s == studentId;
  }

  /** The first check that a regular create fails. */
  ghost function CreateError(b: Books, studentId: StudentId, userId: string, clock: Clock): Error {
    if studentId !in b.students then StudentNotFound
    else if !UnpaidSince(b, studentId, clock.midnight) then PaymentExists
    else if !Complete(b.students[studentId], userId, clock.payId) then ValidationFailed
    else DuplicateKey
  }

  /** createPayment succeeds exactly for a known student with complete data who has paid
      neither today nor for this month, with an unused invoice id; it then records his
      fee once in each place. */
  lemma CreatePaymentEffect(b: Books, studentId: StudentId, userId: string, clock: Clock, invoiceId: string)
    ensures var (c, r) := CreatePayment(b, studentId, userId, clock, invoiceId);
      && (r.Ok? <==> studentId in b.students && Complete(b.students[studentId], userId, clock.payId) &&
                     UnpaidSince(b, studentId, clock.midnight) && SlotFree(b, studentId, clock.payId) &&
                     InvoiceFree(b, invoiceId))
      && (r.Ok? ==> Charges(r.value, studentId, b.students[studentId]) && PostsOnly(b, c, r.value) &&
                    Made(r.value, userId, clock.now, "Standard", clock.payId, invoiceId))
      && (r.Err? ==> c == b)
      && (r.Err? ==> r.error == CreateError(b, studentId, userId, clock))
  {
    ReadRegularEffect(b, studentId, userId, clock, invoiceId);
    var r := ReadRegular(b, studentId, userId, clock, invoiceId);
    if r.Ok? {
      CommitEffect(b, r.value);
    }
  }

  /** The first check that an off-cycle create fails. */
  ghost function OffCycleError(b: Books, studentId: StudentId, userId: string, payId: string): Error {
    if studentId !in b.students then StudentNotFound
    else if !Complete(b.students[studentId], userId, payId) then ValidationFailed
    else DuplicateKey
  }

  /** createOffBillCyclePayment does the same for the month and the type that it is
      given, and does not ask for payments of the day. */
  lemma CreateOffBillCycleEffect(b: Books, studentId: StudentId, payId: string, paymentType: string,
                                 userId: string, clock: Clock, invoiceId: string)
    ensures var (c, r) := CreateOffBillCyclePayment(b, studentId, payId, paymentType, userId, clock, invoiceId);
      && (r.Ok? <==> studentId in b.students && Complete(b.students[studentId], userId, payId) &&
                     SlotFree(b, studentId, payId) && InvoiceFree(b, invoiceId))
      && (r.Ok? ==> Charges(r.value, studentId, b.students[studentId]) && PostsOnly(b, c, r.value) &&
                    Made(r.value, userId, clock.now, paymentType, payId, invoiceId))
      && (r.Err? ==> c == b)
      && (r.Err? ==> r.error == OffCycleError(b, studentId, userId, payId))
  {
    var r := ReadOffCycle(b, studentId, payId, paymentType, userId, clock, invoiceId);
    if r.Ok? {
      CommitEffect(b, r.value);
    }
  }

  // ---------------------------------------------------------------------
  // Batches
  // ---------------------------------------------------------------------

  /** Each listed student is charged his own fee, as he is when the batch is read. */
  ghost predicate ChargesAll(docs: seq<Payment>, b: Books, ids: seq<StudentId>, userId: string, clock: Clock,
                             invoice: nat -> string)
  {
    |docs| == |ids| &&
    forall i | 0 <= i < |ids| ::
      && ids[i] in b.students && Charges(docs[i], ids[i], b.students[ids[i]])
      && Made(docs[i], userId, clock.now, b.students[ids[i]].feeType, clock.payId, invoice(i))
  }

  ghost predicate IsEntryOf(e: Entry, p: Payment) {
    e.paymentId == p.id && e.payId == p.payId
  }

  /** The payments are appended and added to the counter, and each listed student's
      history grows by an entry for every one of them; nothing else changes. */
  ghost predicate PostsBatchOnly(b: Books, c: Books, ids: seq<StudentId>, docs: seq<Payment>) {
    && c.payments == b.payments + docs && c.nextId == b.nextId + |docs|
    && (forall i | 0 <= i < |docs| :: docs[i].id == b.nextId + i)
    && c.daily - b.daily == Sum(c.payments, Amount()) - Sum(b.payments, Amount()) && c.flows == b.flows
    && c.students.Keys == b.students.Keys
    && (forall s | s in b.students && s !in ids :: c.students[s] == b.students[s])
    && (forall s | s in b.students && s in ids :: GrowsBy(b.students[s], c.students[s], docs))
  }

  ghost predicate GrowsBy(s: Student, t: Student, docs: seq<Payment>) {
    && SameRecord(s, t) && t.version == s.version && |t.history| == |s.history| + |docs|
    && t.history[..|s.history|] == s.history
    && forall i | 0 <= i < |docs| :: IsEntryOf(t.history[|s.history| + i], docs[i])
  }

  lemma EntriesAppended(history: seq<Entry>, docs: seq<Payment>, entries: seq<Entry>)
    requires |entries| == |docs| && forall i | 0 <= i < |docs| :: IsEntryOf(entries[i], docs[i])
    ensures (history + entries)[..|history|] == history
    ensures forall i | 0 <= i < |docs| :: IsEntryOf((history + entries)[|history| + i], docs[i])
  {
  }

  lemma PushedGrows(s: Student, docs: seq<Payment>)
    ensures GrowsBy(s, s.(history := s.history + EntriesOf(docs)), docs)
  {
    EntriesAppended(s.history, docs, EntriesOf(docs));
  }

  lemma PostBatchEffect(b: Books, ids: seq<StudentId>, docs: seq<Payment>)
    requires forall i | 0 <= i < |docs| :: docs[i].id == b.nextId + i
    ensures PostsBatchOnly(b, PostBatch(b, ids, docs), ids, docs)
  {
    SumConcat(b.payments, docs, Amount());
    forall s | s in b.students && s in ids
      ensures GrowsBy(b.students[s], PostBatch(b, ids, docs).students[s], docs)
    {
      PushedGrows(b.students[s], docs);
    }
  }

  lemma DocumentsCharge(b: Books, ids: seq<StudentId>, userId: string, clock: Clock, invoice: nat -> string)
    requires forall s | s in ids :: s in b.students
    ensures ChargesAll(BatchDocuments(b, ids, userId, clock, invoice), b, ids, userId, clock, invoice)
    ensures forall i | 0 <= i < |ids| :: BatchDocuments(b, ids, userId, clock, invoice)[i].id == b.nextId + i
  {
  }

  /** The first check that a batch fails. */
  ghost function BatchError(b: Books, ids: seq<StudentId>, userId: string, clock: Clock): Error {
    if ids == [] then EmptySelection
    else if exists p :: p in b.payments && p.studentId in ids && p.paymentDate >= clock.midnight then PaymentExists
    else if exists s :: s in ids && s !in b.students then StudentNotFound
    else if exists s :: s in ids && s in b.students && !Complete(b.students[s], userId, clock.payId)
      then ValidationFailed
    else DuplicateKey
  }

  /** commitMultiInsert in the same terms. */
  lemma CommitMultiInsertEffect(b: Books, ids: seq<StudentId>, userId: string, clock: Clock, invoice: nat -> string)
    ensures var (c, r) := CommitMultiInsert(b, ids, userId, clock, invoice);
      && (r.Ok? ==> ChargesAll(r.value, b, ids, userId, clock, invoice) && PostsBatchOnly(b, c, ids, r.value))
      && (r.Err? ==> c == b)
      && (r.Err? ==> r.error == BatchError(b, ids, userId, clock))
  {
    var (c, r) := CommitMultiInsert(b, ids, userId, clock, invoice);
    if forall s | s in ids :: s in b.students {
      DocumentsCharge(b, ids, userId, clock, invoice);
      BatchValidIff(b, ids, userId, clock, invoice);
      if r.Ok? {
        PostBatchEffect(b, ids, r.value);
      }
    }
  }

  /** A batch that commits later still charges what it has read. */
  ghost predicate ChargesPicks(docs: seq<Payment>, t: BatchTicket) {
    |docs| == |t.picks| &&
    forall i | 0 <= i < |docs| ::
      && Charges(docs[i], t.picks[i].studentId, t.picks[i].seen)
      && Made(docs[i], t.userId, t.clock.now, t.picks[i].seen.feeType, t.clock.payId, t.invoice(i))
  }

  lemma TicketCharges(t: BatchTicket, firstId: nat)
    ensures ChargesPicks(TicketDocuments(t, firstId), t)
    ensures forall i | 0 <= i < |t.picks| :: TicketDocuments(t, firstId)[i].id == firstId + i
  {
  }

  lemma CommitBatchEffect(b: Books, t: BatchTicket)
    ensures var (c, r) := CommitBatch(b, t);
      && (r.Ok? ==> ChargesPicks(r.value, t) && PostsBatchOnly(b, c, IdsOf(t), r.value))
      && (r.Err? ==> c == b)
  {
    TicketCharges(t, b.nextId);
    PostBatchEffect(b, IdsOf(t), TicketDocuments(t, b.nextId));
  }

  // ---------------------------------------------------------------------
  // Deletions
  // ---------------------------------------------------------------------

  /** A history without the entries of the dead payments. */
  function Without(history: seq<Entry>, dead: set<nat>): seq<Entry> {
    if history == [] then []
    else
      var n := |history| - 1;
      Without(history[..n], dead) + if history[n].paymentId in dead then [] else [history[n]]
  }

  lemma {:induction false} PulledIsWithout(history: seq<Entry>, dead: set<nat>)
    ensures Filter(history, NotIn(dead)) == Without(history, dead)
  {
    if history != [] {
      PulledIsWithout(history[..|history| - 1], dead);
    }
  }

  /** The student loses the entries of the dead payments and keeps everything else. */
  ghost predicate Loses(s: Student, t: Student, dead: set<nat>) {
    SameRecord(s, t) && t.version == s.version && t.history == Without(s.history, dead)
  }

  /** The dead payments disappear, from the histories of their owners too, and the
      counter falls by what they were worth; nothing else changes. */
  ghost predicate RemovesOnly(b: Books, c: Books, dead: set<nat>) {
    && ListsAll(b.payments, Alive(dead), c.payments)
    && b.daily - c.daily == Sum(b.payments, Amount()) - Sum(c.payments, Amount())
    && c.flows == b.flows && c.nextId == b.nextId && PaymentsGone(b, c.students, dead)
  }

  ghost predicate PaymentsGone(b: Books, students: map<StudentId, Student>, dead: set<nat>) {
    students.Keys == b.students.Keys &&
    forall s | s in b.students ::
      if exists p :: p in b.payments && p.id in dead && p.studentId == s
      then Loses(b.students[s], students[s], dead)
      else students[s] == b.students[s]
  }

  function Alive(dead: set<nat>): Payment -> bool {
    (p: Payment) => p.id !in dead
  }

  lemma OwnersIff(b: Books, pick: Payment -> bool, s: StudentId)
    ensures var gone := Filter(b.payments, pick);
      s in Owners(gone) ==> exists p :: p in b.payments && p.id in Ids(gone) && p.studentId == s
    ensures var gone := Filter(b.payments, pick);
      (WellFormed(b) && exists p :: p in b.payments && p.id in Ids(gone) && p.studentId == s) ==> s in Owners(gone)
  {
    var gone := Filter(b.payments, pick);
    FilterMembers(b.payments, pick);
    if s in Owners(gone) {
      var p :| p in gone && p.studentId == s;
      assert p in b.payments && p.id in Ids(gone);
    }
    if WellFormed(b) && exists p :: p in b.payments && p.id in Ids(gone) && p.studentId == s {
      var p :| p in b.payments && p.id in Ids(gone) && p.studentId == s;
      IdsSelect(b, pick);
      assert p in gone;
    }
  }

  lemma StudentsLose(b: Books, pick: Payment -> bool)
    requires WellFormed(b)
    ensures var gone := Filter(b.payments, pick);
      PaymentsGone(b, Remove(b, gone).students, Ids(gone))
  {
    var gone := Filter(b.payments, pick);
    var students := Remove(b, gone).students;
    forall s | s in b.students
      ensures if exists p :: p in b.payments && p.id in Ids(gone) && p.studentId == s
              then Loses(b.students[s], students[s], Ids(gone)) else students[s] == b.students[s]
    {
      OwnersIff(b, pick, s);
      PulledIsWithout(b.students[s].history, Ids(gone));
    }
  }

  lemma RemovedSum(b: Books, pick: Payment -> bool)
    requires WellFormed(b)
    ensures var gone := Filter(b.payments, pick);
      Sum(b.payments, Amount()) - Sum(Remove(b, gone).payments, Amount()) == Sum(gone, Amount())
    ensures ListsAll(b.payments, Alive(Ids(Filter(b.payments, pick))), Remove(b, Filter(b.payments, pick)).payments)
  {
    var dead := Ids(Filter(b.payments, pick));
    IdsSelect(b, pick);
    SumSplit(b.payments, Survives(dead), pick, Amount());
    FilterSame(b.payments, Survives(dead), Alive(dead));
    FilterLists(b.payments, Alive(dead));
  }

  lemma RemoveEffect(b: Books, pick: Payment -> bool)
    requires WellFormed(b)
    ensures var gone := Filter(b.payments, pick); RemovesOnly(b, Remove(b, gone), Ids(gone))
  {
    RemovedSum(b, pick);
    StudentsLose(b, pick);
  }

  /** deletePayment removes exactly the payment of that id, and takes its amount off the
      counter. */
  lemma DeletePaymentEffect(b: Books, id: nat)
    requires Sound(b)
    ensures var (c, r) := DeletePayment(b, id);
      && (r.Ok? <==> exists p :: p in b.payments && p.id == id)
      && (r.Ok? ==> RemovesOnly(b, c, {id}))
      && (forall p | p in b.payments && p.id == id :: c.daily == b.daily - p.amount)
      && (r.Err? ==> c == b && r.error == PaymentNotFound)
  {
    FoundIff(b.payments, HasId(id));
    OnlyOne(b.payments, id);
    var found := Filter(b.payments, HasId(id));
    FilterMembers(b.payments, HasId(id));
    if found != [] {
      assert [found[0]] == found && found[0] in found;
      assert Ids(found) == {id};
      RemoveEffect(b, HasId(id));
      SumPush([], found[0], Amount());
      assert [] + [found[0]] == found;
      forall p | p in b.payments && p.id == id ensures p == found[0] {
        SameId(b, p, found[0]);
      }
    }
  }

  /** deleteMultiplePayments does so for all payments of the listed students for the
      month. */
  lemma DeleteMultipleEffect(b: Books, ids: seq<StudentId>, payId: string)
    requires Sound(b)
    ensures var (c, r) := DeleteMultiplePayments(b, ids, payId);
      var dead := set p | p in b.payments && p.studentId in ids && p.payId == payId :: p.id;
      && (r.Ok? <==> exists p :: p in b.payments && p.studentId in ids && p.payId == payId)
      && (r.Ok? ==> RemovesOnly(b, c, dead))
      && (r.Err? ==> c == b && r.error == PaymentNotFound)
  {
    var pick := ForMonth(ids, payId);
    FoundIff(b.payments, pick);
    FilterMembers(b.payments, pick);
    assert Ids(Filter(b.payments, pick)) == set p | p in b.payments && p.studentId in ids && p.payId == payId :: p.id;
    if Filter(b.payments, pick) != [] {
      RemoveEffect(b, pick);
    }
  }
}
