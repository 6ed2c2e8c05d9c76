/** The payment ledger: the payments and students collections (Mongo), the daily
    counter (Redis) and the money-flow records, with every PaymentService
    operation as a function from the state before to the state after.  An
    operation that throws returns the state it was given: its transaction is
    rolled back and it has not reached the counter. */
module Ledger {
  import opened Sequences
  import opened Records

  datatype Error =
    | EmptySelection
    | StudentNotFound
    | PaymentExists
    | PaymentNotFound
    | ValidationFailed
    | DuplicateKey
    | ConcurrentModification

  /** `nextId` stands for the supply of fresh document ids. */
  datatype Books = Books(
    payments: seq<Payment>,
    students: map<StudentId, Student>,
    daily: int,
    flows: seq<int>,
    nextId: nat)

  function Self(): int -> int {
    (x: int) => x
  }

  // ---------------------------------------------------------------------
  // Queries and writes of the two collections
  // ---------------------------------------------------------------------

  /** The required string fields of the payment schema. */
  predicate SchemaValid(p: Payment) {
    p.classId != "" && p.className != "" && p.section != "" &&
    p.createdBy != "" && p.payId != ""
  }

  /** Neither unique index holds a document that clashes with `p`. */
  predicate KeysFree(payments: seq<Payment>, p: Payment) {
    forall q | q in payments :: (q.studentId, q.payId) != (p.studentId, p.payId) && q.invoiceId != p.invoiceId
  }

  /** An ordered insertMany: each document is checked against those before it. */
  predicate AllKeysFree(payments: seq<Payment>, docs: seq<Payment>) {
    forall i | 0 <= i < |docs| :: KeysFree(payments + docs[..i], docs[i])
  }

  predicate PaidSince(payments: seq<Payment>, ids: seq<StudentId>, midnight: int) {
    exists p | p in payments :: p.studentId in ids && p.paymentDate >= midnight
  }

  function NotIn(dead: set<nat>): Entry -> bool {
    (e: Entry) => e.paymentId !in dead
  }

  function Survives(dead: set<nat>): Payment -> bool {
    (p: Payment) => p.id !in dead
  }

  function ForMonth(ids: seq<StudentId>, payId: string): Payment -> bool {
    (p: Payment) => p.studentId in ids && p.payId == payId
  }

  function HasId(id: nat): Payment -> bool {
    (p: Payment) => p.id == id
  }

  function Ids(payments: seq<Payment>): set<nat> {
    set p | p in payments :: p.id
  }

  function Owners(payments: seq<Payment>): set<StudentId> {
    set p | p in payments :: p.studentId
  }

  function EntriesOf(payments: seq<Payment>): seq<Entry> {
    Map(payments, EntryOf)
  }

  /** updateMany with $push $each. */
  function PushAll(students: map<StudentId, Student>, ids: seq<StudentId>, entries: seq<Entry>)
    : map<StudentId, Student>
  {
    map s | s in students ::
      if s in ids then students[s].(history := students[s].history + entries) else students[s]
  }

  /** updateMany with $pull of the given payment ids. */
  function PullAll(students: map<StudentId, Student>, owners: set<StudentId>, dead: set<nat>)
    : map<StudentId, Student>
  {
    map s | s in students ::
      if s in owners then students[s].(history := Filter(students[s].history, NotIn(dead))) else students[s]
  }

  // ---------------------------------------------------------------------
  // Creating one payment: a read step, then a commit step
  // ---------------------------------------------------------------------

  /** What a create operation holds between its reads and its writes.  Only the
      regular operation remembers the version that it expects to update. */
  datatype Ticket = Ticket(
    studentId: StudentId,
    seen: Student,
    expected: Option<nat>,
    payId: string,
    paymentType: string,
    userId: string,
    invoiceId: string,
    now: int)

  function Document(t: Ticket, id: nat): Payment {
    Payment(id, t.studentId, t.seen.name, t.seen.classId, t.seen.className, t.seen.section,
            t.seen.tuitionFee, t.now, t.userId, t.paymentType, t.payId, t.invoiceId, t.now)
  }

  function ReadRegular(b: Books, studentId: StudentId, userId: string, clock: Clock, invoiceId: string)
    : Result<Ticket, Error>
  {
    if studentId !in b.students then Err(StudentNotFound)
    else if PaidSince(b.payments, [studentId], clock.midnight) then Err(PaymentExists)
    else
      var seen := b.students[studentId];
      Ok(Ticket(studentId, seen, Some(seen.version), clock.payId, "Standard", userId, invoiceId, clock.now))
  }

  function ReadOffCycle(b: Books, studentId: StudentId, payId: string, paymentType: string,
                        userId: string, clock: Clock, invoiceId: string)
    : Result<Ticket, Error>
  {
    if studentId !in b.students then Err(StudentNotFound)
    else Ok(Ticket(studentId, b.students[studentId], None, payId, paymentType, userId, invoiceId, clock.now))
  }

  predicate VersionMatches(b: Books, t: Ticket) {
    t.studentId in b.students &&
    (t.expected.Some? ==> b.students[t.studentId].version == t.expected.value)
  }

  function Post(b: Books, p: Payment): Books
    requires p.studentId in b.students
  {
    var s := b.students[p.studentId];
    b.(payments := b.payments + [p],
       students := b.students[p.studentId := s.(history := s.history + [EntryOf(p)], version := s.version + 1)],
       daily := b.daily + p.amount,
       nextId := b.nextId + 1)
  }

  function Commit(b: Books, t: Ticket): (Books, Result<Payment, Error>) {
    var p := Document(t, b.nextId);
    if !SchemaValid(p) then (b, Err(ValidationFailed))
    else if !KeysFree(b.payments, p) then (b, Err(DuplicateKey))
    else if !VersionMatches(b, t) then (b, Err(ConcurrentModification))
    else (Post(b, p), Ok(p))
  }

  function CreatePayment(b: Books, studentId: StudentId, userId: string, clock: Clock, invoiceId: string)
    : (Books, Result<Payment, Error>)
  {
    match ReadRegular(b, studentId, userId, clock, invoiceId)
    case Err(e) => (b, Err(e))
    case Ok(t) => Commit(b, t)
  }

  function CreateOffBillCyclePayment(b: Books, studentId: StudentId, payId: string, paymentType: string,
                                     userId: string, clock: Clock, invoiceId: string)
    : (Books, Result<Payment, Error>)
  {
    match ReadOffCycle(b, studentId, payId, paymentType, userId, clock, invoiceId)
    case Err(e) => (b, Err(e))
    case Ok(t) => Commit(b, t)
  }

  // ---------------------------------------------------------------------
  // Creating and deleting many
  // ---------------------------------------------------------------------

  function BatchPayment(id: nat, studentId: StudentId, s: Student, userId: string, clock: Clock,
                        invoiceId: string): Payment {
    Payment(id, studentId, s.name, s.classId, s.className, s.section,
            s.tuitionFee, clock.now, userId, s.feeType, clock.payId, invoiceId, clock.now)
  }

  function BatchDocument(b: Books, ids: seq<StudentId>, i: nat, userId: string, clock: Clock,
                         invoice: nat -> string): Payment
    requires i < |ids| && ids[i] in b.students
  {
    BatchPayment(b.nextId + i, ids[i], b.students[ids[i]], userId, clock, invoice(i))
  }

  function BatchDocuments(b: Books, ids: seq<StudentId>, userId: string, clock: Clock,
                          invoice: nat -> string): (docs: seq<Payment>)
    requires forall s | s in ids :: s in b.students
  {
    seq(|ids|, i requires 0 <= i < |ids| => BatchDocument(b, ids, i, userId, clock, invoice))
  }

  function PostBatch(b: Books, ids: seq<StudentId>, docs: seq<Payment>): Books {
    b.(payments := b.payments + docs,
       students := PushAll(b.students, ids, EntriesOf(docs)),
       daily := b.daily + Sum(docs, Amount()),
       nextId := b.nextId + |docs|)
  }

  function CommitMultiInsert(b: Books, ids: seq<StudentId>, userId: string, clock: Clock,
                             invoice: nat -> string)
    : (Books, Result<seq<Payment>, Error>)
  {
    if ids == [] then (b, Err(EmptySelection))
    else if PaidSince(b.payments, ids, clock.midnight) then (b, Err(PaymentExists))
    else if exists s | s in ids :: s !in b.students then (b, Err(StudentNotFound))
    else
      var docs := BatchDocuments(b, ids, userId, clock, invoice);
      if exists p | p in docs :: !SchemaValid(p) then (b, Err(ValidationFailed))
      else if !AllKeysFree(b.payments, docs) then (b, Err(DuplicateKey))
      else (PostBatch(b, ids, docs), Ok(docs))
  }

  // The same batch as a read step and a commit step.

  datatype Pick = Pick(studentId: StudentId, seen: Student)

  /** What a batch holds between its reads and its writes. */
  datatype BatchTicket = BatchTicket(picks: seq<Pick>, userId: string, clock: Clock, invoice: nat -> string)

  function IdsOf(t: BatchTicket): (ids: seq<StudentId>)
    ensures |ids| == |t.picks| && forall i | 0 <= i < |ids| :: ids[i] == t.picks[i].studentId
  {
    seq(|t.picks|, i requires 0 <= i < |t.picks| => t.picks[i].studentId)
  }

  function TicketDocuments(t: BatchTicket, firstId: nat): (docs: seq<Payment>)
    ensures |docs| == |t.picks|
    ensures forall i | 0 <= i < |docs| ::
      docs[i] == BatchPayment(firstId + i, t.picks[i].studentId, t.picks[i].seen, t.userId, t.clock, t.invoice(i))
  {
    seq(|t.picks|, i requires 0 <= i < |t.picks| =>
      BatchPayment(firstId + i, t.picks[i].studentId, t.picks[i].seen, t.userId, t.clock, t.invoice(i)))
  }

  function ReadBatch(b: Books, ids: seq<StudentId>, userId: string, clock: Clock, invoice: nat -> string)
    : Result<BatchTicket, Error>
  {
    if ids == [] then Err(EmptySelection)
    else if PaidSince(b.payments, ids, clock.midnight) then Err(PaymentExists)
    else if exists s | s in ids :: s !in b.students then Err(StudentNotFound)
    else
      Ok(BatchTicket(seq(|ids|, i requires 0 <= i < |ids| => Pick(ids[i], b.students[ids[i]])), userId, clock, invoice))
  }

  function CommitBatch(b: Books, t: BatchTicket): (Books, Result<seq<Payment>, Error>) {
    var docs := TicketDocuments(t, b.nextId);
    if exists p | p in docs :: !SchemaValid(p) then (b, Err(ValidationFailed))
    else if !AllKeysFree(b.payments, docs) then (b, Err(DuplicateKey))
    else (PostBatch(b, IdsOf(t), docs), Ok(docs))
  }

  function Remove(b: Books, gone: seq<Payment>): Books {
    b.(payments := Filter(b.payments, Survives(Ids(gone))),
       students := PullAll(b.students, Owners(gone), Ids(gone)),
       daily := b.daily - Sum(gone, Amount()))
  }

  function DeletePayment(b: Books, id: nat): (Books, Result<(), Error>) {
    var found := Filter(b.payments, HasId(id));
    if found == [] then (b, Err(PaymentNotFound))
    else (Remove(b, [found[0]]), Ok(()))
  }

  function DeleteMultiplePayments(b: Books, ids: seq<StudentId>, payId: string): (Books, Result<(), Error>) {
    var found := Filter(b.payments, ForMonth(ids, payId));
    if found == [] then (b, Err(PaymentNotFound))
    else (Remove(b, found), Ok(()))
  }

  // ---------------------------------------------------------------------
  // Invariants
  // ---------------------------------------------------------------------

  /** Live payments have fresh distinct ids, both unique indexes hold, and no
      history mentions an id that has not been handed out. */
  ghost predicate WellFormed(b: Books) {
    DistinctBy(b.payments, Id()) && DistinctBy(b.payments, Slot()) && DistinctBy(b.payments, Invoice()) &&
    (forall p | p in b.payments :: p.id < b.nextId && p.studentId in b.students && p.payId != "") &&
    (forall s, e | s in b.students && e in b.students[s].history :: e.paymentId < b.nextId)
  }

  /** Each live payment is recorded in its own student's history. */
  ghost predicate Covered(b: Books) {
    forall p | p in b.payments :: p.studentId in b.students && EntryOf(p) in b.students[p.studentId].history
  }

  /** Each history lists exactly its own student's live payments, oldest first. */
  ghost predicate Exact(b: Books) {
    forall s | s in b.students :: b.students[s].history == EntriesOf(Filter(b.payments, OwnedBy(s)))
  }

  /** What the live payments are worth beyond what the counter and the offloaded
      totals account for. */
  function Shortfall(b: Books): int {
    Sum(b.payments, Amount()) - b.daily - Sum(b.flows, Self())
  }

  ghost predicate Sound(b: Books) {
    WellFormed(b) && Covered(b)
  }

}
