/** The service object: its methods work on the collections and the counter as the
    requests do.  The `tx` variables are the session's view of a collection, which
    replaces the collection at the commit; a method that returns `Err` has thrown,
    and the session's view is dropped. */
module PaymentService {
  import opened Sequences
  import opened Records
  import Ledger
  import opened LedgerTheorems

  type Books = Ledger.Books
  type Error = Ledger.Error

  /** One findById after another: the first unknown id ends the request. */
  method FetchStudents(students: map<StudentId, Student>, ids: seq<StudentId>)
    returns (r: Result<seq<Student>, Error>)
    ensures r.Err? <==> exists s | s in ids :: s !in students
    ensures r.Err? ==> r.error == Ledger.StudentNotFound
    ensures r.Ok? ==> |r.value| == |ids| && forall k | 0 <= k < |ids| :: r.value[k] == students[ids[k]]
  {
    var data: seq<Student> := [];
    for i := 0 to |ids|
      invariant |data| == i
      invariant forall k | 0 <= k < i :: ids[k] in students && data[k] == students[ids[k]]
    {
      if ids[i] !in students {
        return Err(Ledger.StudentNotFound);
      }
      data := data + [students[ids[i]]];
    }
    r := Ok(data);
  }

  /** One invoice id and one document for each fetched student. */
  method BuildDocuments(ghost b: Books, studentData: seq<Student>, ids: seq<StudentId>, firstId: nat,
                        userId: string, clock: Clock, invoice: nat -> string)
    returns (docs: seq<Payment>)
    requires firstId == b.nextId && |studentData| == |ids|
    requires forall k | 0 <= k < |ids| :: ids[k] in b.students && studentData[k] == b.students[ids[k]]
    ensures forall s | s in ids :: s in b.students
    ensures docs == Ledger.BatchDocuments(b, ids, userId, clock, invoice)
  {
    var invoiceIds: seq<string> := [];
    for i := 0 to |studentData|
      invariant |invoiceIds| == i && forall k | 0 <= k < i :: invoiceIds[k] == invoice(k)
    {
      invoiceIds := invoiceIds + [invoice(i)];
    }
    docs := seq(|studentData|, i requires 0 <= i < |studentData| =>
      var student := studentData[i];
      Payment(firstId + i, ids[i], student.name, student.classId, student.className, student.section,
              student.tuitionFee, clock.now, userId, student.feeType, clock.payId, invoiceIds[i], clock.now));
  }

  /** The ordered insertMany of the database: the first clash with either unique
      index fails it. */
  method InsertMany(payments: seq<Payment>, docs: seq<Payment>) returns (r: Option<seq<Payment>>)
    ensures r.Some? <==> Ledger.AllKeysFree(payments, docs)
    ensures r.Some? ==> r.value == payments + docs
  {
    var inserted := payments;
    for i := 0 to |docs|
      invariant inserted == payments + docs[..i]
      invariant forall k | 0 <= k < i :: Ledger.KeysFree(payments + docs[..k], docs[k])
    {
      if !Ledger.KeysFree(inserted, docs[i]) {
        return None;
      }
      inserted := inserted + [docs[i]];
    }
    r := Some(inserted);
  }

  method TotalAmount(docs: seq<Payment>) returns (total: int)
    ensures total == Sum(docs, Amount())
  {
    total := 0;
    for i := 0 to |docs|
      invariant total == Sum(docs[..i], Amount())
    {
      total := total + docs[i].amount;
      assert docs[..i + 1] == docs[..i] + [docs[i]];
      SumPush(docs[..i], docs[i], Amount());
    }
    assert docs[..|docs|] == docs;
  }

  class PaymentService {
    var payments: seq<Payment>
    var students: map<StudentId, Student>
    var daily: int
    var flows: seq<int>
    var nextId: nat

    ghost function State(): Books
      reads this
    {
      Ledger.Books(payments, students, daily, flows, nextId)
    }

    ghost predicate Valid()
      reads this
    {
      Ledger.Sound(State())
    }

    constructor (roll: map<StudentId, Student>)
      requires forall s | s in roll :: roll[s].history == []
      ensures Valid() && Ledger.Exact(State()) && Ledger.Shortfall(State()) == 0
      ensures students == roll && payments == []
    {
      payments, students, daily, flows, nextId := [], roll, 0, [], 0;
    }

    method CreatePayment(studentId: StudentId, userId: string, clock: Clock, invoiceId: string)
      returns (r: Result<Payment, Error>)
      requires Valid()
      modifies this
      ensures Valid() && Ledger.Shortfall(State()) == Ledger.Shortfall(old(State()))
      ensures (State(), r) == Ledger.CreatePayment(old(State()), studentId, userId, clock, invoiceId)
    {
      ghost var before := State();
      if studentId !in students {
        return Err(Ledger.StudentNotFound);
      }
      var student := students[studentId];
      if Ledger.PaidSince(payments, [studentId], clock.midnight) {
        return Err(Ledger.PaymentExists);
      }
      var payment := Payment(nextId, studentId, student.name, student.classId, student.className, student.section,
                             student.tuitionFee, clock.now, userId, "Standard", clock.payId, invoiceId, clock.now);
      if !Ledger.SchemaValid(payment) {
        return Err(Ledger.ValidationFailed);
      }
      if !Ledger.KeysFree(payments, payment) {
        return Err(Ledger.DuplicateKey);
      }
      var txPayments := payments + [payment];
      // The version filter still matches: nothing runs between the read and this update here.
      var pushed := student.(history := student.history + [Entry(payment.id, payment.payId)],
                             version := student.version + 1);
      var txStudents := students[studentId := pushed];
      daily := daily + student.tuitionFee;
      payments, students, nextId := txPayments, txStudents, nextId + 1;
      r := Ok(payment);
      assert (State(), r) == Ledger.CreatePayment(before, studentId, userId, clock, invoiceId);
      assert Valid() && Ledger.Shortfall(State()) == Ledger.Shortfall(before) by {
        CreatePaymentKeeps(before, studentId, userId, clock, invoiceId);
      }
    }

    method CreateOffBillCyclePayment(studentId: StudentId, payId: string, paymentType: string,
                                     userId: string, clock: Clock, invoiceId: string)
      returns (r: Result<Payment, Error>)
      requires Valid()
      modifies this
      ensures Valid() && Ledger.Shortfall(State()) == Ledger.Shortfall(old(State()))
      ensures (State(), r) ==
        Ledger.CreateOffBillCyclePayment(old(State()), studentId, payId, paymentType, userId, clock, invoiceId)
    {
      ghost var before := State();
      if studentId !in students {
        return Err(Ledger.StudentNotFound);
      }
      var student := students[studentId];
      var payment := Payment(nextId, studentId, student.name, student.classId, student.className, student.section,
                             student.tuitionFee, clock.now, userId, paymentType, payId, invoiceId, clock.now);
      if !Ledger.SchemaValid(payment) {
        return Err(Ledger.ValidationFailed);
      }
      if !Ledger.KeysFree(payments, payment) {
        return Err(Ledger.DuplicateKey);
      }
      var txPayments := payments + [payment];
      var pushed := student.(history := student.history + [Entry(payment.id, payment.payId)],
                             version := student.version + 1);
      var txStudents := students[studentId := pushed];
      daily := daily + student.tuitionFee;
      payments, students, nextId := txPayments, txStudents, nextId + 1;
      r := Ok(payment);
      assert (State(), r) ==
        Ledger.CreateOffBillCyclePayment(before, studentId, payId, paymentType, userId, clock, invoiceId);
      assert Valid() && Ledger.Shortfall(State()) == Ledger.Shortfall(before) by {
        CreateOffBillCycleKeeps(before, studentId, payId, paymentType, userId, clock, invoiceId);
      }
    }

    method CommitMultiInsert(studentIds: seq<StudentId>, userId: string, clock: Clock, invoice: nat -> string)
      returns (r: Result<seq<Payment>, Error>)
      requires Valid()
      modifies this
      ensures Valid() && Ledger.Shortfall(State()) == Ledger.Shortfall(old(State()))
      ensures (State(), r) == Ledger.CommitMultiInsert(old(State()), studentIds, userId, clock, invoice)
    {
      ghost var before := State();
      if studentIds == [] {
        return Err(Ledger.EmptySelection);
      }
      if Ledger.PaidSince(payments, studentIds, clock.midnight) {
        return Err(Ledger.PaymentExists);
      }
      var fetched := FetchStudents(students, studentIds);
      if fetched.Err? {
        return Err(fetched.error);
      }
      var studentData := fetched.value;
      var docs := BuildDocuments(before, studentData, studentIds, nextId, userId, clock, invoice);
      if exists p | p in docs :: !Ledger.SchemaValid(p) {
        return Err(Ledger.ValidationFailed);
      }
      var txPayments := InsertMany(payments, docs);
      if txPayments.None? {
        return Err(Ledger.DuplicateKey);
      }
      var txStudents := Ledger.PushAll(students, studentIds, Ledger.EntriesOf(docs));
      var totalAmount := TotalAmount(docs);
      daily := daily + totalAmount;
      payments, students, nextId := txPayments.value, txStudents, nextId + |docs|;
      r := Ok(docs);
      PassedBatchKeeps(before, studentIds, userId, clock, invoice, docs, State());
    }

    method DeletePayment(paymentId: nat) returns (r: Result<(), Error>)
      requires Valid()
      modifies this
      ensures Valid() && Ledger.Shortfall(State()) == Ledger.Shortfall(old(State()))
      ensures (State(), r) == Ledger.DeletePayment(old(State()), paymentId)
    {
      ghost var before := State();
      var found := Filter(payments, Ledger.HasId(paymentId));
      if found == [] {
        return Err(Ledger.PaymentNotFound);
      }
      var payment := found[0];
      FilterMembers(payments, Ledger.HasId(paymentId));
      assert found[0] in found;
      assert Ledger.Ids([payment]) == {paymentId} && Ledger.Owners([payment]) == {payment.studentId};
      SumPush([], payment, Amount());
      assert [] + [payment] == [payment];
      daily := daily - payment.amount;
      payments := Filter(payments, Ledger.Survives({paymentId}));
      students := Ledger.PullAll(students, {payment.studentId}, {paymentId});
      r := Ok(());
      assert (State(), r) == Ledger.DeletePayment(before, paymentId);
      assert Valid() && Ledger.Shortfall(State()) == Ledger.Shortfall(before) by {
        DeletePaymentKeeps(before, paymentId);
      }
    }

    method DeleteMultiplePayments(studentIds: seq<StudentId>, clock: Clock) returns (r: Result<(), Error>)
      requires Valid()
      modifies this
      ensures Valid() && Ledger.Shortfall(State()) == Ledger.Shortfall(old(State()))
      ensures (State(), r) == Ledger.DeleteMultiplePayments(old(State()), studentIds, clock.payId)
    {
      ghost var before := State();
      var found := Filter(payments, Ledger.ForMonth(studentIds, clock.payId));
      if found == [] {
        return Err(Ledger.PaymentNotFound);
      }
      var paymentIds := Ledger.Ids(found);
      var totalAmount := TotalAmount(found);
      payments := Filter(payments, Ledger.Survives(paymentIds));
      students := Ledger.PullAll(students, Ledger.Owners(found), paymentIds);
      daily := daily - totalAmount;
      r := Ok(());
      assert State() == Ledger.Remove(before, found);
      assert (State(), r) == Ledger.DeleteMultiplePayments(before, studentIds, clock.payId);
      assert Valid() && Ledger.Shortfall(State()) == Ledger.Shortfall(before) by {
        DeleteMultipleKeeps(before, studentIds, clock.payId);
      }
    }
  }
}
