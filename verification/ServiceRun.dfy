/** Requests served by the service object, the nightly job and the recovery script. */
module ServiceRun {
  import opened Sequences
  import opened Records
  import Ledger
  import Runs
  import Rebuild
  import DailyReset
  import PS = PaymentService

  /** The students in some order, as a cursor yields them. */
  method StudentCursor(students: map<StudentId, Student>) returns (ids: seq<StudentId>)
    ensures Enumerates(ids, students.Keys)
  {
    ids := [];
    var left := students.Keys;
    ghost var done: set<StudentId> := {};
    while left != {}
      invariant left + done == students.Keys && left !! done && Enumerates(ids, done)
      decreases |left|
    {
      var s :| s in left;
      EnumeratesPush(ids, done, s);
      ids, left, done := ids + [s], left - {s}, done + {s};
    }
  }

  /** The script when no update is rejected. */
  method RunScript(store: PS.PaymentService, cursor: seq<Payment>)
    requires Rebuild.IsCursor(cursor, store.payments)
    modifies store`students
    ensures store.students == Rebuild.Rebuilt(old(store.students), cursor, {})
  {
    var students := StudentCursor(store.students);
    var _ := Rebuild.RebuildPaymentHistories(store, students, cursor, {});
  }

  method Recover(store: PS.PaymentService, cursor: seq<Payment>)
    requires store.Valid()
    modifies store`students
    ensures store.Valid() && store.State() == Rebuild.Repair(old(store.State()), cursor)
    ensures Ledger.Shortfall(store.State()) == Ledger.Shortfall(old(store.State()))
  {
    Rebuild.RepairKeeps(store.State(), cursor);
    if Rebuild.IsCursor(cursor, store.payments) {
      RunScript(store, cursor);
    }
  }

  /** One request, by the method that handles it. */
  method ServeRequest(store: PS.PaymentService, q: Runs.Request)
    requires store.Valid()
    modifies store
    ensures store.Valid() && store.State() == Runs.Serve(old(store.State()), q)
    ensures Ledger.Shortfall(store.State()) == Ledger.Shortfall(old(store.State()))
  {
    match q
    case Create(s, u, c, i) => var _ := store.CreatePayment(s, u, c, i);
    case CreateOffCycle(s, p, t, u, c, i) => var _ := store.CreateOffBillCyclePayment(s, p, t, u, c, i);
    case MultiInsert(ids, u, c, i) => var _ := store.CommitMultiInsert(ids, u, c, i);
    case Delete(id) => var _ := store.DeletePayment(id);
    case DeleteMany(ids, payId) => var _ := store.DeleteMultiplePayments(ids, Clock(0, 0, payId));
    case Offload(saves) => DailyReset.OffloadAndResetTotalAmount(store, saves);
    case Recover(cursor) => Recover(store, cursor);
  }

  lemma {:induction false} ServeAllPush(b: Ledger.Books, qs: seq<Runs.Request>, q: Runs.Request)
    ensures Runs.ServeAll(b, qs + [q]) == Runs.Serve(Runs.ServeAll(b, qs), q)
    decreases |qs|
  {
    if qs == [] {
      assert ([] + [q])[1..] == [];
    } else {
      ServeAllPush(Runs.Serve(b, qs[0]), qs[1..], q);
      assert (qs + [q])[1..] == qs[1..] + [q];
    }
  }

  /** Any requests from balanced books leave the object balanced: what the counter and
      the records hold is what the live payments are worth. */
  method ServeRequests(store: PS.PaymentService, qs: seq<Runs.Request>)
    requires store.Valid() && Ledger.Shortfall(store.State()) == 0
    modifies store
    ensures store.Valid() && store.State() == Runs.ServeAll(old(store.State()), qs)
    ensures store.daily + Sum(store.flows, Ledger.Self()) == Sum(store.payments, Amount())
  {
    ghost var before := store.State();
    for i := 0 to |qs|
      invariant store.Valid() && Ledger.Shortfall(store.State()) == 0
      invariant store.State() == Runs.ServeAll(before, qs[..i])
    {
      ServeAllPush(before, qs[..i], qs[i]);
      assert qs[..i + 1] == qs[..i] + [qs[i]];
      ServeRequest(store, qs[i]);
    }
    assert qs[..|qs|] == qs;
  }
}
