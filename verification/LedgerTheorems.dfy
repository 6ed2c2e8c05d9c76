/** What every ledger operation keeps, when it succeeds, and what one undoes. */
module LedgerTheorems {
  import opened Sequences
  import opened Records
  import opened Ledger

  // ---------------------------------------------------------------------
  // Histories and payment lists
  // ---------------------------------------------------------------------

  lemma EntriesPush(payments: seq<Payment>, p: Payment)
    ensures EntriesOf(payments + [p]) == EntriesOf(payments) + [EntryOf(p)]
  {
    assert (payments + [p])[..|payments|] == payments;
  }

  lemma EntriesConcat(s: seq<Payment>, t: seq<Payment>)
    ensures EntriesOf(s + t) == EntriesOf(s) + EntriesOf(t)
  {
  }

  /** Pulling dead ids from a student's exact history leaves the exact history of
      the surviving payments. */
  lemma {:induction false} PullCommutes(payments: seq<Payment>, s: StudentId, dead: set<nat>)
    ensures Filter(EntriesOf(Filter(payments, OwnedBy(s))), NotIn(dead))
         == EntriesOf(Filter(Filter(payments, Survives(dead)), OwnedBy(s)))
  {
    if payments != [] {
      var front, last := payments[..|payments| - 1], payments[|payments| - 1];
      PullCommutes(front, s, dead);
      if last.studentId == s {
        EntriesPush(Filter(front, OwnedBy(s)), last);
        FilterPush(EntriesOf(Filter(front, OwnedBy(s))), EntryOf(last), NotIn(dead));
      }
      if last.id !in dead {
        FilterPush(Filter(front, Survives(dead)), last, OwnedBy(s));
        if last.studentId == s {
          EntriesPush(Filter(Filter(front, Survives(dead)), OwnedBy(s)), last);
        }
      }
    }
  }

  lemma SameId(b: Books, p: Payment, q: Payment)
    requires WellFormed(b) && p in b.payments && q in b.payments && p.id == q.id
    ensures p == q
  {
    var i :| 0 <= i < |b.payments| && b.payments[i] == p;
    var j :| 0 <= j < |b.payments| && b.payments[j] == q;
    assert Id()(b.payments[i]) == Id()(b.payments[j]);
  }

  /** The ids of the selected payments are carried by no other payment. */
  lemma IdsSelect(b: Books, pick: Payment -> bool)
    requires WellFormed(b)
    ensures forall p | p in b.payments :: (p.id in Ids(Filter(b.payments, pick))) == pick(p)
  {
    var gone := Filter(b.payments, pick);
    FilterMembers(b.payments, pick);
    forall p | p in b.payments ensures (p.id in Ids(gone)) == pick(p) {
      if p.id in Ids(gone) {
        var q :| q in gone && q.id == p.id;
        SameId(b, p, q);
      }
    }
  }

  /** findById: at most one payment carries an id. */
  lemma {:induction false} OnlyOne(payments: seq<Payment>, id: nat)
    requires DistinctBy(payments, Id())
    ensures |Filter(payments, HasId(id))| <= 1
  {
    if payments != [] {
      var n := |payments| - 1;
      OnlyOne(payments[..n], id);
      if payments[n].id == id {
        forall p | p in payments[..n] ensures !HasId(id)(p) {
          var i :| 0 <= i < n && payments[i] == p;
          assert Id()(payments[i]) != Id()(payments[n]);
        }
        FilterNone(payments[..n], HasId(id));
      }
    }
  }

  // ---------------------------------------------------------------------
  // One created payment
  // ---------------------------------------------------------------------

  lemma PostKeepsSound(b: Books, p: Payment)
    requires Sound(b) && SchemaValid(p) && KeysFree(b.payments, p)
    requires p.id == b.nextId && p.studentId in b.students
    ensures Sound(Post(b, p))
  {
    DistinctConcat(b.payments, [p], Id());
    DistinctConcat(b.payments, [p], Slot());
    DistinctConcat(b.payments, [p], Invoice());
    var c := Post(b, p);
    forall q | q in c.payments ensures EntryOf(q) in c.students[q.studentId].history {
      if q in b.payments {
        assert EntryOf(q) in b.students[q.studentId].history;
      }
    }
  }

  lemma PostKeepsExact(b: Books, p: Payment)
    requires Exact(b) && p.studentId in b.students
    ensures Exact(Post(b, p))
  {
    var c := Post(b, p);
    forall s | s in c.students
      ensures c.students[s].history == EntriesOf(Filter(c.payments, OwnedBy(s)))
    {
      FilterPush(b.payments, p, OwnedBy(s));
      EntriesPush(Filter(b.payments, OwnedBy(s)), p);
    }
  }

  /** A commit keeps the invariants and the books' balance; whatever the ticket
      was read from, it either posts exactly one payment or changes nothing. */
  lemma CommitKeeps(b: Books, t: Ticket)
    requires Sound(b)
    ensures Sound(Commit(b, t).0)
    ensures Exact(b) ==> Exact(Commit(b, t).0)
    ensures Shortfall(Commit(b, t).0) == Shortfall(b)
    ensures Commit(b, t).1.Err? ==> Commit(b, t).0 == b
  {
    var p := Document(t, b.nextId);
    if Commit(b, t).1.Ok? {
      PostKeepsSound(b, p);
      if Exact(b) {
        PostKeepsExact(b, p);
      }
      SumPush(b.payments, p, Amount());
    }
  }

  /** A commit only moves versions forward, and the ticket's own student past the
      version that a regular ticket expected. */
  lemma CommitAdvances(b: Books, t: Ticket)
    ensures var (c, r) := Commit(b, t);
      && (forall s | s in b.students :: s in c.students && c.students[s].version >= b.students[s].version)
      && (r.Ok? ==> VersionMatches(b, t) && c.students[t.studentId].version == b.students[t.studentId].version + 1)
  {
  }

  lemma CreatePaymentKeeps(b: Books, studentId: StudentId, userId: string, clock: Clock, invoiceId: string)
    requires Sound(b)
    ensures var c := CreatePayment(b, studentId, userId, clock, invoiceId).0;
      Sound(c) && (Exact(b) ==> Exact(c)) && Shortfall(c) == Shortfall(b)
  {
    match ReadRegular(b, studentId, userId, clock, invoiceId)
    case Err(_) =>
    case Ok(t) => CommitKeeps(b, t);
  }

  lemma CreateOffBillCycleKeeps(b: Books, studentId: StudentId, payId: string, paymentType: string,
                                userId: string, clock: Clock, invoiceId: string)
    requires Sound(b)
    ensures var (c, r) := CreateOffBillCyclePayment(b, studentId, payId, paymentType, userId, clock, invoiceId);
      && Sound(c) && (Exact(b) ==> Exact(c)) && Shortfall(c) == Shortfall(b)
      && (r.Err? ==> c == b)
  {
    match ReadOffCycle(b, studentId, payId, paymentType, userId, clock, invoiceId)
    case Err(_) =>
    case Ok(t) => CommitKeeps(b, t);
  }

  // ---------------------------------------------------------------------
  // Deletion
  // ---------------------------------------------------------------------

  lemma RemoveShortfall(b: Books, pick: Payment -> bool)
    requires WellFormed(b)
    ensures Shortfall(Remove(b, Filter(b.payments, pick))) == Shortfall(b)
  {
    var gone := Filter(b.payments, pick);
    IdsSelect(b, pick);
    SumSplit(b.payments, Survives(Ids(gone)), pick, Amount());
  }

  lemma RemoveKeepsSound(b: Books, gone: seq<Payment>)
    requires Sound(b)
    ensures Sound(Remove(b, gone))
  {
    var dead, c := Ids(gone), Remove(b, gone);
    DistinctFilter(b.payments, Id(), Survives(dead));
    DistinctFilter(b.payments, Slot(), Survives(dead));
    DistinctFilter(b.payments, Invoice(), Survives(dead));
    FilterMembers(b.payments, Survives(dead));
    forall s, e | s in c.students && e in c.students[s].history ensures e.paymentId < c.nextId {
      FilterMembers(b.students[s].history, NotIn(dead));
    }
    forall q | q in c.payments ensures EntryOf(q) in c.students[q.studentId].history {
      FilterMembers(b.students[q.studentId].history, NotIn(dead));
      assert EntryOf(q) in b.students[q.studentId].history;
    }
  }

  lemma RemoveKeepsExact(b: Books, pick: Payment -> bool)
    requires WellFormed(b) && Exact(b)
    ensures Exact(Remove(b, Filter(b.payments, pick)))
  {
    var gone := Filter(b.payments, pick);
    var dead, c := Ids(gone), Remove(b, gone);
    forall s | s in c.students
      ensures c.students[s].history == EntriesOf(Filter(c.payments, OwnedBy(s)))
    {
      PullCommutes(b.payments, s, dead);
      if s !in Owners(gone) {
        BystanderHistory(b, pick, s);
      }
    }
  }

  /** A student none of whose payments is deleted has nothing to pull. */
  lemma BystanderHistory(b: Books, pick: Payment -> bool, s: StudentId)
    requires WellFormed(b) && Exact(b) && s in b.students
    requires s !in Owners(Filter(b.payments, pick))
    ensures Filter(b.students[s].history, NotIn(Ids(Filter(b.payments, pick)))) == b.students[s].history
  {
    var mine := Filter(b.payments, OwnedBy(s));
    FilterMembers(b.payments, OwnedBy(s));
    FilterMembers(b.payments, pick);
    IdsSelect(b, pick);
    forall e | e in b.students[s].history ensures NotIn(Ids(Filter(b.payments, pick)))(e) {
      var i :| 0 <= i < |mine| && EntriesOf(mine)[i] == e;
      assert mine[i] in mine && EntryOf(mine[i]) == e;
    }
    FilterAll(b.students[s].history, NotIn(Ids(Filter(b.payments, pick))));
  }

  lemma RemoveIsSafe(b: Books, pick: Payment -> bool)
    requires Sound(b)
    ensures var c := Remove(b, Filter(b.payments, pick));
      Sound(c) && (Exact(b) ==> Exact(c)) && Shortfall(c) == Shortfall(b)
  {
    RemoveKeepsSound(b, Filter(b.payments, pick));
    RemoveShortfall(b, pick);
    if Exact(b) {
      RemoveKeepsExact(b, pick);
    }
  }

  /** Removing the payments that a test picks keeps every invariant and the
      balance, drops exactly those payments and touches no version. */
  lemma RemoveKeeps(b: Books, pick: Payment -> bool)
    requires Sound(b)
    ensures var c := Remove(b, Filter(b.payments, pick));
      && Sound(c) && (Exact(b) ==> Exact(c)) && Shortfall(c) == Shortfall(b)
      && (forall p :: p in c.payments <==> p in b.payments && !pick(p))
      && c.students.Keys == b.students.Keys
      && (forall s | s in c.students :: c.students[s].version == b.students[s].version)
  {
    var gone := Filter(b.payments, pick);
    var c := Remove(b, gone);
    RemoveIsSafe(b, pick);
    assert forall p :: p in c.payments <==> p in b.payments && !pick(p) by {
      IdsSelect(b, pick);
      FilterMembers(b.payments, Survives(Ids(gone)));
    }
  }

  lemma FoundIff(payments: seq<Payment>, pick: Payment -> bool)
    ensures Filter(payments, pick) != [] <==> exists p | p in payments :: pick(p)
  {
    FilterMembers(payments, pick);
    var found := Filter(payments, pick);
    if found != [] {
      assert found[0] in found;
    }
  }

  /** deletePayment throws exactly for an unknown id; otherwise it removes that
      payment alone and keeps the invariants, exactness and the balance. */
  lemma DeletePaymentKeeps(b: Books, id: nat)
    requires Sound(b)
    ensures var (c, r) := DeletePayment(b, id);
      && Sound(c) && (Exact(b) ==> Exact(c)) && Shortfall(c) == Shortfall(b)
      && (r.Err? ==> c == b)
      && (r.Ok? <==> exists p | p in b.payments :: p.id == id)
      && (forall p :: p in c.payments <==> p in b.payments && p.id != id)
      && (forall s | s in c.students :: s in b.students && c.students[s].version == b.students[s].version)
  {
    var found := Filter(b.payments, HasId(id));
    OnlyOne(b.payments, id);
    FoundIff(b.payments, HasId(id));
    assert forall p :: HasId(id)(p) <==> p.id == id;
    if found != [] {
      assert [found[0]] == found;
      RemoveKeeps(b, HasId(id));
    }
  }

  /** deleteMultiplePayments throws exactly when no listed student has a payment
      of the month; otherwise it removes all of those and nothing else. */
  lemma DeleteMultipleKeeps(b: Books, ids: seq<StudentId>, payId: string)
    requires Sound(b)
    ensures var (c, r) := DeleteMultiplePayments(b, ids, payId);
      && Sound(c) && (Exact(b) ==> Exact(c)) && Shortfall(c) == Shortfall(b)
      && (r.Err? ==> c == b)
      && (r.Ok? <==> exists p | p in b.payments :: p.studentId in ids && p.payId == payId)
      && (forall p :: p in c.payments <==> p in b.payments && !(p.studentId in ids && p.payId == payId))
      && (forall s | s in c.students :: s in b.students && c.students[s].version == b.students[s].version)
  {
    var pick := ForMonth(ids, payId);
    FoundIff(b.payments, pick);
    assert forall p :: pick(p) <==> p.studentId in ids && p.payId == payId;
    if Filter(b.payments, pick) != [] {
      RemoveKeeps(b, pick);
    }
  }

  // ---------------------------------------------------------------------
  // The batch insert
  // ---------------------------------------------------------------------

  lemma BatchDistinct(payments: seq<Payment>, docs: seq<Payment>)
    requires DistinctBy(payments, Slot()) && DistinctBy(payments, Invoice())
    requires AllKeysFree(payments, docs)
    ensures DistinctBy(payments + docs, Slot()) && DistinctBy(payments + docs, Invoice())
  {
    var all := payments + docs;
    forall i, j | 0 <= i < j < |all|
      ensures Slot()(all[i]) != Slot()(all[j]) && Invoice()(all[i]) != Invoice()(all[j])
    {
      if j >= |payments| {
        var k := j - |payments|;
        assert KeysFree(payments + docs[..k], docs[k]);
        assert all[i] == (payments + docs[..k])[i];
      } else {
        assert Slot()(payments[i]) != Slot()(payments[j]) && Invoice()(payments[i]) != Invoice()(payments[j]);
      }
    }
  }

  /** What a successful batch has inserted: one payment of the month, with a new
      id, for each listed student, none of whom had one or is listed twice. */
  ghost predicate Batch(b: Books, ids: seq<StudentId>, payId: string, docs: seq<Payment>) {
    |docs| == |ids| && payId != "" &&
    (forall i, j | 0 <= i < j < |ids| :: ids[i] != ids[j]) &&
    (forall p | p in b.payments && p.payId == payId :: p.studentId !in ids) &&
    (forall i | 0 <= i < |docs| ::
       docs[i].id == b.nextId + i && docs[i].studentId == ids[i] && ids[i] in b.students &&
       docs[i].payId == payId)
  }

  lemma BatchOutcome(b: Books, ids: seq<StudentId>, userId: string, clock: Clock, invoice: nat -> string,
                     docs: seq<Payment>)
    requires ids != [] && !PaidSince(b.payments, ids, clock.midnight)
    requires forall s | s in ids :: s in b.students
    requires docs == BatchDocuments(b, ids, userId, clock, invoice)
    requires (forall p | p in docs :: SchemaValid(p)) && AllKeysFree(b.payments, docs)
    ensures CommitMultiInsert(b, ids, userId, clock, invoice) == (PostBatch(b, ids, docs), Ok(docs))
  {
  }

  lemma DocumentsAreBatch(b: Books, ids: seq<StudentId>, userId: string, clock: Clock, invoice: nat -> string)
    requires forall s | s in ids :: s in b.students
    requires ids != [] && forall p | p in BatchDocuments(b, ids, userId, clock, invoice) :: SchemaValid(p)
    requires AllKeysFree(b.payments, BatchDocuments(b, ids, userId, clock, invoice))
    ensures Batch(b, ids, clock.payId, BatchDocuments(b, ids, userId, clock, invoice))
  {
    var docs := BatchDocuments(b, ids, userId, clock, invoice);
    BatchKeysFreeIff(b.payments, docs, ids, clock.payId, invoice);
    assert docs[0] in docs;
  }

  lemma CommittedBatch(b: Books, ids: seq<StudentId>, userId: string, clock: Clock, invoice: nat -> string)
    requires CommitMultiInsert(b, ids, userId, clock, invoice).1.Ok?
    ensures var (c, r) := CommitMultiInsert(b, ids, userId, clock, invoice);
      && Batch(b, ids, clock.payId, r.value) && AllKeysFree(b.payments, r.value)
      && c == PostBatch(b, ids, r.value) && ids != []
  {
    DocumentsAreBatch(b, ids, userId, clock, invoice);
  }

  lemma BatchKeepsSound(b: Books, ids: seq<StudentId>, payId: string, docs: seq<Payment>)
    requires Sound(b) && Batch(b, ids, payId, docs) && AllKeysFree(b.payments, docs)
    ensures Sound(PostBatch(b, ids, docs))
  {
    var c := PostBatch(b, ids, docs);
    assert DistinctBy(c.payments, Slot()) && DistinctBy(c.payments, Invoice()) by {
      BatchDistinct(b.payments, docs);
    }
    assert DistinctBy(c.payments, Id()) by {
      DistinctConcat(b.payments, docs, Id());
    }
    BatchHistories(b, ids, payId, docs);
  }

  lemma BatchHistories(b: Books, ids: seq<StudentId>, payId: string, docs: seq<Payment>)
    requires Sound(b) && Batch(b, ids, payId, docs)
    ensures var c := PostBatch(b, ids, docs);
      && Covered(c)
      && (forall p | p in c.payments :: p.id < c.nextId && p.studentId in c.students && p.payId != "")
      && (forall s, e | s in c.students && e in c.students[s].history :: e.paymentId < c.nextId)
  {
    var c := PostBatch(b, ids, docs);
    forall s, e | s in c.students && e in c.students[s].history ensures e.paymentId < c.nextId {
      if e !in b.students[s].history {
        var i :| 0 <= i < |docs| && EntriesOf(docs)[i] == e;
      }
    }
    forall q | q in c.payments ensures EntryOf(q) in c.students[q.studentId].history {
      if q in b.payments {
        assert EntryOf(q) in b.students[q.studentId].history;
      } else {
        var i :| 0 <= i < |docs| && docs[i] == q;
        assert ids[i] in ids && EntriesOf(docs)[i] == EntryOf(q);
      }
    }
  }

  /** commitMultiInsert keeps the ledger's invariants and balance, and a throw
      changes nothing. */
  lemma CommitMultiInsertKeeps(b: Books, ids: seq<StudentId>, userId: string, clock: Clock, invoice: nat -> string)
    requires Sound(b)
    ensures var (c, r) := CommitMultiInsert(b, ids, userId, clock, invoice);
      Sound(c) && Shortfall(c) == Shortfall(b) && (r.Err? ==> c == b)
  {
    var (c, r) := CommitMultiInsert(b, ids, userId, clock, invoice);
    if r.Ok? {
      CommittedBatch(b, ids, userId, clock, invoice);
      BatchKeepsSound(b, ids, clock.payId, r.value);
      SumConcat(b.payments, r.value, Amount());
    }
  }

  /** A batch that passes every test of the method is the method's outcome. */
  lemma PassedBatchKeeps(b: Books, ids: seq<StudentId>, userId: string, clock: Clock, invoice: nat -> string,
                         docs: seq<Payment>, c: Books)
    requires Sound(b) && ids != [] && !PaidSince(b.payments, ids, clock.midnight)
    requires forall s | s in ids :: s in b.students
    requires docs == BatchDocuments(b, ids, userId, clock, invoice) && c == PostBatch(b, ids, docs)
    requires (forall p | p in docs :: SchemaValid(p)) && AllKeysFree(b.payments, docs)
    ensures CommitMultiInsert(b, ids, userId, clock, invoice) == (c, Ok(docs))
    ensures Sound(c) && Shortfall(c) == Shortfall(b)
  {
    BatchOutcome(b, ids, userId, clock, invoice, docs);
    CommitMultiInsertKeeps(b, ids, userId, clock, invoice);
  }

  /** In the state after a batch, the month's payments of the listed students are
      the batch, and the payments with other ids are those from before. */
  lemma BatchIsFound(b: Books, ids: seq<StudentId>, payId: string, docs: seq<Payment>)
    requires WellFormed(b) && Batch(b, ids, payId, docs)
    ensures Filter(b.payments + docs, ForMonth(ids, payId)) == docs
    ensures Filter(b.payments + docs, Survives(Ids(docs))) == b.payments
  {
    var pick := ForMonth(ids, payId);
    FilterConcat(b.payments, docs, pick);
    FilterNone(b.payments, pick);
    forall p | p in docs ensures pick(p) {
      var i :| 0 <= i < |docs| && docs[i] == p;
      assert ids[i] in ids;
    }
    FilterAll(docs, pick);
    var dead := Ids(docs);
    assert forall k | k in dead :: k >= b.nextId;
    FilterConcat(b.payments, docs, Survives(dead));
    FilterAll(b.payments, Survives(dead));
    FilterNone(docs, Survives(dead));
  }

  /** Deleting the same students' payments of the same month undoes a batch
      insert: payments, every history and the counter are as they were, although
      the batch put every new payment into every listed history. */
  lemma MultiInsertThenDelete(b: Books, ids: seq<StudentId>, userId: string, clock: Clock, invoice: nat -> string)
    requires Sound(b) && CommitMultiInsert(b, ids, userId, clock, invoice).1.Ok?
    ensures var c := CommitMultiInsert(b, ids, userId, clock, invoice).0;
      DeleteMultiplePayments(c, ids, clock.payId) == (b.(nextId := c.nextId), Ok(()))
  {
    CommittedBatch(b, ids, userId, clock, invoice);
    var (c, r) := CommitMultiInsert(b, ids, userId, clock, invoice);
    DeleteUndoesPostBatch(b, c, ids, clock.payId, r.value);
  }

  lemma DeleteUndoesPostBatch(b: Books, c: Books, ids: seq<StudentId>, payId: string, docs: seq<Payment>)
    requires WellFormed(b) && Batch(b, ids, payId, docs) && ids != [] && c == PostBatch(b, ids, docs)
    ensures DeleteMultiplePayments(c, ids, payId) == (b.(nextId := c.nextId), Ok(()))
  {
    BatchIsFound(b, ids, payId, docs);
    PullUndoesPush(b, ids, payId, docs);
    DeleteGives(b, c, ids, payId, docs, Sum(docs, Amount()));
  }

  lemma DeleteGives(b: Books, c: Books, ids: seq<StudentId>, payId: string, found: seq<Payment>, total: int)
    requires found == Filter(c.payments, ForMonth(ids, payId)) && found != []
    requires b.payments == Filter(c.payments, Survives(Ids(found)))
    requires b.students == PullAll(c.students, Owners(found), Ids(found))
    requires total == Sum(found, Amount()) && c.daily == b.daily + total && c.flows == b.flows
    ensures DeleteMultiplePayments(c, ids, payId) == (b.(nextId := c.nextId), Ok(()))
  {
    assert Remove(c, found) == Books(b.payments, b.students, c.daily - total, c.flows, c.nextId);
  }

  lemma PulledHistory(h: seq<Entry>, docs: seq<Payment>)
    requires forall e | e in h :: e.paymentId !in Ids(docs)
    ensures Filter(h + EntriesOf(docs), NotIn(Ids(docs))) == h
  {
    var dead, entries := Ids(docs), EntriesOf(docs);
    FilterConcat(h, entries, NotIn(dead));
    FilterAll(h, NotIn(dead));
    forall e | e in entries ensures !NotIn(dead)(e) {
      var i :| 0 <= i < |docs| && entries[i] == e;
      assert docs[i] in docs;
    }
    FilterNone(entries, NotIn(dead));
  }

  lemma BatchOwners(b: Books, ids: seq<StudentId>, payId: string, docs: seq<Payment>)
    requires Batch(b, ids, payId, docs)
    ensures forall s :: s in Owners(docs) <==> s in ids
    ensures forall k | k in Ids(docs) :: k >= b.nextId
  {
    forall s | s in ids ensures s in Owners(docs) {
      var i :| 0 <= i < |ids| && ids[i] == s;
      assert docs[i] in docs;
    }
  }

  lemma PullUndoesPush(b: Books, ids: seq<StudentId>, payId: string, docs: seq<Payment>)
    requires WellFormed(b) && Batch(b, ids, payId, docs)
    ensures PullAll(PushAll(b.students, ids, EntriesOf(docs)), Owners(docs), Ids(docs)) == b.students
  {
    BatchOwners(b, ids, payId, docs);
    var pushed := PushAll(b.students, ids, EntriesOf(docs));
    var pulled := PullAll(pushed, Owners(docs), Ids(docs));
    forall s | s in b.students ensures pulled[s] == b.students[s] {
      PulledHistory(b.students[s].history, docs);
    }
  }

  /** The payments of one student within the batch. */
  lemma OwnInBatch(b: Books, ids: seq<StudentId>, payId: string, docs: seq<Payment>, s: StudentId)
    requires Batch(b, ids, payId, docs)
    ensures s in ids ==> |Filter(docs, OwnedBy(s))| == 1
    ensures s !in ids ==> Filter(docs, OwnedBy(s)) == []
  {
    if s in ids {
      var i :| 0 <= i < |ids| && ids[i] == s;
      FilterOne(docs, i, OwnedBy(s));
    } else {
      FilterNone(docs, OwnedBy(s));
    }
  }

  lemma BatchOwnEntries(b: Books, docs: seq<Payment>, s: StudentId)
    requires Exact(b) && s in b.students
    ensures EntriesOf(Filter(b.payments + docs, OwnedBy(s)))
         == b.students[s].history + EntriesOf(Filter(docs, OwnedBy(s)))
  {
    FilterConcat(b.payments, docs, OwnedBy(s));
    EntriesConcat(Filter(b.payments, OwnedBy(s)), Filter(docs, OwnedBy(s)));
  }

  lemma SingleBatchIsExact(b: Books, ids: seq<StudentId>, payId: string, docs: seq<Payment>)
    requires Exact(b) && Batch(b, ids, payId, docs) && |ids| == 1
    ensures Exact(PostBatch(b, ids, docs))
  {
    var c := PostBatch(b, ids, docs);
    forall s | s in c.students ensures c.students[s].history == EntriesOf(Filter(c.payments, OwnedBy(s))) {
      BatchOwnEntries(b, docs, s);
      OwnInBatch(b, ids, payId, docs, s);
      if s in ids {
        FilterAll(docs, OwnedBy(s));
      }
    }
  }

  lemma LargerBatchIsNotExact(b: Books, ids: seq<StudentId>, payId: string, docs: seq<Payment>)
    requires Exact(b) && Batch(b, ids, payId, docs) && |ids| > 1
    ensures !Exact(PostBatch(b, ids, docs))
  {
    var c, s := PostBatch(b, ids, docs), ids[0];
    assert s in ids && s in c.students;
    BatchOwnEntries(b, docs, s);
    OwnInBatch(b, ids, payId, docs, s);
    assert |c.students[s].history| == |b.students[s].history| + |docs|;
  }

  /** A batch keeps the histories exact if and only if it lists a single student:
      with two or more, each of them also receives the others' payments. */
  lemma MultiInsertExactIff(b: Books, ids: seq<StudentId>, userId: string, clock: Clock, invoice: nat -> string)
    requires Sound(b) && Exact(b) && CommitMultiInsert(b, ids, userId, clock, invoice).1.Ok?
    ensures Exact(CommitMultiInsert(b, ids, userId, clock, invoice).0) <==> |ids| == 1
  {
    CommittedBatch(b, ids, userId, clock, invoice);
    var docs := CommitMultiInsert(b, ids, userId, clock, invoice).1.value;
    if |ids| == 1 {
      SingleBatchIsExact(b, ids, clock.payId, docs);
    } else {
      LargerBatchIsNotExact(b, ids, clock.payId, docs);
    }
  }

  /** The data that a payment of the student needs. */
  ghost predicate Complete(s: Student, userId: string, payId: string) {
    s.classId != "" && s.className != "" && s.section != "" && userId != "" && payId != ""
  }

  /** What the callers of a batch have to provide for it to go through. */
  ghost predicate Insertable(b: Books, ids: seq<StudentId>, userId: string, clock: Clock, invoice: nat -> string) {
    && ids != []
    && (forall s | s in ids :: s in b.students)
    && (forall i, j | 0 <= i < j < |ids| :: ids[i] != ids[j] && invoice(i) != invoice(j))
    && (forall s | s in ids && s in b.students :: Complete(b.students[s], userId, clock.payId))
    && (forall p | p in b.payments && p.studentId in ids ::
          p.paymentDate < clock.midnight && p.payId != clock.payId)
    && (forall p, i | p in b.payments && 0 <= i < |ids| :: p.invoiceId != invoice(i))
  }

  /** commitMultiInsert succeeds exactly for a non-empty list of distinct known
      students, none of whom has paid today or for this month, with complete
      data and fresh distinct invoice ids. */
  lemma CommitMultiInsertSucceedsIff(b: Books, ids: seq<StudentId>, userId: string, clock: Clock,
                                     invoice: nat -> string)
    ensures CommitMultiInsert(b, ids, userId, clock, invoice).1.Ok? <==> Insertable(b, ids, userId, clock, invoice)
  {
    if ids != [] && forall s | s in ids :: s in b.students {
      var docs := BatchDocuments(b, ids, userId, clock, invoice);
      assert AllKeysFree(b.payments, docs) <==> BatchKeys(b.payments, ids, clock.payId, invoice) by {
        BatchKeysFreeIff(b.payments, docs, ids, clock.payId, invoice);
      }
      BatchValidIff(b, ids, userId, clock, invoice);
    }
  }

  lemma BatchValidIff(b: Books, ids: seq<StudentId>, userId: string, clock: Clock, invoice: nat -> string)
    requires forall s | s in ids :: s in b.students
    ensures (forall p | p in BatchDocuments(b, ids, userId, clock, invoice) :: SchemaValid(p))
       <==> (forall s | s in ids && s in b.students :: Complete(b.students[s], userId, clock.payId))
  {
    var docs := BatchDocuments(b, ids, userId, clock, invoice);
    if forall s | s in ids && s in b.students :: Complete(b.students[s], userId, clock.payId) {
      forall p | p in docs ensures SchemaValid(p) {
        var i :| 0 <= i < |docs| && docs[i] == p;
        assert ids[i] in ids;
      }
    }
    if forall p | p in docs :: SchemaValid(p) {
      forall s | s in ids ensures Complete(b.students[s], userId, clock.payId) {
        var i :| 0 <= i < |ids| && ids[i] == s;
        assert docs[i] in docs;
      }
    }
  }

  /** What the two unique indexes ask of the documents of a batch. */
  ghost predicate BatchKeys(payments: seq<Payment>, ids: seq<StudentId>, payId: string, invoice: nat -> string) {
    && (forall i, j | 0 <= i < j < |ids| :: ids[i] != ids[j] && invoice(i) != invoice(j))
    && (forall p | p in payments && p.studentId in ids :: p.payId != payId)
    && (forall p, i | p in payments && 0 <= i < |ids| :: p.invoiceId != invoice(i))
  }

  ghost predicate Documents(docs: seq<Payment>, ids: seq<StudentId>, payId: string, invoice: nat -> string) {
    |docs| == |ids| && forall i | 0 <= i < |docs| ::
      docs[i].studentId == ids[i] && docs[i].payId == payId && docs[i].invoiceId == invoice(i)
  }

  lemma FreeKeysAreBatchKeys(payments: seq<Payment>, docs: seq<Payment>, ids: seq<StudentId>, payId: string,
                             invoice: nat -> string)
    requires Documents(docs, ids, payId, invoice) && AllKeysFree(payments, docs)
    ensures BatchKeys(payments, ids, payId, invoice)
  {
    forall i, j | 0 <= i < j < |ids| ensures ids[i] != ids[j] && invoice(i) != invoice(j) {
      assert KeysFree(payments + docs[..j], docs[j]);
      assert docs[i] == (payments + docs[..j])[|payments| + i];
    }
    forall p, i | p in payments && 0 <= i < |ids|
      ensures p.invoiceId != invoice(i) && (p.studentId == ids[i] ==> p.payId != payId)
    {
      assert KeysFree(payments + docs[..i], docs[i]);
      assert p in payments + docs[..i];
    }
  }

  lemma BatchKeysAreFree(payments: seq<Payment>, docs: seq<Payment>, ids: seq<StudentId>, payId: string,
                         invoice: nat -> string)
    requires Documents(docs, ids, payId, invoice) && BatchKeys(payments, ids, payId, invoice)
    ensures AllKeysFree(payments, docs)
  {
    forall j | 0 <= j < |docs| ensures KeysFree(payments + docs[..j], docs[j]) {
      assert ids[j] in ids;
    }
  }

  lemma BatchKeysFreeIff(payments: seq<Payment>, docs: seq<Payment>, ids: seq<StudentId>, payId: string,
                         invoice: nat -> string)
    requires Documents(docs, ids, payId, invoice)
    ensures AllKeysFree(payments, docs) <==> BatchKeys(payments, ids, payId, invoice)
  {
    if AllKeysFree(payments, docs) {
      FreeKeysAreBatchKeys(payments, docs, ids, payId, invoice);
    } else if BatchKeys(payments, ids, payId, invoice) {
      BatchKeysAreFree(payments, docs, ids, payId, invoice);
    }
  }

  // ---------------------------------------------------------------------
  // The batch insert in two steps
  // ---------------------------------------------------------------------

  lemma FreshTicket(b: Books, ids: seq<StudentId>, t: BatchTicket)
    requires forall s | s in ids :: s in b.students
    requires |t.picks| == |ids| && forall i | 0 <= i < |ids| :: t.picks[i] == Pick(ids[i], b.students[ids[i]])
    ensures IdsOf(t) == ids
    ensures TicketDocuments(t, b.nextId) == BatchDocuments(b, ids, t.userId, t.clock, t.invoice)
  {
  }

  lemma CommitFresh(b: Books, ids: seq<StudentId>, t: BatchTicket)
    requires ids != [] && !PaidSince(b.payments, ids, t.clock.midnight) && forall s | s in ids :: s in b.students
    requires IdsOf(t) == ids && TicketDocuments(t, b.nextId) == BatchDocuments(b, ids, t.userId, t.clock, t.invoice)
    ensures CommitBatch(b, t) == CommitMultiInsert(b, ids, t.userId, t.clock, t.invoice)
  {
  }

  /** Committed at once, what was read is the batch insert. */
  lemma ReadThenCommitBatch(b: Books, ids: seq<StudentId>, userId: string, clock: Clock, invoice: nat -> string)
    ensures CommitMultiInsert(b, ids, userId, clock, invoice) ==
      match ReadBatch(b, ids, userId, clock, invoice)
      case Err(e) => (b, Err(e))
      case Ok(t) => CommitBatch(b, t)
  {
    var r := ReadBatch(b, ids, userId, clock, invoice);
    if r.Ok? {
      FreshTicket(b, ids, r.value);
      CommitFresh(b, ids, r.value);
    }
  }

  ghost predicate PicksKnown(b: Books, t: BatchTicket) {
    forall i | 0 <= i < |t.picks| :: t.picks[i].studentId in b.students
  }

  lemma TicketShape(t: BatchTicket, firstId: nat)
    ensures Documents(TicketDocuments(t, firstId), IdsOf(t), t.clock.payId, t.invoice)
    ensures forall i | 0 <= i < |t.picks| :: TicketDocuments(t, firstId)[i].id == firstId + i
  {
  }

  lemma KeyedIsBatch(b: Books, ids: seq<StudentId>, payId: string, docs: seq<Payment>, invoice: nat -> string)
    requires Documents(docs, ids, payId, invoice) && BatchKeys(b.payments, ids, payId, invoice) && payId != ""
    requires forall i | 0 <= i < |docs| :: docs[i].id == b.nextId + i && ids[i] in b.students
    ensures Batch(b, ids, payId, docs)
  {
  }

  lemma TicketIsBatch(b: Books, t: BatchTicket, docs: seq<Payment>)
    requires PicksKnown(b, t) && t.picks != [] && docs == TicketDocuments(t, b.nextId)
    requires (forall p | p in docs :: SchemaValid(p)) && AllKeysFree(b.payments, docs)
    ensures Batch(b, IdsOf(t), t.clock.payId, docs)
  {
    TicketShape(t, b.nextId);
    FreeKeysAreBatchKeys(b.payments, docs, IdsOf(t), t.clock.payId, t.invoice);
    assert docs[0] in docs;
    KeyedIsBatch(b, IdsOf(t), t.clock.payId, docs, t.invoice);
  }

  lemma PostBatchShortfall(b: Books, ids: seq<StudentId>, docs: seq<Payment>)
    ensures Shortfall(PostBatch(b, ids, docs)) == Shortfall(b)
  {
    SumConcat(b.payments, docs, Amount());
  }

  lemma TicketKeepsSound(b: Books, t: BatchTicket, docs: seq<Payment>)
    requires Sound(b) && PicksKnown(b, t) && docs == TicketDocuments(t, b.nextId)
    requires (forall p | p in docs :: SchemaValid(p)) && AllKeysFree(b.payments, docs)
    ensures Sound(PostBatch(b, IdsOf(t), docs))
  {
    if t.picks == [] {
      NothingPosted(b, docs);
    } else {
      TicketIsBatch(b, t, docs);
      BatchKeepsSound(b, IdsOf(t), t.clock.payId, docs);
    }
  }

  /** A batch commits without harm whatever has happened since it was read, and
      however its students have changed. */
  lemma CommitBatchKeeps(b: Books, t: BatchTicket)
    requires Sound(b) && PicksKnown(b, t)
    ensures var (c, r) := CommitBatch(b, t);
      && Sound(c) && Shortfall(c) == Shortfall(b) && (r.Err? ==> c == b)
      && c.students.Keys == b.students.Keys
      && forall s | s in b.students :: c.students[s].version == b.students[s].version
  {
    var (c, r) := CommitBatch(b, t);
    if r.Ok? {
      TicketKeepsSound(b, t, r.value);
      PostBatchShortfall(b, IdsOf(t), r.value);
    }
  }

  lemma NothingPosted(b: Books, docs: seq<Payment>)
    requires docs == []
    ensures PostBatch(b, [], docs) == b
  {
    assert EntriesOf([]) == [];
    assert b.payments + docs == b.payments;
  }
}
