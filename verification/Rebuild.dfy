/** The recovery script: clears every payment history in batches, groups all
    payments by student in createdAt order, and writes the groups back in batches. */
module Rebuild {
  import opened Sequences
  import opened Records
  import Ledger
  import PS = PaymentService

  const BATCH_SIZE := 100

  datatype Summary = Summary(totalPayments: nat, totalStudentsProcessed: nat, successfulUpdates: nat, errorCount: nat)

  /** The payments that the grouping loop takes. */
  function HasPayId(): Payment -> bool {
    (p: Payment) => p.payId != ""
  }

  function StudentOf(): Payment -> StudentId {
    (p: Payment) => p.studentId
  }

  function Entries(): Payment -> Entry {
    (p: Payment) => EntryOf(p)
  }

  function Group(cursor: seq<Payment>, s: StudentId): seq<Entry> {
    Map(Filter(Filter(cursor, HasPayId()), KeyIs(StudentOf(), s)), Entries())
  }

  function Unset(students: map<StudentId, Student>, ids: seq<StudentId>): map<StudentId, Student> {
    map s | s in students :: if s in ids then students[s].(history := []) else students[s]
  }

  lemma UnsetInTurn(students: map<StudentId, Student>, ids: seq<StudentId>, more: seq<StudentId>)
    ensures Unset(Unset(students, ids), more) == Unset(students, ids + more)
  {
  }

  function Groups(cursor: seq<Payment>): StudentId -> seq<Entry> {
    (s: StudentId) => Group(cursor, s)
  }

  /** The students once the update loop has gone through `done`; an update of a
      student in `faulty` throws. */
  function Written(cleared: map<StudentId, Student>, group: StudentId -> seq<Entry>, done: seq<StudentId>,
                   faulty: set<StudentId>): map<StudentId, Student>
  {
    map s | s in cleared ::
      if s in done && s !in faulty then cleared[s].(history := group(s)) else cleared[s]
  }

  /** The outcome: each student's history is his own group, or empty. */
  function Rebuilt(students: map<StudentId, Student>, cursor: seq<Payment>, faulty: set<StudentId>)
    : map<StudentId, Student>
  {
    map s | s in students ::
      students[s].(history := if s in faulty then [] else Group(cursor, s))
  }

  predicate SortedByCreation(s: seq<Payment>) {
    forall i, j | 0 <= i < j < |s| :: s[i].createdAt <= s[j].createdAt
  }

  function GroupedStudents(cursor: seq<Payment>): set<StudentId> {
    set p | p in cursor && p.payId != "" :: p.studentId
  }

  // ---------------------------------------------------------------------
  // The three stages
  // ---------------------------------------------------------------------

  method ClearHistories(students: map<StudentId, Student>, studentCursor: seq<StudentId>)
    returns (cleared: map<StudentId, Student>)
    requires Enumerates(studentCursor, students.Keys)
    ensures cleared == Emptied(students)
  {
    cleared := students;
    var studentBatch: seq<StudentId> := [];
    ghost var flushed: seq<StudentId> := [];
    for i := 0 to |studentCursor|
      invariant |studentBatch| < BATCH_SIZE
      invariant flushed + studentBatch == studentCursor[..i]
      invariant cleared == Unset(students, flushed)
    {
      studentBatch := studentBatch + [studentCursor[i]];
      assert flushed + studentBatch == studentCursor[..i + 1];
      if |studentBatch| == BATCH_SIZE {
        UnsetInTurn(students, flushed, studentBatch);
        cleared := Unset(cleared, studentBatch);
        flushed, studentBatch := flushed + studentBatch, [];
      }
    }
    if |studentBatch| > 0 {
      UnsetInTurn(students, flushed, studentBatch);
      cleared := Unset(cleared, studentBatch);
      flushed := flushed + studentBatch;
    }
    assert flushed == studentCursor[..|studentCursor|] == studentCursor;
    UnsetAll(students, studentCursor);
  }

  lemma UnsetAll(students: map<StudentId, Student>, ids: seq<StudentId>)
    requires Enumerates(ids, students.Keys)
    ensures Unset(students, ids) == Emptied(students)
  {
    forall s | s in students ensures s in ids {
      assert s in (set x | x in ids);
    }
  }

  ghost predicate Grouped(groups: map<StudentId, seq<Entry>>, order: seq<StudentId>, cursor: seq<Payment>) {
    Enumerates(order, groups.Keys) && GroupedBy(groups, Filter(cursor, HasPayId()), StudentOf(), Entries())
  }

  /** `order` is the insertion order of the groups, as a JavaScript Map keeps it. */
  method GroupPayments(cursor: seq<Payment>) returns (groups: map<StudentId, seq<Entry>>, order: seq<StudentId>)
    ensures Grouped(groups, order, cursor)
  {
    groups, order := map[], [];
    for i := 0 to |cursor|
      invariant Grouped(groups, order, cursor[..i])
    {
      var payment := cursor[i];
      assert cursor[..i + 1] == cursor[..i] + [payment];
      FilterPush(cursor[..i], payment, HasPayId());
      if payment.payId != "" {
        var studentId := payment.studentId;
        var found := if studentId in groups then groups[studentId] else [];
        GroupTurn(groups, order, Filter(cursor[..i], HasPayId()), StudentOf(), Entries(), payment, found);
        order := if studentId in groups then order else order + [studentId];
        groups := groups[studentId := found + [Entry(payment.id, payment.payId)]];
      }
    }
    assert cursor[..|cursor|] == cursor;
  }

  lemma GroupsAreOfStudents(groups: map<StudentId, seq<Entry>>, order: seq<StudentId>, cursor: seq<Payment>)
    requires Grouped(groups, order, cursor)
    ensures groups.Keys == GroupedStudents(cursor) == set s | s in order
    ensures forall s | s !in groups :: Group(cursor, s) == []
  {
    FilterMembers(cursor, HasPayId());
    forall s | s !in groups ensures Group(cursor, s) == [] {
      NoneOfKey(Filter(cursor, HasPayId()), StudentOf(), s);
    }
  }

  function Reached(order: seq<StudentId>, known: set<StudentId>, faulty: set<StudentId>): set<StudentId> {
    set s | s in order && s in known && s !in faulty
  }

  ghost predicate Lists(groups: map<StudentId, seq<Entry>>, order: seq<StudentId>, group: StudentId -> seq<Entry>) {
    Enumerates(order, groups.Keys) && forall s | s in groups :: groups[s] == group(s)
  }

  /** The update of one student; `ok` tells whether it counts as a success. */
  method WriteGroup(cleared: map<StudentId, Student>, groups: map<StudentId, seq<Entry>>, order: seq<StudentId>,
                    faulty: set<StudentId>, ghost group: StudentId -> seq<Entry>, k: nat,
                    tx: map<StudentId, Student>)
    returns (written: map<StudentId, Student>, ok: bool)
    requires Lists(groups, order, group) && k < |order|
    requires tx == Written(cleared, group, order[..k], faulty)
    ensures written == Written(cleared, group, order[..k + 1], faulty)
    ensures ok == (order[k] in cleared && order[k] !in faulty)
  {
    var studentId := order[k];
    assert studentId in (set s | s in order);
    WrittenStep(cleared, group, order, k, faulty);
    written, ok := tx, false;
    if studentId !in faulty && studentId in tx {
      written, ok := tx[studentId := tx[studentId].(history := groups[studentId])], true;
    }
  }

  /** One batch of updates, students `from` to `end` of the order. */
  method WriteBatch(cleared: map<StudentId, Student>, groups: map<StudentId, seq<Entry>>, order: seq<StudentId>,
                    faulty: set<StudentId>, ghost group: StudentId -> seq<Entry>, from: nat, end: nat,
                    tx: map<StudentId, Student>)
    returns (written: map<StudentId, Student>, successes: nat, errors: nat)
    requires Lists(groups, order, group) && from <= end <= |order|
    requires tx == Written(cleared, group, order[..from], faulty)
    ensures written == Written(cleared, group, order[..end], faulty)
    ensures successes + errors == end - from
    ensures successes + |Reached(order[..from], cleared.Keys, faulty)|
         == |Reached(order[..end], cleared.Keys, faulty)|
  {
    written, successes, errors := tx, 0, 0;
    for k := from to end
      invariant written == Written(cleared, group, order[..k], faulty)
      invariant successes + errors == k - from
      invariant successes + |Reached(order[..from], cleared.Keys, faulty)|
             == |Reached(order[..k], cleared.Keys, faulty)|
    {
      var ok;
      written, ok := WriteGroup(cleared, groups, order, faulty, group, k, written);
      CountStep(order, k, cleared.Keys, faulty);
      if ok {
        successes := successes + 1;
      } else {
        errors := errors + 1;
      }
    }
  }

  method WriteGroups(cleared: map<StudentId, Student>, groups: map<StudentId, seq<Entry>>, order: seq<StudentId>,
                     faulty: set<StudentId>, ghost group: StudentId -> seq<Entry>)
    returns (written: map<StudentId, Student>, successCount: nat, errorCount: nat)
    requires Lists(groups, order, group)
    ensures written == Written(cleared, group, order, faulty)
    ensures successCount + errorCount == |order|
    ensures successCount == |Reached(order, cleared.Keys, faulty)|
  {
    written, successCount, errorCount := cleared, 0, 0;
    var i := 0;
    while i < |order|
      invariant 0 <= i <= |order|
      invariant written == Written(cleared, group, order[..i], faulty)
      invariant successCount + errorCount == i
      invariant successCount == |Reached(order[..i], cleared.Keys, faulty)|
    {
      var end := if i + BATCH_SIZE <= |order| then i + BATCH_SIZE else |order|;
      var successes, errors;
      written, successes, errors := WriteBatch(cleared, groups, order, faulty, group, i, end, written);
      successCount, errorCount := successCount + successes, errorCount + errors;
      i := end;
    }
    assert order[..i] == order;
  }

  lemma WrittenStep(cleared: map<StudentId, Student>, group: StudentId -> seq<Entry>, order: seq<StudentId>, k: nat,
                    faulty: set<StudentId>)
    requires k < |order|
    ensures var before := Written(cleared, group, order[..k], faulty);
      && before.Keys == cleared.Keys
      && Written(cleared, group, order[..k + 1], faulty) ==
           if order[k] in cleared && order[k] !in faulty
           then before[order[k] := before[order[k]].(history := group(order[k]))]
           else before
  {
    assert order[..k + 1] == order[..k] + [order[k]];
  }

  lemma CountStep(order: seq<StudentId>, k: nat, known: set<StudentId>, faulty: set<StudentId>)
    requires k < |order| && forall i, j | 0 <= i < j < |order| :: order[i] != order[j]
    ensures |Reached(order[..k + 1], known, faulty)|
         == |Reached(order[..k], known, faulty)| + (if order[k] in known && order[k] !in faulty then 1 else 0)
  {
    var before, after := Reached(order[..k], known, faulty), Reached(order[..k + 1], known, faulty);
    assert order[..k + 1] == order[..k] + [order[k]];
    assert order[k] !in before;
    assert after == if order[k] in known && order[k] !in faulty then before + {order[k]} else before;
  }

  lemma GroupedLists(groups: map<StudentId, seq<Entry>>, order: seq<StudentId>, cursor: seq<Payment>)
    requires Grouped(groups, order, cursor)
    ensures Lists(groups, order, Groups(cursor))
  {
  }

  function Emptied(students: map<StudentId, Student>): map<StudentId, Student> {
    map s | s in students :: students[s].(history := [])
  }

  /** Grouping and writing, given the cleared students. */
  method Refill(cleared: map<StudentId, Student>, cursor: seq<Payment>, faulty: set<StudentId>,
                ghost before: map<StudentId, Student>)
    returns (written: map<StudentId, Student>, summary: Summary)
    requires cleared == Emptied(before)
    ensures written == Rebuilt(before, cursor, faulty)
    ensures summary.totalPayments == |cursor|
    ensures summary.totalStudentsProcessed == |GroupedStudents(cursor)|
    ensures summary.successfulUpdates + summary.errorCount == summary.totalStudentsProcessed
    ensures summary.successfulUpdates == |GroupedStudents(cursor) * before.Keys - faulty|
  {
    var groups, order := GroupPayments(cursor);
    GroupedLists(groups, order, cursor);
    var successCount, errorCount;
    written, successCount, errorCount := WriteGroups(cleared, groups, order, faulty, Groups(cursor));
    GroupsAreOfStudents(groups, order, cursor);
    WrittenIsRebuilt(before, cleared, groups, cursor, order, faulty);
    EnumerationSize(order, GroupedStudents(cursor));
    assert Reached(order, cleared.Keys, faulty) == GroupedStudents(cursor) * before.Keys - faulty;
    summary := Summary(|cursor|, |order|, successCount, errorCount);
  }

  function Of(s: StudentId): Payment -> bool {
    (p: Payment) => p.studentId == s && p.payId != ""
  }

  /** The history has one entry for each of the payments, in their order. */
  ghost predicate RecordsAll(history: seq<Entry>, payments: seq<Payment>) {
    |history| == |payments| &&
    forall i | 0 <= i < |history| :: history[i].paymentId == payments[i].id && history[i].payId == payments[i].payId
  }

  ghost predicate RecordsOwn(history: seq<Entry>, cursor: seq<Payment>, s: StudentId) {
    exists mine :: ListsAll(cursor, Of(s), mine) && RecordsAll(history, mine)
  }

  /** Each student's history records exactly his own payments with a payId, in cursor
      order, or is empty if his update was rejected; nothing else of him changes. */
  ghost predicate Recovered(before: map<StudentId, Student>, after: map<StudentId, Student>, cursor: seq<Payment>,
                            faulty: set<StudentId>)
  {
    after.Keys == before.Keys &&
    (forall s | s in before :: after[s].(history := before[s].history) == before[s]) &&
    (forall s | s in before && s in faulty :: after[s].history == []) &&
    (forall s | s in before && s !in faulty :: RecordsOwn(after[s].history, cursor, s))
  }

  lemma GroupRecordsOwn(cursor: seq<Payment>, s: StudentId)
    ensures RecordsOwn(Group(cursor, s), cursor, s)
  {
    FilterTwice(cursor, HasPayId(), KeyIs(StudentOf(), s), Of(s));
    FilterLists(cursor, Of(s));
    assert RecordsAll(Group(cursor, s), Filter(cursor, Of(s)));
  }

  lemma RebuiltIsRecovered(before: map<StudentId, Student>, cursor: seq<Payment>, faulty: set<StudentId>)
    ensures Recovered(before, Rebuilt(before, cursor, faulty), cursor, faulty)
  {
    forall s | s in before && s !in faulty ensures RecordsOwn(Rebuilt(before, cursor, faulty)[s].history, cursor, s) {
      GroupRecordsOwn(cursor, s);
    }
  }

  /** The script.  The cursors yield every student once, in some order, and every
      payment once, by createdAt.  Whatever the store holds, each known student
      ends with his own payments that carry a payId, in cursor order. */
  method RebuildPaymentHistories(store: PS.PaymentService, studentCursor: seq<StudentId>, cursor: seq<Payment>,
                                 faulty: set<StudentId>)
    returns (summary: Summary)
    requires Enumerates(studentCursor, store.students.Keys)
    requires multiset(cursor) == multiset(store.payments) && SortedByCreation(cursor)
    modifies store`students
    ensures Recovered(old(store.students), store.students, cursor, faulty)
    ensures store.students == Rebuilt(old(store.students), cursor, faulty)
    ensures summary.totalPayments == |store.payments|
    ensures summary.totalStudentsProcessed == |GroupedStudents(store.payments)|
    ensures summary.successfulUpdates + summary.errorCount == summary.totalStudentsProcessed
    ensures summary.successfulUpdates == |GroupedStudents(store.payments) * old(store.students).Keys - faulty|
  {
    SameDocuments(cursor, store.payments);
    var tx := ClearHistories(store.students, studentCursor);
    tx, summary := Refill(tx, cursor, faulty, store.students);
    RebuiltIsRecovered(store.students, cursor, faulty);
    store.students := tx;
  }

  lemma SameDocuments(cursor: seq<Payment>, payments: seq<Payment>)
    requires multiset(cursor) == multiset(payments)
    ensures |cursor| == |payments| && GroupedStudents(cursor) == GroupedStudents(payments)
  {
    assert |multiset(cursor)| == |cursor| && |multiset(payments)| == |payments|;
    SameMembers(cursor, payments);
  }

  lemma WrittenIsRebuilt(before: map<StudentId, Student>, cleared: map<StudentId, Student>,
                         groups: map<StudentId, seq<Entry>>, cursor: seq<Payment>, order: seq<StudentId>,
                         faulty: set<StudentId>)
    requires cleared == Emptied(before)
    requires Grouped(groups, order, cursor)
    ensures Written(cleared, Groups(cursor), order, faulty) == Rebuilt(before, cursor, faulty)
  {
    GroupsAreOfStudents(groups, order, cursor);
    WrittenOrEmpty(before, cleared, Groups(cursor), order, faulty);
    assert Rebuilt(before, cursor, faulty) == Outcome(before, Groups(cursor), faulty);
  }

  function Outcome(before: map<StudentId, Student>, group: StudentId -> seq<Entry>, faulty: set<StudentId>)
    : map<StudentId, Student>
  {
    map s | s in before :: before[s].(history := if s in faulty then [] else group(s))
  }

  lemma WrittenOrEmpty(before: map<StudentId, Student>, cleared: map<StudentId, Student>,
                       group: StudentId -> seq<Entry>, order: seq<StudentId>, faulty: set<StudentId>)
    requires cleared == Emptied(before)
    requires forall s | s in before && s !in order :: group(s) == []
    ensures Written(cleared, group, order, faulty) == Outcome(before, group, faulty)
  {
  }

  // ---------------------------------------------------------------------
  // What the script repairs
  // ---------------------------------------------------------------------

  lemma {:induction false} FilterSorted(s: seq<Payment>, keep: Payment -> bool)
    requires SortedByCreation(s)
    ensures SortedByCreation(Filter(s, keep))
  {
    if s != [] {
      var n := |s| - 1;
      FilterSorted(s[..n], keep);
      FilterMembers(s[..n], keep);
      var f := Filter(s[..n], keep);
      forall i | 0 <= i < |f| ensures f[i].createdAt <= s[n].createdAt {
        assert f[i] in f;
        assert f[i] in s[..n];
      }
    }
  }

  lemma {:induction false} FilterCount<T>(s: seq<T>, keep: T -> bool, x: T)
    ensures multiset(Filter(s, keep))[x] == if keep(x) then multiset(s)[x] else 0
  {
    if s != [] {
      var n := |s| - 1;
      FilterCount(s[..n], keep, x);
      assert s == s[..n] + [s[n]];
    }
  }

  /** The history lists these payments, in the order of their creation. */
  ghost predicate InCreationOrder(history: seq<Entry>, payments: seq<Payment>) {
    exists mine :: SortedByCreation(mine) && multiset(mine) == multiset(payments) && history == Ledger.EntriesOf(mine)
  }

  lemma OwnInCreationOrder(cursor: seq<Payment>, payments: seq<Payment>, s: StudentId)
    requires multiset(cursor) == multiset(payments) && SortedByCreation(cursor)
    ensures InCreationOrder(Ledger.EntriesOf(Filter(cursor, OwnedBy(s))), Filter(payments, OwnedBy(s)))
  {
    var mine := Filter(cursor, OwnedBy(s));
    FilterSorted(cursor, OwnedBy(s));
    forall p ensures multiset(mine)[p] == multiset(Filter(payments, OwnedBy(s)))[p] {
      FilterCount(cursor, OwnedBy(s), p);
      FilterCount(payments, OwnedBy(s), p);
    }
  }

  lemma SameMembers(s: seq<Payment>, t: seq<Payment>)
    requires multiset(s) == multiset(t)
    ensures forall p :: p in s <==> p in t
  {
    forall p ensures p in s <==> p in t {
      assert p in s <==> p in multiset(s);
      assert p in t <==> p in multiset(t);
    }
  }

  /** The books with the histories that the script writes. */
  function Restored(b: Ledger.Books, cursor: seq<Payment>): Ledger.Books {
    b.(students := Rebuilt(b.students, cursor, {}))
  }

  lemma RestoredHistories(b: Ledger.Books, cursor: seq<Payment>)
    requires forall p | p in cursor :: p.payId != ""
    ensures forall s | s in b.students ::
      Restored(b, cursor).students[s].history == Ledger.EntriesOf(Filter(cursor, OwnedBy(s)))
  {
    forall s | s in b.students
      ensures Restored(b, cursor).students[s].history == Ledger.EntriesOf(Filter(cursor, OwnedBy(s)))
    {
      GroupIsOwned(cursor, s);
    }
  }

  lemma RestoredIsSound(b: Ledger.Books, cursor: seq<Payment>)
    requires Ledger.WellFormed(b) && multiset(cursor) == multiset(b.payments)
    ensures Ledger.Sound(Restored(b, cursor))
  {
    SameMembers(cursor, b.payments);
    RestoredHistories(b, cursor);
    RebuiltIsSound(b, Restored(b, cursor), cursor);
  }

  /** From any well-formed books, however wrong the histories are, the script
      leaves each student's history equal to his live payments in createdAt
      order; if the collection itself is in that order, the histories are exact. */
  lemma RebuildRestores(b: Ledger.Books, cursor: seq<Payment>)
    requires Ledger.WellFormed(b)
    requires multiset(cursor) == multiset(b.payments) && SortedByCreation(cursor)
    ensures var c := b.(students := Rebuilt(b.students, cursor, {}));
      && Ledger.Sound(c)
      && (forall s | s in c.students :: InCreationOrder(c.students[s].history, Filter(b.payments, OwnedBy(s))))
      && (cursor == b.payments ==> Ledger.Exact(c))
  {
    RestoredIsSound(b, cursor);
    SameMembers(cursor, b.payments);
    RestoredHistories(b, cursor);
    forall s | s in b.students
      ensures InCreationOrder(Restored(b, cursor).students[s].history, Filter(b.payments, OwnedBy(s)))
    {
      OwnInCreationOrder(cursor, b.payments, s);
    }
  }

  predicate IsCursor(cursor: seq<Payment>, payments: seq<Payment>) {
    multiset(cursor) == multiset(payments) && SortedByCreation(cursor)
  }

  /** The script as one step of the ledger, all updates succeeding. */
  function Repair(b: Ledger.Books, cursor: seq<Payment>): Ledger.Books {
    if IsCursor(cursor, b.payments) then b.(students := Rebuilt(b.students, cursor, {})) else b
  }

  lemma RepairKeeps(b: Ledger.Books, cursor: seq<Payment>)
    requires Ledger.Sound(b)
    ensures var c := Repair(b, cursor);
      Ledger.Sound(c) && Ledger.Shortfall(c) == Ledger.Shortfall(b) && c.students.Keys == b.students.Keys
      && forall s | s in b.students :: c.students[s].version == b.students[s].version
  {
    if IsCursor(cursor, b.payments) {
      assert Repair(b, cursor) == Restored(b, cursor);
      RestoredIsSound(b, cursor);
    }
  }

  lemma GroupIsOwned(cursor: seq<Payment>, s: StudentId)
    requires forall p | p in cursor :: p.payId != ""
    ensures Group(cursor, s) == Ledger.EntriesOf(Filter(cursor, OwnedBy(s)))
  {
    FilterAll(cursor, HasPayId());
    FilterSame(cursor, KeyIs(StudentOf(), s), OwnedBy(s));
  }

  lemma RebuiltIsSound(b: Ledger.Books, c: Ledger.Books, cursor: seq<Payment>)
    requires Ledger.WellFormed(b) && c == b.(students := Rebuilt(b.students, cursor, {}))
    requires forall p :: p in cursor <==> p in b.payments
    requires forall s | s in c.students :: c.students[s].history == Ledger.EntriesOf(Filter(cursor, OwnedBy(s)))
    ensures Ledger.Sound(c)
  {
    forall s, e | s in c.students && e in c.students[s].history ensures e.paymentId < c.nextId {
      EntryHasPayment(cursor, s, e);
    }
    forall p | p in c.payments ensures EntryOf(p) in c.students[p.studentId].history {
      PaymentHasEntry(cursor, p);
    }
  }

  lemma EntryHasPayment(cursor: seq<Payment>, s: StudentId, e: Entry)
    requires e in Ledger.EntriesOf(Filter(cursor, OwnedBy(s)))
    ensures exists p | p in cursor :: EntryOf(p) == e
  {
    var mine := Filter(cursor, OwnedBy(s));
    FilterMembers(cursor, OwnedBy(s));
    var i :| 0 <= i < |mine| && Ledger.EntriesOf(mine)[i] == e;
    assert mine[i] in mine;
  }

  lemma PaymentHasEntry(cursor: seq<Payment>, p: Payment)
    requires p in cursor
    ensures EntryOf(p) in Ledger.EntriesOf(Filter(cursor, OwnedBy(p.studentId)))
  {
    var mine := Filter(cursor, OwnedBy(p.studentId));
    FilterMembers(cursor, OwnedBy(p.studentId));
    assert p in mine;
    var i :| 0 <= i < |mine| && mine[i] == p;
    assert Ledger.EntriesOf(mine)[i] == EntryOf(p);
  }
}
