/** What the figures of a cycle report are, in terms of the payments' times, labels and
    sections. */
module CycleFigures {
  import opened Sequences
  import opened Records
  import opened Billing
  import opened CycleReport

  // ---------------------------------------------------------------------
  // The summary's heads
  // ---------------------------------------------------------------------

  function Worth(): Row -> int {
    (r: Row) => r.payment.amount
  }

  ghost predicate HeadsByTime(summary: Summary, cal: Calendar, payId: string, k: int, rows: seq<Row>) {
    && summary.arrearPayments == |Filter(rows, Late(cal))|
    && summary.amountFromArrearsPayments == Sum(Filter(rows, Late(cal)), Worth())
    && summary.advancePayments == |Filter(rows, Early(cal))|
    && summary.amountFromAdvancePayments == Sum(Filter(rows, Early(cal)), Worth())
    && summary.regularPayments == |Filter(rows, InTime(cal, payId, k))|
    && summary.offCyclePayments == |rows| - |Filter(rows, InTime(cal, payId, k))|
    && summary.totalCollectedRevenue == Sum(Filter(rows, Earned(cal, payId, k)), Worth())
    && summary.totalAmount == Sum(rows, Worth()) && summary.totalPayments == |rows|
    && summary.uniqueStudents == |set r | r in rows :: r.payment.studentId|
  }

  lemma WorthIsAmount(rows: seq<Row>)
    ensures Sum(rows, RowAmount()) == Sum(rows, Worth())
  {
    SumSame(rows, RowAmount(), Worth());
  }

  lemma SameHead(rows: seq<Row>, p: Row -> bool, q: Row -> bool)
    requires forall r | r in rows :: p(r) == q(r)
    ensures |Filter(rows, p)| == |Filter(rows, q)|
    ensures Sum(Filter(rows, p), RowAmount()) == Sum(Filter(rows, q), Worth())
  {
    FilterSame(rows, p, q);
    WorthIsAmount(Filter(rows, q));
  }

  lemma CollectedIsEarned(cal: Calendar, payId: string, k: int, r: Row)
    requires ValidCalendar(cal) && ParsePayId(payId) == Some(k) && ByTime(cal, payId, k, r)
    ensures Collected(payId)(r) == Earned(cal, payId, k)(r)
  {
    if ParsePayId(r.payment.payId).Some? {
      var m := ParsePayId(r.payment.payId).value;
      assert cal.month(m) < cal.month(m + 1);
    }
  }

  /** The heads of the summary are decided by the times of the payments alone. */
  lemma SummaryIsByTime(summary: Summary, cal: Calendar, payId: string, k: int, roll: seq<Pupil>, rows: seq<Row>,
                        order: seq<string>)
    requires ValidCalendar(cal) && Labelled(cal, payId, k, rows) && Describes(summary, cal, payId, k, roll, rows, order)
    ensures HeadsByTime(summary, cal, payId, k, rows)
  {
    RowsAreByTime(cal, payId, k, rows);
    SameHead(rows, Arrear(), Late(cal));
    SameHead(rows, Advance(), Early(cal));
    SameHead(rows, OnCycle(), InTime(cal, payId, k));
    forall r | r in rows ensures Collected(payId)(r) == Earned(cal, payId, k)(r) {
      CollectedIsEarned(cal, payId, k, r);
    }
    SameHead(rows, Collected(payId), Earned(cal, payId, k));
    TotalsShareOut(cal, payId, k, rows);
    WorthIsAmount(rows);
  }

  // ---------------------------------------------------------------------
  // Weeks
  // ---------------------------------------------------------------------

  /** In week w, counted from 0; an instant between two weeks belongs to the earlier. */
  function During(cal: Calendar, k: int, w: nat): Row -> bool {
    (r: Row) =>
      (if w == 0 then cal.week(k, 0) <= r.payment.createdAt else cal.week(k, w) < r.payment.createdAt) &&
      r.payment.createdAt <= cal.week(k, w + 1)
  }

  lemma WeeksAreDuring(summary: Summary, cal: Calendar, payId: string, k: int, roll: seq<Pupil>, rows: seq<Row>,
                       order: seq<string>, w: nat)
    requires ValidCalendar(cal) && Describes(summary, cal, payId, k, roll, rows, order) && w < 4
    ensures |summary.weeklyCollections| == 4
    ensures summary.weeklyCollections[w] == Sum(Filter(rows, During(cal, k, w)), Worth())
  {
    WeeksInOrder(cal, k);
    forall r | r in rows ensures FallsIn(cal, k, w)(r) == During(cal, k, w)(r) {
      FallsDuring(cal, k, w, r);
    }
    SameHead(rows, FallsIn(cal, k, w), During(cal, k, w));
  }

  lemma FallsDuring(cal: Calendar, k: int, w: nat, r: Row)
    requires w < 4 && cal.week(k, 0) < cal.week(k, 1) < cal.week(k, 2) < cal.week(k, 3) < cal.week(k, 4)
    ensures FallsIn(cal, k, w)(r) == During(cal, k, w)(r)
  {
    assert w == 0 || w == 1 || w == 2 || w == 3;
  }

  // ---------------------------------------------------------------------
  // Sections
  // ---------------------------------------------------------------------

  function PupilAt(key: string): Pupil -> bool {
    (x: Pupil) => x.student.className + "-" + x.student.section == key
  }

  function RowAt(key: string): Row -> bool {
    (r: Row) => r.payment.className + "-" + r.payment.section == key
  }

  function TuitionFee(): Pupil -> int {
    (x: Pupil) => x.student.tuitionFee
  }

  function RowsAt(rows: seq<Row>, key: string): seq<Row> {
    Filter(rows, RowAt(key))
  }

  /** One entry of the section list. */
  ghost predicate SectionFigures(d: SectionData, key: string, roll: seq<Pupil>, rows: seq<Row>) {
    && d.key == key
    && d.expectedRevenue == Sum(Filter(roll, PupilAt(key)), TuitionFee())
    && d.collectedRevenue == Sum(RowsAt(rows, key), Worth())
    && d.pendingRevenue == d.expectedRevenue - d.collectedRevenue
    && d.studentsCount == |set x | x in roll && PupilAt(key)(x) :: x.id|
    && d.paidStudentsCount == |set r | r in rows && RowAt(key)(r) :: r.payment.studentId|
    && d.unpaidStudentsCount == d.studentsCount - d.paidStudentsCount
    && d.paymentsCount == |RowsAt(rows, key)|
    && d.regularPayments == |Filter(RowsAt(rows, key), (r: Row) => !r.isOffCycle)|
    && d.offCyclePayments == |Filter(RowsAt(rows, key), (r: Row) => r.isOffCycle)|
    && d.advancePayments == |Filter(RowsAt(rows, key), (r: Row) => r.isAdvance)|
    && d.arrearPayments == |Filter(RowsAt(rows, key), (r: Row) => r.isArrear)|
  }

  lemma FilteredSets(roll: seq<Pupil>, rows: seq<Row>, key: string)
    ensures PupilIds(Filter(roll, PupilAt(key))) == set x | x in roll && PupilAt(key)(x) :: x.id
    ensures Payers(RowsAt(rows, key)) == set r | r in rows && RowAt(key)(r) :: r.payment.studentId
  {
    FilterMembers(roll, PupilAt(key));
    FilterMembers(rows, RowAt(key));
  }

  lemma SameFilters(roll: seq<Pupil>, rows: seq<Row>, key: string)
    ensures Filter(roll, KeyIs(PupilSection(), key)) == Filter(roll, PupilAt(key))
    ensures Filter(rows, KeyIs(RowSection(), key)) == RowsAt(rows, key)
    ensures Sum(Filter(roll, PupilAt(key)), Fee()) == Sum(Filter(roll, PupilAt(key)), TuitionFee())
  {
    FilterSame(roll, KeyIs(PupilSection(), key), PupilAt(key));
    FilterSame(rows, KeyIs(RowSection(), key), RowAt(key));
    SumSame(Filter(roll, PupilAt(key)), Fee(), TuitionFee());
  }

  lemma FlagCounts(rows: seq<Row>)
    ensures |Filter(rows, OnCycle())| == |Filter(rows, (r: Row) => !r.isOffCycle)|
    ensures |Filter(rows, OffCycle())| == |Filter(rows, (r: Row) => r.isOffCycle)|
    ensures |Filter(rows, Advance())| == |Filter(rows, (r: Row) => r.isAdvance)|
    ensures |Filter(rows, Arrear())| == |Filter(rows, (r: Row) => r.isArrear)|
  {
    FilterSame(rows, OnCycle(), (r: Row) => !r.isOffCycle);
    FilterSame(rows, OffCycle(), (r: Row) => r.isOffCycle);
    FilterSame(rows, Advance(), (r: Row) => r.isAdvance);
    FilterSame(rows, Arrear(), (r: Row) => r.isArrear);
  }

  lemma EntryFigures(roll: seq<Pupil>, rows: seq<Row>, key: string)
    ensures SectionFigures(DataOf(key, Section(roll, rows, key)), key, roll, rows)
  {
    SameFilters(roll, rows, key);
    FilteredSets(roll, rows, key);
    FlagCounts(RowsAt(rows, key));
    WorthIsAmount(RowsAt(rows, key));
  }

  /** Each entry of the section list, and the sections that it has: those of the current
      students, each once. */
  lemma SectionsHaveFigures(summary: Summary, cal: Calendar, payId: string, k: int, roll: seq<Pupil>, rows: seq<Row>,
                            order: seq<string>)
    requires Describes(summary, cal, payId, k, roll, rows, order)
    ensures summary.studentStrength == |roll| && summary.totalExpectedRevenue == Sum(roll, TuitionFee())
    ensures |summary.sections| == |order| && forall i, j | 0 <= i < j < |order| :: order[i] != order[j]
    ensures forall key :: key in order <==> exists x :: x in roll && PupilAt(key)(x)
    ensures forall i | 0 <= i < |order| :: SectionFigures(summary.sections[i], order[i], roll, rows)
  {
    SumSame(roll, Fee(), TuitionFee());
    forall i | 0 <= i < |order| ensures SectionFigures(summary.sections[i], order[i], roll, rows) {
      EntryFigures(roll, rows, order[i]);
    }
    forall key ensures key in order <==> exists x :: x in roll && PupilAt(key)(x) {
      assert key in order <==> key in (set x | x in order);
      if key in SectionsOf(roll) {
        var x :| x in roll && PupilSection()(x) == key;
        assert PupilAt(key)(x);
      }
      if exists x :: x in roll && PupilAt(key)(x) {
        var x :| x in roll && PupilAt(key)(x);
        assert PupilSection()(x) == key;
      }
    }
  }
}
