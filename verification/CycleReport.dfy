/** getPaymentsForCycle: the report on one billing month. */
module CycleReport {
  import opened Sequences
  import opened Records
  import opened Billing

  /** A fetched payment with its place relative to the cycle. */
  datatype Row = Row(payment: Payment, isOffCycle: bool, isArrear: bool, isAdvance: bool)

  datatype Pupil = Pupil(id: StudentId, student: Student)

  datatype SectionStats = SectionStats(
    expectedRevenue: int,
    collectedRevenue: int,
    students: set<StudentId>,
    paymentsCount: nat,
    regularPayments: nat,
    offCyclePayments: nat,
    advancePayments: nat,
    arrearPayments: nat,
    paidStudents: set<StudentId>)

  datatype SectionData = SectionData(
    key: string,
    expectedRevenue: int,
    collectedRevenue: int,
    pendingRevenue: int,
    studentsCount: nat,
    paidStudentsCount: nat,
    unpaidStudentsCount: int,
    paymentsCount: nat,
    regularPayments: nat,
    offCyclePayments: nat,
    advancePayments: nat,
    arrearPayments: nat)

  datatype Summary = Summary(
    totalExpectedRevenue: int,
    totalCollectedRevenue: int,
    totalPendingRevenue: int,
    studentStrength: nat,
    weeklyCollections: seq<int>,
    sections: seq<SectionData>,
    totalPayments: nat,
    totalAmount: int,
    advancePayments: nat,
    arrearPayments: nat,
    amountFromAdvancePayments: int,
    amountFromArrearsPayments: int,
    regularPayments: nat,
    offCyclePayments: nat,
    uniqueStudents: nat)

  function SectionKey(className: string, section: string): string {
    className + "-" + section
  }

  function PupilSection(): Pupil -> string {
    (x: Pupil) => SectionKey(x.student.className, x.student.section)
  }

  function RowSection(): Row -> string {
    (r: Row) => SectionKey(r.payment.className, r.payment.section)
  }

  function Fee(): Pupil -> int {
    (x: Pupil) => x.student.tuitionFee
  }

  function RowAmount(): Row -> int {
    (r: Row) => r.payment.amount
  }

  function Advance(): Row -> bool {
    (r: Row) => r.isAdvance
  }

  function Arrear(): Row -> bool {
    (r: Row) => r.isArrear
  }

  function OffCycle(): Row -> bool {
    (r: Row) => r.isOffCycle
  }

  function OnCycle(): Row -> bool {
    (r: Row) => !r.isOffCycle
  }

  /** Counted as collected: not an advance, and for this month or an arrear. */
  function Collected(payId: string): Row -> bool {
    (r: Row) => !r.isAdvance && (r.payment.payId == payId || r.isArrear)
  }

  /** Labelled otherwise than the cycle, but with no other month: a second label
      of the cycle's month, or one that parses to no month at all. */
  function Stray(payId: string): Row -> bool {
    (r: Row) => r.payment.payId != payId && IsStray(ParsePayId(r.payment.payId), ParsePayId(payId))
  }

  predicate IsStray(billing: Option<int>, cycle: Option<int>) {
    billing.None? || billing == cycle
  }

  function PupilIds(pupils: seq<Pupil>): set<StudentId> {
    set x | x in pupils :: x.id
  }

  function Payers(rows: seq<Row>): set<StudentId> {
    set r | r in rows :: r.payment.studentId
  }

  // ---------------------------------------------------------------------
  // Fetching and classifying
  // ---------------------------------------------------------------------

  predicate InCycle(cal: Calendar, m: int, t: int) {
    cal.month(m) <= t <= MonthEnd(cal, m)
  }

  /** The query for the cycle of month k. */
  function Fetched(cal: Calendar, payId: string, k: int): Payment -> bool {
    (p: Payment) => p.payId == payId || (p.payId != payId && InCycle(cal, k, p.createdAt))
  }

  /** The bounds of a billing month; those of an invalid date are invalid too. */
  function Bounds(cal: Calendar, m: Option<int>): Option<(int, int)> {
    if m.None? then None else Some((cal.month(m.value), MonthEnd(cal, m.value)))
  }

  /** isAfter and isBefore answer false when they are given an invalid date. */
  function IsAfter(t: int, bounds: Option<(int, int)>): bool {
    bounds.Some? && t > bounds.value.1
  }

  function IsBefore(t: int, bounds: Option<(int, int)>): bool {
    bounds.Some? && t < bounds.value.0
  }

  function Classify(cal: Calendar, payId: string, k: int, p: Payment): Row {
    var bounds := Bounds(cal, ParsePayId(p.payId));
    Row(p, p.payId != payId || !InCycle(cal, k, p.createdAt),
        IsAfter(p.createdAt, bounds), IsBefore(p.createdAt, bounds))
  }

  ghost predicate ClassifiedFrom(cal: Calendar, payId: string, k: int, payments: seq<Payment>, rows: seq<Row>) {
    |rows| == |payments| &&
    forall i | 0 <= i < |rows| :: payments[i] in payments && rows[i] == Classify(cal, payId, k, payments[i])
  }

  /** The loop that labels the payments, with its per-identifier cache of month
      bounds. */
  method Enhance(cal: Calendar, payId: string, k: int, payments: seq<Payment>) returns (rows: seq<Row>)
    ensures ClassifiedFrom(cal, payId, k, payments, rows)
  {
    var cycleStart, cycleEnd := cal.month(k), MonthEnd(cal, k);
    var billingMonthCache: map<string, Option<(int, int)>> := map[];
    rows := [];
    for i := 0 to |payments|
      invariant ClassifiedFrom(cal, payId, k, payments[..i], rows)
      invariant forall id | id in billingMonthCache :: billingMonthCache[id] == Bounds(cal, ParsePayId(id))
    {
      var payment := payments[i];
      assert payments[..i + 1] == payments[..i] + [payment];
      if payment.payId !in billingMonthCache {
        billingMonthCache := billingMonthCache[payment.payId := Bounds(cal, ParsePayId(payment.payId))];
      }
      var bounds := billingMonthCache[payment.payId];
      rows := rows + [Row(payment,
                          payment.payId != payId || payment.createdAt < cycleStart || payment.createdAt > cycleEnd,
                          IsAfter(payment.createdAt, bounds), IsBefore(payment.createdAt, bounds))];
    }
    assert payments[..|payments|] == payments;
  }

  /** A payment is never both arrear and advance, and a fetched one is off cycle
      exactly when it is one of the two -- unless its label is stray, when it is
      off cycle and neither. */
  lemma OffCycleIff(cal: Calendar, payId: string, k: int, p: Payment)
    requires ValidCalendar(cal) && ParsePayId(payId) == Some(k) && Fetched(cal, payId, k)(p)
    ensures var r := Classify(cal, payId, k, p);
      && !(r.isArrear && r.isAdvance)
      && ((r.isOffCycle <==> r.isArrear || r.isAdvance) <==> !Stray(payId)(r))
      && (Stray(payId)(r) ==> r.isOffCycle && !r.isArrear && !r.isAdvance)
  {
    if ParsePayId(p.payId).Some? {
      var m := ParsePayId(p.payId).value;
      assert cal.month(m) < cal.month(m + 1);
      if m < k {
        LaterMonth(cal, m, k);
      } else if k < m {
        LaterMonth(cal, k, m);
      }
    }
  }

  /** Identifiers that name calendar months, as getPayId prints them, are not
      stray. */
  lemma ProperAreNotStray(payId: string, r: Row)
    requires ProperPayId(payId) && ProperPayId(r.payment.payId)
    ensures !Stray(payId)(r)
  {
    ProperPayIdIsPrinted(payId);
    ProperPayIdIsPrinted(r.payment.payId);
  }

  /** "1325" and "01261" are January 2026 as well, and "cash" is no month: payments
      labelled so and created in that month are off cycle for "0126" without being
      arrear or advance. */
  lemma StrayLabels(cal: Calendar, p: Payment)
    requires ValidCalendar(cal) && p.payId in {"1325", "01261", "cash"} && InCycle(cal, 312, p.createdAt)
    ensures ParsePayId("0126") == Some(312) && Fetched(cal, "0126", 312)(p)
    ensures var r := Classify(cal, "0126", 312, p);
      Stray("0126")(r) && r.isOffCycle && !r.isArrear && !r.isAdvance
  {
    ParsedLabels();
    assert "0126"[0] == '0' && "1325"[0] == '1' && |"01261"| == 5 && "cash"[0] == 'c';
    OffCycleIff(cal, "0126", 312, p);
  }

  lemma ParsedLabels()
    ensures ParsePayId("0126") == ParsePayId("01261") == Some(312)
    ensures ParsePayId("1325") == Some(312)
    ensures ParsePayId("cash") == None
  {
    JanuaryIs312("0126", 1, 26);
    JanuaryIs312("1325", 13, 25);
    assert "01261"[..4] == "0126";
    ParseIgnoresTail("01261");
    ParseWord("cash");
  }

  lemma JanuaryIs312(payId: string, month: int, year: int)
    requires FourDigits(payId) && MonthPart(payId) == month && YearPart(payId) == year
    requires 12 * year + (month - 1) == 312
    ensures ParsePayId(payId) == Some(312)
  {
    ParseFourDigits(payId);
  }

  // ---------------------------------------------------------------------
  // Totals
  // ---------------------------------------------------------------------

  method SumWhere(rows: seq<Row>, test: Row -> bool) returns (total: int, count: nat)
    ensures total == Sum(Filter(rows, test), RowAmount()) && count == |Filter(rows, test)|
  {
    total, count := 0, 0;
    for i := 0 to |rows|
      invariant total == Sum(Filter(rows[..i], test), RowAmount()) && count == |Filter(rows[..i], test)|
    {
      assert rows[..i + 1] == rows[..i] + [rows[i]];
      FilterPush(rows[..i], rows[i], test);
      if test(rows[i]) {
        SumPush(Filter(rows[..i], test), rows[i], RowAmount());
        total, count := total + rows[i].payment.amount, count + 1;
      }
    }
    assert rows[..|rows|] == rows;
  }

  ghost predicate Labelled(cal: Calendar, payId: string, k: int, rows: seq<Row>) {
    ParsePayId(payId) == Some(k) &&
    forall r | r in rows :: Fetched(cal, payId, k)(r.payment) && r == Classify(cal, payId, k, r.payment)
  }

  function Either(): Row -> bool {
    (r: Row) => r.isArrear || r.isAdvance
  }

  /** Arrears, advances and stray labels share out the off-cycle rows; collected
      rows, advances and stray labels share out all rows. */
  lemma TotalsShareOut(cal: Calendar, payId: string, k: int, rows: seq<Row>)
    requires ValidCalendar(cal) && Labelled(cal, payId, k, rows)
    ensures |Filter(rows, Arrear())| + |Filter(rows, Advance())| + |Filter(rows, Stray(payId))|
         == |Filter(rows, OffCycle())|
    ensures |Filter(rows, OnCycle())| + |Filter(rows, OffCycle())| == |rows|
    ensures Sum(Filter(rows, Collected(payId)), RowAmount()) + Sum(Filter(rows, Advance()), RowAmount())
          + Sum(Filter(rows, Stray(payId)), RowAmount()) == Sum(rows, RowAmount())
  {
    forall r | r in rows
      ensures !(r.isArrear && r.isAdvance) && ((r.isOffCycle <==> Either()(r)) <==> !Stray(payId)(r))
      ensures Stray(payId)(r) ==> r.isOffCycle && !Either()(r)
    {
      OffCycleIff(cal, payId, k, r.payment);
    }
    SumDisjoint(rows, Arrear(), Advance(), Either(), RowAmount());
    SumDisjoint(rows, Either(), Stray(payId), OffCycle(), RowAmount());
    SumSplit(rows, OnCycle(), OffCycle(), RowAmount());
    CollectedShare(cal, payId, k, rows);
  }

  function NotAdvance(): Row -> bool {
    (r: Row) => !r.isAdvance
  }

  lemma CollectedShare(cal: Calendar, payId: string, k: int, rows: seq<Row>)
    requires forall r | r in rows ::
      ((r.isOffCycle <==> r.isArrear || r.isAdvance) <==> !Stray(payId)(r)) &&
      (Stray(payId)(r) ==> r.isOffCycle && !r.isArrear && !r.isAdvance)
    requires Labelled(cal, payId, k, rows)
    ensures Sum(Filter(rows, Collected(payId)), RowAmount()) + Sum(Filter(rows, Advance()), RowAmount())
          + Sum(Filter(rows, Stray(payId)), RowAmount()) == Sum(rows, RowAmount())
  {
    forall r | r in rows
      ensures !(Collected(payId)(r) && Stray(payId)(r))
      ensures (Collected(payId)(r) || Stray(payId)(r)) == NotAdvance()(r)
    {
      assert r == Classify(cal, payId, k, r.payment);
    }
    SumDisjoint(rows, Collected(payId), Stray(payId), NotAdvance(), RowAmount());
    SumSplit(rows, NotAdvance(), Advance(), RowAmount());
  }

  // ---------------------------------------------------------------------
  // Weeks
  // ---------------------------------------------------------------------

  predicate InWeek(cal: Calendar, m: int, w: int, t: int) {
    cal.week(m, w) <= t <= cal.week(m, w + 1)
  }

  /** The first of the four weeks that holds instant t, or 4. */
  function WeekOf(cal: Calendar, m: int, t: int): nat {
    if InWeek(cal, m, 0, t) then 0
    else if InWeek(cal, m, 1, t) then 1
    else if InWeek(cal, m, 2, t) then 2
    else if InWeek(cal, m, 3, t) then 3
    else 4
  }

  function FallsIn(cal: Calendar, m: int, w: nat): Row -> bool {
    (r: Row) => WeekOf(cal, m, r.payment.createdAt) == w
  }

  function FourWeeks(cal: Calendar, m: int): Row -> bool {
    (r: Row) => cal.week(m, 0) <= r.payment.createdAt <= cal.week(m, 4)
  }

  /** The nested loop over payments and weeks; the inner one stops at the first
      week that matches. */
  method WeeklyCollections(cal: Calendar, m: int, rows: seq<Row>) returns (amounts: seq<int>)
    ensures |amounts| == 4
    ensures forall w | 0 <= w < 4 :: amounts[w] == Sum(Filter(rows, FallsIn(cal, m, w)), RowAmount())
  {
    amounts := [0, 0, 0, 0];
    for i := 0 to |rows|
      invariant |amounts| == 4
      invariant forall w | 0 <= w < 4 :: amounts[w] == Sum(Filter(rows[..i], FallsIn(cal, m, w)), RowAmount())
    {
      var t := rows[i].payment.createdAt;
      WeeklyStep(cal, m, rows, i);
      var week := 0;
      while week < 4
        invariant 0 <= week <= 4
        invariant forall w | 0 <= w < week :: !InWeek(cal, m, w, t)
      {
        if InWeek(cal, m, week, t) {
          break;
        }
        week := week + 1;
      }
      assert week == WeekOf(cal, m, t);
      if week < 4 {
        amounts := amounts[week := amounts[week] + rows[i].payment.amount];
      }
    }
    assert rows[..|rows|] == rows;
  }

  lemma WeeklyStep(cal: Calendar, m: int, rows: seq<Row>, i: nat)
    requires i < |rows|
    ensures forall w: nat | w < 4 ::
      Sum(Filter(rows[..i + 1], FallsIn(cal, m, w)), RowAmount())
        == Sum(Filter(rows[..i], FallsIn(cal, m, w)), RowAmount())
           + (if WeekOf(cal, m, rows[i].payment.createdAt) == w then rows[i].payment.amount else 0)
  {
    assert rows[..i + 1] == rows[..i] + [rows[i]];
    forall w: nat | w < 4
      ensures Sum(Filter(rows[..i + 1], FallsIn(cal, m, w)), RowAmount())
           == Sum(Filter(rows[..i], FallsIn(cal, m, w)), RowAmount())
              + (if WeekOf(cal, m, rows[i].payment.createdAt) == w then rows[i].payment.amount else 0)
    {
      FilterPush(rows[..i], rows[i], FallsIn(cal, m, w));
      SumPush(Filter(rows[..i], FallsIn(cal, m, w)), rows[i], RowAmount());
    }
  }

  function FallsBefore(cal: Calendar, m: int, w: nat): Row -> bool {
    (r: Row) => WeekOf(cal, m, r.payment.createdAt) < w
  }

  /** Although neighbouring weeks share an endpoint, every payment counts at most
      once: the four amounts add up to exactly the payments created between the
      start of the first week and the end of the fourth. */
  lemma {:induction false} WeeksCountOnce(cal: Calendar, m: int, rows: seq<Row>)
    requires ValidCalendar(cal)
    ensures Sum(Filter(rows, FallsIn(cal, m, 0)), RowAmount()) + Sum(Filter(rows, FallsIn(cal, m, 1)), RowAmount())
          + Sum(Filter(rows, FallsIn(cal, m, 2)), RowAmount()) + Sum(Filter(rows, FallsIn(cal, m, 3)), RowAmount())
         == Sum(Filter(rows, FourWeeks(cal, m)), RowAmount())
  {
    WeeksInOrder(cal, m);
    SumDisjoint(rows, FallsIn(cal, m, 0), FallsIn(cal, m, 1), FallsBefore(cal, m, 2), RowAmount());
    SumDisjoint(rows, FallsBefore(cal, m, 2), FallsIn(cal, m, 2), FallsBefore(cal, m, 3), RowAmount());
    SumDisjoint(rows, FallsBefore(cal, m, 3), FallsIn(cal, m, 3), FourWeeks(cal, m), RowAmount());
  }

  // ---------------------------------------------------------------------
  // Sections
  // ---------------------------------------------------------------------

  /** What the section accumulators hold for a section with these pupils, once
      these of its payments have been added. */
  function Tally(pupils: seq<Pupil>, rows: seq<Row>): SectionStats {
    SectionStats(Sum(pupils, Fee()), Sum(rows, RowAmount()), PupilIds(pupils), |rows|,
                 |Filter(rows, OnCycle())|, |Filter(rows, OffCycle())|, |Filter(rows, Advance())|,
                 |Filter(rows, Arrear())|, Payers(rows))
  }

  function Section(roll: seq<Pupil>, rows: seq<Row>, key: string): SectionStats {
    Tally(Filter(roll, KeyIs(PupilSection(), key)), Filter(rows, KeyIs(RowSection(), key)))
  }

  function SectionsOf(roll: seq<Pupil>): set<string> {
    set x | x in roll :: PupilSection()(x)
  }

  /** The accumulators hold each section of the roll once, in order of appearance. */
  ghost predicate Listed(keys: set<string>, order: seq<string>, roll: seq<Pupil>) {
    (forall i, j | 0 <= i < j < |order| :: order[i] != order[j]) &&
    (set k | k in order) == keys == SectionsOf(roll)
  }

  ghost predicate Accumulated(stats: map<string, SectionStats>, roll: seq<Pupil>, rows: seq<Row>) {
    forall key | key in stats :: stats[key] == Section(roll, rows, key)
  }

  function AddPupil(s: SectionStats, x: Pupil): SectionStats {
    s.(expectedRevenue := s.expectedRevenue + x.student.tuitionFee, students := s.students + {x.id})
  }

  function AddRow(s: SectionStats, r: Row): SectionStats {
    s.(collectedRevenue := s.collectedRevenue + r.payment.amount,
       paymentsCount := s.paymentsCount + 1,
       paidStudents := s.paidStudents + {r.payment.studentId},
       regularPayments := s.regularPayments + (if r.isOffCycle then 0 else 1),
       offCyclePayments := s.offCyclePayments + (if r.isOffCycle then 1 else 0),
       advancePayments := s.advancePayments + (if r.isAdvance then 1 else 0),
       arrearPayments := s.arrearPayments + (if r.isArrear then 1 else 0))
  }

  const EMPTY_SECTION := SectionStats(0, 0, {}, 0, 0, 0, 0, 0, {})

  lemma TallyPupil(pupils: seq<Pupil>, x: Pupil)
    ensures Tally(pupils + [x], []) == AddPupil(Tally(pupils, []), x)
  {
    SumPush(pupils, x, Fee());
    assert PupilIds(pupils + [x]) == PupilIds(pupils) + {x.id};
  }

  lemma TallyRow(pupils: seq<Pupil>, rows: seq<Row>, r: Row)
    ensures Tally(pupils, rows + [r]) == AddRow(Tally(pupils, rows), r)
  {
    SumPush(rows, r, RowAmount());
    FilterPush(rows, r, OnCycle());
    FilterPush(rows, r, OffCycle());
    FilterPush(rows, r, Advance());
    FilterPush(rows, r, Arrear());
    assert Payers(rows + [r]) == Payers(rows) + {r.payment.studentId};
  }

  lemma SectionPupil(roll: seq<Pupil>, x: Pupil, key: string)
    ensures Section(roll + [x], [], key) ==
      if KeyIs(PupilSection(), key)(x) then AddPupil(Section(roll, [], key), x) else Section(roll, [], key)
  {
    FilterPush(roll, x, KeyIs(PupilSection(), key));
    TallyPupil(Filter(roll, KeyIs(PupilSection(), key)), x);
  }

  lemma SectionRow(roll: seq<Pupil>, rows: seq<Row>, r: Row, key: string)
    ensures Section(roll, rows + [r], key) ==
      if KeyIs(RowSection(), key)(r) then AddRow(Section(roll, rows, key), r) else Section(roll, rows, key)
  {
    FilterPush(rows, r, KeyIs(RowSection(), key));
    TallyRow(Filter(roll, KeyIs(PupilSection(), key)), Filter(rows, KeyIs(RowSection(), key)), r);
  }

  lemma FreshSection(roll: seq<Pupil>, key: string)
    requires key !in SectionsOf(roll)
    ensures Section(roll, [], key) == EMPTY_SECTION
  {
    forall x | x in roll ensures !KeyIs(PupilSection(), key)(x) {
      assert PupilSection()(x) in SectionsOf(roll);
    }
    FilterNone(roll, KeyIs(PupilSection(), key));
  }

  lemma ListedStep(keys: set<string>, order: seq<string>, roll: seq<Pupil>, x: Pupil, key: string)
    requires Listed(keys, order, roll) && key == PupilSection()(x)
    ensures SectionsOf(roll + [x]) == SectionsOf(roll) + {key}
    ensures key in keys ==> Listed(keys, order, roll + [x])
    ensures key !in keys ==> Listed(keys + {key}, order + [key], roll + [x])
  {
    assert SectionsOf(roll + [x]) == SectionsOf(roll) + {key};
    assert (set k | k in order + [key]) == (set k | k in order) + {key};
  }

  /** `found` is what the code finds for the pupil's section, or starts it with. */
  lemma EnrolStep(stats: map<string, SectionStats>, roll: seq<Pupil>, x: Pupil, key: string, found: SectionStats)
    requires Accumulated(stats, roll, []) && key == PupilSection()(x)
    requires found == if key in stats then stats[key] else EMPTY_SECTION
    requires key !in stats ==> key !in SectionsOf(roll)
    ensures Accumulated(stats[key := AddPupil(found, x)], roll + [x], [])
  {
    if key !in stats {
      FreshSection(roll, key);
    }
    var after := stats[key := AddPupil(found, x)];
    forall k | k in after ensures after[k] == Section(roll + [x], [], k) {
      SectionPupil(roll, x, k);
    }
  }

  /** One turn of the loop over the students. */
  method EnrolStudent(stats: map<string, SectionStats>, order: seq<string>, x: Pupil, ghost roll: seq<Pupil>)
    returns (updated: map<string, SectionStats>, keys: seq<string>)
    requires Listed(stats.Keys, order, roll) && Accumulated(stats, roll, [])
    ensures Listed(updated.Keys, keys, roll + [x]) && Accumulated(updated, roll + [x], [])
  {
    var key := SectionKey(x.student.className, x.student.section);
    ListedStep(stats.Keys, order, roll, x, key);
    if key in stats {
      EnrolStep(stats, roll, x, key, stats[key]);
      updated, keys := stats[key := AddPupil(stats[key], x)], order;
      assert updated.Keys == stats.Keys;
    } else {
      EnrolStep(stats, roll, x, key, EMPTY_SECTION);
      updated, keys := stats[key := AddPupil(EMPTY_SECTION, x)], order + [key];
      assert updated.Keys == stats.Keys + {key};
    }
  }

  method EnrolStudents(roll: seq<Pupil>)
    returns (stats: map<string, SectionStats>, order: seq<string>, totalExpectedRevenue: int)
    ensures Listed(stats.Keys, order, roll) && Accumulated(stats, roll, [])
    ensures totalExpectedRevenue == Sum(roll, Fee())
  {
    stats, order, totalExpectedRevenue := map[], [], 0;
    for i := 0 to |roll|
      invariant Listed(stats.Keys, order, roll[..i]) && Accumulated(stats, roll[..i], [])
      invariant totalExpectedRevenue == Sum(roll[..i], Fee())
    {
      stats, order := EnrolStudent(stats, order, roll[i], roll[..i]);
      SumPush(roll[..i], roll[i], Fee());
      totalExpectedRevenue := totalExpectedRevenue + roll[i].student.tuitionFee;
      assert roll[..i + 1] == roll[..i] + [roll[i]];
    }
    assert roll[..|roll|] == roll;
  }

  lemma PaymentStep(stats: map<string, SectionStats>, roll: seq<Pupil>, rows: seq<Row>, r: Row, key: string)
    requires Accumulated(stats, roll, rows) && key == RowSection()(r)
    ensures key in stats ==> Accumulated(stats[key := AddRow(stats[key], r)], roll, rows + [r])
    ensures key !in stats ==> Accumulated(stats, roll, rows + [r])
  {
    forall k | k in stats
      ensures Section(roll, rows + [r], k) == if k == key then AddRow(stats[k], r) else stats[k]
    {
      SectionRow(roll, rows, r, k);
    }
  }

  /** One turn of the loop over the payments. */
  method AddPayment(stats: map<string, SectionStats>, r: Row, ghost roll: seq<Pupil>, ghost rows: seq<Row>)
    returns (updated: map<string, SectionStats>)
    requires Accumulated(stats, roll, rows)
    ensures updated.Keys == stats.Keys && Accumulated(updated, roll, rows + [r])
  {
    var key := SectionKey(r.payment.className, r.payment.section);
    PaymentStep(stats, roll, rows, r, key);
    updated := if key in stats then stats[key := AddRow(stats[key], r)] else stats;
  }

  method AddPayments(stats: map<string, SectionStats>, rows: seq<Row>, ghost roll: seq<Pupil>)
    returns (updated: map<string, SectionStats>)
    requires Accumulated(stats, roll, [])
    ensures updated.Keys == stats.Keys && Accumulated(updated, roll, rows)
  {
    updated := stats;
    for i := 0 to |rows|
      invariant updated.Keys == stats.Keys && Accumulated(updated, roll, rows[..i])
    {
      updated := AddPayment(updated, rows[i], roll, rows[..i]);
      assert rows[..i + 1] == rows[..i] + [rows[i]];
    }
    assert rows[..|rows|] == rows;
  }

  function DataOf(key: string, s: SectionStats): SectionData {
    SectionData(key, s.expectedRevenue, s.collectedRevenue, s.expectedRevenue - s.collectedRevenue,
                |s.students|, |s.paidStudents|, |s.students| - |s.paidStudents|, s.paymentsCount,
                s.regularPayments, s.offCyclePayments, s.advancePayments, s.arrearPayments)
  }

  method SectionsInOrder(stats: map<string, SectionStats>, order: seq<string>) returns (data: seq<SectionData>)
    requires (set key | key in order) == stats.Keys
    ensures |data| == |order|
    ensures forall i | 0 <= i < |order| :: order[i] in stats && data[i] == DataOf(order[i], stats[order[i]])
  {
    data := [];
    for i := 0 to |order|
      invariant |data| == i
      invariant forall k | 0 <= k < i :: order[k] in stats && data[k] == DataOf(order[k], stats[order[k]])
    {
      assert order[i] in (set key | key in order);
      data := data + [DataOf(order[i], stats[order[i]])];
    }
  }

  function Expected(): SectionData -> int {
    (d: SectionData) => d.expectedRevenue
  }

  function Received(): SectionData -> int {
    (d: SectionData) => d.collectedRevenue
  }

  /** The sections of a roll and of the rows of a report, as the response lists
      them. */
  ghost predicate SectionReport(data: seq<SectionData>, order: seq<string>, roll: seq<Pupil>, rows: seq<Row>) {
    |data| == |order| &&
    Listed(SectionsOf(roll), order, roll) &&
    (forall i | 0 <= i < |data| :: data[i] == DataOf(order[i], Section(roll, rows, order[i])))
  }

  lemma {:induction false} SectionSums(data: seq<SectionData>, order: seq<string>, roll: seq<Pupil>, rows: seq<Row>)
    requires |data| == |order|
    requires forall i | 0 <= i < |data| :: data[i] == DataOf(order[i], Section(roll, rows, order[i]))
    ensures Sum(data, Expected()) == Sum(order, SumForKey(roll, PupilSection(), Fee()))
    ensures Sum(data, Received()) == Sum(order, SumForKey(rows, RowSection(), RowAmount()))
  {
    if data != [] {
      var n := |data| - 1;
      SectionSums(data[..n], order[..n], roll, rows);
    }
  }

  function Unplaced(order: seq<string>): Row -> bool {
    (r: Row) => RowSection()(r) !in order
  }

  /** The breakdown conserves money: expected revenues add up to the total, and
      collected revenues together with payments of sections that have no current
      student add up to everything that was fetched. */
  lemma SectionsConserveMoney(data: seq<SectionData>, order: seq<string>, roll: seq<Pupil>, rows: seq<Row>)
    requires SectionReport(data, order, roll, rows)
    ensures Sum(data, Expected()) == Sum(roll, Fee())
    ensures Sum(data, Received()) + Sum(Filter(rows, Unplaced(order)), RowAmount()) == Sum(rows, RowAmount())
  {
    SectionSums(data, order, roll, rows);
    SumOverKeys(order, roll, PupilSection(), Fee());
    SumOverKeys(order, rows, RowSection(), RowAmount());
    forall x | x in roll ensures KeyIn(PupilSection(), order)(x) {
      assert PupilSection()(x) in SectionsOf(roll);
      assert PupilSection()(x) in (set k | k in order);
    }
    FilterAll(roll, KeyIn(PupilSection(), order));
    SumSplit(rows, KeyIn(RowSection(), order), Unplaced(order), RowAmount());
  }

  /** Within each section the heads add up as they do over the whole report. */
  lemma SectionHeads(cal: Calendar, payId: string, k: int, roll: seq<Pupil>, rows: seq<Row>, key: string)
    requires ValidCalendar(cal) && Labelled(cal, payId, k, rows)
    ensures var s := Section(roll, rows, key);
      && s.regularPayments + s.offCyclePayments == s.paymentsCount
      && s.arrearPayments + s.advancePayments
         + |Filter(Filter(rows, KeyIs(RowSection(), key)), Stray(payId))| == s.offCyclePayments
  {
    FilterMembers(rows, KeyIs(RowSection(), key));
    TotalsShareOut(cal, payId, k, Filter(rows, KeyIs(RowSection(), key)));
  }

  // ---------------------------------------------------------------------
  // The rows by time
  // ---------------------------------------------------------------------

  /** Created after the month of its label. */
  function Late(cal: Calendar): Row -> bool {
    (r: Row) => match ParsePayId(r.payment.payId)
      case Some(m) => r.payment.createdAt >= cal.month(m + 1)
      case None => false
  }

  /** Created before the month of its label. */
  function Early(cal: Calendar): Row -> bool {
    (r: Row) => match ParsePayId(r.payment.payId)
      case Some(m) => r.payment.createdAt < cal.month(m)
      case None => false
  }

  /** Labelled with the cycle and created in its month k. */
  function InTime(cal: Calendar, payId: string, k: int): Row -> bool {
    (r: Row) => r.payment.payId == payId && cal.month(k) <= r.payment.createdAt < cal.month(k + 1)
  }

  /** Labelled with the cycle and created no earlier, or late for any month. */
  function Earned(cal: Calendar, payId: string, k: int): Row -> bool {
    (r: Row) => (r.payment.payId == payId && r.payment.createdAt >= cal.month(k)) || Late(cal)(r)
  }

  ghost predicate ByTime(cal: Calendar, payId: string, k: int, r: Row) {
    (r.isArrear <==> Late(cal)(r)) && (r.isAdvance <==> Early(cal)(r)) && (r.isOffCycle <==> !InTime(cal, payId, k)(r))
  }

  lemma RowIsByTime(cal: Calendar, payId: string, k: int, p: Payment)
    ensures ByTime(cal, payId, k, Classify(cal, payId, k, p))
  {
  }

  /** Every row is an arrear, an advance or off cycle by the time of its payment. */
  lemma RowsAreByTime(cal: Calendar, payId: string, k: int, rows: seq<Row>)
    requires Labelled(cal, payId, k, rows)
    ensures forall r | r in rows :: ByTime(cal, payId, k, r)
  {
    forall r | r in rows ensures ByTime(cal, payId, k, r) {
      RowIsByTime(cal, payId, k, r.payment);
    }
  }

  /** A payment of the cycle's month is an arrear exactly for an earlier month, and an
      advance exactly for a later one. */
  lemma CycleRowHeads(cal: Calendar, payId: string, k: int, r: Row, m: int)
    requires ValidCalendar(cal) && ByTime(cal, payId, k, r)
    requires cal.month(k) <= r.payment.createdAt < cal.month(k + 1) && ParsePayId(r.payment.payId) == Some(m)
    ensures r.isArrear <==> m < k
    ensures r.isAdvance <==> m > k
  {
    assert cal.month(m) < cal.month(m + 1);
    if m < k {
      LaterMonth(cal, m, k);
    } else if k < m {
      LaterMonth(cal, k, m);
    }
  }

  /** The payments fetched, with their labels, in collection order. */
  ghost predicate Reported(cal: Calendar, payId: string, k: int, payments: seq<Payment>, rows: seq<Row>) {
    Labelled(cal, payId, k, rows) && ClassifiedFrom(cal, payId, k, Filter(payments, Fetched(cal, payId, k)), rows)
  }

  function InQuery(cal: Calendar, payId: string, k: int): Payment -> bool {
    (p: Payment) => p.payId == payId || cal.month(k) <= p.createdAt < cal.month(k + 1)
  }

  function PaymentOf(): Row -> Payment {
    (r: Row) => r.payment
  }

  /** The rows are the payments labelled with the cycle or created in its month, in
      collection order. */
  lemma RowsAreFetched(cal: Calendar, payId: string, k: int, payments: seq<Payment>, rows: seq<Row>)
    requires Reported(cal, payId, k, payments, rows)
    ensures ListsAll(payments, InQuery(cal, payId, k), Map(rows, PaymentOf()))
  {
    FilterSame(payments, Fetched(cal, payId, k), InQuery(cal, payId, k));
    FilterLists(payments, InQuery(cal, payId, k));
    var fetched := Filter(payments, Fetched(cal, payId, k));
    forall i | 0 <= i < |rows| ensures Map(rows, PaymentOf())[i] == fetched[i] {
      assert rows[i] == Classify(cal, payId, k, fetched[i]);
    }
    assert Map(rows, PaymentOf()) == fetched;
  }

  // ---------------------------------------------------------------------
  // The report
  // ---------------------------------------------------------------------

  /** The summary balances: regular, arrear and advance payments are all payments
      if and only if no fetched payment has a stray label, and collected revenue
      plus advances is the total amount if and only if those with one are worth
      nothing. */
  lemma SummaryBalancesIff(cal: Calendar, payId: string, k: int, rows: seq<Row>)
    requires ValidCalendar(cal) && Labelled(cal, payId, k, rows)
    ensures |Filter(rows, OnCycle())| + |Filter(rows, Arrear())| + |Filter(rows, Advance())| == |rows|
       <==> forall r | r in rows :: !Stray(payId)(r)
    ensures Sum(Filter(rows, Collected(payId)), RowAmount()) + Sum(Filter(rows, Advance()), RowAmount())
         == Sum(rows, RowAmount())
       <==> Sum(Filter(rows, Stray(payId)), RowAmount()) == 0
    ensures (forall r | r in rows :: !Stray(payId)(r)) ==> Filter(rows, Stray(payId)) == []
  {
    TotalsShareOut(cal, payId, k, rows);
    FilterMembers(rows, Stray(payId));
    if forall r | r in rows :: !Stray(payId)(r) {
      FilterNone(rows, Stray(payId));
    }
  }

  /** In particular it balances when all identifiers name calendar months. */
  lemma ProperSummaryBalances(cal: Calendar, payId: string, k: int, rows: seq<Row>)
    requires ValidCalendar(cal) && Labelled(cal, payId, k, rows)
    requires ProperPayId(payId) && forall r | r in rows :: ProperPayId(r.payment.payId)
    ensures |Filter(rows, OnCycle())| + |Filter(rows, Arrear())| + |Filter(rows, Advance())| == |rows|
    ensures Sum(Filter(rows, Collected(payId)), RowAmount()) + Sum(Filter(rows, Advance()), RowAmount())
         == Sum(rows, RowAmount())
  {
    forall r | r in rows ensures !Stray(payId)(r) {
      ProperAreNotStray(payId, r);
    }
    SummaryBalancesIff(cal, payId, k, rows);
  }

  /** What each figure of the summary is, in terms of the roll and the rows. */
  ghost predicate Describes(summary: Summary, cal: Calendar, payId: string, k: int, roll: seq<Pupil>, rows: seq<Row>,
                            order: seq<string>)
  {
    && SectionReport(summary.sections, order, roll, rows)
    && |summary.weeklyCollections| == 4
    && (forall w | 0 <= w < 4 ::
          summary.weeklyCollections[w] == Sum(Filter(rows, FallsIn(cal, k, w)), RowAmount()))
    && summary.totalExpectedRevenue == Sum(roll, Fee())
    && summary.studentStrength == |roll|
    && summary.totalCollectedRevenue == Sum(Filter(rows, Collected(payId)), RowAmount())
    && summary.totalPendingRevenue == summary.totalExpectedRevenue - summary.totalCollectedRevenue
    && summary.totalPayments == |rows|
    && summary.totalAmount == Sum(rows, RowAmount())
    && summary.arrearPayments == |Filter(rows, Arrear())|
    && summary.amountFromArrearsPayments == Sum(Filter(rows, Arrear()), RowAmount())
    && summary.advancePayments == |Filter(rows, Advance())|
    && summary.amountFromAdvancePayments == Sum(Filter(rows, Advance()), RowAmount())
    && summary.regularPayments == |Filter(rows, OnCycle())|
    && summary.offCyclePayments == |Filter(rows, OffCycle())|
    && summary.uniqueStudents == |Payers(rows)|
  }

  datatype Report = Report(payments: seq<Row>, summary: Summary)

  datatype Failure = InvalidCycle

  /** The rest of the report once the cycle's payments are fetched. */
  method Summarize(cal: Calendar, roll: seq<Pupil>, payId: string, k: int, rows: seq<Row>)
    returns (summary: Summary, ghost order: seq<string>)
    ensures Describes(summary, cal, payId, k, roll, rows, order)
  {
    var stats, keys, totalExpectedRevenue := EnrolStudents(roll);
    var totalCollectedRevenue, _ := SumWhere(rows, Collected(payId));
    var weekly := WeeklyCollections(cal, k, rows);
    stats := AddPayments(stats, rows, roll);
    var sections := SectionsInOrder(stats, keys);
    var totalAmount, totalPayments := SumWhere(rows, Anything());
    FilterAll(rows, Anything());
    var advanceAmount, advances := SumWhere(rows, Advance());
    var arrearAmount, arrears := SumWhere(rows, Arrear());
    var _, regular := SumWhere(rows, OnCycle());
    var _, offCycle := SumWhere(rows, OffCycle());
    order := keys;
    summary := Summary(totalExpectedRevenue, totalCollectedRevenue, totalExpectedRevenue - totalCollectedRevenue,
                       |roll|, weekly, sections, totalPayments, totalAmount, advances, arrears,
                       advanceAmount, arrearAmount, regular, offCycle, |Payers(rows)|);
  }

  /** A cycle that parses to no month fails: its query would have invalid bounds. */
  method GetPaymentsForCycle(cal: Calendar, roll: seq<Pupil>, payments: seq<Payment>, payId: string)
    returns (r: Result<Report, Failure>, ghost order: seq<string>)
    ensures r.Ok? <==> ParsePayId(payId).Some?
    ensures r.Ok? ==>
      var k := ParsePayId(payId).value;
      Reported(cal, payId, k, payments, r.value.payments) &&
      (forall row | row in r.value.payments :: ByTime(cal, payId, k, row)) &&
      ListsAll(payments, InQuery(cal, payId, k), Map(r.value.payments, PaymentOf())) &&
      Describes(r.value.summary, cal, payId, k, roll, r.value.payments, order)
  {
    order := [];
    var cycle := ParsePayId(payId);
    if cycle.None? {
      return Err(InvalidCycle), [];
    }
    var k := cycle.value;
    var fetched := Filter(payments, Fetched(cal, payId, k));
    FilterMembers(payments, Fetched(cal, payId, k));
    var rows := Enhance(cal, payId, k, fetched);
    RowsAreByTime(cal, payId, k, rows);
    RowsAreFetched(cal, payId, k, payments, rows);
    var summary;
    summary, order := Summarize(cal, roll, payId, k, rows);
    r := Ok(Report(rows, summary));
  }

  /** The figures of a report agree with each other. */
  lemma ReportAgrees(summary: Summary, cal: Calendar, payId: string, k: int, roll: seq<Pupil>, rows: seq<Row>,
                     order: seq<string>)
    requires ValidCalendar(cal) && Labelled(cal, payId, k, rows) && Describes(summary, cal, payId, k, roll, rows, order)
    ensures summary.regularPayments + summary.offCyclePayments == summary.totalPayments
    ensures summary.regularPayments + summary.arrearPayments + summary.advancePayments == summary.totalPayments
       <==> forall r | r in rows :: !Stray(payId)(r)
    ensures summary.totalCollectedRevenue + summary.amountFromAdvancePayments == summary.totalAmount
       <==> Sum(Filter(rows, Stray(payId)), RowAmount()) == 0
    ensures Sum(summary.sections, Expected()) == summary.totalExpectedRevenue
    ensures Sum(summary.sections, Received()) + Sum(Filter(rows, Unplaced(order)), RowAmount()) == summary.totalAmount
    ensures summary.weeklyCollections[0] + summary.weeklyCollections[1] + summary.weeklyCollections[2]
          + summary.weeklyCollections[3] == Sum(Filter(rows, FourWeeks(cal, k)), RowAmount())
  {
    TotalsShareOut(cal, payId, k, rows);
    SummaryBalancesIff(cal, payId, k, rows);
    SectionsConserveMoney(summary.sections, order, roll, rows);
    WeeksCountOnce(cal, k, rows);
  }
}
