/** Billing months: the MMYY identifiers and the calendar they refer to.  Months
    are numbered from January 2000, weeks from the first week of a month. */
module Billing {

  import opened Sequences
  import opened Decimal

  function SkipSpace(s: string): string {
    if s != "" && IsSpace(s[0]) then SkipSpace(s[1..]) else s
  }

  function LeadingDigits(s: string): (digits: string)
    ensures AllDigits(digits)
  {
    if s != "" && IsDigit(s[0]) then [s[0]] + LeadingDigits(s[1..]) else ""
  }

  /** parseInt(s, 10); None stands for NaN. */
  function ParseInt(s: string): Option<int> {
    var t := SkipSpace(s);
    var digits := LeadingDigits(if t != "" && (t[0] == '-' || t[0] == '+') then t[1..] else t);
    var value: int := Value(digits);
    if digits == "" then None
    else if t[0] == '-' then Some(-value)
    else Some(value)
  }

  function Slice(s: string, i: nat, j: nat): string
    requires i <= j
  {
    if |s| <= i then "" else if |s| <= j then s[i..] else s[i..j]
  }

  /** parsePayId on any string: the number of the month that the Date constructor
      arrives at, or None for an invalid date.  Other month numbers than 1 to 12
      roll over into other years. */
  function ParsePayId(payId: string): Option<int> {
    var month, year := ParseInt(Slice(payId, 0, 2)), ParseInt(Slice(payId, 2, 4));
    if month.Some? && year.Some? then Some(12 * year.value + (month.value - 1)) else None
  }

  predicate FourDigits(payId: string) {
    |payId| == 4 && forall i | 0 <= i < 4 :: IsDigit(payId[i])
  }

  function MonthPart(payId: string): int
    requires FourDigits(payId)
  {
    10 * DigitValue(payId[0]) + DigitValue(payId[1])
  }

  function YearPart(payId: string): int
    requires FourDigits(payId)
  {
    10 * DigitValue(payId[2]) + DigitValue(payId[3])
  }

  /** Names a calendar month as getPayId does. */
  predicate ProperPayId(payId: string) {
    FourDigits(payId) && 1 <= MonthPart(payId) <= 12
  }

  lemma ParseTwoDigits(a: char, b: char)
    requires IsDigit(a) && IsDigit(b)
    ensures ParseInt([a, b]) == Some(10 * DigitValue(a) + DigitValue(b))
  {
    var s := [a, b];
    assert [b][1..] == "" && [b] + "" == [b];
    assert LeadingDigits([b]) == [b] + LeadingDigits("") == [b];
    assert s[1..] == [b] && [a] + [b] == s;
    assert LeadingDigits(s) == [a] + LeadingDigits([b]) == s;
    assert s[..1] == [a] && [a][..0] == "";
    assert Value([a]) == DigitValue(a);
  }

  lemma ParseFourDigits(payId: string)
    requires FourDigits(payId)
    ensures ParsePayId(payId) == Some(12 * YearPart(payId) + (MonthPart(payId) - 1))
  {
    ParseTwoDigits(payId[0], payId[1]);
    ParseTwoDigits(payId[2], payId[3]);
    assert Slice(payId, 0, 2) == [payId[0], payId[1]] && Slice(payId, 2, 4) == [payId[2], payId[3]];
  }

  /** getPayId in month `m`. */
  function GetPayId(m: int): string {
    TwoDigits(m % 12 + 1) + TwoDigits((2000 + m / 12) % 100)
  }

  /** Only the first four characters count. */
  lemma ParseIgnoresTail(payId: string)
    requires |payId| >= 4
    ensures ParsePayId(payId) == ParsePayId(payId[..4])
  {
    assert Slice(payId, 0, 2) == Slice(payId[..4], 0, 2) && Slice(payId, 2, 4) == Slice(payId[..4], 2, 4);
  }

  /** A label that starts like a word is no month. */
  lemma ParseWord(payId: string)
    requires payId != "" && !IsSpace(payId[0]) && !IsDigit(payId[0]) && payId[0] != '-' && payId[0] != '+'
    ensures ParsePayId(payId) == None
  {
    var s := Slice(payId, 0, 2);
    assert s != "" && s[0] == payId[0];
    assert SkipSpace(s) == s && LeadingDigits(s) == "";
  }

  lemma PrintedParts(m: int)
    ensures var payId := GetPayId(m);
      FourDigits(payId) && MonthPart(payId) == m % 12 + 1 && YearPart(payId) == (2000 + m / 12) % 100
  {
    TwoDigitsValue(m % 12 + 1);
    TwoDigitsValue((2000 + m / 12) % 100);
    var payId := GetPayId(m);
    assert payId[..2] == TwoDigits(m % 12 + 1) && payId[2..] == TwoDigits((2000 + m / 12) % 100);
    assert payId[0] == payId[..2][0] && payId[1] == payId[..2][1];
    assert payId[2] == payId[2..][0] && payId[3] == payId[2..][1];
  }

  /** Parsing what getPayId prints gives the month back up to the century, and
      every proper identifier is printed by exactly that month of 2000 to 2099. */
  lemma PayIdRoundTrip(m: int)
    ensures ProperPayId(GetPayId(m)) && ParsePayId(GetPayId(m)) == Some(m % 1200)
  {
    PrintedParts(m);
    CenturyRemainder(m);
    ParseFourDigits(GetPayId(m));
  }

  lemma CenturyRemainder(m: int)
    ensures 12 * ((2000 + m / 12) % 100) + m % 12 == m % 1200
  {
    var y := m / 12;
    var c := y / 100;
    assert (2000 + y) % 100 == y - 100 * c;
    assert m == 1200 * c + (12 * (y - 100 * c) + m % 12);
  }

  lemma ProperPayIdIsPrinted(payId: string)
    requires ProperPayId(payId)
    ensures var m := ParsePayId(payId); m.Some? && 0 <= m.value < 1200 && GetPayId(m.value) == payId
  {
    ParseFourDigits(payId);
    PrintParts(payId, MonthPart(payId), YearPart(payId));
  }

  lemma PrintParts(payId: string, m: int, y: int)
    requires FourDigits(payId) && m == MonthPart(payId) && y == YearPart(payId) && 1 <= m <= 12
    ensures 0 <= 12 * y + (m - 1) < 1200 && GetPayId(12 * y + (m - 1)) == payId
  {
    var k := 12 * y + (m - 1);
    assert k / 12 == y && k % 12 == m - 1 && (2000 + y) % 100 == y;
    DigitsAreTwoDigits(payId[0], payId[1]);
    DigitsAreTwoDigits(payId[2], payId[3]);
    assert payId == [payId[0], payId[1]] + [payId[2], payId[3]];
  }

  /** Two months share an identifier exactly when they are whole centuries apart. */
  lemma PayIdCollidesIff(m: int, n: int)
    ensures GetPayId(m) == GetPayId(n) <==> m % 1200 == n % 1200
  {
    PayIdRoundTrip(m);
    PayIdRoundTrip(n);
    ProperPayIdIsPrinted(GetPayId(m));
    ProperPayIdIsPrinted(GetPayId(n));
  }

  // ---------------------------------------------------------------------
  // Calendars
  // ---------------------------------------------------------------------

  /** `month(m)` is the first millisecond of month m; `week(m, i)` is the start of
      the i-th week (from 0) counted from the week that holds month(m). */
  datatype Calendar = Calendar(month: int -> int, week: (int, int) -> int)

  ghost predicate ValidCalendar(c: Calendar) {
    (forall m :: c.month(m) < c.month(m + 1)) &&
    (forall m, i | 0 <= i < 4 :: c.week(m, i) < c.week(m, i + 1))
  }

  function MonthEnd(c: Calendar, m: int): int {
    c.month(m + 1) - 1
  }

  lemma {:induction false} LaterMonth(c: Calendar, m: int, n: int)
    requires ValidCalendar(c) && m < n
    ensures MonthEnd(c, m) < c.month(n)
    decreases n - m
  {
    if m + 1 < n {
      LaterMonth(c, m, n - 1);
      assert c.month(n - 1) < c.month(n - 1 + 1);
      assert c.month(m) < c.month(m + 1);
    }
  }

  lemma WeeksInOrder(c: Calendar, m: int)
    requires ValidCalendar(c)
    ensures c.week(m, 0) < c.week(m, 1) < c.week(m, 2) < c.week(m, 3) < c.week(m, 4)
  {
    assert c.week(m, 0) < c.week(m, 0 + 1) && c.week(m, 1) < c.week(m, 1 + 1);
    assert c.week(m, 2) < c.week(m, 2 + 1) && c.week(m, 3) < c.week(m, 3 + 1);
  }

  const DAY := 86_400_000

  predicate IsLeap(year: int) {
    year % 4 == 0 && (year % 100 != 0 || year % 400 == 0)
  }

  function DaysIn(m: int): int {
    var k := m % 12;
    if k == 1 then (if IsLeap(2000 + m / 12) then 29 else 28)
    else if k == 3 || k == 5 || k == 8 || k == 10 then 30
    else 31
  }

  /** The first day of month m, in days since 1 January 2000. */
  function FirstDay(m: int): int
    decreases if m < 0 then -m else m
  {
    if m == 0 then 0
    else if m > 0 then FirstDay(m - 1) + DaysIn(m - 1)
    else FirstDay(m + 1) - DaysIn(m)
  }

  /** The Monday of the week of a day: 1 January 2000 was a Saturday. */
  function Monday(day: int): int {
    day - (day + 5) % 7
  }

  /** The calendar of a server that keeps UTC. */
  function UtcCalendar(): Calendar {
    Calendar((m: int) => FirstDay(m) * DAY, (m: int, i: int) => (Monday(FirstDay(m)) + 7 * i) * DAY)
  }

  lemma UtcIsValid()
    ensures ValidCalendar(UtcCalendar())
  {
    forall m ensures FirstDay(m) < FirstDay(m + 1) {
      assert FirstDay(m + 1) == FirstDay(m) + DaysIn(m);
    }
  }

  /** Months have their Gregorian lengths, from 1 January 2000 on. */
  lemma UtcMonths(m: int)
    ensures UtcCalendar().month(0) == 0
    ensures var days := if m % 12 == 1 then if IsLeap(2000 + m / 12) then 29 else 28
                        else if m % 12 in {3, 5, 8, 10} then 30 else 31;
      UtcCalendar().month(m + 1) == UtcCalendar().month(m) + 86_400_000 * days
  {
    assert FirstDay(m + 1) == FirstDay(m) + DaysIn(m);
  }

  lemma NextFirstDay(m: int)
    ensures FirstDay(m + 1) == FirstDay(m) + DaysIn(m)
  {
  }

  /** So years have 365 days, and leap years one more. */
  lemma UtcYears(year: int)
    ensures var m := 12 * (year - 2000);
      UtcCalendar().month(m + 12) == UtcCalendar().month(m)
        + 86_400_000 * (if year % 4 == 0 && (year % 100 != 0 || year % 400 == 0) then 366 else 365)
  {
    var m := 12 * (year - 2000);
    YearLength(m, year);
  }

  lemma YearLength(m: int, year: int)
    requires m == 12 * (year - 2000)
    ensures FirstDay(m + 12) == FirstDay(m) + (if IsLeap(year) then 366 else 365)
  {
    assert m % 12 == 0 && m / 12 == year - 2000;
    FourMonths(m, year, 0);
    FourMonths(m + 4, year, 4);
    FourMonths(m + 8, year, 8);
  }

  lemma FourMonths(m: int, year: int, k: int)
    requires m == 12 * (year - 2000) + k && (k == 0 || k == 4 || k == 8)
    ensures FirstDay(m + 4) == FirstDay(m) + (if k == 0 then 120 else if k == 4 then 123 else 122)
                             + (if k == 0 && IsLeap(year) then 1 else 0)
  {
    MonthOfYear(year, k);
    MonthOfYear(year, k + 1);
    MonthOfYear(year, k + 2);
    MonthOfYear(year, k + 3);
    NextFirstDay(m);
    NextFirstDay(m + 1);
    NextFirstDay(m + 2);
    NextFirstDay(m + 3);
  }

  lemma MonthOfYear(year: int, k: int)
    requires 0 <= k < 12
    ensures (12 * (year - 2000) + k) % 12 == k && (12 * (year - 2000) + k) / 12 == year - 2000
  {
  }

  /** The weeks of a month start on Mondays (3 January 2000 was one), the first of them in
      the week that the month starts in. */
  lemma UtcWeeks(m: int, i: int)
    ensures UtcCalendar().week(m, 0) <= UtcCalendar().month(m) < UtcCalendar().week(m, 1)
    ensures UtcCalendar().week(m, i + 1) == UtcCalendar().week(m, i) + 604_800_000
    ensures exists n :: UtcCalendar().week(m, 0) == 2 * 86_400_000 + 604_800_000 * n
  {
    var day := FirstDay(m);
    var n := (day + 5) / 7 - 1;
    assert Monday(day) == 2 + 7 * n;
    assert UtcCalendar().week(m, 0) == 2 * 86_400_000 + 604_800_000 * n;
  }

  /** Signs and white space before the digits are read, and other characters end the
      number. */
  lemma ParseSigned(d: char)
    requires IsDigit(d)
    ensures ParseInt([d]) == ParseInt(['+', d]) == ParseInt([' ', d]) == ParseInt([d, 'x']) == Some(DigitValue(d))
    ensures ParseInt(['-', d]) == Some(-DigitValue(d))
  {
    assert [d][1..] == "" && [d] + "" == [d] && LeadingDigits([d]) == [d] + LeadingDigits("");
    assert [d][..0] == "" && Value([d]) == DigitValue(d);
    assert ['+', d][1..] == [d] && ['-', d][1..] == [d] && [' ', d][1..] == [d];
    assert [d, 'x'][1..] == ['x'] && LeadingDigits(['x']) == "" && LeadingDigits([d, 'x']) == [d] + "";
  }
}
