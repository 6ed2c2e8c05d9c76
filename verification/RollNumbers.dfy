/** Registration numbers YYMMDD-C-SS: the day's tracker, the generator with its
    retries and transactions, the legacy generator on the same tracker, batch
    reservation and the preview. */
module RollNumbers {
  import opened Sequences
  import opened Decimal

  /** The tracker document of one day. */
  datatype Tracker = Tracker(lastSequence: nat, checkDigit: nat)

  const MAX_ATTEMPTS := 3

  function Format(today: string, checkDigit: nat, sequence: string): string {
    today + "-" + Dec(checkDigit) + "-" + sequence
  }

  /** findOneAndUpdate with upsert and $inc. */
  function Incremented(t: Option<Tracker>): Tracker {
    match t
    case None => Tracker(1, 0)
    case Some(d) => Tracker(d.lastSequence + 1, d.checkDigit)
  }

  /** The tracker after a draw. */
  function Advanced(t: Option<Tracker>): Tracker {
    var d := Incremented(t);
    if d.lastSequence > 99 then Tracker(1, (d.checkDigit + 1) % 10) else d
  }

  /** The id of a draw; the generators differ in what they print at a wrap. */
  function Printed(today: string, t: Option<Tracker>, atWrap: string): string {
    var d := Incremented(t);
    if d.lastSequence > 99 then Format(today, (d.checkDigit + 1) % 10, atWrap)
    else Format(today, d.checkDigit, Padded(d.lastSequence, 2))
  }

  // ---------------------------------------------------------------------
  // Closed form.  The draws of a day are numbered from 0.
  // ---------------------------------------------------------------------

  function SequenceOf(n: nat): nat {
    n % 99 + 1
  }

  function CheckOf(n: nat): nat {
    (n / 99) % 10
  }

  /** The tracker after n draws of the day. */
  function After(n: nat): Option<Tracker> {
    if n == 0 then None else Some(Tracker(SequenceOf(n - 1), CheckOf(n - 1)))
  }

  /** The id of draw n of the day. */
  function IdAt(today: string, n: nat): string {
    Format(today, CheckOf(n), Padded(SequenceOf(n), 2))
  }

  predicate Wraps(n: nat) {
    n > 0 && n % 99 == 0
  }

  function LegacyIdAt(today: string, n: nat): string {
    Format(today, CheckOf(n), if Wraps(n) then "00" else Padded(SequenceOf(n), 2))
  }

  /** One draw moves the closed form one step, and prints its id. */
  lemma DrawClosedForm(today: string, n: nat)
    ensures Some(Advanced(After(n))) == After(n + 1)
    ensures Printed(today, After(n), "01") == IdAt(today, n)
    ensures Printed(today, After(n), "00") == LegacyIdAt(today, n)
  {
    PaddedTwo(1);
    assert TwoDigits(1) == "01";
    if n > 0 {
      NextPosition(n - 1);
    }
  }

  /** An id is the date, a check digit and a two-digit sequence, joined by dashes; the
      legacy generator prints 00 where the sequence starts over. */
  lemma IdLayout(today: string, n: nat)
    ensures IdAt(today, n) == today + "-" + [DigitChar(n / 99 % 10)] + "-" + TwoDigits(n % 99 + 1)
    ensures LegacyIdAt(today, n) == if n > 0 && n % 99 == 0 then today + "-" + [DigitChar(n / 99 % 10)] + "-" + "00"
                                    else IdAt(today, n)
  {
    PaddedTwo(SequenceOf(n));
  }

  lemma LayoutIs(today: string, n: nat, c: string, s: string)
    requires c == [DigitChar(n / 99 % 10)] && s == TwoDigits(n % 99 + 1)
    ensures IdAt(today, n) == today + "-" + c + "-" + s
  {
    IdLayout(today, n);
  }

  /** The first id of a day, the last before the first wrap, and the two forms of the one
      after it. */
  lemma FirstIdsOfDay(today: string)
    ensures IdAt(today, 0) == today + "-" + "0" + "-" + "01"
    ensures IdAt(today, 98) == today + "-" + "0" + "-" + "99"
    ensures IdAt(today, 99) == today + "-" + "1" + "-" + "01"
    ensures LegacyIdAt(today, 99) == today + "-" + "1" + "-" + "00"
  {
    LayoutIs(today, 0, "0", "01");
    LayoutIs(today, 98, "0", "99");
    LayoutIs(today, 99, "1", "01");
    IdLayout(today, 99);
  }

  /** The tracker holds the sequence and the check digit of the last draw. */
  lemma TrackerLayout(n: nat)
    ensures n == 0 ==> After(n) == None
    ensures n > 0 ==> After(n) == Some(Tracker((n - 1) % 99 + 1, (n - 1) / 99 % 10))
  {
  }

  lemma NextPosition(n: nat)
    ensures if SequenceOf(n) == 99 then SequenceOf(n + 1) == 1 && CheckOf(n + 1) == (CheckOf(n) + 1) % 10
            else SequenceOf(n + 1) == SequenceOf(n) + 1 && CheckOf(n + 1) == CheckOf(n)
    ensures Wraps(n + 1) <==> SequenceOf(n) == 99
  {
    var q, r := n / 99, n % 99;
    if r == 98 {
      assert n + 1 == 99 * (q + 1);
      assert (n + 1) / 99 == q + 1 && (n + 1) % 99 == 0;
      assert (q + 1) % 10 == (q % 10 + 1) % 10;
    } else {
      assert (n + 1) / 99 == q && (n + 1) % 99 == r + 1;
    }
  }

  lemma FormatInjective(today: string, c: nat, s: string, day: string, d: nat, t: string)
    requires |today| == |day| && c < 10 && d < 10
    requires Format(today, c, s) == Format(day, d, t)
    ensures today == day && c == d && s == t
  {
    var x, k := Format(today, c, s), |today|;
    assert x[..k] == today && x[..k] == day;
    assert Dec(c) == [DigitChar(c)] && Dec(d) == [DigitChar(d)];
    assert x[k + 1] == DigitChar(c) && x[k + 1] == DigitChar(d);
    assert x[k + 3..] == s && x[k + 3..] == t;
  }

  lemma SameRemainder(x: int, y: int)
    ensures x % 990 == y % 990 <==> (x - y) % 990 == 0
  {
    var a, r, b, s := x / 990, x % 990, y / 990, y % 990;
    var c := (x - y) / 990;
    assert x == 990 * a + r && y == 990 * b + s;
    assert x - y == 990 * c + (x - y) % 990;
    if r == s {
      assert x - y == 990 * (a - b);
    }
  }

  lemma PositionRemainder(n: nat)
    ensures n % 990 == 99 * CheckOf(n) + (SequenceOf(n) - 1)
  {
    var q, r := n / 99, n % 99;
    var u, v := q / 10, q % 10;
    assert n == 99 * q + r && q == 10 * u + v;
    assert n == 990 * u + (99 * v + r);
  }

  lemma PositionRepeats(m: nat, n: nat)
    ensures SequenceOf(m) == SequenceOf(n) && CheckOf(m) == CheckOf(n) <==> m % 990 == n % 990
  {
    PositionRemainder(m);
    PositionRemainder(n);
  }

  lemma NearbyPositionsDiffer(m: nat, n: nat)
    requires m < n < m + 990
    ensures SequenceOf(m) != SequenceOf(n) || CheckOf(m) != CheckOf(n)
  {
    PositionRepeats(m, n);
    SameRemainder(n, m);
  }

  /** Two draws print the same id exactly on the same day at indices that agree
      modulo 990. */
  lemma SameIdIff(today: string, m: nat, day: string, n: nat)
    requires |today| == |day|
    ensures IdAt(today, m) == IdAt(day, n) <==> today == day && m % 990 == n % 990
  {
    PositionRepeats(m, n);
    if IdAt(today, m) == IdAt(day, n) {
      FormatInjective(today, CheckOf(m), Padded(SequenceOf(m), 2), day, CheckOf(n), Padded(SequenceOf(n), 2));
      PaddedInjective(SequenceOf(m), SequenceOf(n), 2);
    }
  }

  // ---------------------------------------------------------------------
  // Both generators on one tracker
  // ---------------------------------------------------------------------

  /** The ids that a sequence of calls prints; `true` stands for a call of the
      legacy generator. */
  function MixedRun(today: string, t: Option<Tracker>, legacy: seq<bool>): seq<string>
    decreases |legacy|
  {
    if legacy == [] then []
    else [Printed(today, t, if legacy[0] then "00" else "01")]
         + MixedRun(today, Some(Advanced(t)), legacy[1..])
  }

  /** The sequence text of draw n. */
  function TextAt(legacy: bool, n: nat): string {
    if legacy && Wraps(n) then "00" else Padded(SequenceOf(n), 2)
  }

  function Trackers(): nat -> Option<Tracker> {
    (n: nat) => After(n)
  }

  function DrawnBy(today: string): (bool, nat) -> string {
    (legacy: bool, n: nat) => Format(today, CheckOf(n), TextAt(legacy, n))
  }

  ghost predicate DrawFollows(today: string, trackers: nat -> Option<Tracker>, drawn: (bool, nat) -> string, m: nat) {
    trackers(m + 1) == Some(Advanced(trackers(m))) &&
    drawn(true, m) == Printed(today, trackers(m), "00") && drawn(false, m) == Printed(today, trackers(m), "01")
  }

  /** Whatever closed form each draw follows, the run follows. */
  lemma {:induction false} RunFollows(today: string, trackers: nat -> Option<Tracker>, drawn: (bool, nat) -> string,
                                      n: nat, legacy: seq<bool>, k: nat)
    requires (forall m: nat :: DrawFollows(today, trackers, drawn, m)) && k < |legacy|
    ensures |MixedRun(today, trackers(n), legacy)| == |legacy|
    ensures MixedRun(today, trackers(n), legacy)[k] == drawn(legacy[k], n + k)
    decreases |legacy|
  {
    assert DrawFollows(today, trackers, drawn, n);
    assert MixedRun(today, trackers(n), legacy)
        == [drawn(legacy[0], n)] + MixedRun(today, trackers(n + 1), legacy[1..]);
    if |legacy| > 1 {
      RunFollows(today, trackers, drawn, n + 1, legacy[1..], if k == 0 then 0 else k - 1);
    }
  }

  /** Each id of a run in closed form, however the generators take turns. */
  lemma MixedRunAt(today: string, n: nat, legacy: seq<bool>, k: nat)
    requires k < |legacy|
    ensures |MixedRun(today, After(n), legacy)| == |legacy|
    ensures MixedRun(today, After(n), legacy)[k] == Format(today, CheckOf(n + k), TextAt(legacy[k], n + k))
  {
    forall m: nat ensures DrawFollows(today, Trackers(), DrawnBy(today), m) {
      DrawClosedForm(today, m);
    }
    RunFollows(today, Trackers(), DrawnBy(today), n, legacy, k);
  }

  /** The text of a draw determines its sequence number. */
  lemma TextPosition(f: bool, m: nat, g: bool, n: nat)
    requires TextAt(f, m) == TextAt(g, n)
    ensures SequenceOf(m) == SequenceOf(n)
  {
    PaddedValue(SequenceOf(m), 2);
    PaddedValue(SequenceOf(n), 2);
    assert "00"[..1] == "0" && "0"[..0] == "";
    assert Value("00") == 0;
  }

  lemma TextsDiffer(today: string, f: bool, m: nat, g: bool, n: nat)
    requires m < n < m + 990
    ensures Format(today, CheckOf(m), TextAt(f, m)) != Format(today, CheckOf(n), TextAt(g, n))
  {
    NearbyPositionsDiffer(m, n);
    var s, t := TextAt(f, m), TextAt(g, n);
    if Format(today, CheckOf(m), s) == Format(today, CheckOf(n), t) {
      FormatInjective(today, CheckOf(m), s, today, CheckOf(n), t);
      TextPosition(f, m, g, n);
    }
  }

  lemma PrintedDiffer(ids: seq<string>, today: string, n: nat, legacy: seq<bool>, i: nat, j: nat)
    requires i < j < |legacy| && j < i + 990 && |ids| == |legacy|
    requires ids[i] == Format(today, CheckOf(n + i), TextAt(legacy[i], n + i))
    requires ids[j] == Format(today, CheckOf(n + j), TextAt(legacy[j], n + j))
    ensures ids[i] != ids[j]
  {
    TextsDiffer(today, legacy[i], n + i, legacy[j], n + j);
  }

  /** However the two generators take turns on one tracker, from any point of the
      day on, any 990 consecutive ids are pairwise distinct. */
  lemma MixedRunDistinct(today: string, n: nat, legacy: seq<bool>, i: nat, j: nat)
    requires i < j < |legacy| && j < i + 990
    ensures var ids := MixedRun(today, After(n), legacy); |ids| == |legacy| && ids[i] != ids[j]
  {
    MixedRunAt(today, n, legacy, i);
    MixedRunAt(today, n, legacy, j);
    PrintedDiffer(MixedRun(today, After(n), legacy), today, n, legacy, i, j);
  }

  /** Two draws of which the second increments the tracker before the first has reset
      it both wrap; they print the same id exactly when they come from the same
      generator. */
  lemma OverlappingWrapsCollideIff(today: string, checkDigit: nat, first: string, second: string)
    ensures var unreset := Some(Incremented(Some(Tracker(99, checkDigit))));
      Printed(today, Some(Tracker(99, checkDigit)), first) == Printed(today, unreset, second) <==> first == second
  {
    var c := (checkDigit + 1) % 10;
    if Format(today, c, first) == Format(today, c, second) {
      FormatInjective(today, c, first, today, c, second);
    }
  }

  // ---------------------------------------------------------------------
  // Retries and reservation
  // ---------------------------------------------------------------------

  function Ids(today: string): nat -> string {
    (n: nat) => IdAt(today, n)
  }

  function Unheld(id: nat -> string, registered: set<string>): nat -> bool {
    (n: nat) => id(n) !in registered
  }

  /** The test whether no student has the id of a draw. */
  function Free(today: string, registered: set<string>): nat -> bool {
    Unheld(Ids(today), registered)
  }

  /** The first free draw among the `left` draws from n on. */
  function FirstFree(free: nat -> bool, n: nat, left: nat): Option<nat>
    decreases left
  {
    if left == 0 then None
    else if free(n) then Some(n)
    else FirstFree(free, n + 1, left - 1)
  }

  lemma {:induction false} FirstFreeIs(free: nat -> bool, n: nat, left: nat)
    ensures match FirstFree(free, n, left)
      case None => forall k | n <= k < n + left :: !free(k)
      case Some(i) => n <= i < n + left && free(i) &&
                      forall k | n <= k < i :: !free(k)
    decreases left
  {
    if left > 0 && !free(n) {
      FirstFreeIs(free, n + 1, left - 1);
    }
  }

  /** What one call under a session finds. */
  function Attempt(free: nat -> bool, n: nat): Option<nat> {
    FirstFree(free, n, MAX_ATTEMPTS)
  }

  lemma AttemptIs(free: nat -> bool, n: nat)
    requires Attempt(free, n).Some?
    ensures var i := Attempt(free, n).value;
      n <= i < n + 3 && free(i) && forall k | n <= k < i :: !free(k)
  {
    FirstFreeIs(free, n, MAX_ATTEMPTS);
  }

  /** The draws that a reservation hands out, or None when it gives up. */
  function Reservation(free: nat -> bool, n: nat, count: nat): Option<seq<nat>>
    decreases count
  {
    if count == 0 then Some([])
    else
      match Attempt(free, n)
      case None => None
      case Some(i) =>
        match Reservation(free, i + 1, count - 1)
        case None => None
        case Some(rest) => Some([i] + rest)
  }

  ghost predicate Increasing(taken: seq<nat>) {
    forall i, j | 0 <= i < j < |taken| :: taken[i] < taken[j]
  }

  /** `taken` lists the free draws from n up to its last one, in order, after at
      most three attempts each. */
  ghost predicate TakesFree(free: nat -> bool, n: nat, taken: seq<nat>) {
    Increasing(taken) &&
    (forall i | 0 <= i < |taken| :: n + i <= taken[i] < n + 3 * (i + 1) && free(taken[i])) &&
    (forall k: nat | taken != [] && n <= k <= taken[|taken| - 1] && free(k) :: k in taken)
  }

  lemma MissesNone(free: nat -> bool, n: nat, i: nat, rest: seq<nat>, k: nat)
    requires n <= i && (forall k | n <= k < i :: !free(k)) && TakesFree(free, i + 1, rest)
    requires n <= k <= (if rest == [] then i else rest[|rest| - 1]) && free(k)
    ensures k == i || k in rest
  {
  }

  lemma TakesCons(free: nat -> bool, n: nat, i: nat, rest: seq<nat>)
    requires n <= i < n + 3 && free(i)
    requires forall k | n <= k < i :: !free(k)
    requires TakesFree(free, i + 1, rest)
    ensures TakesFree(free, n, [i] + rest)
  {
    var taken := [i] + rest;
    forall k: nat | n <= k <= taken[|taken| - 1] && free(k) ensures k in taken {
      MissesNone(free, n, i, rest, k);
    }
    forall j | 0 <= j < |taken|
      ensures n + j <= taken[j] < n + 3 * (j + 1) && free(taken[j])
    {
      if j > 0 {
        assert taken[j] == rest[j - 1];
      }
    }
  }

  lemma ReservationCons(free: nat -> bool, n: nat, count: nat)
    requires count > 0 && Reservation(free, n, count).Some?
    ensures Attempt(free, n).Some?
    ensures var i := Attempt(free, n).value;
      && n <= i < n + 3 && free(i) && (forall k | n <= k < i :: !free(k))
      && Reservation(free, i + 1, count - 1).Some?
      && Reservation(free, n, count).value == [i] + Reservation(free, i + 1, count - 1).value
  {
    AttemptIs(free, n);
  }

  lemma {:induction false} ReservationTakes(free: nat -> bool, n: nat, count: nat)
    requires Reservation(free, n, count).Some?
    ensures |Reservation(free, n, count).value| == count
    ensures TakesFree(free, n, Reservation(free, n, count).value)
    decreases count
  {
    if count > 0 {
      ReservationCons(free, n, count);
      var i := Attempt(free, n).value;
      var rest := Reservation(free, i + 1, count - 1).value;
      ReservationTakes(free, i + 1, count - 1);
      TakesCons(free, n, i, rest);
    }
  }

  ghost predicate IdsDistinct(today: string, taken: seq<nat>) {
    forall i, j | 0 <= i < j < |taken| :: IdAt(today, taken[i]) != IdAt(today, taken[j])
  }

  lemma ShortSpanDistinct(today: string, taken: seq<nat>)
    requires Increasing(taken) && taken != [] && taken[|taken| - 1] < taken[0] + 990
    ensures IdsDistinct(today, taken)
  {
    forall i, j | 0 <= i < j < |taken| ensures IdAt(today, taken[i]) != IdAt(today, taken[j]) {
      assert i == 0 || taken[0] < taken[i];
      assert j == |taken| - 1 || taken[j] < taken[|taken| - 1];
      TextsDiffer(today, false, taken[i], false, taken[j]);
    }
  }

  lemma LongSpanRepeats(today: string, n: nat, registered: set<string>, taken: seq<nat>)
    requires TakesFree(Free(today, registered), n, taken) && taken != [] && taken[|taken| - 1] >= taken[0] + 990
    ensures !IdsDistinct(today, taken)
  {
    var again := taken[0] + 990;
    SameIdIff(today, taken[0], today, again);
    SameRemainder(taken[0], again);
    assert Free(today, registered)(again);
    var j :| 0 <= j < |taken| && taken[j] == again;
    assert IdAt(today, taken[0]) == IdAt(today, taken[j]);
  }

  lemma SpannedDistinctIff(today: string, n: nat, registered: set<string>, taken: seq<nat>)
    requires TakesFree(Free(today, registered), n, taken) && taken != []
    ensures IdsDistinct(today, taken) <==> taken[|taken| - 1] < taken[0] + 990
  {
    if taken[|taken| - 1] < taken[0] + 990 {
      ShortSpanDistinct(today, taken);
    } else {
      LongSpanRepeats(today, n, registered, taken);
    }
  }

  // ---------------------------------------------------------------------
  // How many ids a day has left
  // ---------------------------------------------------------------------

  /** The number of free draws from a up to, but not including, b. */
  function FreeCount(free: nat -> bool, a: nat, b: nat): nat {
    if b <= a then 0 else FreeCount(free, a, b - 1) + (if free(b - 1) then 1 else 0)
  }

  lemma {:induction false} FreeCountSplits(free: nat -> bool, a: nat, b: nat, c: nat)
    requires a <= b <= c
    ensures FreeCount(free, a, c) == FreeCount(free, a, b) + FreeCount(free, b, c)
  {
    if b < c {
      FreeCountSplits(free, a, b, c - 1);
    }
  }

  lemma {:induction false} NoneFree(free: nat -> bool, a: nat, b: nat)
    requires forall k | a <= k < b :: !free(k)
    ensures FreeCount(free, a, b) == 0
  {
    if a < b {
      NoneFree(free, a, b - 1);
    }
  }

  lemma OneDraw(free: nat -> bool, a: nat)
    ensures FreeCount(free, a, a + 1) == if free(a) then 1 else 0
  {
    assert FreeCount(free, a, a) == 0;
  }

  ghost predicate Periodic(free: nat -> bool, period: nat) {
    forall k: nat :: free(k + period) == free(k)
  }

  /** Every window of a whole period has the same number of free draws. */
  lemma {:induction false} WindowsAgree(free: nat -> bool, period: nat, n: nat)
    requires Periodic(free, period)
    ensures FreeCount(free, n, n + period) == FreeCount(free, 0, period)
  {
    if n > 0 {
      var m := n - 1;
      WindowsAgree(free, period, m);
      FreeCountSplits(free, m, n, n + period);
      FreeCountSplits(free, m, m + period, n + period);
      OneDraw(free, m);
      OneDraw(free, m + period);
      assert free(m + period) == free(m);
    }
  }

  lemma TakenBefore(free: nat -> bool, n: nat, taken: seq<nat>)
    requires TakesFree(free, n, taken) && |taken| > 1
    ensures TakesFree(free, n, taken[..|taken| - 1])
    ensures forall k | taken[|taken| - 2] < k < taken[|taken| - 1] :: !free(k)
  {
    var last := |taken| - 1;
    var front := taken[..last];
    forall k: nat | n <= k <= front[last - 1] && free(k) ensures k in front {
      var i :| 0 <= i < |taken| && taken[i] == k;
      assert i < last && front[i] == k;
    }
    forall k | taken[last - 1] < k < taken[last] ensures k !in taken {
      forall i | 0 <= i < |taken| ensures taken[i] != k {
        assert i == last - 1 || i == last || taken[i] < taken[last - 1];
      }
    }
  }

  /** A reservation takes as many draws as are free on its way. */
  lemma {:induction false} TakenAreCounted(free: nat -> bool, n: nat, taken: seq<nat>)
    requires TakesFree(free, n, taken) && taken != []
    ensures n <= taken[0] <= taken[|taken| - 1]
    ensures FreeCount(free, taken[0], taken[|taken| - 1] + 1) == |taken|
  {
    var last := |taken| - 1;
    OneDraw(free, taken[last]);
    if last > 0 {
      var first, before := taken[0], taken[last - 1];
      TakenBefore(free, n, taken);
      TakenAreCounted(free, n, taken[..last]);
      NoneFree(free, before + 1, taken[last]);
      FreeCountSplits(free, first, before + 1, taken[last]);
      FreeCountSplits(free, first, taken[last], taken[last] + 1);
    }
  }

  lemma SpanOfCount(free: nat -> bool, first: nat, last: nat, end: nat)
    requires first <= last && first <= end && free(last)
    ensures last < end <==> FreeCount(free, first, last + 1) <= FreeCount(free, first, end)
  {
    if last < end {
      FreeCountSplits(free, first, last + 1, end);
    } else {
      FreeCountSplits(free, first, end, last);
      FreeCountSplits(free, first, last, last + 1);
      OneDraw(free, last);
    }
  }

  /** In a periodic supply a reservation stays within one period of its first draw
      exactly when it takes no more than a period has free. */
  lemma SpanIffCount(free: nat -> bool, period: nat, n: nat, taken: seq<nat>)
    requires Periodic(free, period) && TakesFree(free, n, taken) && taken != []
    ensures taken[|taken| - 1] < taken[0] + period <==> |taken| <= FreeCount(free, 0, period)
  {
    TakenAreCounted(free, n, taken);
    WindowsAgree(free, period, taken[0]);
    SpanOfCount(free, taken[0], taken[|taken| - 1], taken[0] + period);
  }

  /** The first m of a numbered supply of ids. */
  function FirstIds(id: nat -> string, m: nat): set<string> {
    set k | 0 <= k < m :: id(k)
  }

  lemma FirstIdsGrow(id: nat -> string, m: nat)
    requires forall k | 0 <= k < m :: id(k) != id(m)
    ensures FirstIds(id, m + 1) == FirstIds(id, m) + {id(m)} && id(m) !in FirstIds(id, m)
  {
  }

  lemma AddUnused(ids: set<string>, id: string, registered: set<string>)
    requires id !in ids
    ensures |(ids + {id}) - registered| == |ids - registered| + (if id in registered then 0 else 1)
  {
    var before := ids - registered;
    assert (ids + {id}) - registered == if id in registered then before else before + {id};
  }

  lemma UnusedStep(id: nat -> string, registered: set<string>, m: nat)
    requires forall k | 0 <= k < m :: id(k) != id(m)
    ensures |FirstIds(id, m + 1) - registered|
         == |FirstIds(id, m) - registered| + (if id(m) in registered then 0 else 1)
  {
    FirstIdsGrow(id, m);
    AddUnused(FirstIds(id, m), id(m), registered);
  }

  /** How many of the first m ids are not held. */
  function UnusedBelow(id: nat -> string, registered: set<string>): nat -> nat {
    (m: nat) => |FirstIds(id, m) - registered|
  }

  lemma {:induction false} CountFollows(count: nat -> nat, free: nat -> bool, m: nat)
    requires count(0) == 0
    requires forall k: nat | k < m :: count(k + 1) == count(k) + (if free(k) then 1 else 0)
    ensures count(m) == FreeCount(free, 0, m)
  {
    if m > 0 {
      CountFollows(count, free, m - 1);
      assert count(m - 1 + 1) == count(m - 1) + (if free(m - 1) then 1 else 0);
    }
  }

  lemma UnusedAreCounted(id: nat -> string, registered: set<string>, m: nat)
    requires forall j, k | 0 <= j < k < m :: id(j) != id(k)
    ensures |FirstIds(id, m) - registered| == FreeCount(Unheld(id, registered), 0, m)
  {
    var count, free := UnusedBelow(id, registered), Unheld(id, registered);
    assert FirstIds(id, 0) == {};
    forall k: nat | k < m ensures count(k + 1) == count(k) + (if free(k) then 1 else 0) {
      UnusedStep(id, registered, k);
    }
    CountFollows(count, free, m);
  }

  const CYCLE: nat := 990

  /** All ids that a day has. */
  function DayIds(today: string): set<string> {
    FirstIds(Ids(today), CYCLE)
  }

  /** The ids of the day that no student holds. */
  function UnusedIds(today: string, registered: set<string>): set<string> {
    DayIds(today) - registered
  }

  lemma SmallRemainders(j: nat, k: nat)
    requires j < k < 990
    ensures j % 990 != k % 990
  {
  }

  lemma IdsDiffer(today: string, j: nat, k: nat)
    requires j % 990 != k % 990
    ensures IdAt(today, j) != IdAt(today, k)
  {
    SameIdIff(today, j, today, k);
  }

  lemma DayIdsDiffer(today: string, j: nat, k: nat)
    requires j < k < CYCLE
    ensures Ids(today)(j) != Ids(today)(k)
  {
    SmallRemainders(j, k);
    IdsDiffer(today, j, k);
  }

  lemma UnusedIsFreeCount(today: string, registered: set<string>)
    ensures |UnusedIds(today, registered)| == FreeCount(Free(today, registered), 0, CYCLE)
  {
    forall j, k | 0 <= j < k < CYCLE ensures Ids(today)(j) != Ids(today)(k) {
      DayIdsDiffer(today, j, k);
    }
    UnusedAreCounted(Ids(today), registered, CYCLE);
  }

  lemma IdComesAgain(today: string, k: nat)
    ensures Ids(today)(k + CYCLE) == Ids(today)(k)
  {
    SameRemainder(k + CYCLE, k);
    SameIdIff(today, k + CYCLE, today, k);
  }

  lemma FreeIsPeriodic(today: string, registered: set<string>)
    ensures Periodic(Free(today, registered), CYCLE)
  {
    forall k: nat ensures Free(today, registered)(k + CYCLE) == Free(today, registered)(k) {
      IdComesAgain(today, k);
    }
  }

  /** The ids of a reservation are pairwise distinct exactly when it asks for no more
      than the day's ids that no student holds. */
  lemma ReservedDistinctIff(today: string, n: nat, registered: set<string>, taken: seq<nat>)
    requires TakesFree(Free(today, registered), n, taken)
    ensures IdsDistinct(today, taken) <==> |taken| <= |UnusedIds(today, registered)|
  {
    if taken != [] {
      SpannedDistinctIff(today, n, registered, taken);
      FreeIsPeriodic(today, registered);
      SpanIffCount(Free(today, registered), CYCLE, n, taken);
      UnusedIsFreeCount(today, registered);
    }
  }

  lemma {:induction false} AllFree(free: nat -> bool, m: nat)
    requires forall k: nat :: free(k)
    ensures FreeCount(free, 0, m) == m
  {
    if m > 0 {
      AllFree(free, m - 1);
    }
  }

  /** A day has 990 ids. */
  lemma DayHas990Ids(today: string)
    ensures |DayIds(today)| == 990 == |UnusedIds(today, {})|
  {
    UnusedIsFreeCount(today, {});
    AllFree(Free(today, {}), CYCLE);
    assert UnusedIds(today, {}) == DayIds(today);
  }

  // ---------------------------------------------------------------------
  // When a reservation succeeds
  // ---------------------------------------------------------------------

  ghost predicate Stuck(free: nat -> bool, k: nat) {
    !free(k) && !free(k + 1) && !free(k + 2)
  }

  /** Wherever three draws in a row are held, `count` free ones come before. */
  ghost predicate Suffices(free: nat -> bool, n: nat, count: nat) {
    forall k: nat | n <= k && Stuck(free, k) :: FreeCount(free, n, k) >= count
  }

  lemma CountFrom(free: nat -> bool, n: nat, i: nat, k: nat)
    requires n <= i < k && free(i) && forall j | n <= j < i :: !free(j)
    ensures FreeCount(free, n, k) == 1 + FreeCount(free, i + 1, k)
  {
    NoneFree(free, n, i);
    OneDraw(free, i);
    FreeCountSplits(free, n, i, i + 1);
    FreeCountSplits(free, n, i + 1, k);
  }

  lemma SufficesFrom(free: nat -> bool, n: nat, i: nat, count: nat)
    requires n <= i < n + 3 && count > 0 && free(i) && forall k | n <= k < i :: !free(k)
    ensures Suffices(free, n, count) <==> Suffices(free, i + 1, count - 1)
  {
    forall k: nat | n <= k && Stuck(free, k)
      ensures i < k && FreeCount(free, n, k) == 1 + FreeCount(free, i + 1, k)
    {
      assert k > i || k == i || k + 1 == i || k + 2 == i;
      CountFrom(free, n, i, k);
    }
  }

  lemma FailsIff(free: nat -> bool, n: nat)
    ensures Attempt(free, n).None? <==> Stuck(free, n)
  {
    FirstFreeIs(free, n, MAX_ATTEMPTS);
  }

  /** A reservation succeeds exactly when it meets no three held ids in a row
      before it has what it asks for. */
  lemma {:induction false} ReservationSucceedsIff(free: nat -> bool, n: nat, count: nat)
    ensures Reservation(free, n, count).Some? <==> Suffices(free, n, count)
    decreases count
  {
    if count > 0 {
      FailsIff(free, n);
      match Attempt(free, n)
      case None =>
        assert FreeCount(free, n, n) == 0;
      case Some(i) =>
        AttemptIs(free, n);
        ReservationSucceedsIff(free, i + 1, count - 1);
        SufficesFrom(free, n, i, count);
    }
  }

  /** On a day on which no id is held every reservation succeeds, and one of 991 ids
      or more repeats an id. */
  lemma LargeReservationRepeats(today: string, n: nat, count: nat)
    requires count > 990
    ensures var r := Reservation(Free(today, {}), n, count);
      r.Some? && |r.value| == count && !IdsDistinct(today, r.value)
  {
    var free := Free(today, {});
    assert forall k: nat :: free(k);
    ReservationSucceedsIff(free, n, count);
    ReservationTakes(free, n, count);
    ReservedDistinctIff(today, n, {}, Reservation(free, n, count).value);
    DayHas990Ids(today);
  }

  /** What a successful reservation of `count` ids after n draws returns. */
  ghost predicate HandedOut(today: string, n: nat, registered: set<string>, taken: seq<nat>, ids: seq<string>) {
    && |ids| == |taken| && TakesFree(Free(today, registered), n, taken)
    && (forall i | 0 <= i < |ids| :: ids[i] == Ids(today)(taken[i]) && ids[i] !in registered)
  }

  ghost predicate Distinct(ids: seq<string>) {
    forall i, j | 0 <= i < j < |ids| :: ids[i] != ids[j]
  }

  lemma ReservedIds(today: string, n: nat, registered: set<string>, taken: seq<nat>, ids: seq<string>)
    requires Reservation(Free(today, registered), n, |taken|) == Some(taken)
    requires |ids| == |taken| && forall i | 0 <= i < |ids| :: ids[i] == Ids(today)(taken[i])
    ensures HandedOut(today, n, registered, taken, ids)
    ensures Distinct(ids) <==> |ids| <= |UnusedIds(today, registered)|
  {
    ReservationTakes(Free(today, registered), n, |taken|);
    assert forall i | 0 <= i < |ids| :: Free(today, registered)(taken[i]);
    ReservedDistinctIff(today, n, registered, taken);
    assert IdsDistinct(today, taken) <==> Distinct(ids);
  }

  /** Up to 330 ids are always reserved without a repetition, more than 990 never. */
  lemma ReservationSizes(today: string, n: nat, registered: set<string>, taken: seq<nat>)
    requires TakesFree(Free(today, registered), n, taken) && taken != []
    ensures |taken| <= 330 ==> IdsDistinct(today, taken)
    ensures |taken| > 990 ==> !IdsDistinct(today, taken)
  {
    SpannedDistinctIff(today, n, registered, taken);
    IncreasingSpan(taken, |taken| - 1);
  }

  lemma {:induction false} IncreasingSpan(taken: seq<nat>, i: nat)
    requires i < |taken| && Increasing(taken)
    ensures taken[i] >= taken[0] + i
  {
    if i > 0 {
      IncreasingSpan(taken, i - 1);
    }
  }

  // ---------------------------------------------------------------------
  // Preview
  // ---------------------------------------------------------------------

  datatype Simulated = Simulated(id: string, date: string, sequence: nat, checkDigit: nat, index: nat)

  /** The simulator's variables after i turns: it prints first and wraps
      afterwards. */
  function Simulation(sequence: nat, checkDigit: nat, i: nat): (nat, nat) {
    if i == 0 then (sequence, checkDigit)
    else
      var (s, c) := Simulation(sequence, checkDigit, i - 1);
      if s + 1 > 99 then (1, (c + 1) % 10) else (s + 1, c)
  }

  function SimulatedAt(today: string, sequence: nat, checkDigit: nat, i: nat): Simulated {
    var (s, c) := Simulation(sequence, checkDigit, i);
    Simulated(Format(today, c, Padded(s, 2)), today, s, c, i + 1)
  }

  method SimulateIdGeneration(count: int, today: string, startSequence: nat, startCheckDigit: nat)
    returns (results: seq<Simulated>)
    ensures |results| == if count <= 0 then 0 else count
    ensures forall i | 0 <= i < |results| :: results[i] == SimulatedAt(today, startSequence, startCheckDigit, i)
  {
    results := [];
    if count <= 0 {
      return;
    }
    var currentSequence, currentCheckDigit := startSequence, startCheckDigit;
    for i := 0 to count
      invariant |results| == i
      invariant (currentSequence, currentCheckDigit) == Simulation(startSequence, startCheckDigit, i)
      invariant forall k | 0 <= k < i :: results[k] == SimulatedAt(today, startSequence, startCheckDigit, k)
    {
      var id := Format(today, currentCheckDigit, Padded(currentSequence, 2));
      results := results + [Simulated(id, today, currentSequence, currentCheckDigit, i + 1)];
      currentSequence := currentSequence + 1;
      if currentSequence > 99 {
        currentSequence, currentCheckDigit := 1, (currentCheckDigit + 1) % 10;
      }
    }
  }

  function PreviewStart(t: Option<Tracker>): (nat, nat) {
    match t
    case None => (1, 0)
    case Some(d) => (d.lastSequence + 1, d.checkDigit)
  }

  lemma SimulationStep(sequence: nat, checkDigit: nat, i: nat, m: nat)
    requires Simulation(sequence, checkDigit, i) == (SequenceOf(m), CheckOf(m))
    ensures Simulation(sequence, checkDigit, i + 1) == (SequenceOf(m + 1), CheckOf(m + 1))
  {
    NextPosition(m);
  }

  /** From any position but the last of a cycle the simulation is the sequence of
      real positions. */
  lemma {:induction false} SimulationFollows(n: nat, i: nat)
    requires n == 0 || SequenceOf(n - 1) < 99
    ensures var (s, c) := PreviewStart(After(n)); Simulation(s, c, i) == (SequenceOf(n + i), CheckOf(n + i))
  {
    var (s, c) := PreviewStart(After(n));
    if i == 0 {
      if n > 0 {
        NextPosition(n - 1);
      }
    } else {
      SimulationFollows(n, i - 1);
      SimulationStep(s, c, i - 1, n + i - 1);
    }
  }

  /** At the end of a cycle it prints a sequence number of 100 and then lags one
      draw behind. */
  lemma {:induction false} SimulationLags(n: nat, i: nat)
    requires n > 0 && SequenceOf(n - 1) == 99
    ensures var (s, c) := PreviewStart(After(n));
      Simulation(s, c, i) == if i == 0 then (100, CheckOf(n - 1)) else (SequenceOf(n + i - 1), CheckOf(n + i - 1))
  {
    var (s, c) := PreviewStart(After(n));
    if i == 1 {
      NextPosition(n - 1);
      assert Simulation(s, c, 0) == (s, c);
    } else if i > 1 {
      SimulationLags(n, i - 1);
      SimulationStep(s, c, i - 1, n + i - 2);
    }
  }

  /** What a preview from below 99 says of its i-th id, and its labels in any case. */
  lemma PreviewLabels(today: string, n: nat, i: nat)
    ensures var (s, c) := PreviewStart(After(n));
      var p := SimulatedAt(today, s, c, i);
      && p.date == today && p.index == i + 1
      && (n == 0 || n % 99 != 0 ==> p.sequence == (n + i) % 99 + 1 && p.checkDigit == (n + i) / 99 % 10)
  {
    if n == 0 || n % 99 != 0 {
      if n > 0 {
        NextPosition(n - 1);
      }
      SimulationFollows(n, i);
    }
  }

  /** The preview of k >= 1 ids shows the next k collision-free draws if and only
      if there is no tracker yet or its lastSequence is below 99. */
  lemma PreviewIsRealityIff(today: string, n: nat, k: nat)
    requires k > 0
    ensures var (s, c) := PreviewStart(After(n));
      (forall i | 0 <= i < k :: SimulatedAt(today, s, c, i).id == IdAt(today, n + i)) <==>
      (After(n).None? || After(n).value.lastSequence < 99)
  {
    var (s, c) := PreviewStart(After(n));
    if n == 0 || SequenceOf(n - 1) < 99 {
      forall i | 0 <= i < k ensures SimulatedAt(today, s, c, i).id == IdAt(today, n + i) {
        SimulationFollows(n, i);
      }
    } else {
      SimulationLags(n, 0);
      PaddedInjective(100, SequenceOf(n), 2);
      if SimulatedAt(today, s, c, 0).id == IdAt(today, n) {
        FormatInjective(today, CheckOf(n - 1), Padded(100, 2), today, CheckOf(n), Padded(SequenceOf(n), 2));
      }
    }
  }
}
