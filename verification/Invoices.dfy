/** Invoice ids INV-PREFIX-SEQUENCE-RANDOM: a counter document whose sequence
    restarts under a new prefix in every month.  Months are numbered as in
    Billing; a call is one step. */
module Invoices {
  import opened Sequences
  import opened Decimal
  import Billing

  /** The counter document; `lastUpdated` only matters by its month. */
  datatype Counter = Counter(sequence: nat, prefix: string, lastUpdated: int)

  /** The parts of an issued id, with the month of the call. */
  datatype Issue = Issue(month: int, prefix: string, sequence: nat, random: string)

  /** The alphabet of the random parts. */
  const ALPHABET := "23456789ABCDEFGHJKLMNPQRSTUVWXYZ"

  /** generateRandomString on the given random bytes. */
  function RandomString(bytes: seq<nat>): (r: string)
    ensures |r| == |bytes|
  {
    if bytes == [] then ""
    else RandomString(bytes[..|bytes| - 1]) + [ALPHABET[bytes[|bytes| - 1] % |ALPHABET|]]
  }

  lemma {:induction false} RandomHasNoDash(bytes: seq<nat>)
    ensures NoDash(RandomString(bytes))
  {
    if bytes != [] {
      RandomHasNoDash(bytes[..|bytes| - 1]);
      AlphabetHasNoDash(bytes[|bytes| - 1] % |ALPHABET|);
    }
  }

  lemma AlphabetHasNoDash(i: nat)
    requires i < |ALPHABET|
    ensures ALPHABET[i] != '-'
  {
    AlphabetIsClear(i);
  }

  /** Year and month as YYMM. */
  function YearMonth(m: int): string {
    TwoDigits((2000 + m / 12) % 100) + TwoDigits(m % 12 + 1)
  }

  function NewPrefix(m: int, random: string): string {
    random + YearMonth(m)
  }

  // ---------------------------------------------------------------------
  // The counter
  // ---------------------------------------------------------------------

  /** ensureCounter: a missing counter is created, one of another month restarted. */
  function EnsureCounter(c: Option<Counter>, m: int, random: string): Counter {
    if c.None? || c.value.lastUpdated != m then Counter(0, NewPrefix(m, random), m) else c.value
  }

  /** Allocating k numbers: the counter afterwards, and the k issues. */
  function Allocate(c: Option<Counter>, m: int, random: string, tails: nat -> string, k: nat): (Counter, seq<Issue>) {
    var d := EnsureCounter(c, m, random);
    (d.(sequence := d.sequence + k),
     seq(k, (i: nat) => Issue(m, d.prefix, d.sequence + 1 + i, tails(i))))
  }

  function Print(x: Issue, paddingLength: nat): string {
    "INV-" + x.prefix + "-" + Padded(x.sequence, paddingLength) + "-" + x.random
  }

  /** A call: `count` is 1 for generateId, and generateBatch's argument otherwise;
      `prefixBytes` feeds the prefix, `tails` the random ends. */
  datatype Call = Call(month: int, prefixBytes: (nat, nat), tails: nat -> string, count: nat)

  function PrefixRandom(q: Call): string {
    RandomString([q.prefixBytes.0, q.prefixBytes.1])
  }

  function Serve(c: Option<Counter>, q: Call): (Counter, seq<Issue>) {
    Allocate(c, q.month, PrefixRandom(q), q.tails, q.count)
  }

  function IssuedBy(c: Option<Counter>, qs: seq<Call>): seq<Issue>
    decreases |qs|
  {
    if qs == [] then []
    else
      var (d, issues) := Serve(c, qs[0]);
      issues + IssuedBy(Some(d), qs[1..])
  }

  // ---------------------------------------------------------------------
  // No repetition
  // ---------------------------------------------------------------------

  /** The clock does not go back, and stays inside the century from 2000 on. */
  ghost predicate Forward(qs: seq<Call>, from: int) {
    (forall i | 0 <= i < |qs| :: from <= qs[i].month < 1200 && 0 <= qs[i].month) &&
    (forall i, j | 0 <= i < j < |qs| :: qs[i].month <= qs[j].month)
  }

  ghost predicate SameNumber(x: Issue, y: Issue) {
    x.prefix == y.prefix && x.sequence == y.sequence
  }

  ghost predicate NoRepeats(issues: seq<Issue>) {
    forall i, j | 0 <= i < j < |issues| :: !SameNumber(issues[i], issues[j])
  }

  /** The counter's own prefix is one of its month. */
  ghost predicate Proper(c: Option<Counter>) {
    c.Some? ==> 0 <= c.value.lastUpdated < 1200 && OfMonth(c.value.prefix, c.value.lastUpdated)
  }

  ghost predicate OfMonth(prefix: string, m: int) {
    |prefix| == 6 && prefix[2..] == YearMonth(m)
  }

  lemma YearMonthIsModulo(m: int, n: int)
    requires YearMonth(m) == YearMonth(n)
    ensures m % 1200 == n % 1200
  {
    var s := YearMonth(m);
    assert s[..2] == TwoDigits((2000 + m / 12) % 100) && s[..2] == TwoDigits((2000 + n / 12) % 100);
    assert s[2..] == TwoDigits(m % 12 + 1) && s[2..] == TwoDigits(n % 12 + 1);
    SameTwoDigits((2000 + m / 12) % 100, (2000 + n / 12) % 100);
    SameTwoDigits(m % 12 + 1, n % 12 + 1);
    Billing.CenturyRemainder(m);
    Billing.CenturyRemainder(n);
  }

  lemma SameMonth(m: int, n: int)
    requires m <= n < m + 1200 && m % 1200 == n % 1200
    ensures m == n
  {
  }

  // ---------------------------------------------------------------------
  // What the parts of an id show
  // ---------------------------------------------------------------------

  /** Digits and capitals without the easily confused 0, 1, I and O. */
  predicate IsClear(c: char) {
    '2' <= c <= '9' || ('A' <= c <= 'Z' && c != 'I' && c != 'O')
  }

  lemma AlphabetIsClear(i: nat)
    requires i < |ALPHABET|
    ensures IsClear(ALPHABET[i])
  {
    assert |ALPHABET| == 32;
    assert ALPHABET[..16] == "23456789ABCDEFGH" && ALPHABET[16..] == "JKLMNPQRSTUVWXYZ";
    if i < 16 {
      assert ALPHABET[i] == "23456789ABCDEFGH"[i];
    } else {
      assert ALPHABET[i] == "JKLMNPQRSTUVWXYZ"[i - 16];
    }
  }

  lemma {:induction false} RandomIsClear(bytes: seq<nat>)
    ensures |RandomString(bytes)| == |bytes| && forall c | c in RandomString(bytes) :: IsClear(c)
  {
    if bytes != [] {
      RandomIsClear(bytes[..|bytes| - 1]);
      AlphabetIsClear(bytes[|bytes| - 1] % |ALPHABET|);
    }
  }

  /** Two characters that read as a number. */
  ghost predicate ReadsAs(s: string, at: nat, n: int) {
    at + 2 <= |s| && IsDigit(s[at]) && IsDigit(s[at + 1]) && 10 * DigitValue(s[at]) + DigitValue(s[at + 1]) == n
  }

  /** The prefix of a month: two clear characters, two digits of the year and two of the
      month. */
  ghost predicate ShowsMonth(prefix: string, m: int) {
    |prefix| == 6 && ReadsAs(prefix, 2, (2000 + m / 12) % 100) && ReadsAs(prefix, 4, m % 12 + 1)
  }

  lemma OfMonthShows(prefix: string, m: int)
    requires OfMonth(prefix, m)
    ensures ShowsMonth(prefix, m)
  {
    var year, month := (2000 + m / 12) % 100, m % 12 + 1;
    TwoDigitsValue(year);
    TwoDigitsValue(month);
    assert prefix[2..][..2] == TwoDigits(year) && prefix[2..][2..] == TwoDigits(month);
    assert prefix[2] == TwoDigits(year)[0] && prefix[3] == TwoDigits(year)[1];
    assert prefix[4] == TwoDigits(month)[0] && prefix[5] == TwoDigits(month)[1];
  }

  /** A restart gives the counter a prefix of clear characters and its month. */
  lemma NewPrefixShows(m: int, bytes: (nat, nat))
    ensures var prefix := NewPrefix(m, RandomString([bytes.0, bytes.1]));
      ShowsMonth(prefix, m) && IsClear(prefix[0]) && IsClear(prefix[1])
  {
    var random := RandomString([bytes.0, bytes.1]);
    RandomIsClear([bytes.0, bytes.1]);
    assert (random + YearMonth(m))[2..] == YearMonth(m);
    OfMonthShows(NewPrefix(m, random), m);
    assert random[0] in random && random[1] in random;
    assert NewPrefix(m, random)[0] == random[0] && NewPrefix(m, random)[1] == random[1];
  }

  /** The sequence as decimal digits, padded with zeros to the width. */
  ghost predicate IsNumeral(z: string, n: nat, width: nat) {
    AllDigits(z) && Value(z) == n && |z| >= width && (|z| > width && |z| > 1 ==> z[0] != '0')
  }

  /** INV, prefix, sequence and random end, in this order and joined by dashes. */
  ghost predicate Spells(id: string, prefix: string, sequence: nat, width: nat, tail: string) {
    exists z :: IsNumeral(z, sequence, width) && id == "INV-" + prefix + "-" + z + "-" + tail
  }

  lemma {:induction false} DecHasNoLeadingZero(n: nat)
    ensures n > 0 ==> Dec(n)[0] != '0'
    ensures n == 0 ==> Dec(n) == "0"
  {
    if n >= 10 {
      DecHasNoLeadingZero(n / 10);
      DecValue(n / 10);
    }
  }

  lemma PaddedIsNumeral(n: nat, width: nat)
    ensures IsNumeral(Padded(n, width), n, width)
  {
    PaddedValue(n, width);
    DecHasNoLeadingZero(n);
    if |Dec(n)| < width {
      ZerosValue(width - |Dec(n)|);
    }
  }

  lemma PrintSpells(x: Issue, width: nat)
    ensures Spells(Print(x, width), x.prefix, x.sequence, width, x.random)
  {
    PaddedIsNumeral(x.sequence, width);
  }

  /** The head of a printed id: "INV-", the month's prefix, and a dash. */
  ghost predicate HeadShows(id: string, m: int) {
    |id| > 11 && id[..4] == "INV-" && id[10] == '-' &&
    ReadsAs(id, 6, (2000 + m / 12) % 100) && ReadsAs(id, 8, m % 12 + 1)
  }

  lemma SpellsHead(id: string, prefix: string, sequence: nat, width: nat, tail: string, m: int)
    requires Spells(id, prefix, sequence, width, tail) && ShowsMonth(prefix, m)
    ensures HeadShows(id, m)
  {
    var z :| IsNumeral(z, sequence, width) && id == "INV-" + prefix + "-" + z + "-" + tail;
    assert id == "INV-" + (prefix + ("-" + z + "-" + tail));
    assert id[4..10] == prefix;
    assert id[6] == prefix[2] && id[7] == prefix[3] && id[8] == prefix[4] && id[9] == prefix[5];
  }

  lemma SameTwoDigits(a: int, b: int)
    requires 0 <= a < 100 && 0 <= b < 100 && TwoDigits(a) == TwoDigits(b)
    ensures a == b
  {
    TwoDigitsValue(a);
    TwoDigitsValue(b);
  }

  /** What a counter can still issue from month `from` on does not repeat `x`. */
  ghost predicate Behind(x: Issue, c: Counter) {
    0 <= x.month <= c.lastUpdated && OfMonth(x.prefix, x.month) &&
    (x.month == c.lastUpdated ==> x.prefix == c.prefix && x.sequence <= c.sequence)
  }

  lemma EnsuredIsProper(c: Option<Counter>, q: Call)
    requires Proper(c) && 0 <= q.month < 1200
    ensures var d := EnsureCounter(c, q.month, PrefixRandom(q));
      d.lastUpdated == q.month && OfMonth(d.prefix, q.month)
  {
    var r, y := PrefixRandom(q), YearMonth(q.month);
    assert |r| == 2 && (r + y)[2..] == y;
  }

  lemma ServedIssues(c: Option<Counter>, q: Call)
    requires Proper(c) && 0 <= q.month < 1200 && (c.Some? ==> c.value.lastUpdated <= q.month)
    ensures var (d, issues) := Serve(c, q);
      && d.lastUpdated == q.month && Proper(Some(d))
      && |issues| == q.count
      && (forall i | 0 <= i < |issues| :: Behind(issues[i], d))
      && NoRepeats(issues)
  {
    EnsuredIsProper(c, q);
  }

  /** Whatever is behind the counter stays behind it, and is not issued again. */
  lemma OlderIssue(c: Counter, q: Call, x: Issue)
    requires Proper(Some(c)) && c.lastUpdated <= q.month < 1200 && Behind(x, c)
    ensures var (d, issues) := Serve(Some(c), q);
      && Behind(x, d) && (forall i | 0 <= i < |issues| :: !SameNumber(x, issues[i]))
  {
    EnsuredIsProper(Some(c), q);
    var (d, issues) := Serve(Some(c), q);
    if x.month < q.month && x.prefix == d.prefix {
      YearMonthIsModulo(x.month, q.month);
      SameMonth(x.month, q.month);
    }
  }

  lemma {:induction false} NeverIssuedAgain(c: Counter, qs: seq<Call>, x: Issue)
    requires Proper(Some(c)) && Forward(qs, c.lastUpdated) && Behind(x, c)
    ensures forall i | 0 <= i < |IssuedBy(Some(c), qs)| :: !SameNumber(x, IssuedBy(Some(c), qs)[i])
    decreases |qs|
  {
    if qs != [] {
      ServedIssues(Some(c), qs[0]);
      OlderIssue(c, qs[0], x);
      NeverIssuedAgain(Serve(Some(c), qs[0]).0, qs[1..], x);
    }
  }

  /** Over any run of single and batch calls on a forward clock, no two issued ids
      agree in prefix and sequence. */
  lemma {:induction false} NumbersNeverRepeat(c: Option<Counter>, qs: seq<Call>)
    requires Proper(c) && Forward(qs, if c.Some? then c.value.lastUpdated else 0)
    ensures NoRepeats(IssuedBy(c, qs))
    decreases |qs|
  {
    if qs != [] {
      ServedIssues(c, qs[0]);
      var (d, first) := Serve(c, qs[0]);
      var rest := IssuedBy(Some(d), qs[1..]);
      NumbersNeverRepeat(Some(d), qs[1..]);
      forall i | 0 <= i < |first| ensures forall j | 0 <= j < |rest| :: !SameNumber(first[i], rest[j]) {
        NeverIssuedAgain(d, qs[1..], first[i]);
      }
      JoinedDiffer(first, rest);
    }
  }

  lemma JoinedDiffer(first: seq<Issue>, rest: seq<Issue>)
    requires NoRepeats(first) && NoRepeats(rest)
    requires forall i, j | 0 <= i < |first| && 0 <= j < |rest| :: !SameNumber(first[i], rest[j])
    ensures NoRepeats(first + rest)
  {
  }

  /** The clock condition is needed: after a step back by any number of months the
      restarted counter hands out a number again if the random prefix recurs. */
  lemma BackwardClockRepeats(m: int, n: int, bytes: (nat, nat), tails: nat -> string)
    requires m != n
    ensures var q, r := Call(m, bytes, tails, 1), Call(n, bytes, tails, 1);
      var issues := IssuedBy(None, [q, r, q]);
      |issues| == 3 && issues[0] == issues[2]
  {
    var q, r := Call(m, bytes, tails, 1), Call(n, bytes, tails, 1);
    var (c1, i1) := Serve(None, q);
    var (c2, i2) := Serve(Some(c1), r);
    var (c3, i3) := Serve(Some(c2), q);
    assert [q, r, q][1..] == [r, q] && [r, q][1..] == [q] && [q][1..] == [];
    assert IssuedBy(Some(c2), [q]) == i3 + [];
    assert IssuedBy(Some(c1), [r, q]) == i2 + i3;
    assert IssuedBy(None, [q, r, q]) == i1 + (i2 + i3);
  }

  /** So is the century: the year has two digits in the prefix, and 1200 months
      later the same random prefix starts over with the same numbers. */
  lemma CenturyRepeats(m: int, bytes: (nat, nat), tails: nat -> string)
    ensures var issues := IssuedBy(None, [Call(m, bytes, tails, 1), Call(m + 1200, bytes, tails, 1)]);
      |issues| == 2 && SameNumber(issues[0], issues[1])
  {
    var q, r := Call(m, bytes, tails, 1), Call(m + 1200, bytes, tails, 1);
    var (c1, i1) := Serve(None, q);
    var (c2, i2) := Serve(Some(c1), r);
    assert (m + 1200) / 12 == m / 12 + 100 && (m + 1200) % 12 == m % 12;
    assert (2000 + (m / 12 + 100)) % 100 == (2000 + m / 12) % 100;
    assert [q, r][1..] == [r] && [r][1..] == [];
    assert IssuedBy(Some(c1), [r]) == i2 + [];
    assert IssuedBy(None, [q, r]) == i1 + i2;
  }

  // ---------------------------------------------------------------------
  // The exact condition, on any clock
  // ---------------------------------------------------------------------

  /** Call i finds the counter of another month, or none. */
  predicate Restarts(qs: seq<Call>, i: nat) {
    i < |qs| && (i == 0 || qs[i].month != qs[i - 1].month)
  }

  /** The prefix that the counter gets if the call restarts it. */
  function PrefixFor(q: Call): string {
    NewPrefix(q.month, PrefixRandom(q))
  }

  ghost predicate DistinctStarts(qs: seq<Call>) {
    forall i: nat, j: nat | i < j && Restarts(qs, i) && Restarts(qs, j) :: PrefixFor(qs[i]) != PrefixFor(qs[j])
  }

  ghost predicate FromStart(qs: seq<Call>, prefix: string) {
    exists i: nat :: Restarts(qs, i) && PrefixFor(qs[i]) == prefix
  }

  lemma FromStartPush(qs: seq<Call>, q: Call, prefix: string)
    ensures FromStart(qs, prefix) ==> FromStart(qs + [q], prefix)
    ensures Restarts(qs + [q], |qs|) ==> FromStart(qs + [q], PrefixFor(q))
  {
    if FromStart(qs, prefix) {
      var i: nat :| Restarts(qs, i) && PrefixFor(qs[i]) == prefix;
      assert Restarts(qs + [q], i) && PrefixFor((qs + [q])[i]) == prefix;
    }
    if Restarts(qs + [q], |qs|) {
      assert PrefixFor((qs + [q])[|qs|]) == PrefixFor(q);
    }
  }

  lemma DistinctPush(qs: seq<Call>, q: Call)
    requires DistinctStarts(qs + [q])
    ensures DistinctStarts(qs)
    ensures Restarts(qs + [q], |qs|) ==> !FromStart(qs, PrefixFor(q))
  {
    var after := qs + [q];
    forall i: nat, j: nat | i < j && Restarts(qs, i) && Restarts(qs, j) ensures PrefixFor(qs[i]) != PrefixFor(qs[j]) {
      assert Restarts(after, i) && Restarts(after, j) && after[i] == qs[i] && after[j] == qs[j];
    }
    if Restarts(after, |qs|) {
      forall i: nat | Restarts(qs, i) ensures PrefixFor(qs[i]) != PrefixFor(q) {
        assert Restarts(after, i) && after[i] == qs[i] && after[|qs|] == q;
      }
    }
  }

  function CounterAfter(c: Option<Counter>, qs: seq<Call>): Option<Counter>
    decreases |qs|
  {
    if qs == [] then c else CounterAfter(Some(Serve(c, qs[0]).0), qs[1..])
  }

  lemma IssuedCons(c: Option<Counter>, q: Call, rest: seq<Call>)
    ensures IssuedBy(c, [q] + rest) == Serve(c, q).1 + IssuedBy(Some(Serve(c, q).0), rest)
    ensures CounterAfter(c, [q] + rest) == CounterAfter(Some(Serve(c, q).0), rest)
  {
    assert ([q] + rest)[1..] == rest;
  }

  lemma {:induction false} IssuedPush(c: Option<Counter>, qs: seq<Call>, q: Call)
    ensures IssuedBy(c, qs + [q]) == IssuedBy(c, qs) + Serve(CounterAfter(c, qs), q).1
    ensures CounterAfter(c, qs + [q]) == Some(Serve(CounterAfter(c, qs), q).0)
    decreases |qs|
  {
    if qs == [] {
      IssuedCons(c, q, []);
      assert [] + [q] == [q] + [];
    } else {
      var first, rest := qs[0], qs[1..];
      var d := Some(Serve(c, first).0);
      IssuedPush(d, rest, q);
      IssuedCons(c, first, rest);
      IssuedCons(c, first, rest + [q]);
      assert qs == [first] + rest;
      Assoc([first], rest, [q]);
      Assoc(Serve(c, first).1, IssuedBy(d, rest), Serve(CounterAfter(d, rest), q).1);
    }
  }

  /** The numbers of one call follow on from `base`. */
  ghost predicate Follows(issues: seq<Issue>, prefix: string, base: nat) {
    forall i | 0 <= i < |issues| :: issues[i].prefix == prefix && issues[i].sequence == base + 1 + i
  }

  lemma ServeFollows(c: Option<Counter>, q: Call)
    ensures var (d, issues) := Serve(c, q);
      var e := EnsureCounter(c, q.month, PrefixRandom(q));
      && |issues| == q.count && Follows(issues, e.prefix, e.sequence)
      && (forall i | 0 <= i < q.count :: issues[i].random == q.tails(i))
      && d.prefix == e.prefix && d.sequence == e.sequence + q.count && d.lastUpdated == q.month
  {
  }

  /** Nothing issued under the counter's prefix is ahead of it. */
  ghost predicate NoneAhead(issues: seq<Issue>, c: Counter) {
    forall i | 0 <= i < |issues| :: issues[i].prefix == c.prefix ==> issues[i].sequence <= c.sequence
  }

  ghost predicate AllFromStarts(issues: seq<Issue>, qs: seq<Call>) {
    forall i | 0 <= i < |issues| :: FromStart(qs, issues[i].prefix)
  }

  /** Numbers that follow on from the counter, or that start under a new prefix,
      are new. */
  lemma FollowingAreNew(issues: seq<Issue>, more: seq<Issue>, prefix: string, base: nat, d: Counter)
    requires NoRepeats(issues) && Follows(more, prefix, base) && d.prefix == prefix && d.sequence == base + |more|
    requires forall i | 0 <= i < |issues| :: issues[i].prefix == prefix ==> issues[i].sequence <= base
    ensures NoRepeats(issues + more) && NoneAhead(issues + more, d)
  {
    JoinedDiffer(issues, more);
  }

  lemma AllFromStartsPush(issues: seq<Issue>, more: seq<Issue>, qs: seq<Call>, q: Call, prefix: string, base: nat)
    requires AllFromStarts(issues, qs) && Follows(more, prefix, base) && FromStart(qs + [q], prefix)
    ensures AllFromStarts(issues + more, qs + [q])
  {
    forall i | 0 <= i < |issues + more| ensures FromStart(qs + [q], (issues + more)[i].prefix) {
      if i < |issues| {
        FromStartPush(qs, q, issues[i].prefix);
      }
    }
  }

  /** What holds of a run that starts without a counter. */
  ghost predicate Accounted(qs: seq<Call>, c: Option<Counter>, issues: seq<Issue>) {
    && c.Some? == (qs != [])
    && (c.Some? ==> c.value.lastUpdated == qs[|qs| - 1].month && FromStart(qs, c.value.prefix))
    && AllFromStarts(issues, qs)
    && (DistinctStarts(qs) ==> NoRepeats(issues) && (c.Some? ==> NoneAhead(issues, c.value)))
  }

  lemma AccountedPush(qs: seq<Call>, q: Call, c: Option<Counter>, issues: seq<Issue>)
    requires Accounted(qs, c, issues)
    ensures Accounted(qs + [q], Some(Serve(c, q).0), issues + Serve(c, q).1)
  {
    var (d, more) := Serve(c, q);
    var e := EnsureCounter(c, q.month, PrefixRandom(q));
    ServeFollows(c, q);
    var restarts := Restarts(qs + [q], |qs|);
    assert restarts <==> c.None? || c.value.lastUpdated != q.month;
    FromStartPush(qs, q, e.prefix);
    AllFromStartsPush(issues, more, qs, q, e.prefix, e.sequence);
    if DistinctStarts(qs + [q]) {
      DistinctPush(qs, q);
      FollowingAreNew(issues, more, e.prefix, e.sequence, d);
    }
  }

  lemma {:induction false} RunIsAccounted(qs: seq<Call>)
    ensures Accounted(qs, CounterAfter(None, qs), IssuedBy(None, qs))
    decreases |qs|
  {
    if qs != [] {
      var front, q := qs[..|qs| - 1], qs[|qs| - 1];
      assert qs == front + [q];
      RunIsAccounted(front);
      IssuedPush(None, front, q);
      AccountedPush(front, q, CounterAfter(None, front), IssuedBy(None, front));
    }
  }

  lemma {:induction false} IssuedSoFar(qs: seq<Call>, k: nat)
    requires k <= |qs|
    ensures IssuedBy(None, qs[..k]) <= IssuedBy(None, qs)
    decreases |qs|
  {
    if k == |qs| {
      assert qs[..k] == qs;
    } else {
      var front := qs[..|qs| - 1];
      assert qs == front + [qs[|qs| - 1]] && front[..k] == qs[..k];
      IssuedSoFar(front, k);
      IssuedPush(None, front, qs[|qs| - 1]);
    }
  }

  /** A restart issues number 1 of its prefix. */
  lemma RestartIssuesOne(qs: seq<Call>, i: nat)
    requires Restarts(qs, i) && qs[i].count > 0
    ensures var n := |IssuedBy(None, qs[..i])|;
      && n < |IssuedBy(None, qs[..i + 1])| <= |IssuedBy(None, qs)|
      && IssuedBy(None, qs)[n].prefix == PrefixFor(qs[i]) && IssuedBy(None, qs)[n].sequence == 1
  {
    var front := qs[..i];
    assert qs[..i + 1] == front + [qs[i]];
    RunIsAccounted(front);
    IssuedPush(None, front, qs[i]);
    ServeFollows(CounterAfter(None, front), qs[i]);
    IssuedSoFar(qs, i + 1);
  }

  lemma {:induction false} SamePrefixRepeats(qs: seq<Call>, i: nat, j: nat)
    requires i < j && Restarts(qs, i) && Restarts(qs, j) && PrefixFor(qs[i]) == PrefixFor(qs[j])
    requires qs[i].count > 0 && qs[j].count > 0
    ensures !NoRepeats(IssuedBy(None, qs))
  {
    RestartIssuesOne(qs, i);
    RestartIssuesOne(qs, j);
    IssuedSoFar(qs[..j], i + 1);
    assert qs[..j][..i + 1] == qs[..i + 1];
    var issues := IssuedBy(None, qs);
    assert SameNumber(issues[|IssuedBy(None, qs[..i])|], issues[|IssuedBy(None, qs[..j])|]);
  }

  /** On any clock numbers do not repeat if and only if the calls that find a new
      month get pairwise distinct prefixes.  A call for no ids does not reach the
      counter. */
  lemma {:induction false} NoRepeatsIff(qs: seq<Call>)
    requires forall k | 0 <= k < |qs| :: qs[k].count > 0
    ensures NoRepeats(IssuedBy(None, qs)) <==> DistinctStarts(qs)
  {
    if DistinctStarts(qs) {
      RunIsAccounted(qs);
    } else {
      var i: nat, j: nat :| i < j && Restarts(qs, i) && Restarts(qs, j) && PrefixFor(qs[i]) == PrefixFor(qs[j]);
      SamePrefixRepeats(qs, i, j);
    }
  }

  lemma {:induction false} PrefixShowsMonth(q: Call, r: Call)
    requires PrefixFor(q) == PrefixFor(r)
    ensures q.month % 1200 == r.month % 1200
  {
    var a, b := PrefixRandom(q), PrefixRandom(r);
    assert |a| == 2 && |b| == 2;
    assert (a + YearMonth(q.month))[2..] == YearMonth(q.month) && (b + YearMonth(r.month))[2..] == YearMonth(r.month);
    YearMonthIsModulo(q.month, r.month);
  }

  /** So whatever the random parts, no run on a forward clock repeats a number within
      any hundred years. */
  lemma {:induction false} NoRepeatsWithinCentury(qs: seq<Call>)
    requires forall i, j | 0 <= i < j < |qs| :: qs[i].month <= qs[j].month < qs[i].month + 1200
    ensures NoRepeats(IssuedBy(None, qs))
  {
    forall i: nat, j: nat | i < j && Restarts(qs, i) && Restarts(qs, j) ensures PrefixFor(qs[i]) != PrefixFor(qs[j]) {
      LaterStartDiffers(qs, i, j);
    }
    RunIsAccounted(qs);
  }

  lemma LaterStartDiffers(qs: seq<Call>, i: nat, j: nat)
    requires forall i, j | 0 <= i < j < |qs| :: qs[i].month <= qs[j].month < qs[i].month + 1200
    requires i < j && Restarts(qs, i) && Restarts(qs, j)
    ensures PrefixFor(qs[i]) != PrefixFor(qs[j])
  {
    assert qs[j - 1].month <= qs[j].month && qs[i].month <= qs[j].month < qs[i].month + 1200;
    assert i == j - 1 || qs[i].month <= qs[j - 1].month;
    if PrefixFor(qs[i]) == PrefixFor(qs[j]) {
      PrefixShowsMonth(qs[i], qs[j]);
      SameMonth(qs[i].month, qs[j].month);
    }
  }

  // ---------------------------------------------------------------------
  // Batches and single calls
  // ---------------------------------------------------------------------

  function Always(s: string): nat -> string {
    (i: nat) => s
  }

  /** The numbers that k single calls in one month hand out, and the counter. */
  function Singles(c: Option<Counter>, m: int, randoms: nat -> string, tails: nat -> string, k: nat)
    : (Option<Counter>, seq<Issue>)
  {
    if k == 0 then (c, [])
    else
      var (d, issues) := Singles(c, m, randoms, tails, k - 1);
      var (e, last) := Allocate(d, m, randoms(k - 1), Always(tails(k - 1)), 1);
      (Some(e), issues + last)
  }

  lemma AllocateStep(c: Option<Counter>, m: int, random: string, tails: nat -> string, k: nat)
    requires k > 0
    ensures var d := EnsureCounter(c, m, random);
      Allocate(c, m, random, tails, k).1
        == Allocate(c, m, random, tails, k - 1).1 + [Issue(m, d.prefix, d.sequence + k, tails(k - 1))]
    ensures Allocate(c, m, random, tails, 0).1 == []
  {
  }

  /** A batch of k is k single calls of that month: the same prefix and sequence
      numbers, random ends where the same bytes are drawn, and the same counter. */
  lemma {:induction false} BatchIsSingles(c: Option<Counter>, m: int, randoms: nat -> string, tails: nat -> string,
                                          k: nat)
    requires k > 0
    ensures var (d, issues) := Allocate(c, m, randoms(0), tails, k);
      Singles(c, m, randoms, tails, k) == (Some(d), issues)
  {
    AllocateStep(c, m, randoms(0), tails, k);
    var tail := Always(tails(k - 1));
    if k == 1 {
      AllocateStep(c, m, randoms(0), tail, 1);
      assert Singles(c, m, randoms, tails, 0) == (c, []);
      var last := Allocate(c, m, randoms(0), tail, 1).1;
      assert [] + last == last == Allocate(c, m, randoms(0), tails, 1).1;
    } else {
      BatchIsSingles(c, m, randoms, tails, k - 1);
      var d := Allocate(c, m, randoms(0), tails, k - 1).0;
      AllocateStep(Some(d), m, randoms(k - 1), tail, 1);
      assert EnsureCounter(Some(d), m, randoms(k - 1)) == d;
      assert Allocate(Some(d), m, randoms(k - 1), tail, 1).1 == [Issue(m, d.prefix, d.sequence + 1, tails(k - 1))];
    }
  }

  // ---------------------------------------------------------------------
  // The printed form
  // ---------------------------------------------------------------------

  /** Reads prefix, sequence and random end off a printed id. */
  function Parse(s: string): Option<(string, nat, string)> {
    var t := AfterDash(s);
    var u := AfterDash(t);
    if AllDigits(BeforeDash(u)) then Some((BeforeDash(t), Value(BeforeDash(u)), AfterDash(u))) else None
  }

  /** A printed id parses back to its parts, whatever the padding. */
  lemma ParsePrint(x: Issue, paddingLength: nat)
    requires NoDash(x.prefix)
    ensures Parse(Print(x, paddingLength)) == Some((x.prefix, x.sequence, x.random))
  {
    var number := Padded(x.sequence, paddingLength);
    PaddedValue(x.sequence, paddingLength);
    SplitAtDash("INV", x.prefix + "-" + number + "-" + x.random);
    assert Print(x, paddingLength) == "INV" + "-" + (x.prefix + "-" + number + "-" + x.random);
    SplitAtDash(x.prefix, number + "-" + x.random);
    assert x.prefix + "-" + number + "-" + x.random == x.prefix + "-" + (number + "-" + x.random);
    SplitAtDash(number, x.random);
  }

  lemma PrefixHasNoDash(m: int, bytes: (nat, nat))
    ensures NoDash(NewPrefix(m, RandomString([bytes.0, bytes.1])))
  {
    RandomHasNoDash([bytes.0, bytes.1]);
    TwoDigitsValue((2000 + m / 12) % 100);
    TwoDigitsValue(m % 12 + 1);
  }

  /** Ids with different numbers print differently, whatever the random parts. */
  lemma PrintsDiffer(x: Issue, y: Issue, paddingLength: nat)
    requires |x.prefix| == |y.prefix| && !SameNumber(x, y)
    ensures Print(x, paddingLength) != Print(y, paddingLength)
  {
    PrintParts(x, paddingLength);
    PrintParts(y, paddingLength);
    PaddedInjective(x.sequence, y.sequence, paddingLength);
  }

  lemma PrintParts(x: Issue, paddingLength: nat)
    ensures var s, n := Print(x, paddingLength), |x.prefix|;
      |s| > 5 + n && s[4..4 + n] == x.prefix && BeforeDash(s[5 + n..]) == Padded(x.sequence, paddingLength)
  {
    var number := Padded(x.sequence, paddingLength);
    PaddedValue(x.sequence, paddingLength);
    DecValue(x.sequence);
    SplitAtDash(number, x.random);
    assert Print(x, paddingLength) == ("INV-" + x.prefix + "-") + (number + "-" + x.random);
  }

  ghost predicate AllOfMonth(issues: seq<Issue>) {
    forall i | 0 <= i < |issues| :: OfMonth(issues[i].prefix, issues[i].month)
  }

  lemma {:induction false} IssuedOfMonth(c: Option<Counter>, qs: seq<Call>)
    requires Proper(c) && Forward(qs, if c.Some? then c.value.lastUpdated else 0)
    ensures AllOfMonth(IssuedBy(c, qs))
    decreases |qs|
  {
    if qs != [] {
      ServedIssues(c, qs[0]);
      var (d, first) := Serve(c, qs[0]);
      IssuedOfMonth(Some(d), qs[1..]);
      assert forall i | 0 <= i < |first| :: Behind(first[i], d);
    }
  }

  /** The printed ids of any run on a forward clock are pairwise distinct. */
  lemma PrintedIdsNeverRepeat(c: Option<Counter>, qs: seq<Call>, paddingLength: nat, i: nat, j: nat)
    requires Proper(c) && Forward(qs, if c.Some? then c.value.lastUpdated else 0)
    requires i < j < |IssuedBy(c, qs)|
    ensures Print(IssuedBy(c, qs)[i], paddingLength) != Print(IssuedBy(c, qs)[j], paddingLength)
  {
    NumbersNeverRepeat(c, qs);
    IssuedOfMonth(c, qs);
    var issues := IssuedBy(c, qs);
    assert OfMonth(issues[i].prefix, issues[i].month) && OfMonth(issues[j].prefix, issues[j].month);
    PrintsDiffer(issues[i], issues[j], paddingLength);
  }
}
