/** Overlapping invoice calls.  A call first makes sure of the counter and takes its
    prefix, and later increments the counter, whatever it then holds. */
module InvoiceRace {
  import opened Sequences
  import opened Invoices

  /** A call between its two steps.  Stretches are counted by the restarts so far. */
  datatype Holder = Holder(prefix: string, count: nat, stretch: nat)

  /** The numbers base + 1 to base + count under a prefix, and the stretch in which they
      were handed out. */
  datatype Grant = Grant(prefix: string, base: nat, count: nat, stretch: nat)

  datatype State = State(counter: Option<Counter>, stretch: nat, open: seq<Holder>, grants: seq<Grant>)

  datatype Step = Ensure(q: Call) | Increment(i: nat)

  predicate NeedsRestart(c: Option<Counter>, month: int) {
    c.None? || c.value.lastUpdated != month
  }

  function Next(s: State, step: Step): State {
    match step
    case Ensure(q) =>
      var d := EnsureCounter(s.counter, q.month, PrefixRandom(q));
      var stretch := if NeedsRestart(s.counter, q.month) then s.stretch + 1 else s.stretch;
      State(Some(d), stretch, s.open + [Holder(d.prefix, q.count, stretch)], s.grants)
    case Increment(i) =>
      if i >= |s.open| || s.counter.None? then s
      else
        var h, c := s.open[i], s.counter.value;
        State(Some(c.(sequence := c.sequence + h.count)), s.stretch, s.open[..i] + s.open[i + 1..],
              s.grants + [Grant(h.prefix, c.sequence, h.count, s.stretch)])
  }

  function Run(s: State, steps: seq<Step>): State
    decreases |steps|
  {
    if steps == [] then s else Run(Next(s, steps[0]), steps[1..])
  }

  function Start(): State {
    State(None, 0, [], [])
  }

  // ---------------------------------------------------------------------
  // The numbers handed out
  // ---------------------------------------------------------------------

  function NumbersOf(g: Grant): (r: seq<(string, nat)>)
    ensures |r| == g.count && forall i | 0 <= i < g.count :: r[i] == (g.prefix, g.base + 1 + i)
  {
    seq(g.count, (i: nat) => (g.prefix, g.base + 1 + i))
  }

  function Numbers(grants: seq<Grant>): seq<(string, nat)> {
    if grants == [] then [] else Numbers(grants[..|grants| - 1]) + NumbersOf(grants[|grants| - 1])
  }

  ghost predicate Distinct<T>(s: seq<T>) {
    forall i, j | 0 <= i < j < |s| :: s[i] != s[j]
  }

  ghost predicate Disjoint<T(!new)>(s: seq<T>, t: seq<T>) {
    forall x :: !(x in s && x in t)
  }

  /** The grants have no number in common. */
  ghost predicate Apart(g: Grant, h: Grant) {
    g.prefix != h.prefix || g.count == 0 || h.count == 0 ||
    g.base + g.count <= h.base || h.base + h.count <= g.base
  }

  lemma ApartIff(g: Grant, h: Grant)
    ensures Disjoint(NumbersOf(g), NumbersOf(h)) <==> Apart(g, h)
  {
    if !Apart(g, h) {
      var n: nat := if g.base <= h.base then h.base + 1 else g.base + 1;
      assert NumbersOf(g)[n - g.base - 1] == (g.prefix, n) && NumbersOf(h)[n - h.base - 1] == (g.prefix, n);
      assert (g.prefix, n) in NumbersOf(g) && (g.prefix, n) in NumbersOf(h);
    } else {
      forall i, j | 0 <= i < g.count && 0 <= j < h.count ensures NumbersOf(g)[i] != NumbersOf(h)[j] {
      }
    }
  }

  lemma {:induction false} DisjointFromAll(grants: seq<Grant>, h: Grant)
    ensures Disjoint(Numbers(grants), NumbersOf(h)) <==> forall j | 0 <= j < |grants| :: Apart(grants[j], h)
  {
    if grants != [] {
      var n := |grants| - 1;
      DisjointFromAll(grants[..n], h);
      ApartIff(grants[n], h);
      assert Disjoint(Numbers(grants), NumbersOf(h)) <==>
        (Disjoint(Numbers(grants[..n]), NumbersOf(h)) && Disjoint(NumbersOf(grants[n]), NumbersOf(h)));
    }
  }

  lemma DistinctParts<T(!new)>(s: seq<T>, t: seq<T>)
    requires Distinct(s + t)
    ensures Distinct(s) && Distinct(t) && Disjoint(s, t)
  {
    forall i, j | 0 <= i < j < |s| ensures s[i] != s[j] {
      assert (s + t)[i] == s[i] && (s + t)[j] == s[j];
    }
    forall i, j | 0 <= i < j < |t| ensures t[i] != t[j] {
      assert (s + t)[|s| + i] == t[i] && (s + t)[|s| + j] == t[j];
    }
    forall i, j | 0 <= i < |s| && 0 <= j < |t| ensures s[i] != t[j] {
      assert (s + t)[i] == s[i] && (s + t)[|s| + j] == t[j];
    }
  }

  lemma DistinctJoined<T(!new)>(s: seq<T>, t: seq<T>)
    requires Distinct(s) && Distinct(t) && Disjoint(s, t)
    ensures Distinct(s + t)
  {
    forall i, j | 0 <= i < j < |s + t| ensures (s + t)[i] != (s + t)[j] {
      if i < |s| <= j {
        assert s[i] in s && t[j - |s|] in t;
      }
    }
  }

  lemma DistinctConcatIff<T(!new)>(s: seq<T>, t: seq<T>)
    ensures Distinct(s + t) <==> (Distinct(s) && Distinct(t) && Disjoint(s, t))
  {
    if Distinct(s + t) {
      DistinctParts(s, t);
    } else if Distinct(s) && Distinct(t) && Disjoint(s, t) {
      DistinctJoined(s, t);
    }
  }

  ghost predicate AllApart(grants: seq<Grant>) {
    forall j, k | 0 <= j < k < |grants| :: Apart(grants[j], grants[k])
  }

  lemma {:induction false} DistinctIffApart(grants: seq<Grant>)
    ensures Distinct(Numbers(grants)) <==> AllApart(grants)
  {
    if grants != [] {
      var n := |grants| - 1;
      DistinctIffApart(grants[..n]);
      DistinctConcatIff(Numbers(grants[..n]), NumbersOf(grants[n]));
      DisjointFromAll(grants[..n], grants[n]);
      assert AllApart(grants) <==> AllApart(grants[..n]) && forall j | 0 <= j < n :: Apart(grants[j], grants[n]);
    }
  }

  // ---------------------------------------------------------------------
  // Any interleaving
  // ---------------------------------------------------------------------

  /** Within a stretch the grants follow each other. */
  ghost predicate Stacked(s: State) {
    (forall j | 0 <= j < |s.grants| :: s.grants[j].stretch <= s.stretch &&
       (s.grants[j].stretch == s.stretch ==>
          s.counter.Some? && s.grants[j].base + s.grants[j].count <= s.counter.value.sequence)) &&
    (forall j, k | 0 <= j < k < |s.grants| && s.grants[j].stretch == s.grants[k].stretch ::
       s.grants[j].base + s.grants[j].count <= s.grants[k].base)
  }

  lemma {:induction false} RunIsStacked(s: State, steps: seq<Step>)
    requires Stacked(s)
    ensures Stacked(Run(s, steps))
    decreases |steps|
  {
    if steps != [] {
      assert Stacked(Next(s, steps[0]));
      RunIsStacked(Next(s, steps[0]), steps[1..]);
    }
  }

  /** However the steps of invoice calls interleave, and on any clock, numbers do not
      repeat if and only if no two grants of different stretches overlap under one
      prefix. */
  lemma NumbersDistinctIff(steps: seq<Step>)
    ensures var grants := Run(Start(), steps).grants;
      Distinct(Numbers(grants)) <==>
      forall j, k | 0 <= j < k < |grants| && grants[j].stretch != grants[k].stretch :: Apart(grants[j], grants[k])
  {
    RunIsStacked(Start(), steps);
    DistinctIffApart(Run(Start(), steps).grants);
  }

  /** A call whose two steps follow each other at once is the call in one step: the same
      counter, and the same numbers. */
  lemma UndividedCall(c: Option<Counter>, stretch: nat, q: Call)
    ensures var s := Next(Next(State(c, stretch, [], []), Ensure(q)), Increment(0));
      var (d, issues) := Serve(c, q);
      && s.counter == Some(d) && s.open == [] && |Numbers(s.grants)| == |issues|
      && forall i | 0 <= i < |issues| :: Numbers(s.grants)[i] == (issues[i].prefix, issues[i].sequence)
  {
    var d := EnsureCounter(c, q.month, PrefixRandom(q));
    var restarted := if NeedsRestart(c, q.month) then stretch + 1 else stretch;
    var h, g := Holder(d.prefix, q.count, restarted), Grant(d.prefix, d.sequence, q.count, restarted);
    assert [] + [h] == [h] && [h][..0] + [h][1..] == [] && [] + [g] == [g];
    assert Numbers([g]) == NumbersOf(g) by {
      assert [g][..0] == [] && [] + NumbersOf(g) == NumbersOf(g);
    }
    ServeFollows(c, q);
  }

  // ---------------------------------------------------------------------
  // Without stale increments
  // ---------------------------------------------------------------------

  /** No increment comes after a restart that its call has not seen, and every call asks
      for at least one number. */
  predicate Fresh(s: State, steps: seq<Step>)
    decreases |steps|
  {
    steps == [] ||
    ((match steps[0]
      case Ensure(q) => q.count > 0
      case Increment(i) => i < |s.open| ==> s.open[i].stretch == s.stretch) &&
     Fresh(Next(s, steps[0]), steps[1..]))
  }

  ghost predicate HasFirst(grants: seq<Grant>, stretch: nat) {
    exists j :: 0 <= j < |grants| && grants[j].stretch == stretch && grants[j].base == 0
  }

  /** Holders and grants of the present stretch have its prefix, grants of one stretch
      agree in prefix, and the first grant of each stretch starts at 1. */
  ghost predicate Matched(s: State) {
    (s.counter.Some? ==>
      (forall h | h in s.open && h.stretch == s.stretch :: h.prefix == s.counter.value.prefix) &&
      (forall g | g in s.grants && g.stretch == s.stretch :: g.prefix == s.counter.value.prefix) &&
      (s.counter.value.sequence == 0 || HasFirst(s.grants, s.stretch))) &&
    (forall h | h in s.open :: h.count > 0 && h.stretch <= s.stretch) &&
    (forall g | g in s.grants :: g.count > 0 && g.stretch <= s.stretch && HasFirst(s.grants, g.stretch)) &&
    (forall g, h | g in s.grants && h in s.grants && g.stretch == h.stretch :: g.prefix == h.prefix) &&
    (s.counter.None? ==> s.open == [] && s.grants == [])
  }

  lemma FirstStays(grants: seq<Grant>, g: Grant, stretch: nat)
    requires HasFirst(grants, stretch)
    ensures HasFirst(grants + [g], stretch)
  {
    var j :| 0 <= j < |grants| && grants[j].stretch == stretch && grants[j].base == 0;
    assert (grants + [g])[j] == grants[j];
  }

  lemma EnsureKeepsMatched(s: State, q: Call)
    requires Matched(s) && q.count > 0
    ensures Matched(Next(s, Ensure(q)))
  {
  }

  lemma IncrementKeepsMatched(s: State, i: nat)
    requires Matched(s) && (i < |s.open| ==> s.open[i].stretch == s.stretch)
    ensures Matched(Next(s, Increment(i)))
  {
    if i < |s.open| && s.counter.Some? {
      var h, c := s.open[i], s.counter.value;
      var g := Grant(h.prefix, c.sequence, h.count, s.stretch);
      assert h in s.open;
      assert HasFirst(s.grants + [g], s.stretch) by {
        if c.sequence == 0 {
          assert (s.grants + [g])[|s.grants|] == g;
        } else {
          FirstStays(s.grants, g, s.stretch);
        }
      }
      forall x | x in s.grants ensures HasFirst(s.grants + [g], x.stretch) {
        FirstStays(s.grants, g, x.stretch);
      }
    }
  }

  lemma {:induction false} RunIsMatched(s: State, steps: seq<Step>)
    requires Matched(s) && Fresh(s, steps)
    ensures Matched(Run(s, steps))
    decreases |steps|
  {
    if steps != [] {
      match steps[0] {
        case Ensure(q) => EnsureKeepsMatched(s, q);
        case Increment(i) => IncrementKeepsMatched(s, i);
      }
      RunIsMatched(Next(s, steps[0]), steps[1..]);
    }
  }

  ghost predicate PrefixesDiffer(grants: seq<Grant>) {
    forall g, h | g in grants && h in grants && g.stretch != h.stretch :: g.prefix != h.prefix
  }

  lemma SamePrefixOverlaps(s: State, g: Grant, h: Grant)
    requires Matched(s) && g in s.grants && h in s.grants && g.stretch != h.stretch && g.prefix == h.prefix
    ensures !AllApart(s.grants)
  {
    var j :| 0 <= j < |s.grants| && s.grants[j].stretch == g.stretch && s.grants[j].base == 0;
    var k :| 0 <= k < |s.grants| && s.grants[k].stretch == h.stretch && s.grants[k].base == 0;
    assert s.grants[j] in s.grants && s.grants[k] in s.grants;
    assert !Apart(s.grants[j], s.grants[k]) && !Apart(s.grants[k], s.grants[j]);
    assert j < k || k < j;
  }

  /** If every call increments the stretch that it has seen, numbers do not repeat if and
      only if the stretches that hand out numbers have different prefixes. */
  lemma FreshNumbersDistinctIff(steps: seq<Step>)
    requires Fresh(Start(), steps)
    ensures var grants := Run(Start(), steps).grants; Distinct(Numbers(grants)) <==> PrefixesDiffer(grants)
  {
    var s := Run(Start(), steps);
    RunIsMatched(Start(), steps);
    NumbersDistinctIff(steps);
    DistinctIffApart(s.grants);
    if PrefixesDiffer(s.grants) {
      forall j, k | 0 <= j < k < |s.grants| && s.grants[j].stretch != s.grants[k].stretch
        ensures Apart(s.grants[j], s.grants[k])
      {
        assert s.grants[j] in s.grants && s.grants[k] in s.grants;
      }
    } else {
      var g, h :| g in s.grants && h in s.grants && g.stretch != h.stretch && g.prefix == h.prefix;
      SamePrefixOverlaps(s, g, h);
    }
  }

  // ---------------------------------------------------------------------
  // A stale increment
  // ---------------------------------------------------------------------

  lemma RunCons(s: State, step: Step, rest: seq<Step>)
    ensures Run(s, [step] + rest) == Run(Next(s, step), rest)
  {
    assert ([step] + rest)[1..] == rest;
  }

  /** Even on a forward clock: a call that has taken its prefix just before the month
      ends, and increments after another call has restarted the counter, hands out
      number 1 of the old month again. */
  lemma StaleIncrementRepeats(q: Call, r: Call)
    requires q.count > 0 && q.month < r.month
    ensures var steps := [Ensure(q)] + ([Increment(0)] + ([Ensure(q)] + ([Ensure(r)] + ([Increment(0)] + []))));
      !Distinct(Numbers(Run(Start(), steps).grants))
  {
    var p := NewPrefix(q.month, PrefixRandom(q));
    var h, g := Holder(p, q.count, 1), Grant(p, 0, q.count, 1);
    var s1 := State(Some(Counter(0, p, q.month)), 1, [h], []);
    var s2 := State(Some(Counter(q.count, p, q.month)), 1, [], [g]);
    var s3 := State(Some(Counter(q.count, p, q.month)), 1, [h], [g]);
    var s4 := Next(s3, Ensure(r));
    var t3 := [Ensure(r)] + ([Increment(0)] + []);
    assert [] + [h] == [h] && [] + [g] == [g];
    assert Next(Start(), Ensure(q)) == s1 && Next(s2, Ensure(q)) == s3;
    assert Next(s1, Increment(0)) == s2 by {
      assert [h][..0] + [h][1..] == [];
    }
    RunCons(Start(), Ensure(q), [Increment(0)] + ([Ensure(q)] + t3));
    RunCons(s1, Increment(0), [Ensure(q)] + t3);
    RunCons(s2, Ensure(q), t3);
    RunCons(s3, Ensure(r), [Increment(0)] + []);
    RunCons(s4, Increment(0), []);
    var s5 := Next(s4, Increment(0));
    assert s4.open[0] == h && s4.counter.value.sequence == 0;
    assert s5.grants == [g] + [Grant(p, 0, q.count, 2)];
    assert !Apart(s5.grants[0], s5.grants[1]);
    DistinctIffApart(s5.grants);
  }
}
