/** Overlapping tracked requests.  trackRequest starts two updates that nobody waits
    for, each of which reads its cache entry and later writes it back. */
module RequestRace {
  import opened Sequences
  import opened RequestTracker
  import opened RequestAgreement

  /** An update between its read and its write; `at` is how often the entry had been
      written when it was read. */
  datatype Reader<V> = Reader(entry: RequestLog, seen: V, at: nat)

  datatype Cell<V> = Cell(value: V, open: seq<Reader<V>>, writes: nat)

  datatype Access = Read(entry: RequestLog) | Write(i: nat)

  function Next<V>(c: Cell<V>, update: (V, RequestLog) -> V, a: Access): Cell<V> {
    match a
    case Read(e) => c.(open := c.open + [Reader(e, c.value, c.writes)])
    case Write(i) =>
      if i >= |c.open| then c
      else Cell(update(c.open[i].seen, c.open[i].entry), c.open[..i] + c.open[i + 1..], c.writes + 1)
  }

  function RunCell<V>(c: Cell<V>, update: (V, RequestLog) -> V, accesses: seq<Access>): Cell<V>
    decreases |accesses|
  {
    if accesses == [] then c else RunCell(Next(c, update, accesses[0]), update, accesses[1..])
  }

  function Append(): (seq<RequestLog>, RequestLog) -> seq<RequestLog> {
    (log: seq<RequestLog>, e: RequestLog) => log + [e]
  }

  function Count(): (DailySummary, RequestLog) -> DailySummary {
    (s: DailySummary, e: RequestLog) => CountRequest(s, e)
  }

  function NewLog(): Cell<seq<RequestLog>> {
    Cell([], [], 0)
  }

  function NewSummary(): Cell<DailySummary> {
    Cell(EMPTY_SUMMARY, [], 0)
  }

  // ---------------------------------------------------------------------
  // The two entries of a day
  // ---------------------------------------------------------------------

  datatype Day = Day(log: Cell<seq<RequestLog>>, summary: Cell<DailySummary>)

  datatype Step = OnLog(access: Access) | OnSummary(access: Access)

  function Run(d: Day, steps: seq<Step>): Day
    decreases |steps|
  {
    if steps == [] then d
    else
      match steps[0]
      case OnLog(a) => Run(d.(log := Next(d.log, Append(), a)), steps[1..])
      case OnSummary(a) => Run(d.(summary := Next(d.summary, Count(), a)), steps[1..])
  }

  function LogAccesses(steps: seq<Step>): seq<Access>
    decreases |steps|
  {
    if steps == [] then []
    else (if steps[0].OnLog? then [steps[0].access] else []) + LogAccesses(steps[1..])
  }

  function SummaryAccesses(steps: seq<Step>): seq<Access>
    decreases |steps|
  {
    if steps == [] then []
    else (if steps[0].OnSummary? then [steps[0].access] else []) + SummaryAccesses(steps[1..])
  }

  lemma RunCellCons<V>(c: Cell<V>, update: (V, RequestLog) -> V, a: Access, rest: seq<Access>)
    ensures RunCell(c, update, [a] + rest) == RunCell(Next(c, update, a), update, rest)
  {
    assert ([a] + rest)[1..] == rest;
  }

  /** The entries do not affect each other, however their accesses interleave. */
  lemma {:induction false} RunProjects(d: Day, steps: seq<Step>)
    ensures Run(d, steps) ==
      Day(RunCell(d.log, Append(), LogAccesses(steps)), RunCell(d.summary, Count(), SummaryAccesses(steps)))
    decreases |steps|
  {
    if steps != [] {
      var a, rest := steps[0].access, steps[1..];
      if steps[0].OnLog? {
        RunProjects(d.(log := Next(d.log, Append(), a)), rest);
        RunCellCons(d.log, Append(), a, LogAccesses(rest));
        assert [] + SummaryAccesses(rest) == SummaryAccesses(rest);
      } else {
        RunProjects(d.(summary := Next(d.summary, Count(), a)), rest);
        RunCellCons(d.summary, Count(), a, SummaryAccesses(rest));
        assert [] + LogAccesses(rest) == LogAccesses(rest);
      }
    }
  }

  // ---------------------------------------------------------------------
  // Lost updates
  // ---------------------------------------------------------------------

  /** The write overwrites another one that came after its read. */
  predicate IsStale<V>(c: Cell<V>, a: Access) {
    a.Write? && a.i < |c.open| && c.open[a.i].at != c.writes
  }

  /** No write of the run overwrites another. */
  predicate Fresh<V>(c: Cell<V>, update: (V, RequestLog) -> V, accesses: seq<Access>)
    decreases |accesses|
  {
    accesses == [] ||
    (!IsStale(c, accesses[0]) && Fresh(Next(c, update, accesses[0]), update, accesses[1..]))
  }

  /** The entries that the run writes, in that order. */
  function Written<V>(c: Cell<V>, update: (V, RequestLog) -> V, accesses: seq<Access>): seq<RequestLog>
    decreases |accesses|
  {
    if accesses == [] then []
    else
      var a := accesses[0];
      (if a.Write? && a.i < |c.open| then [c.open[a.i].entry] else [])
      + Written(Next(c, update, a), update, accesses[1..])
  }

  /** No value read or written holds more requests than had been written by then, and
      a reader that nobody has overtaken has seen the present value. */
  ghost predicate Bounded(c: Cell<seq<RequestLog>>) {
    |c.value| <= c.writes &&
    forall r | r in c.open :: |r.seen| <= r.at <= c.writes && (r.at == c.writes ==> r.seen == c.value)
  }

  lemma NextBounded(c: Cell<seq<RequestLog>>, a: Access)
    requires Bounded(c)
    ensures var d := Next(c, Append(), a);
      && Bounded(d)
      && (|d.value| == d.writes <==> |c.value| == c.writes && !IsStale(c, a))
      && (!IsStale(c, a) ==> d.value == c.value + (if a.Write? && a.i < |c.open| then [c.open[a.i].entry] else []))
  {
    if a.Write? && a.i < |c.open| {
      var r := c.open[a.i];
      assert r in c.open;
    }
  }

  /** A day's log keeps every request that was written if and only if no write is
      stale; it then lists them in the order of their writes. */
  lemma {:induction false} LogKeepsAllIff(c: Cell<seq<RequestLog>>, accesses: seq<Access>)
    requires Bounded(c)
    ensures var d := RunCell(c, Append(), accesses);
      && Bounded(d)
      && (|d.value| == d.writes <==> |c.value| == c.writes && Fresh(c, Append(), accesses))
      && (Fresh(c, Append(), accesses) ==> d.value == c.value + Written(c, Append(), accesses))
    decreases |accesses|
  {
    if accesses != [] {
      NextBounded(c, accesses[0]);
      LogKeepsAllIff(Next(c, Append(), accesses[0]), accesses[1..]);
    }
  }

  // ---------------------------------------------------------------------
  // The summary against a log of its own
  // ---------------------------------------------------------------------

  /** The cells stand at the same point of the same run, the one holding what
      mirrors the other. */
  ghost predicate InStep<V>(c: Cell<V>, d: Cell<seq<RequestLog>>, mirrors: (V, seq<RequestLog>) -> bool) {
    mirrors(c.value, d.value) && c.writes == d.writes && |c.open| == |d.open| &&
    forall i | 0 <= i < |c.open| ::
      c.open[i].entry == d.open[i].entry && c.open[i].at == d.open[i].at && mirrors(c.open[i].seen, d.open[i].seen)
  }

  ghost predicate KeptBy<V(!new)>(update: (V, RequestLog) -> V, mirrors: (V, seq<RequestLog>) -> bool) {
    forall v, log: seq<RequestLog>, e | mirrors(v, log) :: mirrors(update(v, e), log + [e])
  }

  lemma NextInStep<V(!new)>(c: Cell<V>, d: Cell<seq<RequestLog>>, update: (V, RequestLog) -> V,
                      mirrors: (V, seq<RequestLog>) -> bool, a: Access)
    requires InStep(c, d, mirrors) && KeptBy(update, mirrors)
    ensures InStep(Next(c, update, a), Next(d, Append(), a), mirrors)
    ensures IsStale(c, a) <==> IsStale(d, a)
  {
    if a.Write? && a.i < |c.open| {
      var r, s := c.open[a.i], d.open[a.i];
      assert mirrors(update(r.seen, r.entry), s.seen + [s.entry]);
    }
  }

  lemma {:induction false} RunInStep<V(!new)>(c: Cell<V>, d: Cell<seq<RequestLog>>, update: (V, RequestLog) -> V,
                                        mirrors: (V, seq<RequestLog>) -> bool, accesses: seq<Access>)
    requires InStep(c, d, mirrors) && KeptBy(update, mirrors)
    ensures InStep(RunCell(c, update, accesses), RunCell(d, Append(), accesses), mirrors)
    ensures Fresh(c, update, accesses) <==> Fresh(d, Append(), accesses)
    ensures Written(c, update, accesses) == Written(d, Append(), accesses)
    decreases |accesses|
  {
    if accesses != [] {
      NextInStep(c, d, update, mirrors, accesses[0]);
      RunInStep(Next(c, update, accesses[0]), Next(d, Append(), accesses[0]), update, mirrors, accesses[1..]);
    }
  }

  lemma CountKeepsMirror()
    ensures KeptBy(Count(), DayMirror())
  {
    forall s, log: seq<RequestLog>, e | DayMirror()(s, log) ensures DayMirror()(Count()(s, e), log + [e]) {
      RequestPush(s, log, e);
    }
  }

  /** However its updates overlap, the summary is the histogram of some log: the one
      that the same accesses would have produced. */
  lemma SummaryIsOfItsOwnLog(accesses: seq<Access>)
    ensures InStep(RunCell(NewSummary(), Count(), accesses), RunCell(NewLog(), Append(), accesses), DayMirror())
    ensures Fresh(NewSummary(), Count(), accesses) <==> Fresh(NewLog(), Append(), accesses)
    ensures Written(NewSummary(), Count(), accesses) == Written(NewLog(), Append(), accesses)
  {
    CountKeepsMirror();
    assert DayMirror()(EMPTY_SUMMARY, []);
    RunInStep(NewSummary(), NewLog(), Count(), DayMirror(), accesses);
  }

  /** The summary counts every request that was written to it if and only if no
      write is stale; it is then the histogram of those requests. */
  lemma SummaryKeepsAllIff(accesses: seq<Access>)
    ensures var c := RunCell(NewSummary(), Count(), accesses);
      && (c.value.total == c.writes <==> Fresh(NewSummary(), Count(), accesses))
      && (Fresh(NewSummary(), Count(), accesses) ==> Mirrors(c.value, Written(NewSummary(), Count(), accesses)))
  {
    SummaryIsOfItsOwnLog(accesses);
    LogKeepsAllIff(NewLog(), accesses);
    var c, d := RunCell(NewSummary(), Count(), accesses), RunCell(NewLog(), Append(), accesses);
    assert DayMirror()(c.value, d.value);
    assert [] + Written(NewLog(), Append(), accesses) == Written(NewLog(), Append(), accesses);
  }

  /** Log and summary of a day stay complete in an interleaving if and only if no
      write is stale in either. */
  lemma DayIsCompleteIff(steps: seq<Step>)
    ensures var d := Run(Day(NewLog(), NewSummary()), steps);
      |d.log.value| == d.log.writes && d.summary.value.total == d.summary.writes <==>
        Fresh(NewLog(), Append(), LogAccesses(steps)) && Fresh(NewSummary(), Count(), SummaryAccesses(steps))
  {
    RunProjects(Day(NewLog(), NewSummary()), steps);
    LogKeepsAllIff(NewLog(), LogAccesses(steps));
    SummaryKeepsAllIff(SummaryAccesses(steps));
  }

  /** The log that the accesses to the summary would have left. */
  function CountedLog(steps: seq<Step>): seq<RequestLog> {
    RunCell(NewLog(), Append(), SummaryAccesses(steps)).value
  }

  /** However the updates of a day interleave, its summary is the histogram of its log
      if and only if the log is like the one that the summary's own accesses would
      have left. */
  lemma SummaryAgreesIff(steps: seq<Step>)
    ensures var d := Run(Day(NewLog(), NewSummary()), steps);
      Mirrors(d.summary.value, d.log.value) <==> Alike(CountedLog(steps), d.log.value)
  {
    RunProjects(Day(NewLog(), NewSummary()), steps);
    SummaryIsOfItsOwnLog(SummaryAccesses(steps));
    var d := Run(Day(NewLog(), NewSummary()), steps);
    assert DayMirror()(d.summary.value, CountedLog(steps));
    SummaryServesIff(d.summary.value, CountedLog(steps), d.log.value);
  }

  /** When no write is stale, this compares the requests as they were written. */
  lemma FreshDayAgreesIff(steps: seq<Step>)
    requires Fresh(NewLog(), Append(), LogAccesses(steps))
    requires Fresh(NewSummary(), Count(), SummaryAccesses(steps))
    ensures var d := Run(Day(NewLog(), NewSummary()), steps);
      Mirrors(d.summary.value, d.log.value) <==>
      Alike(Written(NewSummary(), Count(), SummaryAccesses(steps)), Written(NewLog(), Append(), LogAccesses(steps)))
  {
    var ls, ss := LogAccesses(steps), SummaryAccesses(steps);
    SummaryAgreesIff(steps);
    RunProjects(Day(NewLog(), NewSummary()), steps);
    SummaryIsOfItsOwnLog(ss);
    LogKeepsAllIff(NewLog(), ls);
    LogKeepsAllIff(NewLog(), ss);
    assert [] + Written(NewLog(), Append(), ls) == Written(NewLog(), Append(), ls);
    assert [] + Written(NewLog(), Append(), ss) == Written(NewLog(), Append(), ss);
  }

  /** Updates of which each is finished before the next begins. */
  function InTurn(es: seq<RequestLog>): seq<Access> {
    if es == [] then [] else [Read(es[0])] + ([Write(0)] + InTurn(es[1..]))
  }

  /** Without overlap nothing is lost: this is what tracking a request in one step
      stands for. */
  lemma {:induction false} InTurnIsFresh(c: Cell<seq<RequestLog>>, es: seq<RequestLog>)
    requires c.open == []
    ensures Fresh(c, Append(), InTurn(es)) && Written(c, Append(), InTurn(es)) == es
    decreases |es|
  {
    if es != [] {
      var e, rest := es[0], [Write(0)] + InTurn(es[1..]);
      var reading := Cell(c.value, [Reader(e, c.value, c.writes)], c.writes);
      var written := Cell(c.value + [e], [], c.writes + 1);
      assert InTurn(es)[1..] == rest && rest[1..] == InTurn(es[1..]);
      assert Next(c, Append(), Read(e)) == reading && Next(reading, Append(), Write(0)) == written;
      InTurnIsFresh(written, es[1..]);
      assert Written(reading, Append(), rest) == [e] + es[1..];
    }
  }

  function Overlap(e: RequestLog, f: RequestLog, eFirst: bool): seq<Access> {
    [Read(e)] + ([Read(f)] + ([Write(if eFirst then 0 else 1)] + ([Write(0)] + [])))
  }

  /** Both requests read before either writes: the second write is all that stays. */
  lemma LastWriteStays<V>(v: V, update: (V, RequestLog) -> V, e: RequestLog, f: RequestLog, eFirst: bool)
    ensures RunCell(Cell(v, [], 0), update, Overlap(e, f, eFirst)) == Cell(update(v, if eFirst then f else e), [], 2)
  {
    var a, b := Reader(e, v, 0), Reader(f, v, 0);
    var i := if eFirst then 0 else 1;
    var first, second := if eFirst then a else b, if eFirst then b else a;
    var c0, c1, c2 := Cell(v, [], 0), Cell(v, [a], 0), Cell(v, [a, b], 0);
    var c3, c4 := Cell(update(v, first.entry), [second], 1), Cell(update(v, second.entry), [], 2);
    assert [] + [a] == [a] && [a] + [b] == [a, b] && [a, b][..i] + [a, b][i + 1..] == [second];
    assert [second][..0] + [second][1..] == [];
    RunCellCons(c0, update, Read(e), [Read(f)] + ([Write(i)] + ([Write(0)] + [])));
    RunCellCons(c1, update, Read(f), [Write(i)] + ([Write(0)] + []));
    RunCellCons(c2, update, Write(i), [Write(0)] + []);
    RunCellCons(c3, update, Write(0), []);
    assert Next(c0, update, Read(e)) == c1 && Next(c1, update, Read(f)) == c2;
    assert Next(c2, update, Write(i)) == c3 && Next(c3, update, Write(0)) == c4;
  }

  lemma OneOfVerb(e: RequestLog, verb: string)
    ensures |Filter([e], KeyIs(Verb(), verb))| == if e.verb == verb then 1 else 0
  {
    FilterPush([], e, KeyIs(Verb(), verb));
    assert [] + [e] == [e];
  }

  lemma VerbsNotAlike(e: RequestLog, f: RequestLog)
    requires e.verb != f.verb
    ensures !Alike([e], [f])
  {
    OneOfVerb(e, e.verb);
    OneOfVerb(f, e.verb);
    assert !SameCounts([e], [f], Verb());
  }

  /** Two requests that overlap can leave one of them in the log and the other in the
      summary, however the accesses to the two entries interleave. */
  lemma OverlapDisagrees(e: RequestLog, f: RequestLog, steps: seq<Step>)
    requires e.verb != f.verb
    requires LogAccesses(steps) == Overlap(e, f, true) && SummaryAccesses(steps) == Overlap(e, f, false)
    ensures var d := Run(Day(NewLog(), NewSummary()), steps);
      d.log.value == [f] && CountedLog(steps) == [e] && !Mirrors(d.summary.value, d.log.value)
  {
    RunProjects(Day(NewLog(), NewSummary()), steps);
    LastWriteStays([], Append(), e, f, true);
    LastWriteStays([], Append(), e, f, false);
    assert [] + [e] == [e] && [] + [f] == [f];
    SummaryAgreesIff(steps);
    VerbsNotAlike(e, f);
  }

  /** Nor need the writes change their order: it is enough that the second request
      reads both entries after the first has written the log and before it has written
      the summary. */
  lemma LateSummaryDisagrees(e: RequestLog, f: RequestLog, steps: seq<Step>)
    requires LogAccesses(steps) == InTurn([e, f]) && SummaryAccesses(steps) == Overlap(e, f, true)
    ensures var d := Run(Day(NewLog(), NewSummary()), steps);
      d.log.value == [e, f] && CountedLog(steps) == [f] && !Mirrors(d.summary.value, d.log.value)
  {
    RunProjects(Day(NewLog(), NewSummary()), steps);
    InTurnIsFresh(NewLog(), [e, f]);
    LogKeepsAllIff(NewLog(), InTurn([e, f]));
    LastWriteStays([], Append(), e, f, true);
    assert [] + [f] == [f] && [] + [e, f] == [e, f];
    SummaryAgreesIff(steps);
  }

  lemma AccessesCons(step: Step, rest: seq<Step>, ls: seq<Access>, ss: seq<Access>)
    requires LogAccesses(rest) == ls && SummaryAccesses(rest) == ss
    ensures LogAccesses([step] + rest) == if step.OnLog? then [step.access] + ls else ls
    ensures SummaryAccesses([step] + rest) == if step.OnSummary? then [step.access] + ss else ss
  {
    assert ([step] + rest)[1..] == rest;
  }

  /** The last three steps of such a run, and all of them. */
  function LateSummaryEnd(): seq<Step> {
    [OnSummary(Write(0))] + ([OnLog(Write(0))] + ([OnSummary(Write(0))] + []))
  }

  function LateSummary(e: RequestLog, f: RequestLog): seq<Step> {
    [OnLog(Read(e))] + ([OnSummary(Read(e))] + ([OnLog(Write(0))] + ([OnLog(Read(f))] + ([OnSummary(Read(f))] +
    LateSummaryEnd()))))
  }

  lemma LateSummaryEnds(w: Access)
    requires w == Write(0)
    ensures LogAccesses(LateSummaryEnd()) == [w] + [] && SummaryAccesses(LateSummaryEnd()) == [w] + ([w] + [])
  {
    AccessesCons(OnSummary(w), [], [], []);
    AccessesCons(OnLog(w), [OnSummary(w)] + [], [], [w] + []);
    AccessesCons(OnSummary(w), [OnLog(w)] + ([OnSummary(w)] + []), [w] + [], [w] + []);
  }

  lemma InTurnOfTwo(e: RequestLog, f: RequestLog)
    ensures InTurn([e, f]) == [Read(e)] + ([Write(0)] + ([Read(f)] + ([Write(0)] + [])))
  {
    assert [e, f][1..] == [f] && [f][1..] == [];
    assert InTurn([f]) == [Read(f)] + ([Write(0)] + []);
  }

  lemma LateSummaryIsOne(e: RequestLog, f: RequestLog)
    ensures LogAccesses(LateSummary(e, f)) == InTurn([e, f])
    ensures SummaryAccesses(LateSummary(e, f)) == Overlap(e, f, true)
  {
    var w := Write(0);
    LateSummaryEnds(w);
    InTurnOfTwo(e, f);
    var end, ls, ss := LateSummaryEnd(), [w] + [], [w] + ([w] + []);
    var s4 := [OnSummary(Read(f))] + end;
    AccessesCons(OnSummary(Read(f)), end, ls, ss);
    var s3 := [OnLog(Read(f))] + s4;
    AccessesCons(OnLog(Read(f)), s4, ls, [Read(f)] + ss);
    var s2 := [OnLog(w)] + s3;
    AccessesCons(OnLog(w), s3, [Read(f)] + ls, [Read(f)] + ss);
    AccessesCons(OnSummary(Read(e)), s2, [w] + ([Read(f)] + ls), [Read(f)] + ss);
    AccessesCons(OnLog(Read(e)), [OnSummary(Read(e))] + s2, [w] + ([Read(f)] + ls), [Read(e)] + ([Read(f)] + ss));
  }
}
