/** The generators as methods on the day's tracker. */
module RollGenerator {
  import opened Sequences
  import opened Decimal
  import opened RollNumbers

  datatype Failure = AttemptsExhausted

  class RollGenerator {
    const today: string
    var tracker: Option<Tracker>
    var registered: set<string>
    ghost var drawn: nat

    /** `drawn` counts the draws of the day that the tracker has kept. */
    ghost predicate Valid()
      reads this
    {
      tracker == After(drawn)
    }

    constructor (today: string, registered: set<string>)
      ensures Valid() && drawn == 0 && this.today == today && this.registered == registered
    {
      this.today, this.registered, tracker, drawn := today, registered, None, 0;
    }

    /** One update of the tracker, with the reset when the sequence passes 99. */
    method Draw(atWrap: string) returns (id: string)
      requires Valid()
      modifies this`tracker, this`drawn
      ensures Valid() && drawn == old(drawn) + 1
      ensures id == Printed(today, After(old(drawn)), atWrap)
    {
      DrawClosedForm(today, drawn);
      var updated := Incremented(tracker);
      tracker := Some(updated);
      var sequenceStr, finalCheckDigit := Padded(updated.lastSequence, 2), updated.checkDigit;
      if updated.lastSequence > 99 {
        finalCheckDigit := (updated.checkDigit + 1) % 10;
        tracker := Some(Tracker(1, finalCheckDigit));
        sequenceStr := atWrap;
      }
      drawn := drawn + 1;
      id := Format(today, finalCheckDigit, sequenceStr);
    }

    /** The legacy generator: no look at the students, "00" at a wrap. */
    method GenerateUniqueId() returns (id: string)
      requires Valid()
      modifies this`tracker, this`drawn
      ensures Valid() && drawn == old(drawn) + 1 && id == LegacyIdAt(today, old(drawn))
    {
      DrawClosedForm(today, drawn);
      id := Draw("00");
    }

    /** Without a session each attempt is a transaction of its own: a collision
        rolls the tracker back, so that the retry draws the same id.  Under a
        caller's session a collision leaves the tracker advanced. */
    method GenerateUniqueRollNumber(session: bool) returns (r: Result<string, Failure>)
      requires Valid()
      modifies this`tracker, this`drawn
      ensures Valid()
      ensures session ==>
        match Attempt(Free(today, registered), old(drawn))
        case Some(i) => r == Ok(Ids(today)(i)) && drawn == i + 1
        case None => r == Err(AttemptsExhausted) && drawn == old(drawn) + MAX_ATTEMPTS
      ensures !session ==>
        if Free(today, registered)(old(drawn))
        then r == Ok(Ids(today)(old(drawn))) && drawn == old(drawn) + 1
        else r == Err(AttemptsExhausted) && drawn == old(drawn)
    {
      var attempts := 0;
      while attempts < MAX_ATTEMPTS
        invariant 0 <= attempts <= MAX_ATTEMPTS && Valid()
        invariant session ==> drawn == old(drawn) + attempts
        invariant session ==>
          Attempt(Free(today, registered), old(drawn))
            == FirstFree(Free(today, registered), drawn, MAX_ATTEMPTS - attempts)
        invariant !session ==> drawn == old(drawn)
        invariant !session && attempts > 0 ==> !Free(today, registered)(old(drawn))
      {
        attempts := attempts + 1;
        var startTracker := tracker;
        ghost var startDrawn := drawn;
        DrawClosedForm(today, drawn);
        var generatedId := Draw("01");
        if generatedId !in registered {
          return Ok(generatedId);
        }
        if !session {
          tracker, drawn := startTracker, startDrawn;
        }
      }
      r := Err(AttemptsExhausted);
    }

    /** One call under the reservation's session, with the draw that it kept. */
    method DrawNext(ghost idOf: nat -> string, ghost free: nat -> bool)
      returns (r: Result<string, Failure>, ghost k: nat)
      requires Valid() && idOf == Ids(today) && free == Free(today, registered)
      modifies this`tracker, this`drawn
      ensures Valid()
      ensures r.Err? ==> Attempt(free, old(drawn)).None?
      ensures r.Ok? ==> Attempt(free, old(drawn)) == Some(k) && r.value == idOf(k) && drawn == k + 1
    {
      ghost var found := Attempt(free, drawn);
      k := if found.Some? then found.value else 0;
      r := GenerateUniqueRollNumber(true);
    }

    /** The reservation's transaction: one id after another under its session. */
    method DrawMany(count: nat) returns (r: Result<seq<string>, Failure>, ghost taken: seq<nat>)
      requires Valid()
      modifies this`tracker, this`drawn
      ensures Valid()
      ensures r.Err? ==> Reservation(Free(today, registered), old(drawn), count).None?
      ensures r.Ok? ==>
        Collecting(Ids(today), Free(today, registered), old(drawn), count, count, drawn, taken, r.value)
    {
      ghost var n, idOf, free := drawn, Ids(today), Free(today, registered);
      var ids: seq<string> := [];
      taken := [];
      CollectStarts(idOf, free, n, count);
      for i := 0 to count
        invariant Valid() && Collecting(idOf, free, n, count, i, drawn, taken, ids)
      {
        ghost var before := drawn;
        var next;
        ghost var k;
        next, k := DrawNext(idOf, free);
        if next.Err? {
          CollectFails(idOf, free, n, count, i, before, taken, ids);
          return Err(next.error), [];
        }
        CollectStep(idOf, free, n, count, i, before, taken, ids, k);
        ids, taken := ids + [next.value], taken + [k];
      }
      r := Ok(ids);
    }

    /** A batch in one transaction: on a failure the tracker is as it was. */
    method ReserveUniqueIds(count: int) returns (r: Result<seq<string>, Failure>, ghost taken: seq<nat>)
      requires Valid()
      modifies this`tracker, this`drawn
      ensures Valid()
      ensures count <= 0 ==> r == Ok([]) && drawn == old(drawn)
      ensures count > 0 ==> (r.Ok? <==> Suffices(Free(today, registered), old(drawn), count))
      ensures r.Err? ==> tracker == old(tracker) && drawn == old(drawn)
      ensures r.Ok? ==> (Distinct(r.value) <==> count <= |UnusedIds(today, registered)|)
      ensures r.Ok? && count > 0 ==>
        |taken| == count && HandedOut(today, old(drawn), registered, taken, r.value) && drawn == taken[count - 1] + 1
    {
      if count <= 0 {
        return Ok([]), [];
      }
      var startTracker := tracker;
      ghost var n := drawn;
      r, taken := DrawMany(count);
      ReservationSucceedsIff(Free(today, registered), n, count);
      if r.Err? {
        tracker, drawn := startTracker, n;
      } else {
        CollectEnds(Ids(today), Free(today, registered), n, count, drawn, taken, r.value);
        ReservedIds(today, n, registered, taken, r.value);
      }
    }

    /** Reads the tracker and simulates from it. */
    method PreviewNextIds(count: int) returns (results: seq<Simulated>)
      requires Valid()
      ensures |results| == if count <= 0 then 0 else count
      ensures count > 0 ==>
        (ShowsDraws(today, drawn, results) <==> tracker.None? || tracker.value.lastSequence < 99)
      ensures ShowsFields(today, drawn, results)
    {
      if count <= 0 {
        return [];
      }
      var startSequence, startCheckDigit := 1, 0;
      if tracker.Some? {
        startSequence, startCheckDigit := tracker.value.lastSequence + 1, tracker.value.checkDigit;
      }
      results := SimulateIdGeneration(count, today, startSequence, startCheckDigit);
      PreviewFacts(today, drawn, results);
    }
  }

  /** The results show the ids of the draws from n on. */
  ghost predicate ShowsDraws(today: string, n: nat, results: seq<Simulated>) {
    forall i | 0 <= i < |results| :: results[i].id == IdAt(today, n + i)
  }

  /** Date and index of the results, and their sequence and check digit unless the
      preview starts at the end of a cycle. */
  ghost predicate ShowsFields(today: string, n: nat, results: seq<Simulated>) {
    forall i | 0 <= i < |results| ::
      && results[i].date == today && results[i].index == i + 1
      && (n == 0 || n % 99 != 0 ==>
            results[i].sequence == (n + i) % 99 + 1 && results[i].checkDigit == (n + i) / 99 % 10)
  }

  lemma PreviewFacts(today: string, n: nat, results: seq<Simulated>)
    requires results != [] && forall i | 0 <= i < |results| ::
      results[i] == SimulatedAt(today, PreviewStart(After(n)).0, PreviewStart(After(n)).1, i)
    ensures ShowsDraws(today, n, results) <==> After(n).None? || After(n).value.lastSequence < 99
    ensures ShowsFields(today, n, results)
  {
    PreviewIsRealityIff(today, n, |results|);
    PreviewShowsFields(today, n, results);
  }

  lemma PreviewShowsFields(today: string, n: nat, results: seq<Simulated>)
    requires forall i | 0 <= i < |results| ::
      results[i] == SimulatedAt(today, PreviewStart(After(n)).0, PreviewStart(After(n)).1, i)
    ensures ShowsFields(today, n, results)
  {
    forall i | 0 <= i < |results|
      ensures results[i].date == today && results[i].index == i + 1
      ensures n == 0 || n % 99 != 0 ==>
        results[i].sequence == (n + i) % 99 + 1 && results[i].checkDigit == (n + i) / 99 % 10
    {
      PreviewLabels(today, n, i);
    }
  }

  function Prefixed(taken: seq<nat>, rest: Option<seq<nat>>): Option<seq<nat>> {
    match rest
    case None => None
    case Some(more) => Some(taken + more)
  }

  /** The reservation's loop has taken i of `count` draws, from draw n up to draw
      `at`, and what is left to draw is the rest of the whole reservation. */
  ghost predicate Collecting(ids: nat -> string, free: nat -> bool, n: nat, count: nat, i: nat, at: nat,
                             taken: seq<nat>, drawnIds: seq<string>)
  {
    && i <= count && |drawnIds| == |taken| == i
    && (forall k | 0 <= k < i :: drawnIds[k] == ids(taken[k]))
    && at == (if i == 0 then n else taken[i - 1] + 1)
    && Reservation(free, n, count) == Prefixed(taken, Reservation(free, at, count - i))
  }

  lemma CollectStarts(ids: nat -> string, free: nat -> bool, n: nat, count: nat)
    ensures Collecting(ids, free, n, count, 0, n, [], [])
  {
    match Reservation(free, n, count)
    case None =>
    case Some(whole) => assert [] + whole == whole;
  }

  lemma CollectStep(ids: nat -> string, free: nat -> bool, n: nat, count: nat, i: nat, at: nat,
                    taken: seq<nat>, drawnIds: seq<string>, k: nat)
    requires Collecting(ids, free, n, count, i, at, taken, drawnIds) && i < count && Attempt(free, at) == Some(k)
    ensures Collecting(ids, free, n, count, i + 1, k + 1, taken + [k], drawnIds + [ids(k)])
  {
    PrefixedCons(taken, k, Reservation(free, k + 1, count - i - 1));
  }

  lemma PrefixedCons(taken: seq<nat>, k: nat, rest: Option<seq<nat>>)
    ensures rest.Some? ==> Prefixed(taken, Some([k] + rest.value)) == Prefixed(taken + [k], rest)
  {
    if rest.Some? {
      assert taken + ([k] + rest.value) == taken + [k] + rest.value;
    }
  }

  lemma CollectFails(ids: nat -> string, free: nat -> bool, n: nat, count: nat, i: nat, at: nat,
                     taken: seq<nat>, drawnIds: seq<string>)
    requires Collecting(ids, free, n, count, i, at, taken, drawnIds) && i < count && Attempt(free, at).None?
    ensures Reservation(free, n, count).None?
  {
  }

  lemma CollectEnds(ids: nat -> string, free: nat -> bool, n: nat, count: nat, at: nat,
                    taken: seq<nat>, drawnIds: seq<string>)
    requires Collecting(ids, free, n, count, count, at, taken, drawnIds)
    ensures Reservation(free, n, count) == Some(taken)
  {
    assert taken + [] == taken;
  }
}
