/** The invoice generator as an object over its counter document. */
module InvoiceIdGenerator {
  import opened Sequences
  import opened Decimal
  import opened Invoices

  datatype Failure = CountNotPositive

  class InvoiceIdGenerator {
    const paddingLength: nat
    var counter: Option<Counter>
    ghost var issued: seq<Issue>

    /** `issued` lists everything handed out since the counter was created: no
        number twice, and nothing that the counter could still reach. */
    ghost predicate Valid()
      reads this
    {
      Unrepeated(counter, issued)
    }

    ghost predicate ClockAt(m: int)
      reads this
    {
      InTime(counter, m)
    }

    constructor (paddingLength: nat)
      ensures Valid() && counter == None && this.paddingLength == paddingLength
    {
      this.paddingLength, counter, issued := paddingLength, None, [];
    }

    method EnsureCounter(m: int, prefixBytes: (nat, nat)) returns (prefix: string)
      modifies this`counter
      ensures counter == Some(Invoices.EnsureCounter(old(counter), m, RandomString([prefixBytes.0, prefixBytes.1])))
      ensures counter.value.lastUpdated == m && prefix == counter.value.prefix
      ensures if old(counter).Some? && old(counter).value.lastUpdated == m then counter == old(counter)
              else counter.value.sequence == 0 && ShowsMonth(prefix, m) && IsClear(prefix[0]) && IsClear(prefix[1])
    {
      NewPrefixShows(m, prefixBytes);
      var newPrefix := NewPrefix(m, RandomString([prefixBytes.0, prefixBytes.1]));
      if counter.None? {
        counter := Some(Counter(0, newPrefix, m));
        return newPrefix;
      }
      if counter.value.lastUpdated != m {
        counter := Some(Counter(0, newPrefix, m));
      }
      prefix := counter.value.prefix;
    }

    method GenerateId(m: int, prefixBytes: (nat, nat), randomPart: string) returns (id: string)
      modifies this
      ensures old(Valid() && ClockAt(m)) ==> Valid()
      ensures var (d, issues) := Serve(old(counter), Call(m, prefixBytes, Always(randomPart), 1));
        counter == Some(d) && issued == old(issued) + issues && id == Print(issues[0], paddingLength)
      ensures Continues(old(counter), counter, m, 1)
      ensures Spells(id, counter.value.prefix, counter.value.sequence, paddingLength, randomPart)
      ensures Marked(old(counter)) ==> Marked(counter) && HeadShows(id, m)
    {
      ghost var q := Call(m, prefixBytes, Always(randomPart), 1);
      IssueKeepsValid(counter, issued, q);
      var prefix := EnsureCounter(m, prefixBytes);
      var sequence := counter.value.sequence + 1;
      counter := Some(counter.value.(sequence := sequence));
      issued := issued + [Issue(m, prefix, sequence, randomPart)];
      id := "INV-" + prefix + "-" + Padded(sequence, paddingLength) + "-" + randomPart;
      PrintSpells(Issue(m, prefix, sequence, randomPart), paddingLength);
      HeadOfMarked(old(counter), m, prefixBytes, counter.value, id, sequence, paddingLength, randomPart);
      assert Serve(old(counter), q).1 == [Issue(m, prefix, sequence, randomPart)];
    }

    method GenerateBatch(m: int, prefixBytes: (nat, nat), tails: nat -> string, count: int)
      returns (r: Result<seq<string>, Failure>)
      modifies this
      ensures old(Valid() && ClockAt(m)) ==> Valid()
      ensures count <= 0 ==> r == Err(CountNotPositive) && counter == old(counter) && issued == old(issued)
      ensures count > 0 ==>
        var (d, issues) := Serve(old(counter), Call(m, prefixBytes, tails, count));
        && counter == Some(d) && issued == old(issued) + issues
        && r.Ok? && |r.value| == |issues| == count
        && forall i | 0 <= i < count :: r.value[i] == Print(issues[i], paddingLength)
      ensures count > 0 ==> Continues(old(counter), counter, m, count)
      ensures r.Ok? ==> SpellsAll(r.value, counter, count, paddingLength, tails)
      ensures r.Ok? && Marked(old(counter)) ==> Marked(counter) && forall i | 0 <= i < count :: HeadShows(r.value[i], m)
    {
      if count <= 0 {
        return Err(CountNotPositive);
      }
      ghost var q := Call(m, prefixBytes, tails, count);
      ghost var issues := Serve(counter, q).1;
      ServeFollows(counter, q);
      IssueKeepsValid(counter, issued, q);
      var prefix := EnsureCounter(m, prefixBytes);
      counter := Some(counter.value.(sequence := counter.value.sequence + count));
      issued := issued + issues;
      var startSequence := counter.value.sequence - count + 1;
      var ids := PrintBatch(prefix, startSequence, tails, count, paddingLength, issues);
      BatchSpells(issues, counter, startSequence, count, paddingLength, tails, ids);
      BatchHeads(old(counter), m, prefixBytes, counter, ids, count, paddingLength, tails);
      r := Ok(ids);
    }
  }

  /** The counter's prefix shows its month. */
  ghost predicate Marked(c: Option<Counter>) {
    c.Some? ==> ShowsMonth(c.value.prefix, c.value.lastUpdated)
  }

  /** A call in month m moves the sequence on by count, from 0 under a new prefix if the
      counter is missing or of another month. */
  ghost predicate Continues(before: Option<Counter>, after: Option<Counter>, m: int, count: nat) {
    after.Some? && after.value.lastUpdated == m &&
    if before.Some? && before.value.lastUpdated == m
    then after.value.prefix == before.value.prefix && after.value.sequence == before.value.sequence + count
    else ShowsMonth(after.value.prefix, m) && after.value.sequence == count
  }

  ghost predicate SpellsAll(ids: seq<string>, c: Option<Counter>, count: nat, width: nat, tails: nat -> string) {
    c.Some? && |ids| == count <= c.value.sequence &&
    forall i | 0 <= i < count ::
      Spells(ids[i], c.value.prefix, c.value.sequence - count + 1 + i, width, tails(i))
  }

  lemma HeadOfMarked(before: Option<Counter>, m: int, bytes: (nat, nat), after: Counter, id: string, sequence: nat,
                     width: nat, tail: string)
    requires after.prefix == Invoices.EnsureCounter(before, m, RandomString([bytes.0, bytes.1])).prefix
    requires after.lastUpdated == m && Spells(id, after.prefix, sequence, width, tail)
    ensures Marked(before) ==> Marked(Some(after)) && HeadShows(id, m)
  {
    NewPrefixShows(m, bytes);
    if Marked(before) {
      SpellsHead(id, after.prefix, sequence, width, tail, m);
    }
  }

  lemma BatchSpells(issues: seq<Issue>, c: Option<Counter>, start: nat, count: nat, width: nat, tails: nat -> string,
                    ids: seq<string>)
    requires c.Some? && start == c.value.sequence - count + 1 && |issues| == count == |ids|
    requires forall i | 0 <= i < count ::
      issues[i].prefix == c.value.prefix && issues[i].sequence == start + i && issues[i].random == tails(i) &&
      ids[i] == Print(issues[i], width)
    requires count <= c.value.sequence
    ensures SpellsAll(ids, c, count, width, tails)
  {
    forall i | 0 <= i < count ensures Spells(ids[i], c.value.prefix, start + i, width, tails(i)) {
      PrintSpells(issues[i], width);
    }
  }

  lemma BatchHeads(before: Option<Counter>, m: int, bytes: (nat, nat), after: Option<Counter>, ids: seq<string>,
                   count: nat, width: nat, tails: nat -> string)
    requires SpellsAll(ids, after, count, width, tails) && after.value.lastUpdated == m
    requires after.value.prefix == Invoices.EnsureCounter(before, m, RandomString([bytes.0, bytes.1])).prefix
    ensures Marked(before) ==> Marked(after) && forall i | 0 <= i < count :: HeadShows(ids[i], m)
  {
    NewPrefixShows(m, bytes);
    if Marked(before) {
      forall i | 0 <= i < count ensures HeadShows(ids[i], m) {
        SpellsHead(ids[i], after.value.prefix, after.value.sequence - count + 1 + i, width, tails(i), m);
      }
    }
  }

  /** The loop that prints a batch. */
  method PrintBatch(prefix: string, startSequence: nat, tails: nat -> string, count: nat, paddingLength: nat,
                    ghost issues: seq<Issue>)
    returns (ids: seq<string>)
    requires |issues| == count
    requires forall i | 0 <= i < count ::
      issues[i].prefix == prefix && issues[i].sequence == startSequence + i && issues[i].random == tails(i)
    ensures |ids| == count && forall i | 0 <= i < count :: ids[i] == Print(issues[i], paddingLength)
  {
    ids := [];
    for i := 0 to count
      invariant |ids| == i && forall k | 0 <= k < i :: ids[k] == Print(issues[k], paddingLength)
    {
      var currentSequence := startSequence + i;
      ids := ids + ["INV-" + prefix + "-" + Padded(currentSequence, paddingLength) + "-" + tails(i)];
    }
  }

  /** No number was issued twice, and none is ahead of the counter. */
  ghost predicate Unrepeated(c: Option<Counter>, issued: seq<Issue>) {
    Proper(c) && NoRepeats(issued) && (c.None? ==> issued == []) &&
    forall i | 0 <= i < |issued| :: c.Some? && Behind(issued[i], c.value)
  }

  ghost predicate InTime(c: Option<Counter>, m: int) {
    0 <= m < 1200 && (c.Some? ==> c.value.lastUpdated <= m)
  }

  /** One call on a forward clock adds numbers that are new. */
  lemma IssueKeepsValid(c: Option<Counter>, issued: seq<Issue>, q: Call)
    ensures Unrepeated(c, issued) && InTime(c, q.month) ==>
      Unrepeated(Some(Serve(c, q).0), issued + Serve(c, q).1)
  {
    if Unrepeated(c, issued) && InTime(c, q.month) {
      ServedIssues(c, q);
      var (d, issues) := Serve(c, q);
      forall i | 0 <= i < |issued|
        ensures Behind(issued[i], d) && forall j | 0 <= j < |issues| :: !SameNumber(issued[i], issues[j])
      {
        OlderIssue(c.value, q, issued[i]);
      }
      JoinedDiffer(issued, issues);
    }
  }
}
