/** The accumulating builder of the school's subjects. */
module SubjectBuilder {
  import opened Sequences
  import opened Subjects

  class SubjectBuilder {
    var subjects: seq<Subject>
    var globalOrder: nat
    /** The calls so far, none of which threw. */
    ghost var script: seq<Call>

    ghost predicate Valid()
      reads this
    {
      Built(script, subjects) && globalOrder == |script|
    }

    constructor ()
      ensures Valid() && script == []
    {
      subjects, globalOrder := [], 0;
      script := [];
    }

    /** It succeeds exactly when the call extends the script properly.  One that
        throws has pushed nothing but used up a place in the global order. */
    method AddSubject(call: Call) returns (r: Result<(), Error>)
      requires Valid()
      modifies this
      ensures r.Ok? <==> Proper(old(script) + [call], |old(script)|)
      ensures r.Ok? ==> Valid() && script == old(script) + [call] && |subjects| == |old(subjects)| + 1
      ensures r.Ok? ==> subjects[..|old(subjects)|] == old(subjects)
      ensures r.Err? ==> subjects == old(subjects) && script == old(script) && globalOrder == old(globalOrder) + 1
    {
      globalOrder := globalOrder + 1;
      var sequence := |Filter(subjects, OfKind(call.subjectType, call.className))| + 1;
      CountIsRank(script, subjects, call);
      RankedCode(script, subjects, call);
      var code := GenerateSubjectCode(call.subjectType, call.className, sequence, false, 0);
      if code.Err? {
        return Err(code.error);
      }
      var subject := Made(call, globalOrder, code.value);
      GeneratedIsValid(subject, sequence);
      r := ValidateSubjectData(subject);
      if r.Err? {
        return;
      }
      BuiltPush(script, subjects, call, subject);
      subjects := subjects + [subject];
      script := script + [call];
    }
  }

  lemma RankedCode(script: seq<Call>, subjects: seq<Subject>, call: Call)
    requires Built(script, subjects)
    ensures var longer := script + [call];
      CodeAt(longer, |script|).Ok? <==>
        PrefixOf(call.subjectType).Some? && NumberOf(call.className).Some? && Rank(longer, |script|) < 36
  {
    var rank := Rank(script + [call], |script|);
    CodeAcceptedIff(call.subjectType, call.className, rank, false, 0);
    SequencesUpTo35(rank);
    if rank >= 36 {
      NextRankAtMost36(script, subjects, call);
    }
  }

  /** One more call of a kind can only be the 36th at the most. */
  lemma NextRankAtMost36(script: seq<Call>, subjects: seq<Subject>, call: Call)
    requires Built(script, subjects)
    ensures Rank(script + [call], |script|) <= 36
  {
    var kind := SameKind(call.subjectType, call.className);
    assert (script + [call])[..|script|] == script == script[..|script|];
    if |Filter(script, kind)| >= 36 {
      RankIsReached(script, |script|, kind, 36);
      var j :| 0 <= j < |script| && kind(script[j]) && |Filter(script[..j], kind)| + 1 == 36;
      assert Rank(script, j) == 36;
      BuiltRanks(script, subjects, j);
    }
  }

  /** Builds a whole script, which stops at the first call that throws.  It
      succeeds exactly when every call of the script is proper. */
  method GenerateSubjectsData(script: seq<Call>) returns (r: Result<seq<Subject>, Error>)
    ensures r.Ok? <==> forall i | 0 <= i < |script| :: Proper(script, i)
    ensures r.Ok? ==> Built(script, r.value)
  {
    var builder := new SubjectBuilder();
    for i := 0 to |script|
      invariant fresh(builder) && builder.Valid() && builder.script == script[..i]
    {
      assert script[..i + 1] == script[..i] + [script[i]];
      var added := builder.AddSubject(script[i]);
      if added.Err? {
        ProperPrefix(script, i);
        return Err(added.error);
      }
    }
    assert script[..|script|] == script;
    BuiltIff(script);
    r := Ok(builder.subjects);
  }

  lemma ProperPrefix(script: seq<Call>, i: nat)
    requires i < |script|
    ensures Proper(script[..i + 1], i) <==> Proper(script, i)
  {
    assert script[..i + 1][..i] == script[..i];
  }
}
