/** When two logs have the same summary. */
module RequestAgreement {
  import opened Sequences
  import opened RequestTracker

  ghost predicate SameCounts<T, K(!new)>(a: seq<T>, b: seq<T>, key: T -> K) {
    forall k :: |Filter(a, KeyIs(key, k))| == |Filter(b, KeyIs(key, k))|
  }

  lemma SameCountsSameKeys<T, K(!new)>(a: seq<T>, b: seq<T>, key: T -> K)
    requires SameCounts(a, b, key)
    ensures KeysOf(a, key) == KeysOf(b, key)
  {
    forall k ensures k in KeysOf(a, key) <==> k in KeysOf(b, key) {
      HasKeyIff(a, key, k);
      HasKeyIff(b, key, k);
      assert |Filter(a, KeyIs(key, k))| == |Filter(b, KeyIs(key, k))|;
    }
  }

  lemma SameHistogramCounts<T, K(!new)>(a: seq<T>, b: seq<T>, key: T -> K, counts: map<K, nat>)
    requires Histogram(a, key, counts) && Histogram(b, key, counts)
    ensures SameCounts(a, b, key)
  {
    forall k ensures |Filter(a, KeyIs(key, k))| == |Filter(b, KeyIs(key, k))| {
      if k !in counts {
        NoneOfKey(a, key, k);
        NoneOfKey(b, key, k);
      }
    }
  }

  /** The counters of a level serve for another log exactly when it has the same
      number of entries of every key. */
  lemma HistogramIff<T, K(!new)>(a: seq<T>, b: seq<T>, key: T -> K, counts: map<K, nat>)
    requires Histogram(a, key, counts)
    ensures Histogram(b, key, counts) <==> SameCounts(a, b, key)
  {
    if SameCounts(a, b, key) {
      SameCountsSameKeys(a, b, key);
    } else if Histogram(b, key, counts) {
      SameHistogramCounts(a, b, key, counts);
    }
  }

  /** `alike` tells which logs a part can mirror besides the one that it mirrors, and
      never likens an empty log to another. */
  ghost predicate Decides<T(!new), S(!new)>(mirrors: (S, seq<T>) -> bool, alike: (seq<T>, seq<T>) -> bool) {
    (forall s, x, y | x != [] && mirrors(s, x) :: mirrors(s, y) <==> alike(x, y)) &&
    (forall x, y | alike(x, y) :: x == [] <==> y == []) && alike([], [])
  }

  ghost predicate PartsAlike<T, K(!new)>(a: seq<T>, b: seq<T>, key: T -> K, alike: (seq<T>, seq<T>) -> bool) {
    forall k :: alike(Filter(a, KeyIs(key, k)), Filter(b, KeyIs(key, k)))
  }

  lemma PartsAlikeSameKeys<T(!new), K(!new)>(a: seq<T>, b: seq<T>, key: T -> K, alike: (seq<T>, seq<T>) -> bool)
    requires PartsAlike(a, b, key, alike) && forall x, y | alike(x, y) :: x == [] <==> y == []
    ensures KeysOf(a, key) == KeysOf(b, key)
  {
    forall k ensures k in KeysOf(a, key) <==> k in KeysOf(b, key) {
      HasKeyIff(a, key, k);
      HasKeyIff(b, key, k);
      assert alike(Filter(a, KeyIs(key, k)), Filter(b, KeyIs(key, k)));
    }
  }

  lemma NestedForBoth<T(!new), K(!new), S(!new)>(a: seq<T>, b: seq<T>, key: T -> K, parts: map<K, S>,
                                                 mirrors: (S, seq<T>) -> bool, alike: (seq<T>, seq<T>) -> bool)
    requires Nested(a, key, parts, mirrors) && Nested(b, key, parts, mirrors) && Decides(mirrors, alike)
    ensures PartsAlike(a, b, key, alike)
  {
    forall k ensures alike(Filter(a, KeyIs(key, k)), Filter(b, KeyIs(key, k))) {
      if k in parts {
        HasKeyIff(a, key, k);
        assert mirrors(parts[k], Filter(a, KeyIs(key, k))) && mirrors(parts[k], Filter(b, KeyIs(key, k)));
      } else {
        NoneOfKey(a, key, k);
        NoneOfKey(b, key, k);
      }
    }
  }

  /** The same for a level of parts. */
  lemma NestedIff<T(!new), K(!new), S(!new)>(a: seq<T>, b: seq<T>, key: T -> K, parts: map<K, S>,
                                             mirrors: (S, seq<T>) -> bool, alike: (seq<T>, seq<T>) -> bool)
    requires Nested(a, key, parts, mirrors) && Decides(mirrors, alike)
    ensures Nested(b, key, parts, mirrors) <==> PartsAlike(a, b, key, alike)
  {
    if PartsAlike(a, b, key, alike) {
      PartsAlikeSameKeys(a, b, key, alike);
      forall k | k in parts ensures mirrors(parts[k], Filter(b, KeyIs(key, k))) {
        HasKeyIff(a, key, k);
        assert mirrors(parts[k], Filter(a, KeyIs(key, k)));
        assert alike(Filter(a, KeyIs(key, k)), Filter(b, KeyIs(key, k)));
      }
    } else if Nested(b, key, parts, mirrors) {
      NestedForBoth(a, b, key, parts, mirrors, alike);
    }
  }

  // ---------------------------------------------------------------------
  // Paths, users, days
  // ---------------------------------------------------------------------

  ghost predicate AlikePath(a: seq<RequestLog>, b: seq<RequestLog>) {
    |a| == |b| && SameCounts(a, b, Verb())
  }

  ghost function PathAlike(): (seq<RequestLog>, seq<RequestLog>) -> bool {
    (a: seq<RequestLog>, b: seq<RequestLog>) => AlikePath(a, b)
  }

  /** A user's requests, apart from their order: as many of each verb, status group,
      path, and path with verb, and the last one at the same time. */
  ghost predicate AlikeUser(a: seq<RequestLog>, b: seq<RequestLog>) {
    |a| == |b| && SameCounts(a, b, Verb()) && SameCounts(a, b, Status()) && PartsAlike(a, b, Path(), PathAlike()) &&
    (a != [] && b != [] ==> a[|a| - 1].timestamp == b[|b| - 1].timestamp)
  }

  ghost function UserAlike(): (seq<RequestLog>, seq<RequestLog>) -> bool {
    (a: seq<RequestLog>, b: seq<RequestLog>) => AlikeUser(a, b)
  }

  /** A day's requests: as many in all, of each verb and status group, and for each
      user as above. */
  ghost predicate Alike(a: seq<RequestLog>, b: seq<RequestLog>) {
    |a| == |b| && SameCounts(a, b, Verb()) && SameCounts(a, b, Status()) && PartsAlike(a, b, User(), UserAlike())
  }

  lemma PathsDecided()
    ensures Decides(PathMirror(), PathAlike())
  {
    forall s, x, y | PathMirror()(s, x) ensures PathMirror()(s, y) <==> PathAlike()(x, y) {
      HistogramIff(x, y, Verb(), s.methods);
    }
  }

  lemma UsersDecided()
    ensures Decides(UserMirror(), UserAlike())
  {
    PathsDecided();
    forall s, x, y | x != [] && UserMirror()(s, x) ensures UserMirror()(s, y) <==> UserAlike()(x, y) {
      HistogramIff(x, y, Verb(), s.byMethod);
      HistogramIff(x, y, Status(), s.byStatus);
      NestedIff(x, y, Path(), s.byPath, PathMirror(), PathAlike());
    }
  }

  /** A summary of one log is the summary of another exactly when the two are alike. */
  lemma SummaryServesIff(s: DailySummary, a: seq<RequestLog>, b: seq<RequestLog>)
    requires Mirrors(s, a)
    ensures Mirrors(s, b) <==> Alike(a, b)
  {
    UsersDecided();
    HistogramIff(a, b, Verb(), s.byMethod);
    HistogramIff(a, b, Status(), s.byStatus);
    NestedIff(a, b, User(), s.byUser, UserMirror(), UserAlike());
  }
}
