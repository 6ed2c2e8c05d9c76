/** Filtering, summing and distinctness over sequences, defined from the last
    element so that they follow a collection that grows by appending. */
module Sequences {

  datatype Option<+T> = None | Some(value: T)

  datatype Result<+T, +E> = Ok(value: T) | Err(error: E)

  function Filter<T>(s: seq<T>, keep: T -> bool): seq<T> {
    if s == [] then []
    else
      var front := Filter(s[..|s| - 1], keep);
      if keep(s[|s| - 1]) then front + [s[|s| - 1]] else front
  }

  function Map<T, U>(s: seq<T>, f: T -> U): (r: seq<U>)
    ensures |r| == |s|
    ensures forall i | 0 <= i < |s| :: r[i] == f(s[i])
  {
    if s == [] then [] else Map(s[..|s| - 1], f) + [f(s[|s| - 1])]
  }

  function Sum<T>(s: seq<T>, f: T -> int): int {
    if s == [] then 0 else Sum(s[..|s| - 1], f) + f(s[|s| - 1])
  }

  ghost predicate DistinctBy<T, K>(s: seq<T>, key: T -> K) {
    forall i, j | 0 <= i < j < |s| :: key(s[i]) != key(s[j])
  }

  lemma Assoc<T>(a: seq<T>, b: seq<T>, c: seq<T>)
    ensures a + (b + c) == a + b + c
  {
  }

  lemma FilterPush<T>(s: seq<T>, x: T, keep: T -> bool)
    ensures Filter(s + [x], keep) == Filter(s, keep) + (if keep(x) then [x] else [])
  {
    assert (s + [x])[..|s|] == s;
  }

  lemma SumPush<T>(s: seq<T>, x: T, f: T -> int)
    ensures Sum(s + [x], f) == Sum(s, f) + f(x)
  {
    assert (s + [x])[..|s|] == s;
  }

  lemma {:induction false} FilterConcat<T>(s: seq<T>, t: seq<T>, keep: T -> bool)
    ensures Filter(s + t, keep) == Filter(s, keep) + Filter(t, keep)
  {
    if t == [] {
      assert s + t == s;
    } else {
      var n := |t| - 1;
      FilterConcat(s, t[..n], keep);
      assert s + t == (s + t[..n]) + [t[n]];
      FilterPush(s + t[..n], t[n], keep);
    }
  }

  lemma {:induction false} SumConcat<T>(s: seq<T>, t: seq<T>, f: T -> int)
    ensures Sum(s + t, f) == Sum(s, f) + Sum(t, f)
  {
    if t == [] {
      assert s + t == s;
    } else {
      var n := |t| - 1;
      SumConcat(s, t[..n], f);
      assert s + t == (s + t[..n]) + [t[n]];
      SumPush(s + t[..n], t[n], f);
    }
  }

  lemma {:induction false} FilterMembers<T>(s: seq<T>, keep: T -> bool)
    ensures forall x | x in Filter(s, keep) :: x in s && keep(x)
    ensures forall x | x in s && keep(x) :: x in Filter(s, keep)
  {
    if s != [] {
      var n := |s| - 1;
      FilterMembers(s[..n], keep);
      assert s == s[..n] + [s[n]];
    }
  }

  lemma {:induction false} FilterAll<T>(s: seq<T>, keep: T -> bool)
    requires forall x | x in s :: keep(x)
    ensures Filter(s, keep) == s
  {
    if s != [] {
      var n := |s| - 1;
      FilterAll(s[..n], keep);
      assert s == s[..n] + [s[n]];
    }
  }

  lemma {:induction false} FilterNone<T>(s: seq<T>, keep: T -> bool)
    requires forall x | x in s :: !keep(x)
    ensures Filter(s, keep) == []
  {
    if s != [] {
      FilterNone(s[..|s| - 1], keep);
    }
  }

  /** A test that one element alone passes. */
  lemma {:induction false} FilterOne<T>(s: seq<T>, i: nat, keep: T -> bool)
    requires i < |s| && keep(s[i]) && forall j | 0 <= j < |s| && j != i :: !keep(s[j])
    ensures Filter(s, keep) == [s[i]]
  {
    var n := |s| - 1;
    if i == n {
      FilterNone(s[..n], keep);
    } else {
      FilterOne(s[..n], i, keep);
    }
  }

  /** Filtering by two tests that agree on the elements gives the same result. */
  lemma {:induction false} FilterSame<T>(s: seq<T>, p: T -> bool, q: T -> bool)
    requires forall x | x in s :: p(x) == q(x)
    ensures Filter(s, p) == Filter(s, q)
  {
    if s != [] {
      FilterSame(s[..|s| - 1], p, q);
    }
  }

  /** Filtering twice is filtering by both tests. */
  lemma {:induction false} FilterTwice<T>(s: seq<T>, p: T -> bool, q: T -> bool, both: T -> bool)
    requires forall x | x in s :: both(x) == (p(x) && q(x))
    ensures Filter(Filter(s, p), q) == Filter(s, both)
  {
    if s != [] {
      var n := |s| - 1;
      FilterTwice(s[..n], p, q, both);
      if p(s[n]) {
        FilterPush(Filter(s[..n], p), s[n], q);
      }
    }
  }

  lemma {:induction false} SumSame<T>(s: seq<T>, f: T -> int, g: T -> int)
    requires forall x | x in s :: f(x) == g(x)
    ensures Sum(s, f) == Sum(s, g)
  {
    if s != [] {
      SumSame(s[..|s| - 1], f, g);
    }
  }

  /** Two tests that exclude each other share out the elements of their union. */
  lemma {:induction false} SumDisjoint<T>(s: seq<T>, p: T -> bool, q: T -> bool, either: T -> bool, f: T -> int)
    requires forall x | x in s :: !(p(x) && q(x)) && (p(x) || q(x)) == either(x)
    ensures Sum(Filter(s, p), f) + Sum(Filter(s, q), f) == Sum(Filter(s, either), f)
    ensures |Filter(s, p)| + |Filter(s, q)| == |Filter(s, either)|
  {
    if s != [] {
      var n := |s| - 1;
      SumDisjoint(s[..n], p, q, either, f);
      if p(s[n]) {
        SumPush(Filter(s[..n], p), s[n], f);
      }
      if q(s[n]) {
        SumPush(Filter(s[..n], q), s[n], f);
      }
      if either(s[n]) {
        SumPush(Filter(s[..n], either), s[n], f);
      }
    }
  }

  function Anything<T>(): T -> bool {
    (x: T) => true
  }

  /** Every element passes exactly one of two complementary tests. */
  lemma SumSplit<T>(s: seq<T>, keep: T -> bool, drop: T -> bool, f: T -> int)
    requires forall x | x in s :: keep(x) == !drop(x)
    ensures Sum(Filter(s, keep), f) + Sum(Filter(s, drop), f) == Sum(s, f)
    ensures |Filter(s, keep)| + |Filter(s, drop)| == |s|
  {
    SumDisjoint(s, keep, drop, Anything(), f);
    FilterAll(s, Anything());
  }

  // ---------------------------------------------------------------------
  // What filtering is, by positions
  // ---------------------------------------------------------------------

  /** `r` lists the elements of `s` at the positions `at`, which are in order and are
      those at which the test holds. */
  ghost predicate Positions<T>(s: seq<T>, keep: T -> bool, r: seq<T>, at: seq<nat>) {
    |at| == |r| && (forall i, j | 0 <= i < j < |at| :: at[i] < at[j]) &&
    (forall i | 0 <= i < |at| :: at[i] < |s| && r[i] == s[at[i]] && keep(r[i])) &&
    (forall k | 0 <= k < |s| && keep(s[k]) :: k in at)
  }

  lemma PositionsPush<T>(s: seq<T>, keep: T -> bool, r: seq<T>, at: seq<nat>, x: T)
    requires Positions(s, keep, r, at)
    ensures if keep(x) then Positions(s + [x], keep, r + [x], at + [|s|]) else Positions(s + [x], keep, r, at)
  {
    var longer := s + [x];
    var more := if keep(x) then at + [|s|] else at;
    forall k | 0 <= k < |longer| && keep(longer[k]) ensures k in more {
      if k < |s| {
        assert longer[k] == s[k];
        assert k in at;
      } else {
        assert more[|at|] == k;
      }
    }
  }

  /** `r` lists, in order, exactly the elements of `s` that pass the test. */
  ghost predicate ListsAll<T>(s: seq<T>, keep: T -> bool, r: seq<T>) {
    exists at :: Positions(s, keep, r, at)
  }

  lemma {:induction false} FilterPositions<T>(s: seq<T>, keep: T -> bool) returns (at: seq<nat>)
    ensures Positions(s, keep, Filter(s, keep), at)
  {
    at := [];
    if s != [] {
      var front, x := s[..|s| - 1], s[|s| - 1];
      at := FilterPositions(front, keep);
      PositionsPush(front, keep, Filter(front, keep), at, x);
      assert s == front + [x];
      if keep(x) {
        at := at + [|front|];
      }
    }
  }

  lemma FilterLists<T>(s: seq<T>, keep: T -> bool)
    ensures ListsAll(s, keep, Filter(s, keep))
  {
    var at := FilterPositions(s, keep);
  }

  ghost function PassingAt<T>(s: seq<T>, keep: T -> bool): set<int> {
    set k | 0 <= k < |s| && keep(s[k])
  }

  /** How many elements pass the test, counted by their positions. */
  lemma {:induction false} FilterSize<T>(s: seq<T>, keep: T -> bool)
    ensures |Filter(s, keep)| == |PassingAt(s, keep)|
  {
    if s != [] {
      var n := |s| - 1;
      FilterSize(s[..n], keep);
      assert PassingAt(s, keep) == PassingAt(s[..n], keep) + if keep(s[n]) then {n} else {};
    }
  }

  // ---------------------------------------------------------------------
  // Grouping by a key
  // ---------------------------------------------------------------------

  function KeyIs<T, K(==)>(key: T -> K, k: K): T -> bool {
    (x: T) => key(x) == k
  }

  function KeyIn<T, K(==)>(key: T -> K, ks: seq<K>): T -> bool {
    (x: T) => key(x) in ks
  }

  function SumForKey<T, K(==)>(s: seq<T>, key: T -> K, f: T -> int): K -> int {
    (k: K) => Sum(Filter(s, KeyIs(key, k)), f)
  }

  /** Adding up the groups of distinct keys counts every element that has one of
      those keys once. */
  lemma {:induction false} SumOverKeys<T, K>(ks: seq<K>, s: seq<T>, key: T -> K, f: T -> int)
    requires forall i, j | 0 <= i < j < |ks| :: ks[i] != ks[j]
    ensures Sum(ks, SumForKey(s, key, f)) == Sum(Filter(s, KeyIn(key, ks)), f)
  {
    if ks == [] {
      FilterNone(s, KeyIn(key, ks));
    } else {
      var n := |ks| - 1;
      SumOverKeys(ks[..n], s, key, f);
      assert ks == ks[..n] + [ks[n]];
      SumDisjoint(s, KeyIn(key, ks[..n]), KeyIs(key, ks[n]), KeyIn(key, ks), f);
    }
  }

  lemma {:induction false} DistinctFilter<T, K>(s: seq<T>, key: T -> K, keep: T -> bool)
    requires DistinctBy(s, key)
    ensures DistinctBy(Filter(s, keep), key)
  {
    if s != [] {
      var n := |s| - 1;
      DistinctFilter(s[..n], key, keep);
      FilterMembers(s[..n], keep);
      var f := Filter(s[..n], keep);
      forall i | 0 <= i < |f| ensures key(f[i]) != key(s[n]) {
        var x := f[i];
        assert x in f;
        assert x in Filter(s[..n], keep);
        assert x in s[..n];
        var j :| 0 <= j < n && s[j] == x;
      }
    }
  }

  lemma DistinctConcat<T, K>(s: seq<T>, t: seq<T>, key: T -> K)
    requires DistinctBy(s, key) && DistinctBy(t, key)
    requires forall x, y | x in s && y in t :: key(x) != key(y)
    ensures DistinctBy(s + t, key)
  {
    var r := s + t;
    forall i, j | 0 <= i < j < |r| ensures key(r[i]) != key(r[j]) {
      if i < |s| <= j {
        assert r[i] == s[i] && r[j] == t[j - |s|];
      } else if j < |s| {
        assert r[i] == s[i] && r[j] == s[j];
      } else {
        assert r[i] == t[i - |s|] && r[j] == t[j - |s|];
      }
    }
  }

  /** `s` lists the elements of a set, each once. */
  ghost predicate Enumerates<T>(s: seq<T>, keys: set<T>) {
    (forall i, j | 0 <= i < j < |s| :: s[i] != s[j]) && (set x | x in s) == keys
  }

  lemma EnumeratesPush<T>(s: seq<T>, keys: set<T>, x: T)
    requires Enumerates(s, keys) && x !in keys
    ensures Enumerates(s + [x], keys + {x})
  {
  }

  lemma {:induction false} EnumerationSize<T>(s: seq<T>, keys: set<T>)
    requires Enumerates(s, keys)
    ensures |s| == |keys|
  {
    if s == [] {
      assert keys == {};
    } else {
      var n := |s| - 1;
      assert s == s[..n] + [s[n]];
      assert (set x | x in s[..n]) == keys - {s[n]};
      EnumerationSize(s[..n], keys - {s[n]});
    }
  }

  lemma MapPush<T, U>(s: seq<T>, x: T, f: T -> U)
    ensures Map(s + [x], f) == Map(s, f) + [f(x)]
  {
    assert (s + [x])[..|s|] == s;
  }

  ghost function KeysOf<T, K>(s: seq<T>, key: T -> K): set<K> {
    set x | x in s :: key(x)
  }

  lemma KeysPush<T, K>(s: seq<T>, x: T, key: T -> K)
    ensures KeysOf(s + [x], key) == KeysOf(s, key) + {key(x)}
  {
  }

  lemma NoneOfKey<T, K>(s: seq<T>, key: T -> K, k: K)
    requires k !in KeysOf(s, key)
    ensures Filter(s, KeyIs(key, k)) == []
  {
    FilterNone(s, KeyIs(key, k));
  }

  lemma HasKeyIff<T, K>(log: seq<T>, key: T -> K, k: K)
    ensures k in KeysOf(log, key) <==> Filter(log, KeyIs(key, k)) != []
  {
    FilterMembers(log, KeyIs(key, k));
    if k !in KeysOf(log, key) {
      NoneOfKey(log, key, k);
    } else {
      var e :| e in log && key(e) == k;
      assert KeyIs(key, k)(e);
    }
  }

  /** `groups` holds the values of the elements of each key, in order. */
  ghost predicate GroupedBy<T, K, V>(groups: map<K, seq<V>>, s: seq<T>, key: T -> K, value: T -> V) {
    groups.Keys == KeysOf(s, key) &&
    forall k | k in groups :: groups[k] == Map(Filter(s, KeyIs(key, k)), value)
  }

  lemma GroupedPush<T, K, V>(groups: map<K, seq<V>>, s: seq<T>, key: T -> K, value: T -> V, x: T, found: seq<V>)
    requires GroupedBy(groups, s, key, value)
    requires found == if key(x) in groups then groups[key(x)] else []
    ensures GroupedBy(groups[key(x) := found + [value(x)]], s + [x], key, value)
  {
    KeysPush(s, x, key);
    var after := groups[key(x) := found + [value(x)]];
    forall k | k in after ensures after[k] == Map(Filter(s + [x], KeyIs(key, k)), value) {
      FilterPush(s, x, KeyIs(key, k));
      MapPush(Filter(s, KeyIs(key, k)), x, value);
      if k !in groups {
        NoneOfKey(s, key, k);
      }
    }
  }

  /** One turn of a loop that groups by key and keeps the keys in order of
      appearance. */
  lemma GroupTurn<T, K, V>(groups: map<K, seq<V>>, order: seq<K>, s: seq<T>, key: T -> K, value: T -> V, x: T,
                           found: seq<V>)
    requires Enumerates(order, groups.Keys) && GroupedBy(groups, s, key, value)
    requires found == if key(x) in groups then groups[key(x)] else []
    ensures var updated := groups[key(x) := found + [value(x)]];
      GroupedBy(updated, s + [x], key, value) &&
      Enumerates(if key(x) in groups then order else order + [key(x)], updated.Keys)
  {
    GroupedPush(groups, s, key, value, x, found);
    var updated := groups[key(x) := found + [value(x)]];
    if key(x) in groups {
      assert updated.Keys == groups.Keys;
    } else {
      EnumeratesPush(order, groups.Keys, key(x));
      assert updated.Keys == groups.Keys + {key(x)};
    }
  }
}
