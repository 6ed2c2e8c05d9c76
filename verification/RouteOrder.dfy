/** validateRouteOrder: per HTTP method, the paths in definition order must equal
    the paths sorted with static ones first. */
module RouteOrder {
  import opened Sequences

  datatype Route = Route(verb: string, path: string)

  predicate IsDynamicPath(path: string) {
    ':' in path
  }

  /** The comparator handed to the sort. */
  function Compare(a: string, b: string): int {
    if IsDynamicPath(a) && !IsDynamicPath(b) then 1
    else if !IsDynamicPath(a) && IsDynamicPath(b) then -1
    else 0
  }

  function Dynamic(): string -> bool {
    (p: string) => IsDynamicPath(p)
  }

  function Static(): string -> bool {
    (p: string) => !IsDynamicPath(p)
  }

  // ---------------------------------------------------------------------
  // Stable sorting
  // ---------------------------------------------------------------------

  function TiesWith<T>(compare: (T, T) -> int, x: T): T -> bool {
    (y: T) => compare(x, y) == 0
  }

  /** What a stable sort returns: nothing out of order, and for each element those
      that compare equal to it are the same, in the same order. */
  ghost predicate StableSorted<T(!new)>(compare: (T, T) -> int, s: seq<T>, r: seq<T>) {
    Ordered(compare, r) &&
    (forall x :: Filter(r, TiesWith(compare, x)) == Filter(s, TiesWith(compare, x)))
  }

  function StaticFirst(paths: seq<string>): seq<string> {
    Filter(paths, Static()) + Filter(paths, Dynamic())
  }

  ghost predicate InOrder(paths: seq<string>) {
    forall i, j | 0 <= i < j < |paths| :: IsDynamicPath(paths[i]) ==> IsDynamicPath(paths[j])
  }

  /** Paths in order are their own static ones followed by their dynamic ones. */
  lemma {:induction false} OrderedIsStaticFirst(r: seq<string>)
    requires InOrder(r)
    ensures r == StaticFirst(r)
  {
    if r != [] {
      var n := |r| - 1;
      OrderedIsStaticFirst(r[..n]);
      assert r == r[..n] + [r[n]];
      if !IsDynamicPath(r[n]) {
        FilterNone(r[..n], Dynamic());
      }
    }
  }

  /** The two classes of the comparator, each seen from one of its members. */
  lemma Classes(s: seq<string>)
    ensures Filter(s, TiesWith(Compare, ":")) == Filter(s, Dynamic())
    ensures Filter(s, TiesWith(Compare, "")) == Filter(s, Static())
  {
    assert ":"[0] == ':' && IsDynamicPath(":") && !IsDynamicPath("");
    FilterSame(s, TiesWith(Compare, ":"), Dynamic());
    FilterSame(s, TiesWith(Compare, ""), Static());
  }

  /** Any stable sort under the comparator returns the static paths followed by the
      dynamic ones, each in their original order. */
  lemma StableSortIsStaticFirst(s: seq<string>, r: seq<string>)
    requires StableSorted(Compare, s, r)
    ensures r == StaticFirst(s)
  {
    forall i, j | 0 <= i < j < |r| ensures IsDynamicPath(r[i]) ==> IsDynamicPath(r[j]) {
      assert Compare(r[i], r[j]) <= 0;
    }
    OrderedIsStaticFirst(r);
    Classes(s);
    Classes(r);
  }

  /** The comparison with the sorted paths succeeds exactly when no dynamic path
      precedes a static one. */
  lemma SortedUnchangedIff(s: seq<string>)
    ensures s == StaticFirst(s) <==> InOrder(s)
  {
    if InOrder(s) {
      OrderedIsStaticFirst(s);
    }
    var a, b := Filter(s, Static()), Filter(s, Dynamic());
    FilterMembers(s, Static());
    FilterMembers(s, Dynamic());
    if s == a + b {
      forall i | 0 <= i < |a| ensures !IsDynamicPath(s[i]) {
        assert a[i] in a && s[i] == a[i];
      }
      forall j | |a| <= j < |s| ensures IsDynamicPath(s[j]) {
        assert b[j - |a|] in b && s[j] == b[j - |a|];
      }
    }
  }

  // ---------------------------------------------------------------------
  // Validation
  // ---------------------------------------------------------------------

  function VerbOf(): Route -> string {
    (r: Route) => r.verb
  }

  function PathOf(): Route -> string {
    (r: Route) => r.path
  }

  function PathsOf(routes: seq<Route>, verb: string): seq<string> {
    Map(Filter(routes, KeyIs(VerbOf(), verb)), PathOf())
  }

  /** A comparator that orders elements up to ties. */
  ghost predicate WeakOrder<T(!new)>(compare: (T, T) -> int) {
    (forall a, b :: compare(a, b) <= 0 <==> compare(b, a) >= 0) &&
    (forall a, b, c :: compare(a, b) <= 0 && compare(b, c) <= 0 ==> compare(a, c) <= 0)
  }

  lemma CompareIsWeakOrder()
    ensures WeakOrder(Compare)
  {
  }

  /** The place for an element: behind all that do not compare greater. */
  method PlaceFor(r: seq<string>, x: string) returns (k: nat)
    ensures k <= |r| && forall j | k <= j < |r| :: Compare(r[j], x) > 0
    ensures k > 0 ==> Compare(r[k - 1], x) <= 0
  {
    k := |r|;
    while k > 0 && Compare(r[k - 1], x) > 0
      invariant k <= |r| && forall j | k <= j < |r| :: Compare(r[j], x) > 0
    {
      k := k - 1;
    }
  }

  /** The array method `sort`, here by insertion. */
  method StableSort(s: seq<string>) returns (r: seq<string>)
    ensures StableSorted(Compare, s, r)
  {
    r := [];
    for i := 0 to |s|
      invariant StableSorted(Compare, s[..i], r)
    {
      var k := PlaceFor(r, s[i]);
      CompareIsWeakOrder();
      InsertStable(Compare, s[..i], r, s[i], k);
      assert s[..i + 1] == s[..i] + [s[i]];
      r := r[..k] + [s[i]] + r[k..];
    }
    assert s[..|s|] == s;
  }

  lemma InsertStable<T(!new)>(compare: (T, T) -> int, s: seq<T>, r: seq<T>, x: T, k: nat)
    requires WeakOrder(compare) && StableSorted(compare, s, r) && k <= |r|
    requires forall j | k <= j < |r| :: compare(r[j], x) > 0
    requires k > 0 ==> compare(r[k - 1], x) <= 0
    ensures StableSorted(compare, s + [x], r[..k] + [x] + r[k..])
  {
    InsertOrdered(compare, r, x, k);
    forall y ensures Filter(r[..k] + [x] + r[k..], TiesWith(compare, y)) == Filter(s + [x], TiesWith(compare, y)) {
      if compare(y, x) == 0 {
        forall z | z in r[k..] ensures !TiesWith(compare, y)(z) {
          NotTied(compare, x, y, z);
        }
      }
      assert r[..k] + r[k..] == r;
      InsertTies(s, r[..k], r[k..], x, TiesWith(compare, y));
    }
  }

  ghost predicate Ordered<T>(compare: (T, T) -> int, r: seq<T>) {
    forall i, j | 0 <= i < j < |r| :: compare(r[i], r[j]) <= 0
  }

  lemma OrderedConcat<T>(compare: (T, T) -> int, a: seq<T>, b: seq<T>)
    requires Ordered(compare, a) && Ordered(compare, b)
    requires forall i, j | 0 <= i < |a| && 0 <= j < |b| :: compare(a[i], b[j]) <= 0
    ensures Ordered(compare, a + b)
  {
  }

  lemma InsertOrdered<T(!new)>(compare: (T, T) -> int, r: seq<T>, x: T, k: nat)
    requires WeakOrder(compare) && Ordered(compare, r)
    requires k <= |r| && forall j | k <= j < |r| :: compare(r[j], x) > 0
    requires k > 0 ==> compare(r[k - 1], x) <= 0
    ensures Ordered(compare, r[..k] + [x] + r[k..])
  {
    forall i | 0 <= i < k ensures compare(r[i], x) <= 0 {
      if i < k - 1 {
        assert compare(r[i], r[k - 1]) <= 0;
      }
    }
    forall j | k <= j < |r| ensures compare(x, r[j]) <= 0 {
      assert compare(r[j], x) >= 0;
    }
    OrderedConcat(compare, r[..k], [x]);
    OrderedConcat(compare, r[..k] + [x], r[k..]);
  }

  lemma InsertTies<T>(s: seq<T>, a: seq<T>, b: seq<T>, x: T, tie: T -> bool)
    requires Filter(a + b, tie) == Filter(s, tie)
    requires tie(x) ==> forall z | z in b :: !tie(z)
    ensures Filter(a + [x] + b, tie) == Filter(s + [x], tie)
  {
    FilterConcat(a, b, tie);
    FilterPush(a, x, tie);
    FilterConcat(a + [x], b, tie);
    FilterPush(s, x, tie);
    var fa, fb := Filter(a, tie), Filter(b, tie);
    if tie(x) {
      FilterNone(b, tie);
      assert fa + [] == fa && fa + [x] + [] == fa + [x];
    }
  }

  lemma NotTied<T(!new)>(compare: (T, T) -> int, x: T, y: T, z: T)
    requires WeakOrder(compare) && compare(z, x) > 0 && compare(y, x) == 0
    ensures compare(y, z) != 0
  {
    assert compare(z, y) <= 0 <==> compare(y, z) >= 0;
  }

  /** Method k of the list appears in the routes after methods before it only. */
  ghost predicate Appears(routes: seq<Route>, verbs: seq<string>, k: nat)
    requires k < |verbs|
  {
    exists i :: 0 <= i < |routes| && routes[i].verb == verbs[k] && forall j | 0 <= j < i :: routes[j].verb in verbs[..k]
  }

  ghost predicate InAppearance(routes: seq<Route>, verbs: seq<string>) {
    (forall k | 0 <= k < |verbs| :: Appears(routes, verbs, k)) && forall r | r in routes :: r.verb in verbs
  }

  lemma AppearsLater(routes: seq<Route>, verbs: seq<string>, k: nat, r: Route, more: seq<string>)
    requires k < |verbs| && Appears(routes, verbs, k)
    ensures Appears(routes + [r], verbs + more, k)
  {
    var i :| 0 <= i < |routes| && routes[i].verb == verbs[k] && forall j | 0 <= j < i :: routes[j].verb in verbs[..k];
    assert (routes + [r])[i] == routes[i] && (verbs + more)[..k] == verbs[..k];
  }

  lemma AppearancePush(routes: seq<Route>, verbs: seq<string>, r: Route)
    requires InAppearance(routes, verbs)
    ensures InAppearance(routes + [r], if r.verb in verbs then verbs else verbs + [r.verb])
  {
    var more := if r.verb in verbs then [] else [r.verb];
    var longer := verbs + more;
    forall k | 0 <= k < |longer| ensures Appears(routes + [r], longer, k) {
      if k < |verbs| {
        AppearsLater(routes, verbs, k, r, more);
      } else {
        assert longer[..k] == verbs && (routes + [r])[|routes|] == r;
      }
    }
    assert longer == if r.verb in verbs then verbs else verbs + [r.verb];
  }

  ghost predicate Grouped(grouped: map<string, seq<string>>, verbs: seq<string>, routes: seq<Route>) {
    Enumerates(verbs, grouped.Keys) && GroupedBy(grouped, routes, VerbOf(), PathOf())
  }

  /** One turn of the grouping loop. */
  method GroupRoute(grouped: map<string, seq<string>>, verbs: seq<string>, route: Route, ghost routes: seq<Route>)
    returns (updated: map<string, seq<string>>, keys: seq<string>)
    requires Grouped(grouped, verbs, routes) && InAppearance(routes, verbs)
    ensures Grouped(updated, keys, routes + [route]) && InAppearance(routes + [route], keys)
  {
    var verb := route.verb;
    var found := if verb in grouped then grouped[verb] else [];
    GroupTurn(grouped, verbs, routes, VerbOf(), PathOf(), route, found);
    AppearancePush(routes, verbs, route);
    assert verb in grouped <==> verb in (set x | x in verbs);
    updated := grouped[verb := found + [route.path]];
    keys := if verb in grouped then verbs else verbs + [verb];
  }

  /** The grouping loop: a path list per method, methods in order of appearance. */
  method GroupByVerb(routes: seq<Route>) returns (grouped: map<string, seq<string>>, verbs: seq<string>)
    ensures Grouped(grouped, verbs, routes) && InAppearance(routes, verbs)
  {
    grouped, verbs := map[], [];
    for i := 0 to |routes|
      invariant Grouped(grouped, verbs, routes[..i]) && InAppearance(routes[..i], verbs)
    {
      assert routes[..i + 1] == routes[..i] + [routes[i]];
      grouped, verbs := GroupRoute(grouped, verbs, routes[i], routes[..i]);
    }
    assert routes[..|routes|] == routes;
  }

  lemma PathsPush(routes: seq<Route>, r: Route, v: string)
    ensures PathsOf(routes + [r], v) == PathsOf(routes, v) + (if r.verb == v then [r.path] else [])
  {
    FilterPush(routes, r, KeyIs(VerbOf(), v));
    MapPush(Filter(routes, KeyIs(VerbOf(), v)), r, PathOf());
  }

  ghost predicate VerbAccepted(routes: seq<Route>, v: string) {
    InOrder(PathsOf(routes, v))
  }

  lemma ComparedPaths(paths: seq<string>, sortedPaths: seq<string>)
    requires StableSorted(Compare, paths, sortedPaths)
    ensures paths == sortedPaths <==> InOrder(paths)
  {
    StableSortIsStaticFirst(paths, sortedPaths);
    SortedUnchangedIff(paths);
  }

  lemma OtherVerbsAccepted(routes: seq<Route>, verbs: seq<string>)
    requires Enumerates(verbs, KeysOf(routes, VerbOf()))
    requires forall k | 0 <= k < |verbs| :: VerbAccepted(routes, verbs[k])
    ensures forall v :: VerbAccepted(routes, v)
  {
    forall v ensures VerbAccepted(routes, v) {
      if v in KeysOf(routes, VerbOf()) {
        assert v in (set x | x in verbs);
      } else {
        NoneOfKey(routes, VerbOf(), v);
      }
    }
  }

  /** The method is rejected, and it appears before any other that is. */
  ghost predicate FirstRejected(routes: seq<Route>, verb: string) {
    !VerbAccepted(routes, verb) &&
    exists i :: 0 <= i < |routes| && routes[i].verb == verb &&
      forall j | 0 <= j < i :: VerbAccepted(routes, routes[j].verb)
  }

  lemma RejectedInOrder(routes: seq<Route>, verbs: seq<string>, k: nat)
    requires InAppearance(routes, verbs) && k < |verbs| && !VerbAccepted(routes, verbs[k])
    requires forall j | 0 <= j < k :: VerbAccepted(routes, verbs[j])
    ensures FirstRejected(routes, verbs[k])
  {
    assert Appears(routes, verbs, k);
    var i :| 0 <= i < |routes| && routes[i].verb == verbs[k] && forall j | 0 <= j < i :: routes[j].verb in verbs[..k];
    assert forall j | 0 <= j < i :: VerbAccepted(routes, routes[j].verb);
  }

  /** The comparison that the loop makes for one method. */
  method InSortedOrder(originalPaths: seq<string>) returns (same: bool)
    ensures same <==> InOrder(originalPaths)
  {
    var sortedPaths := StableSort(originalPaths);
    ComparedPaths(originalPaths, sortedPaths);
    same := originalPaths == sortedPaths;
  }

  lemma GroupedPaths(grouped: map<string, seq<string>>, verbs: seq<string>, routes: seq<Route>, k: nat)
    requires Grouped(grouped, verbs, routes) && k < |verbs|
    ensures verbs[k] in grouped && grouped[verbs[k]] == PathsOf(routes, verbs[k])
  {
    assert verbs[k] in (set x | x in verbs);
  }

  /** The loop over the methods; it ends at the first that is rejected. */
  method FirstUnordered(grouped: map<string, seq<string>>, verbs: seq<string>, ghost routes: seq<Route>)
    returns (at: nat)
    requires Grouped(grouped, verbs, routes)
    ensures at <= |verbs| && forall k | 0 <= k < at :: VerbAccepted(routes, verbs[k])
    ensures at < |verbs| ==> !VerbAccepted(routes, verbs[at])
  {
    at := 0;
    while at < |verbs|
      invariant at <= |verbs| && forall k | 0 <= k < at :: VerbAccepted(routes, verbs[k])
    {
      GroupedPaths(grouped, verbs, routes, at);
      var same := InSortedOrder(grouped[verbs[at]]);
      if !same {
        return;
      }
      at := at + 1;
    }
  }

  /** Returns the method that the thrown error names: the first, in order of
      appearance, with a dynamic path before a static one. */
  method ValidateRouteOrder(routes: seq<Route>) returns (r: Result<(), string>)
    ensures r.Ok? <==> forall v :: VerbAccepted(routes, v)
    ensures r.Ok? <==>
      forall i, j | 0 <= i < j < |routes| && routes[i].verb == routes[j].verb && ':' in routes[i].path ::
        ':' in routes[j].path
    ensures r.Err? ==> FirstRejected(routes, r.error)
  {
    var grouped, verbs := GroupByVerb(routes);
    var at := FirstUnordered(grouped, verbs, routes);
    MisplacedIff(routes);
    if at < |verbs| {
      RejectedInOrder(routes, verbs, at);
      return Err(verbs[at]);
    }
    OtherVerbsAccepted(routes, verbs);
    r := Ok(());
  }

  /** In terms of the routes themselves: some dynamic route is defined before a
      static route of the same method. */
  lemma MisplacedIff(routes: seq<Route>)
    ensures (forall v :: VerbAccepted(routes, v)) <==>
      forall i, j | 0 <= i < j < |routes| && routes[i].verb == routes[j].verb && ':' in routes[i].path ::
        ':' in routes[j].path
  {
    forall v ensures VerbAccepted(routes, v) <==> VerbInOrder(routes, v) {
      VerbOrder(routes, v);
    }
    if forall v :: VerbAccepted(routes, v) {
      forall i, j | 0 <= i < j < |routes| && routes[i].verb == routes[j].verb && IsDynamicPath(routes[i].path)
        ensures IsDynamicPath(routes[j].path)
      {
        assert VerbInOrder(routes, routes[i].verb);
      }
    }
  }

  ghost predicate VerbInOrder(routes: seq<Route>, v: string) {
    forall i, j | 0 <= i < j < |routes| && routes[i].verb == v && routes[j].verb == v &&
      IsDynamicPath(routes[i].path) :: IsDynamicPath(routes[j].path)
  }

  lemma {:induction false} VerbOrder(routes: seq<Route>, v: string)
    ensures InOrder(PathsOf(routes, v)) <==> VerbInOrder(routes, v)
  {
    if routes != [] {
      var n := |routes| - 1;
      var front, r := routes[..n], routes[n];
      VerbOrder(front, v);
      assert routes == front + [r];
      PathsPush(front, r, v);
      PathMembers(front, v);
      var paths := PathsOf(front, v);
      if r.verb == v {
        OrderPush(paths, r.path);
        VerbOrderPush(front, r);
      }
    }
  }

  lemma OrderPush(paths: seq<string>, p: string)
    ensures InOrder(paths + [p]) <==> InOrder(paths) && (IsDynamicPath(p) || forall q | q in paths :: !IsDynamicPath(q))
  {
    var after := paths + [p];
    if InOrder(after) {
      forall i, j | 0 <= i < j < |paths| && IsDynamicPath(paths[i]) ensures IsDynamicPath(paths[j]) {
        assert after[i] == paths[i] && after[j] == paths[j];
      }
      forall q | q in paths && !IsDynamicPath(p) ensures !IsDynamicPath(q) {
        var i :| 0 <= i < |paths| && paths[i] == q;
        assert after[i] == q && after[|paths|] == p;
      }
    }
  }

  lemma VerbOrderPush(routes: seq<Route>, r: Route)
    ensures VerbInOrder(routes + [r], r.verb) <==>
      VerbInOrder(routes, r.verb) &&
      (IsDynamicPath(r.path) || forall q | q in routes && q.verb == r.verb :: !IsDynamicPath(q.path))
  {
    var after := routes + [r];
    if VerbInOrder(after, r.verb) {
      forall i, j | 0 <= i < j < |routes| && routes[i].verb == r.verb && routes[j].verb == r.verb &&
        IsDynamicPath(routes[i].path)
        ensures IsDynamicPath(routes[j].path)
      {
        assert after[i] == routes[i] && after[j] == routes[j];
      }
      forall q | q in routes && q.verb == r.verb && !IsDynamicPath(r.path) ensures !IsDynamicPath(q.path) {
        var i :| 0 <= i < |routes| && routes[i] == q;
        assert after[i] == q && after[|routes|] == r;
      }
    }
  }

  lemma PathMembers(routes: seq<Route>, v: string)
    ensures forall p | p in PathsOf(routes, v) :: exists r | r in routes :: r.verb == v && r.path == p
    ensures forall r | r in routes && r.verb == v :: r.path in PathsOf(routes, v)
  {
    var mine := Filter(routes, KeyIs(VerbOf(), v));
    FilterMembers(routes, KeyIs(VerbOf(), v));
    forall p | p in PathsOf(routes, v) ensures exists r | r in routes :: r.verb == v && r.path == p {
      var i :| 0 <= i < |mine| && PathsOf(routes, v)[i] == p;
      assert mine[i] in mine;
    }
    forall r | r in routes && r.verb == v ensures r.path in PathsOf(routes, v) {
      assert r in mine;
      var i :| 0 <= i < |mine| && mine[i] == r;
      assert PathsOf(routes, v)[i] == r.path;
    }
  }
}
