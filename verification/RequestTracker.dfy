/** The request tracker: a log per day, and a summary of nested counters that has
    to agree with it. */
module RequestTracker {
  import opened Sequences
  import opened Decimal

  datatype RequestLog = RequestLog(userId: string, path: string, verb: string, statusCode: nat, timestamp: int)

  datatype PathStats = PathStats(count: nat, methods: map<string, nat>)

  datatype UserSummary = UserSummary(
    total: nat,
    byMethod: map<string, nat>,
    byStatus: map<string, nat>,
    byPath: map<string, PathStats>,
    lastAccessed: int)

  datatype DailySummary = DailySummary(
    total: nat,
    byUser: map<string, UserSummary>,
    byMethod: map<string, nat>,
    byStatus: map<string, nat>)

  // ---------------------------------------------------------------------
  // The keys of a request
  // ---------------------------------------------------------------------

  function StatusKey(statusCode: nat): string {
    var statusGroup := statusCode / 100 * 100;
    Dec(statusGroup) + "-" + Dec(statusGroup + 99)
  }

  function User(): RequestLog -> string {
    (e: RequestLog) => e.userId
  }

  function Path(): RequestLog -> string {
    (e: RequestLog) => e.path
  }

  function Verb(): RequestLog -> string {
    (e: RequestLog) => e.verb
  }

  function Status(): RequestLog -> string {
    (e: RequestLog) => StatusKey(e.statusCode)
  }

  /** Two status codes are counted together exactly when they agree in hundreds. */
  lemma StatusKeyIff(a: nat, b: nat)
    ensures StatusKey(a) == StatusKey(b) <==> a / 100 == b / 100
  {
    var g, h := a / 100 * 100, b / 100 * 100;
    DecHasNoDash(g);
    DecHasNoDash(h);
    SplitAtDash(Dec(g), Dec(g + 99));
    SplitAtDash(Dec(h), Dec(h + 99));
    DecValue(g);
    DecValue(h);
  }

  /** A status key prints the bounds of its hundred, as in "400-499". */
  lemma StatusKeyBounds(code: nat)
    ensures var key := StatusKey(code);
      && key == BeforeDash(key) + "-" + AfterDash(key)
      && AllDigits(BeforeDash(key)) && Value(BeforeDash(key)) == code - code % 100
      && AllDigits(AfterDash(key)) && Value(AfterDash(key)) == code - code % 100 + 99
  {
    var low := code / 100 * 100;
    DecHasNoDash(low);
    SplitAtDash(Dec(low), Dec(low + 99));
    DecValue(low);
    DecValue(low + 99);
  }

  lemma DecHasNoDash(n: nat)
    ensures NoDash(Dec(n))
  {
    DecValue(n);
  }

  // ---------------------------------------------------------------------
  // Histograms
  // ---------------------------------------------------------------------

  function Bump<K>(counts: map<K, nat>, k: K): map<K, nat> {
    counts[k := (if k in counts then counts[k] else 0) + 1]
  }

  /** `counts` holds, for each key that occurs in the log, how often it does. */
  ghost predicate Histogram<T, K>(log: seq<T>, key: T -> K, counts: map<K, nat>) {
    counts.Keys == KeysOf(log, key) &&
    forall k | k in counts :: counts[k] == |Filter(log, KeyIs(key, k))|
  }

  lemma HistogramPush<T, K>(log: seq<T>, e: T, key: T -> K, counts: map<K, nat>)
    requires Histogram(log, key, counts)
    ensures Histogram(log + [e], key, Bump(counts, key(e)))
  {
    KeysPush(log, e, key);
    var after := Bump(counts, key(e));
    forall k | k in after ensures after[k] == |Filter(log + [e], KeyIs(key, k))| {
      FilterPush(log, e, KeyIs(key, k));
      if k !in counts {
        NoneOfKey(log, key, k);
      }
    }
  }

  /** `parts` holds, for each key that occurs in the log, a part that mirrors the
      entries of that key. */
  ghost predicate Nested<T, K, S>(log: seq<T>, key: T -> K, parts: map<K, S>, mirrors: (S, seq<T>) -> bool) {
    parts.Keys == KeysOf(log, key) &&
    forall k | k in parts :: mirrors(parts[k], Filter(log, KeyIs(key, k)))
  }

  /** A new entry concerns the part of its own key only; `found` is what is there
      for it, or an empty part. */
  lemma NestedPush<T, K, S>(log: seq<T>, e: T, key: T -> K, parts: map<K, S>, mirrors: (S, seq<T>) -> bool,
                            found: S, counted: S)
    requires Nested(log, key, parts, mirrors)
    requires if key(e) in parts then found == parts[key(e)] else mirrors(found, [])
    requires forall part: seq<T> | mirrors(found, part) :: mirrors(counted, part + [e])
    ensures Nested(log + [e], key, parts[key(e) := counted], mirrors)
  {
    KeysPush(log, e, key);
    var after := parts[key(e) := counted];
    forall k | k in after ensures mirrors(after[k], Filter(log + [e], KeyIs(key, k))) {
      FilterPush(log, e, KeyIs(key, k));
      if k !in parts {
        NoneOfKey(log, key, k);
      }
    }
  }

  function CountIn<K>(counts: map<K, nat>): K -> int {
    (k: K) => if k in counts then counts[k] else 0
  }

  function One<T>(): T -> int {
    (x: T) => 1
  }

  lemma {:induction false} SumOfOnes<T>(s: seq<T>)
    ensures Sum(s, One()) == |s|
  {
    if s != [] {
      SumOfOnes(s[..|s| - 1]);
    }
  }

  /** The counters of a level add up to the number of entries they count. */
  lemma HistogramTotal<T, K>(log: seq<T>, key: T -> K, counts: map<K, nat>, order: seq<K>)
    requires Histogram(log, key, counts) && Enumerates(order, counts.Keys)
    ensures Sum(order, CountIn(counts)) == |log|
  {
    forall k | k in order ensures CountIn(counts)(k) == SumForKey(log, key, One())(k) {
      assert k in (set x | x in order);
      SumOfOnes(Filter(log, KeyIs(key, k)));
    }
    SumSame(order, CountIn(counts), SumForKey(log, key, One()));
    SumOverKeys(order, log, key, One());
    forall e | e in log ensures KeyIn(key, order)(e) {
      assert key(e) in KeysOf(log, key) && key(e) in (set x | x in order);
    }
    FilterAll(log, KeyIn(key, order));
    SumOfOnes(log);
  }

  // ---------------------------------------------------------------------
  // The summary of a log
  // ---------------------------------------------------------------------

  ghost predicate MirrorsPath(s: PathStats, log: seq<RequestLog>) {
    s.count == |log| && Histogram(log, Verb(), s.methods)
  }

  function PathLog(log: seq<RequestLog>, path: string): seq<RequestLog> {
    Filter(log, KeyIs(Path(), path))
  }

  function UserLog(log: seq<RequestLog>, userId: string): seq<RequestLog> {
    Filter(log, KeyIs(User(), userId))
  }

  ghost function PathMirror(): (PathStats, seq<RequestLog>) -> bool {
    (s: PathStats, log: seq<RequestLog>) => MirrorsPath(s, log)
  }

  ghost predicate MirrorsPaths(byPath: map<string, PathStats>, log: seq<RequestLog>) {
    Nested(log, Path(), byPath, PathMirror())
  }

  ghost predicate MirrorsUser(s: UserSummary, log: seq<RequestLog>) {
    s.total == |log| && Histogram(log, Verb(), s.byMethod) && Histogram(log, Status(), s.byStatus) &&
    MirrorsPaths(s.byPath, log) && (log != [] ==> s.lastAccessed == log[|log| - 1].timestamp)
  }

  ghost function UserMirror(): (UserSummary, seq<RequestLog>) -> bool {
    (s: UserSummary, log: seq<RequestLog>) => MirrorsUser(s, log)
  }

  ghost predicate MirrorsUsers(byUser: map<string, UserSummary>, log: seq<RequestLog>) {
    Nested(log, User(), byUser, UserMirror())
  }

  /** The summary is exactly the histogram of the log, at all four levels. */
  ghost predicate Mirrors(s: DailySummary, log: seq<RequestLog>) {
    s.total == |log| && Histogram(log, Verb(), s.byMethod) && Histogram(log, Status(), s.byStatus) &&
    MirrorsUsers(s.byUser, log)
  }

  const EMPTY_SUMMARY := DailySummary(0, map[], map[], map[])
  const EMPTY_PATH := PathStats(0, map[])

  function EmptyUser(now: int): UserSummary {
    UserSummary(0, map[], map[], map[], now)
  }

  // One level of updateSummary after the other, from the innermost out.

  function CountPath(s: PathStats, e: RequestLog): PathStats {
    PathStats(s.count + 1, Bump(s.methods, e.verb))
  }

  function CountPaths(byPath: map<string, PathStats>, e: RequestLog): map<string, PathStats> {
    byPath[e.path := CountPath(if e.path in byPath then byPath[e.path] else EMPTY_PATH, e)]
  }

  function CountUser(s: UserSummary, e: RequestLog): UserSummary {
    UserSummary(s.total + 1, Bump(s.byMethod, e.verb), Bump(s.byStatus, StatusKey(e.statusCode)),
                CountPaths(s.byPath, e), e.timestamp)
  }

  function CountUsers(byUser: map<string, UserSummary>, e: RequestLog): map<string, UserSummary> {
    byUser[e.userId := CountUser(if e.userId in byUser then byUser[e.userId] else EmptyUser(e.timestamp), e)]
  }

  function CountRequest(s: DailySummary, e: RequestLog): DailySummary {
    DailySummary(s.total + 1, CountUsers(s.byUser, e), Bump(s.byMethod, e.verb),
                 Bump(s.byStatus, StatusKey(e.statusCode)))
  }

  lemma PathPush(s: PathStats, log: seq<RequestLog>, e: RequestLog)
    requires MirrorsPath(s, log)
    ensures MirrorsPath(CountPath(s, e), log + [e])
  {
    HistogramPush(log, e, Verb(), s.methods);
  }

  lemma PathsPush(byPath: map<string, PathStats>, log: seq<RequestLog>, e: RequestLog)
    requires MirrorsPaths(byPath, log)
    ensures MirrorsPaths(CountPaths(byPath, e), log + [e])
  {
    var found := if e.path in byPath then byPath[e.path] else EMPTY_PATH;
    forall part | PathMirror()(found, part) ensures PathMirror()(CountPath(found, e), part + [e]) {
      PathPush(found, part, e);
    }
    NestedPush(log, e, Path(), byPath, PathMirror(), found, CountPath(found, e));
  }

  lemma UserPush(s: UserSummary, log: seq<RequestLog>, e: RequestLog)
    requires MirrorsUser(s, log)
    ensures MirrorsUser(CountUser(s, e), log + [e])
  {
    HistogramPush(log, e, Verb(), s.byMethod);
    HistogramPush(log, e, Status(), s.byStatus);
    PathsPush(s.byPath, log, e);
  }

  lemma UsersPush(byUser: map<string, UserSummary>, log: seq<RequestLog>, e: RequestLog)
    requires MirrorsUsers(byUser, log)
    ensures MirrorsUsers(CountUsers(byUser, e), log + [e])
  {
    var found := if e.userId in byUser then byUser[e.userId] else EmptyUser(e.timestamp);
    forall part | UserMirror()(found, part) ensures UserMirror()(CountUser(found, e), part + [e]) {
      UserPush(found, part, e);
    }
    NestedPush(log, e, User(), byUser, UserMirror(), found, CountUser(found, e));
  }

  /** Counting a request that is appended to the log keeps the two in agreement. */
  lemma RequestPush(s: DailySummary, log: seq<RequestLog>, e: RequestLog)
    requires Mirrors(s, log)
    ensures Mirrors(CountRequest(s, e), log + [e])
  {
    HistogramPush(log, e, Verb(), s.byMethod);
    HistogramPush(log, e, Status(), s.byStatus);
    UsersPush(s.byUser, log, e);
  }

  lemma HistogramUnique<T, K>(log: seq<T>, key: T -> K, a: map<K, nat>, b: map<K, nat>)
    requires Histogram(log, key, a) && Histogram(log, key, b)
    ensures a == b
  {
  }

  lemma NestedUnique<T, K, S>(log: seq<T>, key: T -> K, a: map<K, S>, b: map<K, S>, mirrors: (S, seq<T>) -> bool)
    requires Nested(log, key, a, mirrors) && Nested(log, key, b, mirrors)
    requires forall x, y, part: seq<T> | part != [] && mirrors(x, part) && mirrors(y, part) :: x == y
    ensures a == b
  {
    forall k | k in a ensures a[k] == b[k] {
      HasKeyIff(log, key, k);
      assert mirrors(a[k], Filter(log, KeyIs(key, k))) && mirrors(b[k], Filter(log, KeyIs(key, k)));
    }
  }

  lemma PathUnique(a: PathStats, b: PathStats, log: seq<RequestLog>)
    requires MirrorsPath(a, log) && MirrorsPath(b, log)
    ensures a == b
  {
    HistogramUnique(log, Verb(), a.methods, b.methods);
  }

  lemma UserUnique(a: UserSummary, b: UserSummary, log: seq<RequestLog>)
    requires MirrorsUser(a, log) && MirrorsUser(b, log) && log != []
    ensures a == b
  {
    HistogramUnique(log, Verb(), a.byMethod, b.byMethod);
    HistogramUnique(log, Status(), a.byStatus, b.byStatus);
    forall x, y, part: seq<RequestLog> | part != [] && PathMirror()(x, part) && PathMirror()(y, part) ensures x == y {
      PathUnique(x, y, part);
    }
    NestedUnique(log, Path(), a.byPath, b.byPath, PathMirror());
  }

  /** A log has only one summary: agreeing with it fixes every counter and key. */
  lemma SummaryUnique(a: DailySummary, b: DailySummary, log: seq<RequestLog>)
    requires Mirrors(a, log) && Mirrors(b, log)
    ensures a == b
  {
    HistogramUnique(log, Verb(), a.byMethod, b.byMethod);
    HistogramUnique(log, Status(), a.byStatus, b.byStatus);
    forall x, y, part: seq<RequestLog> | part != [] && UserMirror()(x, part) && UserMirror()(y, part) ensures x == y {
      UserUnique(x, y, part);
    }
    NestedUnique(log, User(), a.byUser, b.byUser, UserMirror());
  }

  ghost function DayMirror(): (DailySummary, seq<RequestLog>) -> bool {
    (s: DailySummary, log: seq<RequestLog>) => Mirrors(s, log)
  }

  ghost predicate Pairwise<K, S, T>(logs: map<K, T>, summaries: map<K, S>, mirrors: (S, T) -> bool) {
    logs.Keys == summaries.Keys && forall day | day in logs :: mirrors(summaries[day], logs[day])
  }

  /** Every day's summary mirrors that day's log. */
  ghost predicate AllMirror(logs: map<string, seq<RequestLog>>, summaries: map<string, DailySummary>) {
    Pairwise(logs, summaries, DayMirror())
  }

  lemma PairwiseUpdate<K, S, T>(logs: map<K, T>, summaries: map<K, S>, mirrors: (S, T) -> bool, day: K, s: S, log: T)
    requires Pairwise(logs, summaries, mirrors) && mirrors(s, log)
    ensures Pairwise(logs[day := log], summaries[day := s], mirrors)
  {
  }

  lemma DayPush(logs: map<string, seq<RequestLog>>, summaries: map<string, DailySummary>, day: string, e: RequestLog)
    requires AllMirror(logs, summaries)
    ensures AllMirror(logs[day := (if day in logs then logs[day] else []) + [e]],
                      summaries[day := CountRequest(if day in summaries then summaries[day] else EMPTY_SUMMARY, e)])
  {
    var s := if day in summaries then summaries[day] else EMPTY_SUMMARY;
    var log := if day in logs then logs[day] else [];
    assert DayMirror()(s, log);
    RequestPush(s, log, e);
    PairwiseUpdate(logs, summaries, DayMirror(), day, CountRequest(s, e), log + [e]);
  }

  // ---------------------------------------------------------------------
  // The counters in terms of the log's positions
  // ---------------------------------------------------------------------

  function ByUserOnly(u: string): RequestLog -> bool {
    (e: RequestLog) => e.userId == u
  }

  function ByVerbOnly(verb: string): RequestLog -> bool {
    (e: RequestLog) => e.verb == verb
  }

  function ByHundred(low: nat): RequestLog -> bool {
    (e: RequestLog) => low <= e.statusCode < low + 100
  }

  function ByUserAnd(u: string, test: RequestLog -> bool): RequestLog -> bool {
    (e: RequestLog) => e.userId == u && test(e)
  }

  function ByPathAnd(path: string, test: RequestLog -> bool): RequestLog -> bool {
    (e: RequestLog) => e.path == path && test(e)
  }

  /** How many requests of the log pass the test. */
  ghost function Times(log: seq<RequestLog>, test: RequestLog -> bool): nat {
    |PassingAt(log, test)|
  }

  ghost function CountOf<K>(counts: map<K, nat>, k: K): nat {
    if k in counts then counts[k] else 0
  }

  lemma {:induction false} NestedFilter(log: seq<RequestLog>, p: RequestLog -> bool, q: RequestLog -> bool,
                                        both: RequestLog -> bool)
    requires forall e | e in log :: both(e) == (p(e) && q(e))
    ensures |Filter(Filter(log, p), q)| == Times(log, both)
  {
    FilterSize(log, both);
    FilterTwice(log, p, q, both);
  }

  lemma HistogramCounts<K>(log: seq<RequestLog>, key: RequestLog -> K, counts: map<K, nat>, k: K,
                           test: RequestLog -> bool)
    requires Histogram(log, key, counts) && forall e | e in log :: (key(e) == k) == test(e)
    ensures CountOf(counts, k) == |Filter(log, test)|
  {
    FilterSame(log, KeyIs(key, k), test);
    if k !in counts {
      NoneOfKey(log, key, k);
    }
  }

  lemma StatusOfHundred(e: RequestLog, low: nat)
    requires low % 100 == 0
    ensures (Status()(e) == StatusKey(low)) == ByHundred(low)(e)
  {
    StatusKeyIff(e.statusCode, low);
  }

  /** The verb and status counters of a log. */
  lemma LevelCounts(log: seq<RequestLog>, byMethod: map<string, nat>, byStatus: map<string, nat>, verb: string,
                    low: nat)
    requires Histogram(log, Verb(), byMethod) && Histogram(log, Status(), byStatus) && low % 100 == 0
    ensures CountOf(byMethod, verb) == |Filter(log, ByVerbOnly(verb))|
    ensures CountOf(byStatus, StatusKey(low)) == |Filter(log, ByHundred(low))|
  {
    HistogramCounts(log, Verb(), byMethod, verb, ByVerbOnly(verb));
    forall e | e in log ensures (Status()(e) == StatusKey(low)) == ByHundred(low)(e) {
      StatusOfHundred(e, low);
    }
    HistogramCounts(log, Status(), byStatus, StatusKey(low), ByHundred(low));
  }

  /** The counters of the whole day. */
  lemma DayCounts(s: DailySummary, log: seq<RequestLog>, u: string, verb: string, low: nat)
    requires Mirrors(s, log) && low % 100 == 0
    ensures s.total == |log|
    ensures CountOf(s.byMethod, verb) == Times(log, ByVerbOnly(verb))
    ensures CountOf(s.byStatus, StatusKey(low)) == Times(log, ByHundred(low))
    ensures (if u in s.byUser then s.byUser[u].total else 0) == Times(log, ByUserOnly(u))
  {
    LevelCounts(log, s.byMethod, s.byStatus, verb, low);
    FilterSize(log, ByVerbOnly(verb));
    FilterSize(log, ByHundred(low));
    FilterSize(log, ByUserOnly(u));
    FilterSame(log, KeyIs(User(), u), ByUserOnly(u));
    if u in s.byUser {
      assert UserMirror()(s.byUser[u], Filter(log, KeyIs(User(), u)));
    } else {
      NoneOfKey(log, User(), u);
    }
  }

  /** The counters of a user. */
  lemma UserCounts(s: DailySummary, log: seq<RequestLog>, u: string, verb: string, low: nat)
    requires Mirrors(s, log) && low % 100 == 0 && u in s.byUser
    ensures CountOf(s.byUser[u].byMethod, verb) == Times(log, ByUserAnd(u, ByVerbOnly(verb)))
    ensures CountOf(s.byUser[u].byStatus, StatusKey(low)) == Times(log, ByUserAnd(u, ByHundred(low)))
  {
    var mine := UserLog(log, u);
    assert UserMirror()(s.byUser[u], mine);
    LevelCounts(mine, s.byUser[u].byMethod, s.byUser[u].byStatus, verb, low);
    NestedFilter(log, KeyIs(User(), u), ByVerbOnly(verb), ByUserAnd(u, ByVerbOnly(verb)));
    NestedFilter(log, KeyIs(User(), u), ByHundred(low), ByUserAnd(u, ByHundred(low)));
  }

  /** The counters of a user's path. */
  lemma PathCounts(s: DailySummary, log: seq<RequestLog>, u: string, path: string, verb: string)
    requires Mirrors(s, log) && u in s.byUser
    ensures (if path in s.byUser[u].byPath then s.byUser[u].byPath[path].count else 0)
         == Times(log, ByUserAnd(u, ByPathAnd(path, Anything())))
    ensures path in s.byUser[u].byPath ==>
      CountOf(s.byUser[u].byPath[path].methods, verb) == Times(log, ByUserAnd(u, ByPathAnd(path, ByVerbOnly(verb))))
  {
    var mine := UserLog(log, u);
    assert UserMirror()(s.byUser[u], mine);
    NestedFilter(log, KeyIs(User(), u), ByPathAnd(path, Anything()), ByUserAnd(u, ByPathAnd(path, Anything())));
    FilterSame(mine, KeyIs(Path(), path), ByPathAnd(path, Anything()));
    if path in s.byUser[u].byPath {
      var here := PathLog(mine, path);
      assert PathMirror()(s.byUser[u].byPath[path], here);
      HistogramCounts(here, Verb(), s.byUser[u].byPath[path].methods, verb, ByVerbOnly(verb));
      FilterTwice(mine, KeyIs(Path(), path), ByVerbOnly(verb), ByPathAnd(path, ByVerbOnly(verb)));
      var both := ByPathAnd(path, ByVerbOnly(verb));
      NestedFilter(log, KeyIs(User(), u), both, ByUserAnd(u, both));
    } else {
      NoneOfKey(mine, Path(), path);
    }
  }

  // ---------------------------------------------------------------------
  // Each level adds up to its parent
  // ---------------------------------------------------------------------

  function UserTotal(byUser: map<string, UserSummary>): string -> int {
    (u: string) => if u in byUser then byUser[u].total else 0
  }

  function PathTotal(byPath: map<string, PathStats>): string -> int {
    (p: string) => if p in byPath then byPath[p].count else 0
  }

  /** Users, methods and status groups each add up to the day's total, in any
      enumeration of the keys. */
  lemma DayAddsUp(s: DailySummary, log: seq<RequestLog>, users: seq<string>, verbs: seq<string>, statuses: seq<string>)
    requires Mirrors(s, log) && Enumerates(users, s.byUser.Keys)
    requires Enumerates(verbs, s.byMethod.Keys) && Enumerates(statuses, s.byStatus.Keys)
    ensures Sum(users, UserTotal(s.byUser)) == s.total
    ensures Sum(verbs, CountIn(s.byMethod)) == s.total
    ensures Sum(statuses, CountIn(s.byStatus)) == s.total
  {
    HistogramTotal(log, Verb(), s.byMethod, verbs);
    HistogramTotal(log, Status(), s.byStatus, statuses);
    UsersAddUp(s.byUser, log, users);
  }

  lemma UsersAddUp(byUser: map<string, UserSummary>, log: seq<RequestLog>, users: seq<string>)
    requires MirrorsUsers(byUser, log) && Enumerates(users, byUser.Keys)
    ensures Sum(users, UserTotal(byUser)) == |log|
  {
    var counts := map u | u in byUser :: byUser[u].total;
    assert counts.Keys == byUser.Keys;
    forall u | u in counts ensures counts[u] == |UserLog(log, u)| {
      assert UserMirror()(byUser[u], UserLog(log, u));
    }
    HistogramTotal(log, User(), counts, users);
    SumSame(users, UserTotal(byUser), CountIn(counts));
  }

  /** A user's methods, status groups and paths each add up to his total. */
  lemma UserAddsUp(s: UserSummary, log: seq<RequestLog>, verbs: seq<string>, statuses: seq<string>, paths: seq<string>)
    requires MirrorsUser(s, log) && Enumerates(paths, s.byPath.Keys)
    requires Enumerates(verbs, s.byMethod.Keys) && Enumerates(statuses, s.byStatus.Keys)
    ensures Sum(verbs, CountIn(s.byMethod)) == s.total
    ensures Sum(statuses, CountIn(s.byStatus)) == s.total
    ensures Sum(paths, PathTotal(s.byPath)) == s.total
  {
    HistogramTotal(log, Verb(), s.byMethod, verbs);
    HistogramTotal(log, Status(), s.byStatus, statuses);
    PathsAddUp(s.byPath, log, paths);
  }

  lemma PathsAddUp(byPath: map<string, PathStats>, log: seq<RequestLog>, paths: seq<string>)
    requires MirrorsPaths(byPath, log) && Enumerates(paths, byPath.Keys)
    ensures Sum(paths, PathTotal(byPath)) == |log|
  {
    var counts := map p | p in byPath :: byPath[p].count;
    assert counts.Keys == byPath.Keys;
    forall p | p in counts ensures counts[p] == |PathLog(log, p)| {
      assert PathMirror()(byPath[p], PathLog(log, p));
    }
    HistogramTotal(log, Path(), counts, paths);
    SumSame(paths, PathTotal(byPath), CountIn(counts));
  }

  /** A path's methods add up to its count. */
  lemma PathAddsUp(s: PathStats, log: seq<RequestLog>, verbs: seq<string>)
    requires MirrorsPath(s, log) && Enumerates(verbs, s.methods.Keys)
    ensures Sum(verbs, CountIn(s.methods)) == s.count
  {
    HistogramTotal(log, Verb(), s.methods, verbs);
  }
}
