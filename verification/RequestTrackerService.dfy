/** The tracker service over its cache entries. */
module RequestTrackerService {
  import opened Sequences
  import opened RequestTracker

  datatype PathRow = PathRow(path: string, count: nat, methods: map<string, nat>)

  ghost predicate SortedByCount(rows: seq<PathRow>) {
    forall i, j | 0 <= i < j < |rows| :: rows[i].count >= rows[j].count
  }

  /** Puts a row behind those that count at least as much. */
  function Insert(rows: seq<PathRow>, row: PathRow): seq<PathRow>
    decreases |rows|
  {
    if rows != [] && rows[0].count >= row.count then [rows[0]] + Insert(rows[1..], row) else [row] + rows
  }

  lemma {:induction false} InsertAdds(rows: seq<PathRow>, row: PathRow)
    ensures multiset(Insert(rows, row)) == multiset(rows) + multiset{row}
    decreases |rows|
  {
    if rows != [] && rows[0].count >= row.count {
      InsertAdds(rows[1..], row);
      assert rows == [rows[0]] + rows[1..];
    }
  }

  lemma InsertMembers(rows: seq<PathRow>, row: PathRow)
    ensures forall r | r in Insert(rows, row) :: r == row || r in rows
  {
    InsertAdds(rows, row);
    forall r | r in Insert(rows, row) ensures r == row || r in rows {
      assert r in multiset(Insert(rows, row));
    }
  }

  lemma SortedCons(first: PathRow, rest: seq<PathRow>)
    requires SortedByCount(rest) && forall r | r in rest :: first.count >= r.count
    ensures SortedByCount([first] + rest)
  {
  }

  lemma {:induction false} InsertSorts(rows: seq<PathRow>, row: PathRow)
    requires SortedByCount(rows)
    ensures SortedByCount(Insert(rows, row))
    decreases |rows|
  {
    if rows != [] && rows[0].count >= row.count {
      InsertSorts(rows[1..], row);
      InsertMembers(rows[1..], row);
      SortedCons(rows[0], Insert(rows[1..], row));
    }
  }

  lemma InsertKeepsOrder(rows: seq<PathRow>, row: PathRow)
    requires SortedByCount(rows)
    ensures SortedByCount(Insert(rows, row)) && multiset(Insert(rows, row)) == multiset(rows) + multiset{row}
  {
    InsertSorts(rows, row);
    InsertAdds(rows, row);
  }

  function RowOf(path: string, s: PathStats): PathRow {
    PathRow(path, s.count, s.methods)
  }

  class RequestTrackerService {
    var logs: map<string, seq<RequestLog>>
    var summaries: map<string, DailySummary>

    ghost predicate Valid()
      reads this
    {
      AllMirror(logs, summaries)
    }

    ghost function Log(day: string): seq<RequestLog>
      reads this
    {
      if day in logs then logs[day] else []
    }

    constructor ()
      ensures Valid() && logs == map[]
    {
      logs, summaries := map[], map[];
    }

    method UpdateLogs(day: string, log: RequestLog)
      modifies this`logs
      ensures logs == old(logs)[day := old(Log(day)) + [log]]
    {
      var entries := if day in logs then logs[day] else [];
      logs := logs[day := entries + [log]];
    }

    method UpdateSummary(day: string, userId: string, path: string, verb: string, statusCode: nat, now: int)
      modifies this`summaries
      ensures summaries == old(summaries)[day :=
        CountRequest(if day in old(summaries) then old(summaries)[day] else EMPTY_SUMMARY,
                     RequestLog(userId, path, verb, statusCode, now))]
    {
      var summary := if day in summaries then summaries[day] else EMPTY_SUMMARY;
      var statusKey := StatusKey(statusCode);
      summary := summary.(total := summary.total + 1,
                          byMethod := Bump(summary.byMethod, verb),
                          byStatus := Bump(summary.byStatus, statusKey));
      var user := if userId in summary.byUser then summary.byUser[userId] else EmptyUser(now);
      user := user.(total := user.total + 1,
                    lastAccessed := now,
                    byMethod := Bump(user.byMethod, verb),
                    byStatus := Bump(user.byStatus, statusKey));
      var stats := if path in user.byPath then user.byPath[path] else EMPTY_PATH;
      stats := PathStats(stats.count + 1, Bump(stats.methods, verb));
      user := user.(byPath := user.byPath[path := stats]);
      summary := summary.(byUser := summary.byUser[userId := user]);
      summaries := summaries[day := summary];
    }

    method TrackRequest(day: string, userId: string, path: string, verb: string, statusCode: nat, now: int)
      requires Valid()
      modifies this
      ensures Valid()
      ensures logs == old(logs)[day := old(Log(day)) + [RequestLog(userId, path, verb, statusCode, now)]]
    {
      var e := RequestLog(userId, path, verb, statusCode, now);
      DayPush(logs, summaries, day, e);
      UpdateLogs(day, e);
      UpdateSummary(day, userId, path, verb, statusCode, now);
    }

    /** The offload of a day drops its two cache entries together. */
    method DropDay(day: string)
      requires Valid()
      modifies this
      ensures Valid() && logs == old(logs) - {day}
    {
      logs, summaries := logs - {day}, summaries - {day};
    }

    method GetUserActivity(userId: string, day: string) returns (r: Option<UserSummary>)
      requires Valid()
      ensures r.Some? <==> UserLog(Log(day), userId) != []
      ensures r.Some? ==> MirrorsUser(r.value, UserLog(Log(day), userId))
    {
      r := if day in summaries && userId in summaries[day].byUser then Some(summaries[day].byUser[userId]) else None;
      UserHasLog(Log(day), userId);
    }

    /** One row per path of the user, with the number of his requests to it and
        their methods, most requested first. */
    method GetUserRecentPaths(userId: string, day: string) returns (rows: seq<PathRow>)
      requires Valid()
      ensures SortedByCount(rows)
      ensures forall i, j | 0 <= i < j < |rows| :: rows[i].path != rows[j].path
      ensures forall path :: (exists i :: 0 <= i < |rows| && rows[i].path == path) <==>
                             PathLog(UserLog(Log(day), userId), path) != []
      ensures forall i | 0 <= i < |rows| ::
        rows[i].count == |PathLog(UserLog(Log(day), userId), rows[i].path)| &&
        Histogram(PathLog(UserLog(Log(day), userId), rows[i].path), Verb(), rows[i].methods)
    {
      var summary := GetUserActivity(userId, day);
      rows := [];
      ghost var mine := UserLog(Log(day), userId);
      if summary.None? {
        forall path ensures PathLog(mine, path) == [] {
        }
        return;
      }
      var byPath := summary.value.byPath;
      rows := SortedRows(byPath);
      RowsOfPaths(byPath, rows, mine);
    }

    method GetUserLogs(userId: string, day: string) returns (r: seq<RequestLog>)
      requires Valid()
      ensures r == UserLog(Log(day), userId) && ListsAll(Log(day), ByUserOnly(userId), r)
      ensures |r| == if day in summaries && userId in summaries[day].byUser
                     then summaries[day].byUser[userId].total else 0
    {
      var log := if day in logs then logs[day] else [];
      r := Filter(log, KeyIs(User(), userId));
      FilterSame(log, KeyIs(User(), userId), ByUserOnly(userId));
      FilterLists(log, ByUserOnly(userId));
      UserHasLog(Log(day), userId);
    }
  }

  lemma UserHasLog(log: seq<RequestLog>, userId: string)
    ensures userId in KeysOf(log, User()) <==> UserLog(log, userId) != []
  {
    HasKeyIff(log, User(), userId);
  }

  ghost predicate RowsListed(rows: seq<PathRow>, byPath: map<string, PathStats>, done: set<string>) {
    SortedByCount(rows) && done <= byPath.Keys &&
    multiset(rows) == multiset(RowsFor(byPath, done))
  }

  function RowsFor(byPath: map<string, PathStats>, paths: set<string>): set<PathRow>
    requires paths <= byPath.Keys
  {
    set path | path in paths :: RowOf(path, byPath[path])
  }

  lemma RowsStep(rows: seq<PathRow>, byPath: map<string, PathStats>, done: set<string>, path: string)
    requires RowsListed(rows, byPath, done) && path in byPath && path !in done
    ensures RowsListed(Insert(rows, RowOf(path, byPath[path])), byPath, done + {path})
  {
    var row := RowOf(path, byPath[path]);
    InsertKeepsOrder(rows, row);
    assert RowsFor(byPath, done + {path}) == RowsFor(byPath, done) + {row};
    assert row !in RowsFor(byPath, done);
  }

  /** Object.entries, map and sort: a row for each path, by decreasing count. */
  method SortedRows(byPath: map<string, PathStats>) returns (rows: seq<PathRow>)
    ensures RowsListed(rows, byPath, byPath.Keys)
  {
    rows := [];
    var left := byPath.Keys;
    ghost var done: set<string> := {};
    while left != {}
      invariant left + done == byPath.Keys && left !! done && RowsListed(rows, byPath, done)
      decreases |left|
    {
      var path :| path in left;
      RowsStep(rows, byPath, done, path);
      rows, left, done := Insert(rows, RowOf(path, byPath[path])), left - {path}, done + {path};
    }
  }

  lemma RowsOfPaths(byPath: map<string, PathStats>, rows: seq<PathRow>, log: seq<RequestLog>)
    requires RowsListed(rows, byPath, byPath.Keys) && MirrorsPaths(byPath, log)
    ensures forall i, j | 0 <= i < j < |rows| :: rows[i].path != rows[j].path
    ensures forall path :: (exists i :: 0 <= i < |rows| && rows[i].path == path) <==> PathLog(log, path) != []
    ensures forall i | 0 <= i < |rows| ::
      rows[i].count == |PathLog(log, rows[i].path)| &&
      Histogram(PathLog(log, rows[i].path), Verb(), rows[i].methods)
  {
    var wanted := RowsFor(byPath, byPath.Keys);
    forall r ensures r in rows <==> r in wanted {
      assert r in rows <==> r in multiset(rows);
    }
    forall i | 0 <= i < |rows| ensures rows[i].path in byPath && rows[i] == RowOf(rows[i].path, byPath[rows[i].path]) {
      assert rows[i] in wanted;
    }
    forall path ensures (exists i :: 0 <= i < |rows| && rows[i].path == path) <==> PathLog(log, path) != [] {
      HasKeyIff(log, Path(), path);
      if path in byPath {
        assert RowOf(path, byPath[path]) in wanted;
        var i :| 0 <= i < |rows| && rows[i] == RowOf(path, byPath[path]);
      }
    }
    forall i, j | 0 <= i < j < |rows| ensures rows[i].path != rows[j].path {
      Multiplicity(rows, i, j);
      assert multiset(rows)[rows[i]] <= 1;
    }
  }

  lemma Multiplicity(rows: seq<PathRow>, i: nat, j: nat)
    requires i < j < |rows|
    ensures rows[i] == rows[j] ==> multiset(rows)[rows[i]] >= 2
  {
    assert rows == rows[..j] + [rows[j]] + rows[j + 1..];
    assert rows[i] in rows[..j];
    assert rows[i] in multiset(rows[..j]);
  }
}
