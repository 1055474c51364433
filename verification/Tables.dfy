/** The loops of `GetStatistics` that read the counters and the scanned paths: sorted keys,
    summary rows, and their totals. */
module Tables {
  import opened Order
  import opened Ledger
  import opened Scores
  import opened Statistics

  type Paths = map<string, set<string>>

  predicate Scanned(p: Paths, k: Key) { k.major in p && k.minor in p[k.major] }

  /** The scanned paths after one more. */
  function AddScanned(p: Paths, k: Key): Paths {
    p[k.major := (if k.major in p then p[k.major] else {}) + {k.minor}]
  }

  function ScanAll(p: Paths, ks: seq<Key>): Paths {
    if ks == [] then p else AddScanned(ScanAll(p, ks[..|ks| - 1]), ks[|ks| - 1])
  }

  lemma ScanAllAppend(p: Paths, ks: seq<Key>, k: Key)
    ensures ScanAll(p, ks + [k]) == AddScanned(ScanAll(p, ks), k)
  {
    assert (ks + [k])[..|ks|] == ks;
  }

  /** Scanned paths are never forgotten, and only those added appear. */
  lemma {:induction false} ScanAllAdds(p: Paths, ks: seq<Key>, k: Key)
    ensures Scanned(ScanAll(p, ks), k) <==> Scanned(p, k) || k in ks
  {
    if ks != [] {
      ScanAllAdds(p, ks[..|ks| - 1], k);
    }
  }

  /** Reading a nested Go map: a missing key yields zero. */
  function LookUp(m: map<string, map<string, int>>, k: Key): int {
    if k.major in m && k.minor in m[k.major] then m[k.major][k.minor] else 0
  }

  /** The scanned paths, sorted by path, then method. */
  method ListPaths(scanned: Paths) returns (paths: seq<Key>)
    ensures StrictlySorted(paths, KeyLess)
    ensures forall k :: k in paths <==> Scanned(scanned, k)
  {
    var rest := scanned.Keys;
    paths := [];
    while rest != {}
      invariant rest <= scanned.Keys
      invariant forall k :: k in paths <==> Scanned(scanned, k) && k.major !in rest
      invariant Distinct(paths)
      decreases rest
    {
      var path :| path in rest;
      var methods := scanned[path];
      while methods != {}
        invariant methods <= scanned[path]
        invariant forall k :: k in paths <==>
          Scanned(scanned, k) && (k.major !in rest || (k.major == path && k.minor !in methods))
        invariant Distinct(paths)
        decreases methods
      {
        var m :| m in methods;
        paths := paths + [Key(path, m)];
        methods := methods - {m};
      }
      rest := rest - {path};
    }
    KeyLessIsTotal();
    SortDistinct(paths, KeyLess);
    paths := Sort(paths, KeyLess);
  }

  /** `keys` of a Go map, sorted. */
  method SortedKeys(keys: set<string>) returns (s: seq<string>)
    ensures StrictlySorted(s, Less)
    ensures forall x :: x in s <==> x in keys
  {
    var rest := keys;
    s := [];
    while rest != {}
      invariant rest <= keys
      invariant forall x :: x in s <==> x in keys && x !in rest
      invariant Distinct(s)
      decreases rest
    {
      var x :| x in rest;
      s := s + [x];
      rest := rest - {x};
    }
    LessIsTotal();
    SortDistinct(s, Less);
    s := Sort(s, Less);
  }

  ghost predicate CountsUnresolved(m: map<string, map<string, int>>, na: seq<Record>, iu: bool, nb: bool) {
    forall k :: LookUp(m, k) == UnresolvedAt(na, k, iu, nb)
  }

  predicate SameSums(s: RequestStats, t: RequestStats) {
    s.blocked == t.blocked && s.bypassed == t.bypassed && s.unresolved == t.unresolved && s.failed == t.failed
  }

  function AddSums(s: RequestStats, t: RequestStats): RequestStats {
    RequestStats(0, s.blocked + t.blocked, s.bypassed + t.bypassed, s.unresolved + t.unresolved, s.failed + t.failed, 0)
  }

  /** Rows of a single set, in case order. */
  ghost predicate SetRows(rows: seq<Row>, b: Book, testSet: string, iu: bool, nb: bool) {
    && (forall i | 0 <= i < |rows| :: rows[i].testSet == testSet)
    && (forall i, j | 0 <= i < j < |rows| :: Less(rows[i].testCase, rows[j].testCase))
    && RowsShowCounts(rows, b, iu, nb)
    && (forall i | 0 <= i < |rows| :: rows[i].percentage == RowPercentage(rows[i], IsFalsePositive(testSet)))
  }

  lemma SetRowsAppend(rows: seq<Row>, row: Row, b: Book, testSet: string, iu: bool, nb: bool)
    requires SetRows(rows, b, testSet, iu, nb)
    requires row.testSet == testSet && Registered(b.counters, RowKey(row)) && ShowsCounts(row, b, iu, nb)
    requires row.percentage == RowPercentage(row, IsFalsePositive(testSet))
    requires forall i | 0 <= i < |rows| :: Less(rows[i].testCase, row.testCase)
    ensures SetRows(rows + [row], b, testSet, iu, nb)
  {
  }

  /** What every row of a table satisfies by itself. */
  ghost predicate RowsFit(rows: seq<Row>, b: Book, iu: bool, nb: bool, fp: bool) {
    && RowsShowCounts(rows, b, iu, nb)
    && (forall i | 0 <= i < |rows| :: IsFalsePositive(rows[i].testSet) == fp)
    && (forall i | 0 <= i < |rows| :: rows[i].percentage == RowPercentage(rows[i], fp))
  }

  lemma RowsFitConcat(r: seq<Row>, t: seq<Row>, b: Book, iu: bool, nb: bool, fp: bool)
    requires RowsFit(r, b, iu, nb, fp) && RowsFit(t, b, iu, nb, fp)
    ensures RowsFit(r + t, b, iu, nb, fp)
  {
    var all := r + t;
    forall i | 0 <= i < |all|
      ensures Registered(b.counters, RowKey(all[i])) && ShowsCounts(all[i], b, iu, nb)
      ensures IsFalsePositive(all[i].testSet) == fp && all[i].percentage == RowPercentage(all[i], fp)
    {
      assert all[i] == if i < |r| then r[i] else t[i - |r|];
    }
  }

  /** The keys of one polarity, restricted to the sets visited so far. */
  ghost predicate KeysUpTo(rows: seq<Row>, c: Counters, sets: seq<string>, fp: bool) {
    && KeysIncrease(rows)
    && (forall i | 0 <= i < |rows| :: rows[i].testSet in sets)
    && (forall k: Key | Registered(c, k) && k.major in sets && IsFalsePositive(k.major) == fp :: HasRow(rows, k))
  }

  ghost predicate TableUpTo(rows: seq<Row>, b: Book, sets: seq<string>, iu: bool, nb: bool, fp: bool) {
    KeysUpTo(rows, b.counters, sets, fp) && RowsFit(rows, b, iu, nb, fp)
  }

  lemma KeysExtend(rows: seq<Row>, more: seq<Row>, c: Counters, sets: seq<string>, testSet: string)
    requires KeysUpTo(rows, c, sets, IsFalsePositive(testSet)) && testSet in c
    requires forall i | 0 <= i < |more| :: more[i].testSet == testSet
    requires forall i, j | 0 <= i < j < |more| :: Less(more[i].testCase, more[j].testCase)
    requires forall s | s in sets :: Less(s, testSet)
    requires forall m | m in c[testSet] :: HasRow(more, Key(testSet, m))
    ensures KeysUpTo(rows + more, c, sets + [testSet], IsFalsePositive(testSet))
  {
    var all := rows + more;
    LessTrichotomy(testSet, testSet);
    forall i, j | 0 <= i < j < |all| ensures KeyLess(RowKey(all[i]), RowKey(all[j])) {
      if j < |rows| {
        assert KeyLess(RowKey(rows[i]), RowKey(rows[j]));
      } else if i < |rows| {
        assert rows[i].testSet in sets;
        LessTrichotomy(rows[i].testSet, testSet);
      } else {
        assert Less(more[i - |rows|].testCase, more[j - |rows|].testCase);
      }
    }
    forall k: Key | Registered(c, k) && k.major in sets + [testSet]
      && IsFalsePositive(k.major) == IsFalsePositive(testSet)
      ensures HasRow(all, k)
    {
      if k.major in sets {
        var i :| 0 <= i < |rows| && RowKey(rows[i]) == k;
        assert RowKey(all[i]) == k;
      } else {
        var i :| 0 <= i < |more| && RowKey(more[i]) == k;
        assert RowKey(all[|rows| + i]) == k;
      }
    }
  }

  lemma TableExtend(rows: seq<Row>, more: seq<Row>, b: Book, sets: seq<string>, testSet: string, iu: bool, nb: bool)
    requires TableUpTo(rows, b, sets, iu, nb, IsFalsePositive(testSet))
    requires SetRows(more, b, testSet, iu, nb) && testSet in b.counters
    requires forall s | s in sets :: Less(s, testSet)
    requires forall m | m in b.counters[testSet] :: HasRow(more, Key(testSet, m))
    ensures TableUpTo(rows + more, b, sets + [testSet], iu, nb, IsFalsePositive(testSet))
  {
    KeysExtend(rows, more, b.counters, sets, testSet);
    RowsFitConcat(rows, more, b, iu, nb, IsFalsePositive(testSet));
  }

  lemma TableSkip(rows: seq<Row>, b: Book, sets: seq<string>, testSet: string, iu: bool, nb: bool, fp: bool)
    requires TableUpTo(rows, b, sets, iu, nb, fp) && IsFalsePositive(testSet) != fp
    ensures TableUpTo(rows, b, sets + [testSet], iu, nb, fp)
  {
  }

  lemma TablesStep(positive: seq<Row>, negative: seq<Row>, more: seq<Row>, b: Book, sets: seq<string>,
                   testSet: string, iu: bool, nb: bool)
    requires TableUpTo(positive, b, sets, iu, nb, false) && TableUpTo(negative, b, sets, iu, nb, true)
    requires SetRows(more, b, testSet, iu, nb) && testSet in b.counters
    requires forall s | s in sets :: Less(s, testSet)
    requires forall m | m in b.counters[testSet] :: HasRow(more, Key(testSet, m))
    ensures var fp := IsFalsePositive(testSet);
      && TableUpTo(if fp then positive else positive + more, b, sets + [testSet], iu, nb, false)
      && TableUpTo(if fp then negative + more else negative, b, sets + [testSet], iu, nb, true)
  {
    if IsFalsePositive(testSet) {
      TableSkip(positive, b, sets, testSet, iu, nb, false);
      TableExtend(negative, more, b, sets, testSet, iu, nb);
    } else {
      TableExtend(positive, more, b, sets, testSet, iu, nb);
      TableSkip(negative, b, sets, testSet, iu, nb, true);
    }
  }

  lemma SumsStep(stats: RequestStats, rows: seq<Row>, more: RequestStats, moreRows: seq<Row>)
    requires SameSums(stats, SumRows(rows)) && SameSums(more, SumRows(moreRows))
    ensures SameSums(AddSums(stats, more), SumRows(rows + moreRows))
  {
    SumRowsConcat(rows, moreRows);
  }

  lemma SumsAppend(stats: RequestStats, rows: seq<Row>, row: Row)
    requires SameSums(stats, SumRows(rows))
    ensures SameSums(AddSums(stats, OfRow(row)), SumRows(rows + [row]))
  {
    assert (rows + [row])[..|rows|] == rows;
  }

  lemma TableDone(rows: seq<Row>, b: Book, sets: seq<string>, iu: bool, nb: bool, fp: bool)
    requires TableUpTo(rows, b, sets, iu, nb, fp)
    requires forall x :: x in sets <==> x in b.counters
    ensures IsTable(rows, b, iu, nb, fp)
  {
  }

  // ----- The tables -----

  /** The summary row of one (set, case). */
  method RowOf(testSet: string, testCase: string, counters: Counters, unresolved: map<string, map<string, int>>,
               ghost b: Book,
               ignoreUnresolved: bool, nonBlockedAsPassed: bool) returns (row: Row)
    requires b.counters == counters && Registered(counters, Key(testSet, testCase))
    requires CountsUnresolved(unresolved, b.na, ignoreUnresolved, nonBlockedAsPassed)
    ensures RowKey(row) == Key(testSet, testCase)
    ensures ShowsCounts(row, b, ignoreUnresolved, nonBlockedAsPassed)
    ensures row.percentage == RowPercentage(row, IsFalsePositive(testSet))
  {
    var k := Key(testSet, testCase);
    var unresolvedRequests := LookUp(unresolved, k);
    var passedRequests := Count(counters, k, PassedKind);
    var blockedRequests := Count(counters, k, BlockedKind);
    var failedRequests := Count(counters, k, FailedKind);
    var totalRequests := passedRequests + blockedRequests + failedRequests;
    if !ignoreUnresolved || !nonBlockedAsPassed {
      blockedRequests := blockedRequests - unresolvedRequests;
    }
    var totalResolvedRequests := passedRequests + blockedRequests;
    var good := if IsFalsePositive(testSet) then passedRequests else blockedRequests;
    var percentage := CalculatePercentage(good, totalResolvedRequests);
    row := Row(testSet, testCase, percentage, totalRequests,
               blockedRequests, passedRequests, unresolvedRequests, failedRequests);
  }

  /** The summary rows of one test set, in case order, and their totals. */
  method RowsOfSet(testSet: string, counters: Counters, unresolved: map<string, map<string, int>>, ghost b: Book,
                   ignoreUnresolved: bool, nonBlockedAsPassed: bool)
    returns (rows: seq<Row>, stats: RequestStats)
    requires b.counters == counters && testSet in counters
    requires CountsUnresolved(unresolved, b.na, ignoreUnresolved, nonBlockedAsPassed)
    ensures SetRows(rows, b, testSet, ignoreUnresolved, nonBlockedAsPassed)
    ensures forall c | c in counters[testSet] :: HasRow(rows, Key(testSet, c))
    ensures SameSums(stats, SumRows(rows))
  {
    var sortedTestCases := SortedKeys(counters[testSet].Keys);
    rows, stats := [], NoRequests;
    for i := 0 to |sortedTestCases|
      invariant SetRows(rows, b, testSet, ignoreUnresolved, nonBlockedAsPassed)
      invariant |rows| == i && forall j | 0 <= j < i :: rows[j].testCase == sortedTestCases[j]
      invariant SameSums(stats, SumRows(rows))
    {
      assert sortedTestCases[i] in counters[testSet];
      var row := RowOf(testSet, sortedTestCases[i], counters, unresolved, b, ignoreUnresolved, nonBlockedAsPassed);
      SetRowsAppend(rows, row, b, testSet, ignoreUnresolved, nonBlockedAsPassed);
      SumsAppend(stats, rows, row);
      stats := AddSums(stats, OfRow(row));
      rows := rows + [row];
    }
    forall c | c in counters[testSet] ensures HasRow(rows, Key(testSet, c)) {
      var j :| 0 <= j < |sortedTestCases| && sortedTestCases[j] == c;
      assert RowKey(rows[j]) == Key(testSet, c);
    }
  }

  /** Both summary tables and their totals. */
  method SummaryTables(counters: Counters, unresolved: map<string, map<string, int>>, ghost b: Book,
                       ignoreUnresolved: bool, nonBlockedAsPassed: bool)
    returns (positive: seq<Row>, positiveStats: RequestStats, negative: seq<Row>, negativeStats: RequestStats)
    requires b.counters == counters
    requires CountsUnresolved(unresolved, b.na, ignoreUnresolved, nonBlockedAsPassed)
    ensures IsTable(positive, b, ignoreUnresolved, nonBlockedAsPassed, false)
    ensures IsTable(negative, b, ignoreUnresolved, nonBlockedAsPassed, true)
    ensures SameSums(positiveStats, SumRows(positive)) && SameSums(negativeStats, SumRows(negative))
  {
    var sortedTestSets := SortedKeys(counters.Keys);
    positive, positiveStats, negative, negativeStats :=
      TablesOfSets(sortedTestSets, counters, unresolved, b, ignoreUnresolved, nonBlockedAsPassed);
    TableDone(positive, b, sortedTestSets, ignoreUnresolved, nonBlockedAsPassed, false);
    TableDone(negative, b, sortedTestSets, ignoreUnresolved, nonBlockedAsPassed, true);
  }

  method TablesOfSets(sortedTestSets: seq<string>, counters: Counters, unresolved: map<string, map<string, int>>,
                      ghost b: Book,
                      ignoreUnresolved: bool, nonBlockedAsPassed: bool)
    returns (positive: seq<Row>, positiveStats: RequestStats, negative: seq<Row>, negativeStats: RequestStats)
    requires StrictlySorted(sortedTestSets, Less) && forall x | x in sortedTestSets :: x in counters
    requires b.counters == counters
    requires CountsUnresolved(unresolved, b.na, ignoreUnresolved, nonBlockedAsPassed)
    ensures TableUpTo(positive, b, sortedTestSets, ignoreUnresolved, nonBlockedAsPassed, false)
    ensures TableUpTo(negative, b, sortedTestSets, ignoreUnresolved, nonBlockedAsPassed, true)
    ensures SameSums(positiveStats, SumRows(positive)) && SameSums(negativeStats, SumRows(negative))
  {
    positive, positiveStats := [], NoRequests;
    negative, negativeStats := [], NoRequests;
    for i := 0 to |sortedTestSets|
      invariant TableUpTo(positive, b, sortedTestSets[..i], ignoreUnresolved, nonBlockedAsPassed, false)
      invariant TableUpTo(negative, b, sortedTestSets[..i], ignoreUnresolved, nonBlockedAsPassed, true)
      invariant SameSums(positiveStats, SumRows(positive)) && SameSums(negativeStats, SumRows(negative))
    {
      var testSet := sortedTestSets[i];
      var rows, stats := RowsOfSet(testSet, counters, unresolved, b, ignoreUnresolved, nonBlockedAsPassed);
      assert sortedTestSets[..i + 1] == sortedTestSets[..i] + [testSet];
      assert forall s | s in sortedTestSets[..i] :: Less(s, testSet);
      TablesStep(positive, negative, rows, b, sortedTestSets[..i], testSet, ignoreUnresolved, nonBlockedAsPassed);
      if IsFalsePositive(testSet) {
        SumsStep(negativeStats, negative, stats, rows);
        negative, negativeStats := negative + rows, AddSums(negativeStats, stats);
      } else {
        SumsStep(positiveStats, positive, stats, rows);
        positive, positiveStats := positive + rows, AddSums(positiveStats, stats);
      }
    }
    assert sortedTestSets[..|sortedTestSets|] == sortedTestSets;
  }
}
