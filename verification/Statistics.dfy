/** What `GetStatistics` reports about a ledger, and why its two accountings agree.

    `RequestStats` are computed once from the counters (the summary rows) and once from the
    four lists (the API and application halves).  `Describes` says what a report built by
    `Database.DB.GetStatistics` is; the lemmas relate its parts. */
module Statistics {
  import opened Order
  import opened Ledger
  import opened Scores
  import opened Text

  datatype RequestStats = RequestStats(
    all: int, blocked: int, bypassed: int, unresolved: int, failed: int, resolved: int)

  datatype Row = Row(
    testSet: string, testCase: string, percentage: real,
    sent: int, blocked: int, bypassed: int, unresolved: int, failed: int)

  datatype TestDetails = TestDetails(rec: Record, additionalInfo: seq<string>)

  datatype TestsSummary = TestsSummary(
    summaryTable: seq<Row>,
    blocked: seq<TestDetails>, bypasses: seq<TestDetails>,
    unresolved: seq<TestDetails>, failed: seq<TestDetails>,
    reqStats: RequestStats, apiSecReqStats: RequestStats, appSecReqStats: RequestStats,
    unresolvedPercentage: real, blockedPercentage: real,
    bypassedPercentage: real, failedPercentage: real)

  datatype Statistics = Statistics(
    isGrpcAvailable: bool, isGraphQLAvailable: bool,
    paths: seq<Key>, testCasesFingerprint: string,
    truePositive: TestsSummary, trueNegative: TestsSummary,
    apiSec: Score, appSec: Score, average: real)

  const NoRequests := RequestStats(0, 0, 0, 0, 0, 0)

  /** Request numbers with the two derived fields filled in (`calculateTestsSummaryStat`). */
  function Totals(blocked: int, bypassed: int, unresolved: int, failed: int): RequestStats {
    RequestStats(blocked + bypassed + unresolved + failed, blocked, bypassed, unresolved, failed, blocked + bypassed)
  }

  predicate IsClosed(s: RequestStats) {
    s.all == s.blocked + s.bypassed + s.unresolved + s.failed && s.resolved == s.blocked + s.bypassed
  }

  function Plus(s: RequestStats, t: RequestStats): RequestStats {
    RequestStats(s.all + t.all, s.blocked + t.blocked, s.bypassed + t.bypassed,
                 s.unresolved + t.unresolved, s.failed + t.failed, s.resolved + t.resolved)
  }

  // ----- The accounting by counters -----

  function UnresolvedAt(na: seq<Record>, k: Key, ignoreUnresolved: bool, nonBlockedAsPassed: bool): int {
    if ignoreUnresolved || nonBlockedAsPassed then 0 else Occ(na, k)
  }

  function RowKey(r: Row): Key { Key(r.testSet, r.testCase) }

  /** The numbers of a summary row are those of its (set, case). */
  predicate ShowsCounts(r: Row, b: Book, ignoreUnresolved: bool, nonBlockedAsPassed: bool)
    requires Registered(b.counters, RowKey(r))
  {
    var k := RowKey(r);
    var blocked := Count(b.counters, k, BlockedKind);
    && r.unresolved == UnresolvedAt(b.na, k, ignoreUnresolved, nonBlockedAsPassed)
    && r.bypassed == Count(b.counters, k, PassedKind)
    && r.failed == Count(b.counters, k, FailedKind)
    && r.sent == r.bypassed + blocked + r.failed
    && r.blocked == (if !ignoreUnresolved || !nonBlockedAsPassed then blocked - r.unresolved else blocked)
  }

  /** The share of good outcomes among the resolved ones: bypassed in a benign set, blocked
      in a malicious one. */
  function RowPercentage(r: Row, falsePositive: bool): real {
    CalculatePercentage(if falsePositive then r.bypassed else r.blocked, r.bypassed + r.blocked)
  }

  ghost predicate KeysIncrease(rows: seq<Row>) {
    forall i, j | 0 <= i < j < |rows| :: KeyLess(RowKey(rows[i]), RowKey(rows[j]))
  }

  ghost predicate RowsShowCounts(rows: seq<Row>, b: Book, ignoreUnresolved: bool, nonBlockedAsPassed: bool) {
    forall i | 0 <= i < |rows| ::
      Registered(b.counters, RowKey(rows[i])) && ShowsCounts(rows[i], b, ignoreUnresolved, nonBlockedAsPassed)
  }

  /** `rows` lists exactly the registered keys of one polarity, sorted by set, then case. */
  ghost predicate ListsKeys(rows: seq<Row>, c: Counters, falsePositive: bool) {
    && KeysIncrease(rows)
    && (forall i | 0 <= i < |rows| ::
          Registered(c, RowKey(rows[i])) && IsFalsePositive(rows[i].testSet) == falsePositive)
    && (forall k: Key | Registered(c, k) && IsFalsePositive(k.major) == falsePositive :: HasRow(rows, k))
  }

  /** `rows` is the summary table of one polarity. */
  ghost predicate IsTable(rows: seq<Row>, b: Book, ignoreUnresolved: bool, nonBlockedAsPassed: bool,
                          falsePositive: bool) {
    && ListsKeys(rows, b.counters, falsePositive)
    && RowsShowCounts(rows, b, ignoreUnresolved, nonBlockedAsPassed)
    && (forall i | 0 <= i < |rows| :: rows[i].percentage == RowPercentage(rows[i], falsePositive))
  }

  ghost predicate HasRow(rows: seq<Row>, k: Key) {
    exists i :: 0 <= i < |rows| && RowKey(rows[i]) == k
  }

  function OfRow(r: Row): RequestStats {
    Totals(r.blocked, r.bypassed, r.unresolved, r.failed)
  }

  function SumRows(rows: seq<Row>): RequestStats {
    if rows == [] then NoRequests else Plus(SumRows(rows[..|rows| - 1]), OfRow(rows[|rows| - 1]))
  }

  // ----- The accounting by lists -----

  function InGroup(falsePositive: bool, api: bool): Record -> bool {
    (r: Record) => IsFalsePositive(r.testSet) == falsePositive && IsApi(r.testSet) == api
  }

  function InHalf(falsePositive: bool): Record -> bool {
    (r: Record) => IsFalsePositive(r.testSet) == falsePositive
  }

  function ListStats(b: Book, ignoreUnresolved: bool, nonBlockedAsPassed: bool, falsePositive: bool,
                     api: bool): RequestStats {
    var p := InGroup(falsePositive, api);
    var resolve := ignoreUnresolved || nonBlockedAsPassed;
    Totals(
      CountIf(b.blocked, p) + (if resolve && falsePositive then CountIf(b.na, p) else 0),
      CountIf(b.passed, p) + (if resolve && !falsePositive then CountIf(b.na, p) else 0),
      if resolve then 0 else CountIf(b.na, p),
      CountIf(b.failed, p))
  }

  // ----- The whole report -----

  ghost predicate HasPercentages(s: TestsSummary) {
    && s.unresolvedPercentage == CalculatePercentage(s.reqStats.unresolved, s.reqStats.all)
    && s.blockedPercentage == CalculatePercentage(s.reqStats.blocked, s.reqStats.resolved)
    && s.bypassedPercentage == CalculatePercentage(s.reqStats.bypassed, s.reqStats.resolved)
    && s.failedPercentage == CalculatePercentage(s.reqStats.failed, s.reqStats.all)
  }

  ghost predicate SummaryOf(s: TestsSummary, b: Book, ignoreUnresolved: bool, nonBlockedAsPassed: bool,
                            falsePositive: bool) {
    && IsTable(s.summaryTable, b, ignoreUnresolved, nonBlockedAsPassed, falsePositive)
    && s.reqStats == SumRows(s.summaryTable)
    && s.apiSecReqStats == ListStats(b, ignoreUnresolved, nonBlockedAsPassed, falsePositive, true)
    && s.appSecReqStats == ListStats(b, ignoreUnresolved, nonBlockedAsPassed, falsePositive, false)
    && |s.blocked| == s.apiSecReqStats.blocked + s.appSecReqStats.blocked
    && |s.bypasses| == s.apiSecReqStats.bypassed + s.appSecReqStats.bypassed
    && |s.unresolved| == s.apiSecReqStats.unresolved + s.appSecReqStats.unresolved
    && |s.failed| == s.apiSecReqStats.failed + s.appSecReqStats.failed
    && HasPercentages(s)
  }

  ghost predicate Describes(s: Statistics, b: Book, ignoreUnresolved: bool, nonBlockedAsPassed: bool) {
    && SummaryOf(s.truePositive, b, ignoreUnresolved, nonBlockedAsPassed, false)
    && SummaryOf(s.trueNegative, b, ignoreUnresolved, nonBlockedAsPassed, true)
    && s.apiSec == ScoreOf(s.truePositive.apiSecReqStats.blocked, s.truePositive.apiSecReqStats.resolved,
                           s.trueNegative.apiSecReqStats.bypassed, s.trueNegative.apiSecReqStats.resolved)
    && s.appSec == ScoreOf(s.truePositive.appSecReqStats.blocked, s.truePositive.appSecReqStats.resolved,
                           s.trueNegative.appSecReqStats.bypassed, s.trueNegative.appSecReqStats.resolved)
    && s.average == OverallAverage(s.apiSec, s.appSec)
  }

  // ----- Sums over a table are counts over lists -----

  function OccSum(rows: seq<Row>, rs: seq<Record>): int {
    if rows == [] then 0 else OccSum(rows[..|rows| - 1], rs) + Occ(rs, RowKey(rows[|rows| - 1]))
  }

  function RowsAt(rows: seq<Row>, k: Key): nat {
    if rows == [] then 0
    else RowsAt(rows[..|rows| - 1], k) + if RowKey(rows[|rows| - 1]) == k then 1 else 0
  }

  lemma {:induction false} OccSumAppend(rows: seq<Row>, rs: seq<Record>, r: Record)
    ensures OccSum(rows, rs + [r]) == OccSum(rows, rs) + RowsAt(rows, KeyOf(r))
  {
    if rows != [] {
      OccSumAppend(rows[..|rows| - 1], rs, r);
      CountIfAppend(rs, r, AtKey(RowKey(rows[|rows| - 1])));
    }
  }

  lemma {:induction false} RowsAtIsOne(rows: seq<Row>, k: Key)
    requires KeysIncrease(rows)
    ensures RowsAt(rows, k) == if HasRow(rows, k) then 1 else 0
  {
    if rows != [] {
      var n := |rows| - 1;
      KeyLessIsTotal();
      RowsAtIsOne(rows[..n], k);
      if HasRow(rows[..n], k) {
        var i :| 0 <= i < n && RowKey(rows[..n][i]) == k;
        assert RowKey(rows[i]) == k;
        assert KeyLess(RowKey(rows[i]), RowKey(rows[n]));
      } else if RowKey(rows[n]) != k {
        forall i | 0 <= i < |rows| ensures RowKey(rows[i]) != k {
          assert i < n ==> RowKey(rows[..n][i]) == RowKey(rows[i]);
        }
      }
    }
  }

  /** Every record of the polarity is counted by exactly one row. */
  lemma {:induction false} OccSumIsHalf(rows: seq<Row>, c: Counters, fp: bool, rs: seq<Record>)
    requires ListsKeys(rows, c, fp) && Closed(c, rs)
    ensures OccSum(rows, rs) == CountIf(rs, InHalf(fp))
  {
    if rs == [] {
      OccSumEmpty(rows);
    } else {
      var n := |rs| - 1;
      assert rs == rs[..n] + [rs[n]];
      OccSumIsHalf(rows, c, fp, rs[..n]);
      OccSumAppend(rows, rs[..n], rs[n]);
      CountIfAppend(rs[..n], rs[n], InHalf(fp));
      RowsAtIsOne(rows, KeyOf(rs[n]));
      assert Registered(c, KeyOf(rs[n]));
    }
  }

  lemma {:induction false} OccSumEmpty(rows: seq<Row>)
    ensures OccSum(rows, []) == 0
  {
    if rows != [] {
      OccSumEmpty(rows[..|rows| - 1]);
    }
  }

  /** A report on the ledger reached by a history of updates. */
  ghost predicate Reached(b: Book, b0: Book, h: seq<Event>) {
    Empty(b0) && AllRegistered(b0.counters, h) && b == Replay(b0, h)
  }

  /** The counter totals of any prefix of a table, in terms of the lists. */
  lemma {:induction false} SumRowsByLists(rows: seq<Row>, b: Book, up: seq<Record>, down: seq<Record>, iu: bool,
                                          nb: bool)
    requires Balanced(b, up, down) && RowsShowCounts(rows, b, iu, nb)
    ensures var s := SumRows(rows);
      var unresolved := if iu || nb then 0 else OccSum(rows, b.na);
      && s.bypassed == OccSum(rows, b.passed) + OccSum(rows, up)
      && s.blocked == OccSum(rows, b.blocked) + OccSum(rows, down) - unresolved
      && s.unresolved == unresolved
      && s.failed == OccSum(rows, b.failed)
      && IsClosed(s)
  {
    if rows != [] {
      var n := |rows| - 1;
      var r := rows[n];
      SumRowsByLists(rows[..n], b, up, down, iu, nb);
      RowByLists(r, b, up, down, iu, nb);
      assert SumRows(rows) == Plus(SumRows(rows[..n]), OfRow(r));
    }
  }

  lemma {:induction false} SumRowsConcat(r: seq<Row>, t: seq<Row>)
    ensures var s := SumRows(r + t);
      && s.blocked == SumRows(r).blocked + SumRows(t).blocked
      && s.bypassed == SumRows(r).bypassed + SumRows(t).bypassed
      && s.unresolved == SumRows(r).unresolved + SumRows(t).unresolved
      && s.failed == SumRows(r).failed + SumRows(t).failed
  {
    if t == [] {
      assert r + t == r;
    } else {
      var n := |t| - 1;
      SumRowsConcat(r, t[..n]);
      assert (r + t)[..|r + t| - 1] == r + t[..n];
    }
  }

  lemma {:induction false} SumRowsClosed(rows: seq<Row>)
    ensures IsClosed(SumRows(rows))
  {
    if rows != [] {
      SumRowsClosed(rows[..|rows| - 1]);
    }
  }

  lemma {:induction false} GroupsPartitionHalf(rs: seq<Record>, fp: bool)
    ensures CountIf(rs, InHalf(fp)) == CountIf(rs, InGroup(fp, true)) + CountIf(rs, InGroup(fp, false))
  {
    if rs != [] {
      GroupsPartitionHalf(rs[..|rs| - 1], fp);
    }
  }

  /** The list totals of one polarity: API and application sets together. */
  lemma ListTotals(b: Book, iu: bool, nb: bool, fp: bool)
    ensures var s := Plus(ListStats(b, iu, nb, fp, true), ListStats(b, iu, nb, fp, false));
      var na := CountIf(b.na, InHalf(fp));
      && s.blocked == CountIf(b.blocked, InHalf(fp)) + (if (iu || nb) && fp then na else 0)
      && s.bypassed == CountIf(b.passed, InHalf(fp)) + (if (iu || nb) && !fp then na else 0)
      && s.unresolved == (if iu || nb then 0 else na)
      && s.failed == CountIf(b.failed, InHalf(fp))
      && IsClosed(s)
  {
    hide CountIf, InGroup, InHalf;
    GroupsPartitionHalf(b.passed, fp);
    GroupsPartitionHalf(b.blocked, fp);
    GroupsPartitionHalf(b.failed, fp);
    GroupsPartitionHalf(b.na, fp);
  }

  /** The counter totals of one polarity, against the lists. */
  lemma TableTotals(rows: seq<Row>, b: Book, up: seq<Record>, down: seq<Record>, iu: bool, nb: bool, fp: bool)
    requires Balanced(b, up, down) && ListsKeys(rows, b.counters, fp) && RowsShowCounts(rows, b, iu, nb)
    ensures var s := SumRows(rows);
      var na := CountIf(b.na, InHalf(fp));
      && s.blocked == CountIf(b.blocked, InHalf(fp)) + na - CountIf(up, InHalf(fp)) - s.unresolved
      && s.bypassed == CountIf(b.passed, InHalf(fp)) + CountIf(up, InHalf(fp))
      && s.unresolved == (if iu || nb then 0 else na)
      && s.failed == CountIf(b.failed, InHalf(fp))
      && IsClosed(s)
  {
    SumRowsByLists(rows, b, up, down, iu, nb);
    OccSumIsHalf(rows, b.counters, fp, b.passed);
    OccSumIsHalf(rows, b.counters, fp, b.blocked);
    OccSumIsHalf(rows, b.counters, fp, b.failed);
    OccSumIsHalf(rows, b.counters, fp, b.na);
    OccSumIsHalf(rows, b.counters, fp, up);
    OccSumIsHalf(rows, b.counters, fp, down);
    SplitCount(b, up, down, InHalf(fp));
  }

  // ----- When the two accountings agree -----

  /** Every unresolved update was counted the way a report with these flags reads it. */
  ghost predicate RoutedAs(h: seq<Event>, ignoreUnresolved: bool, nonBlockedAsPassed: bool) {
    forall i | 0 <= i < |h| && h[i].Unresolved? ::
      ToPassed(h[i]) == ((ignoreUnresolved || nonBlockedAsPassed) && !IsFalsePositive(h[i].rec.testSet))
  }

  ghost predicate Agree(rows: seq<Row>, b: Book, iu: bool, nb: bool, fp: bool) {
    SumRows(rows) == Plus(ListStats(b, iu, nb, fp, true), ListStats(b, iu, nb, fp, false))
  }

  /** How many unresolved records of a polarity went to "passed", against how many there are. */
  lemma {:induction false} RoutedCount(b0: Book, h: seq<Event>, fp: bool)
    requires Empty(b0) && AllRegistered(b0.counters, h)
    ensures var all := CountIf(Replay(b0, h).na, InHalf(fp));
      var up := CountIf(NaRouted(h, true), InHalf(fp));
      && up <= all
      && (up == 0 <==> AllTo(h, fp, false))
      && (up == all <==> AllTo(h, fp, true))
  {
    if h != [] {
      var n := |h| - 1;
      ReplayLast(b0, h);
      RoutedCount(b0, h[..n], fp);
      var all := Replay(b0, h[..n]).na;
      assert Replay(b0, h).na == if h[n].Unresolved? then all + [h[n].rec] else all;
      hide *;
      AllToAppend(h[..n], h[n], fp, true);
      AllToAppend(h[..n], h[n], fp, false);
      NaRoutedAppend(h[..n], h[n], true, InHalf(fp));
      CountIfAppend(all, h[n].rec, InHalf(fp));
    }
  }

  lemma AllToAppend(h: seq<Event>, e: Event, fp: bool, to: bool)
    ensures AllTo(h + [e], fp, to) <==>
      AllTo(h, fp, to) && (e.Unresolved? && InHalf(fp)(e.rec) ==> ToPassed(e) == to)
  {
    var g := h + [e];
    assert g[|h|] == e;
    assert forall i | 0 <= i < |h| :: g[i] == h[i];
  }

  lemma AgreeIffRouted(rows: seq<Row>, b: Book, up: seq<Record>, down: seq<Record>, iu: bool, nb: bool, fp: bool)
    requires Balanced(b, up, down) && ListsKeys(rows, b.counters, fp) && RowsShowCounts(rows, b, iu, nb)
    ensures Agree(rows, b, iu, nb, fp)
      <==> CountIf(up, InHalf(fp)) == if (iu || nb) && !fp then CountIf(b.na, InHalf(fp)) else 0
  {
    TableTotals(rows, b, up, down, iu, nb, fp);
    ListTotals(b, iu, nb, fp);
    EqualIffRouted(SumRows(rows), Plus(ListStats(b, iu, nb, fp, true), ListStats(b, iu, nb, fp, false)),
                   CountIf(b.passed, InHalf(fp)), CountIf(b.blocked, InHalf(fp)),
                   CountIf(up, InHalf(fp)), CountIf(b.na, InHalf(fp)), iu || nb, fp);
  }

  lemma EqualIffRouted(s: RequestStats, t: RequestStats, passed: int, blocked: int, up: int, na: int, resolve: bool,
                       fp: bool)
    requires IsClosed(s) && IsClosed(t)
    requires s.failed == t.failed && s.unresolved == t.unresolved == (if resolve then 0 else na)
    requires s.blocked == blocked + na - up - s.unresolved && s.bypassed == passed + up
    requires t.blocked == blocked + (if resolve && fp then na else 0)
    requires t.bypassed == passed + (if resolve && !fp then na else 0)
    ensures s == t <==> up == if resolve && !fp then na else 0
  {
  }

  /** The counters and the lists tell the same story for both polarities exactly when every
      unresolved update was made with the flags of the report and the polarity of its set. */
  lemma AccountingsAgreeIff(positive: seq<Row>, negative: seq<Row>, b: Book, b0: Book, h: seq<Event>, iu: bool,
                            nb: bool)
    requires Reached(b, b0, h)
    requires ListsKeys(positive, b.counters, false) && RowsShowCounts(positive, b, iu, nb)
    requires ListsKeys(negative, b.counters, true) && RowsShowCounts(negative, b, iu, nb)
    ensures Agree(positive, b, iu, nb, false) && Agree(negative, b, iu, nb, true) <==> RoutedAs(h, iu, nb)
  {
    ReplayBalanced(b0, h);
    AgreeIffRouted(positive, b, NaRouted(h, true), NaRouted(h, false), iu, nb, false);
    AgreeIffRouted(negative, b, NaRouted(h, true), NaRouted(h, false), iu, nb, true);
    RoutedIff(b0, h, iu, nb);
  }

  lemma RoutedIff(b0: Book, h: seq<Event>, iu: bool, nb: bool)
    requires Empty(b0) && AllRegistered(b0.counters, h)
    ensures RoutedAs(h, iu, nb) <==> forall fp ::
      CountIf(NaRouted(h, true), InHalf(fp))
      == if (iu || nb) && !fp then CountIf(Replay(b0, h).na, InHalf(fp)) else 0
  {
    RoutedCount(b0, h, false);
    RoutedCount(b0, h, true);
    RoutedByHalves(h, iu, nb);
  }

  ghost predicate AllTo(h: seq<Event>, fp: bool, toPassed: bool) {
    forall i | 0 <= i < |h| && h[i].Unresolved? && IsFalsePositive(h[i].rec.testSet) == fp :: ToPassed(h[i]) == toPassed
  }

  lemma RoutedByHalves(h: seq<Event>, iu: bool, nb: bool)
    ensures RoutedAs(h, iu, nb) <==> AllTo(h, false, iu || nb) && AllTo(h, true, false)
  {
  }

  // ----- Rows -----

  /** A row always balances; routed as the report reads it, each field counts records. */
  lemma RowMeaning(r: Row, b: Book, b0: Book, h: seq<Event>, iu: bool, nb: bool)
    requires Reached(b, b0, h) && Registered(b.counters, RowKey(r)) && ShowsCounts(r, b, iu, nb)
    ensures r.sent == r.blocked + r.bypassed + r.unresolved + r.failed
    ensures var k := RowKey(r);
      r.sent == Occ(b.passed, k) + Occ(b.blocked, k) + Occ(b.failed, k) + Occ(b.na, k)
    ensures RoutedAs(h, iu, nb) ==> ShowsLists(r, b, iu, nb)
  {
    ReplayBalanced(b0, h);
    RowByLists(r, b, NaRouted(h, true), NaRouted(h, false), iu, nb);
    if RoutedAs(h, iu, nb) {
      RoutedAtKey(h, RowKey(r), iu, nb);
    }
  }

  /** Each field of the row counts the records of its key. */
  ghost predicate ShowsLists(r: Row, b: Book, iu: bool, nb: bool) {
    var k := RowKey(r);
    var resolve := iu || nb;
    && r.bypassed == Occ(b.passed, k) + (if resolve && !IsFalsePositive(r.testSet) then Occ(b.na, k) else 0)
    && r.blocked == Occ(b.blocked, k) + (if resolve && IsFalsePositive(r.testSet) then Occ(b.na, k) else 0)
    && r.unresolved == (if resolve then 0 else Occ(b.na, k))
    && r.failed == Occ(b.failed, k)
  }

  lemma RowByLists(r: Row, b: Book, up: seq<Record>, down: seq<Record>, iu: bool, nb: bool)
    requires Balanced(b, up, down) && Registered(b.counters, RowKey(r)) && ShowsCounts(r, b, iu, nb)
    ensures var k := RowKey(r);
      && r.bypassed == Occ(b.passed, k) + Occ(up, k)
      && r.unresolved == (if iu || nb then 0 else Occ(b.na, k))
      && r.blocked == Occ(b.blocked, k) + Occ(down, k) - r.unresolved
      && r.failed == Occ(b.failed, k)
      && r.sent == r.blocked + r.bypassed + r.unresolved + r.failed
      && Occ(b.na, k) == Occ(up, k) + Occ(down, k)
  {
    assert CountsMatch(b, up, down, RowKey(r));
    SplitCount(b, up, down, AtKey(RowKey(r)));
  }

  lemma {:induction false} RoutedAtKey(h: seq<Event>, k: Key, iu: bool, nb: bool)
    requires RoutedAs(h, iu, nb)
    ensures CountIf(NaRouted(h, !((iu || nb) && !IsFalsePositive(k.major))), AtKey(k)) == 0
  {
    if h != [] {
      var n := |h| - 1;
      var wrong := !((iu || nb) && !IsFalsePositive(k.major));
      assert h == h[..n] + [h[n]];
      assert RoutedAs(h[..n], iu, nb) by {
        forall i | 0 <= i < n && h[..n][i].Unresolved?
          ensures ToPassed(h[..n][i]) == ((iu || nb) && !IsFalsePositive(h[..n][i].rec.testSet))
        {
          assert h[..n][i] == h[i];
        }
      }
      RoutedAtKey(h[..n], k, iu, nb);
      NaRoutedAppend(h[..n], h[n], wrong, AtKey(k));
    }
  }

  /** Two tables over the same keys list them in the same order. */
  lemma KeysUnique(r: seq<Row>, r': seq<Row>, c: Counters, c': Counters, fp: bool)
    requires ListsKeys(r, c, fp) && ListsKeys(r', c', fp) && SameKeys(c, c')
    ensures Keys(r) == Keys(r')
  {
    KeyLessIsTotal();
    var keys, keys' := Keys(r), Keys(r');
    forall k: Key ensures k in keys <==> k in keys' {
      InKeys(r, k);
      InKeys(r', k);
      ListedIff(r, c, fp, k);
      ListedIff(r', c', fp, k);
      assert Registered(c', k) <==> Registered(c, k);
    }
    StrictlySortedUnique(keys, keys', KeyLess);
  }

  lemma ListedIff(rows: seq<Row>, c: Counters, fp: bool, k: Key)
    requires ListsKeys(rows, c, fp)
    ensures HasRow(rows, k) <==> Registered(c, k) && IsFalsePositive(k.major) == fp
  {
    if HasRow(rows, k) {
      var i :| 0 <= i < |rows| && RowKey(rows[i]) == k;
    }
  }

  ghost function Keys(rows: seq<Row>): seq<Key> { seq(|rows|, i requires 0 <= i < |rows| => RowKey(rows[i])) }

  lemma InKeys(rows: seq<Row>, k: Key)
    ensures k in Keys(rows) <==> HasRow(rows, k)
  {
    if HasRow(rows, k) {
      var i :| 0 <= i < |rows| && RowKey(rows[i]) == k;
      assert Keys(rows)[i] == k;
    }
  }

  // ----- Independence of the interleaving -----

  ghost predicate SameLists(b: Book, b': Book) {
    && multiset(b.passed) == multiset(b'.passed) && multiset(b.blocked) == multiset(b'.blocked)
    && multiset(b.failed) == multiset(b'.failed) && multiset(b.na) == multiset(b'.na)
  }

  /** Both histories counted equally many unresolved records of each (set, case) as passed. */
  ghost predicate RoutedAlike(c: Counters, h: seq<Event>, h': seq<Event>) {
    forall k: Key | Registered(c, k) :: Occ(NaRouted(h, true), k) == Occ(NaRouted(h', true), k)
  }

  /** Routed as a report with the same flags reads them, two histories of the same unresolved records
      are routed alike. */
  lemma RoutedAsAlike(b: Book, b': Book, b0: Book, h: seq<Event>, h': seq<Event>, iu: bool, nb: bool)
    requires Reached(b, b0, h) && Reached(b', b0, h') && multiset(b.na) == multiset(b'.na)
    requires RoutedAs(h, iu, nb) && RoutedAs(h', iu, nb)
    ensures RoutedAlike(b.counters, h, h')
  {
    ReplayBalanced(b0, h);
    ReplayBalanced(b0, h');
    hide RoutedAs, Reached, NaRouted, CountIf;
    forall k: Key | Registered(b.counters, k) ensures Occ(NaRouted(h, true), k) == Occ(NaRouted(h', true), k) {
      RoutedAtKey(h, k, iu, nb);
      RoutedAtKey(h', k, iu, nb);
      SplitCount(b, NaRouted(h, true), NaRouted(h, false), AtKey(k));
      SplitCount(b', NaRouted(h', true), NaRouted(h', false), AtKey(k));
      CountIfPermutation(b.na, b'.na, AtKey(k));
    }
  }

  /** Rows of one key in ledgers with the same lists are equal exactly when as many unresolved records
      of the key were counted as passed. */
  lemma RowsIndependent(r: Row, r': Row, b: Book, b': Book, b0: Book, h: seq<Event>, h': seq<Event>, iu: bool,
                        nb: bool)
    requires Reached(b, b0, h) && Reached(b', b0, h') && SameLists(b, b') && RowKey(r) == RowKey(r')
    requires Registered(b.counters, RowKey(r)) && ShowsCounts(r, b, iu, nb)
    requires Registered(b'.counters, RowKey(r)) && ShowsCounts(r', b', iu, nb)
    ensures r.sent == r.blocked + r.bypassed + r.unresolved + r.failed
    ensures r'.sent == r'.blocked + r'.bypassed + r'.unresolved + r'.failed
    ensures r'.unresolved == r.unresolved && r'.failed == r.failed
    ensures r'.blocked == r.blocked && r'.bypassed == r.bypassed
       <==> Occ(NaRouted(h, true), RowKey(r)) == Occ(NaRouted(h', true), RowKey(r))
  {
    var k := RowKey(r);
    ReplayBalanced(b0, h);
    ReplayBalanced(b0, h');
    RowByLists(r, b, NaRouted(h, true), NaRouted(h, false), iu, nb);
    RowByLists(r', b', NaRouted(h', true), NaRouted(h', false), iu, nb);
    CountIfPermutation(b.passed, b'.passed, AtKey(k));
    CountIfPermutation(b.blocked, b'.blocked, AtKey(k));
    CountIfPermutation(b.failed, b'.failed, AtKey(k));
    CountIfPermutation(b.na, b'.na, AtKey(k));
  }

  lemma TableIndependent(t: seq<Row>, t': seq<Row>, b: Book, b': Book, b0: Book,
                         h: seq<Event>, h': seq<Event>, iu: bool, nb: bool, fp: bool)
    requires Reached(b, b0, h) && Reached(b', b0, h') && SameLists(b, b') && RoutedAlike(b.counters, h, h')
    requires IsTable(t, b, iu, nb, fp) && IsTable(t', b', iu, nb, fp)
    ensures t == t'
  {
    SameKeysAfter(b, b', b0, h, h');
    KeysUnique(t, t', b.counters, b'.counters, fp);
    assert |t| == |Keys(t)| == |Keys(t')| == |t'|;
    forall i | 0 <= i < |t| ensures t[i] == t'[i] {
      assert RowKey(t[i]) == Keys(t)[i] == Keys(t')[i] == RowKey(t'[i]);
      RowsIndependent(t[i], t'[i], b, b', b0, h, h', iu, nb);
      SameRow(t[i], t'[i], fp);
    }
  }

  /** A table shows how the unresolved records of its keys were routed. */
  lemma TableShowsRouting(t: seq<Row>, b: Book, b': Book, b0: Book, h: seq<Event>, h': seq<Event>, iu: bool,
                          nb: bool, fp: bool, k: Key)
    requires Reached(b, b0, h) && Reached(b', b0, h') && SameLists(b, b')
    requires IsTable(t, b, iu, nb, fp) && IsTable(t, b', iu, nb, fp)
    requires Registered(b.counters, k) && IsFalsePositive(k.major) == fp
    ensures Occ(NaRouted(h, true), k) == Occ(NaRouted(h', true), k)
  {
    ListedIff(t, b.counters, fp, k);
    var i :| 0 <= i < |t| && RowKey(t[i]) == k;
    SameKeysAfter(b, b', b0, h, h');
    RowsIndependent(t[i], t[i], b, b', b0, h, h', iu, nb);
  }

  lemma SameKeysAfter(b: Book, b': Book, b0: Book, h: seq<Event>, h': seq<Event>)
    requires Reached(b, b0, h) && Reached(b', b0, h')
    ensures SameKeys(b.counters, b'.counters)
  {
    forall k: Key ensures Registered(b.counters, k) <==> Registered(b'.counters, k) {
      assert Registered(b0.counters, k) <==> Registered(b.counters, k);
      assert Registered(b0.counters, k) <==> Registered(b'.counters, k);
    }
  }

  lemma SameRow(r: Row, r': Row, fp: bool)
    requires RowKey(r) == RowKey(r')
    requires r'.blocked == r.blocked && r'.bypassed == r.bypassed
      && r'.unresolved == r.unresolved && r'.failed == r.failed
    requires r.sent == r.blocked + r.bypassed + r.unresolved + r.failed
    requires r'.sent == r'.blocked + r'.bypassed + r'.unresolved + r'.failed
    requires r.percentage == RowPercentage(r, fp) && r'.percentage == RowPercentage(r', fp)
    ensures r == r'
  {
  }

  lemma ListStatsIndependent(b: Book, b': Book, iu: bool, nb: bool, fp: bool, api: bool)
    requires SameLists(b, b')
    ensures ListStats(b, iu, nb, fp, api) == ListStats(b', iu, nb, fp, api)
  {
    var p := InGroup(fp, api);
    CountIfPermutation(b.passed, b'.passed, p);
    CountIfPermutation(b.blocked, b'.blocked, p);
    CountIfPermutation(b.failed, b'.failed, p);
    CountIfPermutation(b.na, b'.na, p);
  }

  /** The same rows, numbers and percentages, and detail lists of the same lengths. */
  ghost predicate SameSummary(s: TestsSummary, t: TestsSummary) {
    && s.summaryTable == t.summaryTable
    && s.reqStats == t.reqStats && s.apiSecReqStats == t.apiSecReqStats && s.appSecReqStats == t.appSecReqStats
    && s.unresolvedPercentage == t.unresolvedPercentage && s.blockedPercentage == t.blockedPercentage
    && s.bypassedPercentage == t.bypassedPercentage && s.failedPercentage == t.failedPercentage
    && |s.blocked| == |t.blocked| && |s.bypasses| == |t.bypasses|
    && |s.unresolved| == |t.unresolved| && |s.failed| == |t.failed|
  }

  ghost predicate SameReport(s: Statistics, t: Statistics) {
    && SameSummary(s.truePositive, t.truePositive) && SameSummary(s.trueNegative, t.trueNegative)
    && s.apiSec == t.apiSec && s.appSec == t.appSec && s.average == t.average
  }

  lemma SummaryIndependent(s: TestsSummary, s': TestsSummary, b: Book, b': Book, b0: Book,
                           h: seq<Event>, h': seq<Event>, iu: bool, nb: bool, fp: bool)
    requires Reached(b, b0, h) && Reached(b', b0, h') && SameLists(b, b') && RoutedAlike(b.counters, h, h')
    requires SummaryOf(s, b, iu, nb, fp) && SummaryOf(s', b', iu, nb, fp)
    ensures SameSummary(s, s')
  {
    TableIndependent(s.summaryTable, s'.summaryTable, b, b', b0, h, h', iu, nb, fp);
    ListStatsIndependent(b, b', iu, nb, fp, true);
    ListStatsIndependent(b, b', iu, nb, fp, false);
  }

  /** Whatever the order in which workers recorded them, the same results give the same tables,
      request numbers, percentages and scores: if and only if they were routed alike. */
  lemma StatisticsIndependent(s: Statistics, s': Statistics, b: Book, b': Book, b0: Book,
                              h: seq<Event>, h': seq<Event>, iu: bool, nb: bool)
    requires Reached(b, b0, h) && Reached(b', b0, h') && SameLists(b, b')
    requires Describes(s, b, iu, nb) && Describes(s', b', iu, nb)
    ensures SameReport(s, s') <==> RoutedAlike(b.counters, h, h')
  {
    if RoutedAlike(b.counters, h, h') {
      SummaryIndependent(s.truePositive, s'.truePositive, b, b', b0, h, h', iu, nb, false);
      SummaryIndependent(s.trueNegative, s'.trueNegative, b, b', b0, h, h', iu, nb, true);
    }
    if SameReport(s, s') {
      forall k: Key | Registered(b.counters, k) ensures Occ(NaRouted(h, true), k) == Occ(NaRouted(h', true), k) {
        if IsFalsePositive(k.major) {
          TableShowsRouting(s.trueNegative.summaryTable, b, b', b0, h, h', iu, nb, true, k);
        } else {
          TableShowsRouting(s.truePositive.summaryTable, b, b', b0, h, h', iu, nb, false, k);
        }
      }
    }
  }

  // ----- Conservation and scale -----

  /** Nothing is lost or counted twice between the lists and the two tables, whatever the
      flags and however the unresolved updates were routed. */
  lemma RequestsConserved(s: Statistics, b: Book, b0: Book, h: seq<Event>, iu: bool, nb: bool)
    requires Reached(b, b0, h) && Describes(s, b, iu, nb)
    ensures s.truePositive.reqStats.all + s.trueNegative.reqStats.all == |h|
  {
    ReplayBalanced(b0, h);
    TableTotals(s.truePositive.summaryTable, b, NaRouted(h, true), NaRouted(h, false), iu, nb, false);
    TableTotals(s.trueNegative.summaryTable, b, NaRouted(h, true), NaRouted(h, false), iu, nb, true);
    OneRecordPerUpdate(b0, h);
    HalvesPartition(b.passed);
    HalvesPartition(b.blocked);
    HalvesPartition(b.failed);
    HalvesPartition(b.na);
  }

  lemma {:induction false} HalvesPartition(rs: seq<Record>)
    ensures |rs| == CountIf(rs, InHalf(false)) + CountIf(rs, InHalf(true))
  {
    if rs != [] {
      HalvesPartition(rs[..|rs| - 1]);
    }
  }

  ghost predicate NonNegative(s: RequestStats) {
    IsClosed(s) && 0 <= s.blocked && 0 <= s.bypassed && 0 <= s.unresolved && 0 <= s.failed
  }

  /** The numbers of one polarity: both accountings, and the lengths of the detail lists. */
  ghost predicate NumbersFit(t: TestsSummary) {
    && t.reqStats == Plus(t.apiSecReqStats, t.appSecReqStats)
    && NonNegative(t.reqStats) && NonNegative(t.apiSecReqStats) && NonNegative(t.appSecReqStats)
    && |t.blocked| == t.reqStats.blocked && |t.bypasses| == t.reqStats.bypassed
    && |t.unresolved| == t.reqStats.unresolved && |t.failed| == t.reqStats.failed
  }

  /** The percentages of one polarity: all in scale, and the two resolved ones complementary. */
  ghost predicate PercentagesFit(t: TestsSummary) {
    && 0.0 <= t.unresolvedPercentage <= 100.0 && 0.0 <= t.failedPercentage <= 100.0
    && 0.0 <= t.blockedPercentage <= 100.0 && 0.0 <= t.bypassedPercentage <= 100.0
    && (0 < t.reqStats.resolved ==>
          t.blockedPercentage + t.bypassedPercentage
          == if RoundingTie(t.reqStats.blocked, t.reqStats.resolved) then 100.01 else 100.0)
  }

  ghost predicate RowsInScale(rows: seq<Row>) {
    forall i | 0 <= i < |rows| :: 0.0 <= rows[i].percentage <= 100.0
  }

  ghost predicate Consistent(t: TestsSummary) {
    NumbersFit(t) && PercentagesFit(t) && RowsInScale(t.summaryTable)
  }

  lemma TableInScale(rows: seq<Row>, b: Book, b0: Book, h: seq<Event>, iu: bool, nb: bool, fp: bool)
    requires Reached(b, b0, h) && RoutedAs(h, iu, nb) && IsTable(rows, b, iu, nb, fp)
    ensures RowsInScale(rows)
  {
    forall i | 0 <= i < |rows| ensures 0.0 <= rows[i].percentage <= 100.0 {
      RowMeaning(rows[i], b, b0, h, iu, nb);
      RowInScale(rows[i], b, iu, nb, fp);
    }
  }

  lemma RowInScale(r: Row, b: Book, iu: bool, nb: bool, fp: bool)
    requires ShowsLists(r, b, iu, nb) && r.percentage == RowPercentage(r, fp)
    ensures 0.0 <= r.percentage <= 100.0
  {
    PercentageRange(if fp then r.bypassed else r.blocked, r.bypassed + r.blocked);
  }

  lemma PercentagesInScale(r: RequestStats)
    requires NonNegative(r)
    ensures 0.0 <= CalculatePercentage(r.unresolved, r.all) <= 100.0
    ensures 0.0 <= CalculatePercentage(r.failed, r.all) <= 100.0
    ensures 0.0 <= CalculatePercentage(r.blocked, r.resolved) <= 100.0
    ensures 0.0 <= CalculatePercentage(r.bypassed, r.resolved) <= 100.0
    ensures 0 < r.resolved ==>
      CalculatePercentage(r.blocked, r.resolved) + CalculatePercentage(r.bypassed, r.resolved)
      == if RoundingTie(r.blocked, r.resolved) then 100.01 else 100.0
  {
    PercentageRange(r.unresolved, r.all);
    PercentageRange(r.failed, r.all);
    PercentageRange(r.blocked, r.resolved);
    PercentageRange(r.bypassed, r.resolved);
    if 0 < r.resolved {
      PercentagesComplement(r.blocked, r.bypassed);
    }
  }

  lemma PlusNonNegative(s: RequestStats, t: RequestStats)
    requires NonNegative(s) && NonNegative(t)
    ensures NonNegative(Plus(s, t))
  {
  }

  lemma ListStatsNonNegative(b: Book, iu: bool, nb: bool, fp: bool, api: bool)
    ensures NonNegative(ListStats(b, iu, nb, fp, api))
  {
  }

  lemma NumbersConsistent(t: TestsSummary, b: Book, iu: bool, nb: bool, fp: bool)
    requires SummaryOf(t, b, iu, nb, fp) && Agree(t.summaryTable, b, iu, nb, fp)
    ensures NumbersFit(t)
  {
    ListStatsNonNegative(b, iu, nb, fp, true);
    ListStatsNonNegative(b, iu, nb, fp, false);
    PlusNonNegative(t.apiSecReqStats, t.appSecReqStats);
  }

  lemma PercentagesConsistent(t: TestsSummary, b: Book, iu: bool, nb: bool, fp: bool)
    requires SummaryOf(t, b, iu, nb, fp) && NonNegative(t.reqStats)
    ensures PercentagesFit(t)
  {
    PercentagesInScale(t.reqStats);
  }

  lemma SummaryConsistent(t: TestsSummary, b: Book, b0: Book, h: seq<Event>, iu: bool, nb: bool, fp: bool)
    requires Reached(b, b0, h) && RoutedAs(h, iu, nb) && SummaryOf(t, b, iu, nb, fp)
    requires Agree(t.summaryTable, b, iu, nb, fp)
    ensures Consistent(t)
  {
    NumbersConsistent(t, b, iu, nb, fp);
    PercentagesConsistent(t, b, iu, nb, fp);
    TableInScale(t.summaryTable, b, b0, h, iu, nb, fp);
  }

  lemma ScoresInScale(s: Statistics, b: Book, iu: bool, nb: bool)
    requires Describes(s, b, iu, nb) && Consistent(s.truePositive) && Consistent(s.trueNegative)
    ensures InScale(s.apiSec.average) && InScale(s.appSec.average) && InScale(s.average)
    ensures s.average == -1.0 <==> s.truePositive.reqStats.resolved == 0 && s.trueNegative.reqStats.resolved == 0
  {
    var p, n := s.truePositive, s.trueNegative;
    ScoreInScale(p.apiSecReqStats.blocked, p.apiSecReqStats.resolved,
                 n.apiSecReqStats.bypassed, n.apiSecReqStats.resolved);
    ScoreInScale(p.appSecReqStats.blocked, p.appSecReqStats.resolved,
                 n.appSecReqStats.bypassed, n.appSecReqStats.resolved);
    OverallInScale(s.apiSec, s.appSec);
  }

  /** In a correctly routed ledger every number is non-negative, every detail list has the
      length its counter says, and every percentage and score is in scale. */
  lemma ReportConsistent(s: Statistics, b: Book, b0: Book, h: seq<Event>, iu: bool, nb: bool)
    requires Reached(b, b0, h) && Describes(s, b, iu, nb) && RoutedAs(h, iu, nb)
    ensures Consistent(s.truePositive) && Consistent(s.trueNegative)
    ensures InScale(s.apiSec.average) && InScale(s.appSec.average) && InScale(s.average)
    ensures s.average == -1.0 <==> s.truePositive.reqStats.resolved == 0 && s.trueNegative.reqStats.resolved == 0
  {
    AccountingsAgreeIff(s.truePositive.summaryTable, s.trueNegative.summaryTable, b, b0, h, iu, nb);
    SummaryConsistent(s.truePositive, b, b0, h, iu, nb, false);
    SummaryConsistent(s.trueNegative, b, b0, h, iu, nb, true);
    ScoresInScale(s, b, iu, nb);
  }

  // ----- The report in plain numbers -----

  /** The percentage is the share, rounded to the nearest hundredth; a share of nothing is zero. */
  ghost predicate IsShare(percentage: real, part: nat, whole: nat) {
    percentage == if whole == 0 then 0.0 else ((20000 * part + whole) / (2 * whole)) as real / 100.0
  }

  lemma PartOfWhole(part: nat, whole: nat)
    ensures IsShare(CalculatePercentage(part, whole), part, whole)
  {
    if whole > 0 {
      PercentageInCents(part, whole);
    }
  }

  /** The percentage of a row: in the table of malicious sets the share of the blocked requests among the
      resolved ones, in the table of benign sets the share of those that were let through. */
  lemma RowShowsShare(s: Statistics, b: Book, iu: bool, nb: bool, row: Row)
    requires Describes(s, b, iu, nb) && 0 <= row.blocked && 0 <= row.bypassed
    requires row in s.truePositive.summaryTable || row in s.trueNegative.summaryTable
    ensures var n := row.blocked + row.bypassed;
      && (n == 0 ==> row.percentage == 0.0)
      && (0 < n && row in s.truePositive.summaryTable ==>
            row.percentage == ((20000 * row.blocked + n) / (2 * n)) as real / 100.0)
      && (0 < n && row in s.trueNegative.summaryTable ==>
            row.percentage == ((20000 * row.bypassed + n) / (2 * n)) as real / 100.0)
  {
    hide *;
    ReportHas(s, b, iu, nb);
    if row in s.truePositive.summaryTable {
      RowOfTable(s.truePositive.summaryTable, b, iu, nb, false, row);
    }
    if row in s.trueNegative.summaryTable {
      RowOfTable(s.trueNegative.summaryTable, b, iu, nb, true, row);
    }
    ShareInCents(row.percentage, row.blocked, row.bypassed);
  }

  lemma ShareInCents(percentage: real, blocked: nat, bypassed: nat)
    ensures var n := blocked + bypassed;
      && (IsShare(percentage, blocked, n) ==>
            percentage == if n == 0 then 0.0 else ((20000 * blocked + n) / (2 * n)) as real / 100.0)
      && (IsShare(percentage, bypassed, n) ==>
            percentage == if n == 0 then 0.0 else ((20000 * bypassed + n) / (2 * n)) as real / 100.0)
  {
  }

  /** The parts of a report. */
  lemma ReportHas(s: Statistics, b: Book, iu: bool, nb: bool)
    requires Describes(s, b, iu, nb)
    ensures IsTable(s.truePositive.summaryTable, b, iu, nb, false)
    ensures IsTable(s.trueNegative.summaryTable, b, iu, nb, true)
    ensures s.apiSec == ScoreOf(s.truePositive.apiSecReqStats.blocked, s.truePositive.apiSecReqStats.resolved,
                                s.trueNegative.apiSecReqStats.bypassed, s.trueNegative.apiSecReqStats.resolved)
    ensures s.appSec == ScoreOf(s.truePositive.appSecReqStats.blocked, s.truePositive.appSecReqStats.resolved,
                                s.trueNegative.appSecReqStats.bypassed, s.trueNegative.appSecReqStats.resolved)
    ensures s.average == OverallAverage(s.apiSec, s.appSec)
  {
    hide IsTable, ScoreOf, ListStats, SumRows, OverallAverage, HasPercentages;
  }

  lemma RowOfTable(rows: seq<Row>, b: Book, iu: bool, nb: bool, fp: bool, row: Row)
    requires IsTable(rows, b, iu, nb, fp) && row in rows && 0 <= row.blocked && 0 <= row.bypassed
    ensures IsShare(row.percentage, if fp then row.bypassed else row.blocked, row.blocked + row.bypassed)
  {
    PartOfWhole(row.blocked, row.blocked + row.bypassed);
    PartOfWhole(row.bypassed, row.blocked + row.bypassed);
    hide ListsKeys, RowsShowCounts, CalculatePercentage, IsShare;
  }

  /** The four percentages of a polarity: unresolved and failed among all requests, blocked and let
      through among the resolved ones. */
  lemma SharesMeaning(t: TestsSummary, b: Book, iu: bool, nb: bool, fp: bool)
    requires SummaryOf(t, b, iu, nb, fp) && NonNegative(t.reqStats)
    ensures 0 <= t.reqStats.unresolved && 0 <= t.reqStats.failed && 0 <= t.reqStats.all
    ensures 0 <= t.reqStats.blocked && 0 <= t.reqStats.bypassed
    ensures IsShare(t.unresolvedPercentage, t.reqStats.unresolved, t.reqStats.all)
    ensures IsShare(t.failedPercentage, t.reqStats.failed, t.reqStats.all)
    ensures IsShare(t.blockedPercentage, t.reqStats.blocked, t.reqStats.blocked + t.reqStats.bypassed)
    ensures IsShare(t.bypassedPercentage, t.reqStats.bypassed, t.reqStats.blocked + t.reqStats.bypassed)
  {
    var r := t.reqStats;
    assert HasPercentages(t);
    hide CalculatePercentage, SummaryOf, IsTable, ListStats, SumRows, IsShare;
    PartOfWhole(r.unresolved, r.all);
    PartOfWhole(r.failed, r.all);
    PartOfWhole(r.blocked, r.resolved);
    PartOfWhole(r.bypassed, r.resolved);
  }

  /** The sets of one polarity and one half: benign ones have "false" in their name, those of the API
      half "api". */
  function SetsOf(benign: bool, api: bool): Record -> bool {
    (r: Record) => Contains(r.testSet, "false") == benign && Contains(r.testSet, "api") == api
  }

  lemma {:induction false} SameCount(rs: seq<Record>, p: Record -> bool, q: Record -> bool)
    requires forall r :: p(r) == q(r)
    ensures CountIf(rs, p) == CountIf(rs, q)
  {
    if rs != [] {
      SameCount(rs[..|rs| - 1], p, q);
    }
  }

  /** The request numbers of a half of a polarity. */
  function HalfStats(t: TestsSummary, api: bool): RequestStats { if api then t.apiSecReqStats else t.appSecReqStats }

  /** The request numbers of a half count the records of its sets; unresolved ones that are not shown
      are bypasses in a malicious set and blocked in a benign one. */
  lemma HalvesCount(s: Statistics, b: Book, iu: bool, nb: bool, api: bool)
    requires Describes(s, b, iu, nb)
    ensures var r, p := HalfStats(s.truePositive, api), SetsOf(false, api);
      && r.blocked == CountIf(b.blocked, p) && r.failed == CountIf(b.failed, p)
      && r.bypassed == CountIf(b.passed, p) + (if iu || nb then CountIf(b.na, p) else 0)
      && r.unresolved == (if iu || nb then 0 else CountIf(b.na, p))
      && r.resolved == r.blocked + r.bypassed && r.all == r.resolved + r.unresolved + r.failed
    ensures var r, p := HalfStats(s.trueNegative, api), SetsOf(true, api);
      && r.bypassed == CountIf(b.passed, p) && r.failed == CountIf(b.failed, p)
      && r.blocked == CountIf(b.blocked, p) + (if iu || nb then CountIf(b.na, p) else 0)
      && r.unresolved == (if iu || nb then 0 else CountIf(b.na, p))
      && r.resolved == r.blocked + r.bypassed && r.all == r.resolved + r.unresolved + r.failed
  {
    HalfCounts(b, false, api);
    HalfCounts(b, true, api);
    hide CountIf, InGroup, SetsOf, IsTable, SumRows, ScoreOf, CalculatePercentage, OverallAverage;
  }

  lemma HalfCounts(b: Book, fp: bool, api: bool)
    ensures CountIf(b.passed, InGroup(fp, api)) == CountIf(b.passed, SetsOf(fp, api))
    ensures CountIf(b.blocked, InGroup(fp, api)) == CountIf(b.blocked, SetsOf(fp, api))
    ensures CountIf(b.failed, InGroup(fp, api)) == CountIf(b.failed, SetsOf(fp, api))
    ensures CountIf(b.na, InGroup(fp, api)) == CountIf(b.na, SetsOf(fp, api))
  {
    SameCount(b.passed, InGroup(fp, api), SetsOf(fp, api));
    SameCount(b.blocked, InGroup(fp, api), SetsOf(fp, api));
    SameCount(b.failed, InGroup(fp, api), SetsOf(fp, api));
    SameCount(b.na, InGroup(fp, api), SetsOf(fp, api));
  }

  /** The scores of a half, from its own request numbers: the rate of malicious requests that were blocked
      and of benign ones that were let through, and their mean, which is zero when nothing malicious was
      blocked. */
  lemma HalfScore(s: Statistics, b: Book, iu: bool, nb: bool, api: bool)
    requires Describes(s, b, iu, nb)
    ensures var p, n := HalfStats(s.truePositive, api), HalfStats(s.trueNegative, api);
      && 0 <= p.blocked && 0 <= p.bypassed && 0 <= n.blocked && 0 <= n.bypassed
      && ScoreFits(if api then s.apiSec else s.appSec, p.blocked, p.blocked + p.bypassed,
                   n.bypassed, n.blocked + n.bypassed)
  {
    hide *;
    ReportHas(s, b, iu, nb);
    HalvesNonNegative(s, b, iu, nb);
    TheHalves(s);
    if api {
      ScoreOfHalf(s.truePositive.apiSecReqStats, s.trueNegative.apiSecReqStats, s.apiSec);
    } else {
      ScoreOfHalf(s.truePositive.appSecReqStats, s.trueNegative.appSecReqStats, s.appSec);
    }
  }

  lemma TheHalves(s: Statistics)
    ensures HalfStats(s.truePositive, true) == s.truePositive.apiSecReqStats
    ensures HalfStats(s.trueNegative, true) == s.trueNegative.apiSecReqStats
    ensures HalfStats(s.truePositive, false) == s.truePositive.appSecReqStats
    ensures HalfStats(s.trueNegative, false) == s.trueNegative.appSecReqStats
  {
  }

  lemma HalvesNonNegative(s: Statistics, b: Book, iu: bool, nb: bool)
    requires Describes(s, b, iu, nb)
    ensures NonNegative(s.truePositive.apiSecReqStats) && NonNegative(s.truePositive.appSecReqStats)
    ensures NonNegative(s.trueNegative.apiSecReqStats) && NonNegative(s.trueNegative.appSecReqStats)
  {
    ListStatsNonNegative(b, iu, nb, false, true);
    ListStatsNonNegative(b, iu, nb, false, false);
    ListStatsNonNegative(b, iu, nb, true, true);
    ListStatsNonNegative(b, iu, nb, true, false);
    hide NonNegative, IsTable, ScoreOf, ListStats, SumRows, OverallAverage, HasPercentages;
  }

  lemma ScoreOfHalf(p: RequestStats, n: RequestStats, score: Score)
    requires NonNegative(p) && NonNegative(n) && score == ScoreOf(p.blocked, p.resolved, n.bypassed, n.resolved)
    ensures 0 <= p.blocked && 0 <= p.bypassed && 0 <= n.blocked && 0 <= n.bypassed
    ensures ScoreFits(score, p.blocked, p.blocked + p.bypassed, n.bypassed, n.blocked + n.bypassed)
  {
    ScoreMeaning(p.blocked, p.resolved, n.bypassed, n.resolved);
    hide ScoreOf, ScoreFits;
  }

  /** The overall average is the rounded mean of the halves that were measured. */
  lemma AverageMeaning(s: Statistics, b: Book, iu: bool, nb: bool) returns (api: nat, app: nat)
    requires Describes(s, b, iu, nb)
    ensures s.apiSec.average == -1.0 || s.apiSec.average == api as real / 100.0
    ensures s.appSec.average == -1.0 || s.appSec.average == app as real / 100.0
    ensures s.average ==
      if s.apiSec.average == -1.0 then s.appSec.average
      else if s.appSec.average == -1.0 then s.apiSec.average
      else ((api + app + 1) / 2) as real / 100.0
  {
    hide *;
    ReportHas(s, b, iu, nb);
    HalfScore(s, b, iu, nb, true);
    HalfScore(s, b, iu, nb, false);
    TheHalves(s);
    api := HalfCents(s.apiSec, s.truePositive.apiSecReqStats, s.trueNegative.apiSecReqStats);
    app := HalfCents(s.appSec, s.truePositive.appSecReqStats, s.trueNegative.appSecReqStats);
    OverallMeaning(s.apiSec, s.appSec, api, app);
  }

  lemma HalfCents(score: Score, p: RequestStats, n: RequestStats) returns (c: nat)
    requires 0 <= p.blocked && 0 <= p.bypassed && 0 <= n.blocked && 0 <= n.bypassed
    requires ScoreFits(score, p.blocked, p.blocked + p.bypassed, n.bypassed, n.blocked + n.bypassed)
    ensures score.average == -1.0 || score.average == c as real / 100.0
  {
    var positives, negatives := p.blocked + p.bypassed, n.blocked + n.bypassed;
    if p.blocked == 0 {
      c := 0;
    } else if negatives == 0 {
      c := Cents(p.blocked, positives);
    } else {
      c := (Cents(p.blocked, positives) + Cents(n.bypassed, negatives) + 1) / 2;
    }
    hide Cents;
  }
}
