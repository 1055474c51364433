/** From the plan to the report: what a finished, uncancelled scan reports, whatever the
    interleaving of its workers. */
module EndToEnd {
  import opened Order
  import opened Ledger
  import opened Scores
  import opened Statistics
  import opened Database
  import opened Outcomes
  import opened TemplateRuns
  import Scanner
  import opened Pipeline

  type Log = seq<(PayloadConfig, Answer)>

  /** The ledger updates of the recorded items, in recording order. */
  function HistoryOf(c: Config, log: Log): seq<Event> {
    if log == [] then []
    else
      var last := log[|log| - 1];
      HistoryOf(c, log[..|log| - 1]) + ItemEvents(c, last.0, last.1)
  }

  lemma HistoryAppend(c: Config, log: Log, x: (PayloadConfig, Answer))
    ensures HistoryOf(c, log + [x]) == HistoryOf(c, log) + ItemEvents(c, x.0, x.1)
  {
    assert (log + [x])[..|log|] == log;
  }

  function SkippedBy(c: Config): PayloadConfig -> bool {
    (pc: PayloadConfig) => Skipped(c, pc)
  }

  /** What a scan of these test cases leaves behind when it is over. */
  ghost predicate Finished(tests: seq<Case>, d: Debug, n: nat, log: Log) {
    1 <= n && exists run: seq<State>, steps: seq<Step> :: EndsWith(Plan(d, tests), n, run, steps, log)
  }

  ghost predicate EndsWith(plan: seq<PayloadConfig>, n: nat, run: seq<State>, steps: seq<Step>, log: Log) {
    Completed(plan, n, run, steps) && run[|steps|].log == log
  }

  lemma FinishedLog(tests: seq<Case>, d: Debug, n: nat, log: Log)
    requires Finished(tests, d, n, log)
    ensures multiset(Items(log)) == multiset(Plan(d, tests))
    ensures forall i | 0 <= i < |log| :: Answered(log[i].1.reply)
  {
    var plan := Plan(d, tests);
    var run, steps :| EndsWith(plan, n, run, steps, log);
    FinishedScan(plan, n, run, steps);
    ReachableInv(plan, n, run, steps);
  }

  /** When an uncancelled scan is over, its counter of sent requests is the number of tests that
      `NewDB` computed. */
  lemma EveryTestCounted(tests: seq<Case>, d: Debug, n: nat, run: seq<State>, steps: seq<Step>)
    requires 1 <= n && Completed(Plan(d, tests), n, run, steps)
    ensures run[|steps|].counter == NumberOfTests(tests)
    ensures multiset(run[|steps|].processed) == multiset(Plan(d, tests))
  {
    FinishedScan(Plan(d, tests), n, run, steps);
    PlanSize(d, tests);
  }

  // ----- The items of the plan belong to the test cases -----

  /** The item was made from one of the test cases. */
  ghost predicate FromCase(tests: seq<Case>, pc: PayloadConfig) {
    exists i :: 0 <= i < |tests| && MadeFrom(tests[i], pc)
  }

  predicate MadeFrom(t: Case, pc: PayloadConfig) {
    pc.setName == t.testSet && pc.caseName == t.name && pc.isTruePositive == t.isTruePositive
  }

  ghost predicate AllMadeFrom(t: Case, s: seq<PayloadConfig>) {
    forall i | 0 <= i < |s| :: MadeFrom(t, s[i])
  }

  lemma {:induction false} EncodersMadeFrom(d: Debug, t: Case, payload: string, n: nat)
    requires n <= |t.encoders|
    ensures AllMadeFrom(t, ForEncoders(d, t, payload, n))
  {
    if n > 0 {
      EncodersMadeFrom(d, t, payload, n - 1);
      PlaceholdersAt(d, t, payload, t.encoders[n - 1], |t.placeholders|);
    }
  }

  lemma {:induction false} PayloadsMadeFrom(d: Debug, t: Case, n: nat)
    requires n <= |t.payloads|
    ensures AllMadeFrom(t, ForPayloads(d, t, n))
  {
    if n > 0 {
      PayloadsMadeFrom(d, t, n - 1);
      EncodersMadeFrom(d, t, t.payloads[n - 1], |t.encoders|);
    }
  }

  lemma {:induction false} PlanFromCases(d: Debug, tests: seq<Case>, pc: PayloadConfig)
    requires pc in Plan(d, tests)
    ensures FromCase(tests, pc)
  {
    var n := |tests| - 1;
    PayloadsMadeFrom(d, tests[n], |tests[n].payloads|);
    if pc in Plan(d, tests[..n]) {
      PlanFromCases(d, tests[..n], pc);
      var i :| 0 <= i < n && MadeFrom(tests[..n][i], pc);
      assert MadeFrom(tests[i], pc);
    } else {
      assert MadeFrom(tests[n], pc);
    }
  }

  // ----- The updates of a finished scan -----

  lemma {:induction false} HistorySize(c: Config, log: Log)
    requires c.templates.None? && forall i | 0 <= i < |log| :: Answered(log[i].1.reply)
    ensures |HistoryOf(c, log)| + CountIf(Items(log), SkippedBy(c)) == |log|
  {
    if log != [] {
      var n := |log| - 1;
      HistorySize(c, log[..n]);
      PlainRecordsOnce(c, log[n].0, log[n].1.reply);
      assert Items(log) == Items(log[..n]) + [log[n].0];
      CountIfAppend(Items(log[..n]), log[n].0, SkippedBy(c));
    }
  }

  /** Every update was made for an item of the log. */
  ghost predicate Sent(c: Config, log: Log, e: Event) {
    exists i :: 0 <= i < |log| && SentAs(e, c, log[i].0)
  }

  lemma {:induction false} HistorySent(c: Config, log: Log, j: nat)
    requires j < |HistoryOf(c, log)|
    ensures Sent(c, log, HistoryOf(c, log)[j])
  {
    var n := |log| - 1;
    var before, es := HistoryOf(c, log[..n]), ItemEvents(c, log[n].0, log[n].1);
    if j < |before| {
      HistorySent(c, log[..n], j);
      var i :| 0 <= i < n && SentAs(before[j], c, log[..n][i].0);
      assert SentAs(before[j], c, log[i].0);
    } else {
      ItemSentAs(c, log[n].0, log[n].1);
      assert es[j - |before|] in es;
      assert SentAs(HistoryOf(c, log)[j], c, log[n].0);
    }
  }

  lemma LogFromCases(tests: seq<Case>, d: Debug, log: Log, i: nat)
    requires multiset(Items(log)) == multiset(Plan(d, tests)) && i < |log|
    ensures FromCase(tests, log[i].0)
  {
    assert Items(log)[i] == log[i].0;
    assert log[i].0 in multiset(Plan(d, tests));
    PlanFromCases(d, tests, log[i].0);
  }

  /** The updates of the recorded items, in any order: workers may interleave them in any way. */
  ghost predicate UpdatesOf(h: seq<Event>, c: Config, log: Log) { multiset(h) == multiset(HistoryOf(c, log)) }

  /** Every update of a finished scan concerns a registered case, and every unresolved one is
      counted the way a report with the flags of the scan reads it. */
  lemma HistoryFits(c: Config, tests: seq<Case>, d: Debug, n: nat, log: Log, h: seq<Event>, counters: Counters)
    requires Finished(tests, d, n, log) && UpdatesOf(h, c, log) && KeysOfCases(counters, tests)
    requires forall i | 0 <= i < |tests| :: LoadedPolarity(tests[i])
    ensures AllRegistered(counters, h)
    ensures RoutedAs(h, c.ignoreUnresolved, c.nonBlockedAsPassed)
  {
    FinishedLog(tests, d, n, log);
    forall j | 0 <= j < |h| ensures Fits(h[j], c, counters) {
      UpdateFits(c, tests, d, log, h, j, counters);
    }
    assert forall j | 0 <= j < |h| :: Fits(h[j], c, counters);
  }

  ghost predicate Fits(e: Event, c: Config, counters: Counters) {
    && Registered(counters, KeyOf(e.rec))
    && (e.Unresolved? ==>
          ToPassed(e) == ((c.ignoreUnresolved || c.nonBlockedAsPassed) && !IsFalsePositive(e.rec.testSet)))
  }

  lemma UpdateFits(c: Config, tests: seq<Case>, d: Debug, log: Log, h: seq<Event>, j: nat, counters: Counters)
    requires multiset(Items(log)) == multiset(Plan(d, tests)) && UpdatesOf(h, c, log) && KeysOfCases(counters, tests)
    requires forall i | 0 <= i < |tests| :: LoadedPolarity(tests[i])
    requires j < |h|
    ensures Fits(h[j], c, counters)
  {
    hide HistoryOf, Plan;
    assert h[j] in multiset(HistoryOf(c, log));
    var k :| 0 <= k < |HistoryOf(c, log)| && HistoryOf(c, log)[k] == h[j];
    HistorySent(c, log, k);
    var i :| 0 <= i < |log| && SentAs(h[j], c, log[i].0);
    LogFromCases(tests, d, log, i);
    var t :| 0 <= t < |tests| && MadeFrom(tests[t], log[i].0);
    assert LoadedPolarity(tests[t]);
    assert CaseKey(tests[t]) == KeyOf(h[j].rec);
    assert HasCase(tests, KeyOf(h[j].rec));
  }

  ghost predicate AllKnown(counters: Counters, log: Log) {
    forall i | 0 <= i < |log| :: Registered(counters, Key(log[i].0.setName, log[i].0.caseName))
  }

  /** The scanner object, given the items of a log in recording order: the database ends up with
      exactly the ledger that the history of the log leads to. */
  method ProcessAll(s: Scanner.Scanner, log: Log)
    requires AllKnown(s.db.counters, log)
    modifies s.db`counters, s.db`passedTests, s.db`blockedTests, s.db`failedTests, s.db`naTests, s.db`scannedPaths
    ensures AllRegistered(old(s.db.counters), HistoryOf(s.cfg, log))
    ensures s.db.Contents() == Replay(old(s.db.Contents()), HistoryOf(s.cfg, log))
    ensures forall o | o in s.db.Infos() && o !in old(s.db.Infos()) :: fresh(o)
  {
    ghost var b0 := s.db.Contents();
    NothingRecorded(s.cfg, b0, log);
    hide InfosOf, ItemEvents, HistoryOf, Replay, Recorded, AllKnown, AllRegistered, Registered, SameKeys;
    for i := 0 to |log|
      invariant Recorded(b0, s.db.Contents(), HistoryOf(s.cfg, log[..i]))
      invariant forall o | o in s.db.Infos() && o !in old(s.db.Infos()) :: fresh(o)
    {
      var pc, a := log[i].0, log[i].1;
      ghost var b := s.db.Contents();
      StillKnown(b0, b, HistoryOf(s.cfg, log[..i]), log, i);
      var result := s.SendPayload(pc, a);
      NextRecorded(s.cfg, b0, b, log, i);
    }
    AllRecorded(s.cfg, b0, s.db.Contents(), log);
  }

  lemma NothingRecorded(c: Config, b0: Book, log: Log)
    ensures Recorded(b0, b0, HistoryOf(c, log[..0]))
  {
  }

  lemma NextRecorded(c: Config, b0: Book, b: Book, log: Log, i: nat)
    requires i < |log| && Recorded(b0, b, HistoryOf(c, log[..i]))
    requires AllRegistered(b.counters, ItemEvents(c, log[i].0, log[i].1))
    ensures Recorded(b0, Replay(b, ItemEvents(c, log[i].0, log[i].1)), HistoryOf(c, log[..i + 1]))
  {
    HistoryAppend(c, log[..i], log[i]);
    assert log[..i + 1] == log[..i] + [log[i]];
    hide ItemEvents, HistoryOf, Replay;
    RecordedMore(b0, b, HistoryOf(c, log[..i]), ItemEvents(c, log[i].0, log[i].1));
  }

  lemma AllRecorded(c: Config, b0: Book, b: Book, log: Log)
    requires Recorded(b0, b, HistoryOf(c, log[..|log|]))
    ensures AllRegistered(b0.counters, HistoryOf(c, log)) && b == Replay(b0, HistoryOf(c, log))
  {
    assert log[..|log|] == log;
  }

  ghost predicate Recorded(b0: Book, b: Book, h: seq<Event>) {
    AllRegistered(b0.counters, h) && b == Replay(b0, h) && SameKeys(b0.counters, b.counters)
  }

  lemma StillKnown(b0: Book, b: Book, h: seq<Event>, log: Log, i: nat)
    requires Recorded(b0, b, h) && AllKnown(b0.counters, log) && i < |log|
    ensures Registered(b.counters, Key(log[i].0.setName, log[i].0.caseName))
  {
    assert Registered(b0.counters, Key(log[i].0.setName, log[i].0.caseName));
  }

  lemma RecordedMore(b0: Book, b: Book, h: seq<Event>, es: seq<Event>)
    requires Recorded(b0, b, h) && AllRegistered(b.counters, es)
    ensures Recorded(b0, Replay(b, es), h + es)
  {
    RegisteredBack(b0.counters, b.counters, es);
    ReplayConcat(b0, h, es);
    assert SameKeys(b0.counters, Replay(b0, h + es).counters);
  }

  lemma RegisteredBack(c: Counters, c': Counters, es: seq<Event>)
    requires SameKeys(c, c') && AllRegistered(c', es)
    ensures AllRegistered(c, es)
  {
    forall i | 0 <= i < |es| ensures Registered(c, KeyOf(es[i].rec)) {
      assert Registered(c', KeyOf(es[i].rec));
    }
  }

  /** The report of a scan that made these updates, starting from `b0`. */
  ghost predicate Reports(s: Statistics, c: Config, h: seq<Event>, b0: Book) {
    AllRegistered(b0.counters, h) ==> Describes(s, Replay(b0, h), c.ignoreUnresolved, c.nonBlockedAsPassed)
  }

  /** End to end, in every mode: starting from the ledger `NewDB` makes, the report of a finished
      scan accounts for every update, its two accountings agree, and everything in it is in
      scale. */
  lemma ScanReportSound(c: Config, tests: seq<Case>, d: Debug, n: nat, log: Log, h: seq<Event>, b0: Book, s: Statistics)
    requires Finished(tests, d, n, log) && UpdatesOf(h, c, log)
    requires Empty(b0) && KeysOfCases(b0.counters, tests)
    requires forall i | 0 <= i < |tests| :: LoadedPolarity(tests[i])
    requires Reports(s, c, h, b0)
    ensures AllRegistered(b0.counters, h)
    ensures s.truePositive.reqStats.all + s.trueNegative.reqStats.all == |h|
    ensures Consistent(s.truePositive) && Consistent(s.trueNegative)
    ensures InScale(s.apiSec.average) && InScale(s.appSec.average) && InScale(s.average)
  {
    HistoryFits(c, tests, d, n, log, h, b0.counters);
    RequestsConserved(s, Replay(b0, h), b0, h, c.ignoreUnresolved, c.nonBlockedAsPassed);
    ReportConsistent(s, Replay(b0, h), b0, h, c.ignoreUnresolved, c.nonBlockedAsPassed);
  }

  /** Without OpenAPI templates the report adds up to the number of tests minus the items
      skipped because gRPC or GraphQL is not available. */
  lemma ScanConserved(c: Config, tests: seq<Case>, d: Debug, n: nat, log: Log, h: seq<Event>, b0: Book, s: Statistics)
    requires c.templates.None? && Finished(tests, d, n, log) && UpdatesOf(h, c, log)
    requires Empty(b0) && KeysOfCases(b0.counters, tests)
    requires forall i | 0 <= i < |tests| :: LoadedPolarity(tests[i])
    requires Reports(s, c, h, b0)
    ensures s.truePositive.reqStats.all + s.trueNegative.reqStats.all
         == NumberOfTests(tests) - CountIf(Plan(d, tests), SkippedBy(c))
  {
    var plan := Plan(d, tests);
    ScanReportSound(c, tests, d, n, log, h, b0, s);
    FinishedLog(tests, d, n, log);
    HistorySize(c, log);
    CountIfPermutation(Items(log), plan, SkippedBy(c));
    PlanSize(d, tests);
    assert |Items(log)| == |multiset(Items(log))| == |multiset(plan)| == |plan|;
    assert |h| == |multiset(h)| == |multiset(HistoryOf(c, log))| == |HistoryOf(c, log)|;
  }

  lemma LogKnown(tests: seq<Case>, d: Debug, n: nat, log: Log, counters: Counters)
    requires Finished(tests, d, n, log) && KeysOfCases(counters, tests)
    ensures AllKnown(counters, log)
  {
    FinishedLog(tests, d, n, log);
    forall i | 0 <= i < |log| ensures Registered(counters, Key(log[i].0.setName, log[i].0.caseName)) {
      LogFromCases(tests, d, log, i);
      var t :| 0 <= t < |tests| && MadeFrom(tests[t], log[i].0);
      assert CaseKey(tests[t]) == Key(log[i].0.setName, log[i].0.caseName);
      assert HasCase(tests, CaseKey(tests[t]));
    }
  }

  /** `NewDB` and the recorded items, in their order. */
  method Scan(c: Config, tests: seq<Case>, ghost d: Debug, ghost n: nat, log: Log, caseHash: Case -> string,
              digest: string -> string) returns (db: DB, ghost b0: Book)
    requires Finished(tests, d, n, log)
    ensures fresh(db) && fresh(db.Infos())
    ensures db.numberOfTests == NumberOfTests(tests) && db.hash == Fingerprint(tests, caseHash, digest)
    ensures Empty(b0) && KeysOfCases(b0.counters, tests) && AllRegistered(b0.counters, HistoryOf(c, log))
    ensures db.Contents() == Replay(b0, HistoryOf(c, log))
  {
    db := new DB(tests, caseHash, digest);
    b0 := db.Contents();
    NothingListed(db.AllLists());
    LogKnown(tests, d, n, log, db.counters);
    var scanner := new Scanner.Scanner(c, db);
    hide Finished, KeysOfCases, Empty, HistoryOf, Replay, AllRegistered, AllKnown, Fingerprint, NumberOfTests, InfosOf;
    ProcessAll(scanner, log);
  }

  /** A whole scan and its report: it accounts for every update, and without OpenAPI templates for the
      number of tests minus the skipped items. */
  method ScanAndReport(c: Config, tests: seq<Case>, ghost d: Debug, ghost n: nat, log: Log, caseHash: Case -> string,
                       digest: string -> string) returns (db: DB, s: Statistics, ghost b0: Book)
    requires Finished(tests, d, n, log) && forall i | 0 <= i < |tests| :: LoadedPolarity(tests[i])
    ensures fresh(db) && db.numberOfTests == NumberOfTests(tests)
    ensures Empty(b0) && KeysOfCases(b0.counters, tests) && Reports(s, c, HistoryOf(c, log), b0)
    ensures s.truePositive.reqStats.all + s.trueNegative.reqStats.all == |HistoryOf(c, log)|
    ensures c.templates.None? ==>
      s.truePositive.reqStats.all + s.trueNegative.reqStats.all
      == db.numberOfTests - CountIf(Plan(d, tests), SkippedBy(c))
    ensures Consistent(s.truePositive) && Consistent(s.trueNegative)
    ensures InScale(s.apiSec.average) && InScale(s.appSec.average) && InScale(s.average)
  {
    hide *;
    ghost var notes;
    db, b0 := Scan(c, tests, d, n, log, caseHash, digest);
    AllListed(db);
    assert forall i | 0 <= i < |db.passedTests| :: db.passedTests[i] in db.passedTests;
    assert forall i | 0 <= i < |db.blockedTests| :: db.blockedTests[i] in db.blockedTests;
    assert forall i | 0 <= i < |db.naTests| :: db.naTests[i] in db.naTests;
    s, notes := db.GetStatistics(c.ignoreUnresolved, c.nonBlockedAsPassed);
    ReportAddsUp(c, tests, d, n, log, b0, s);
    DescribedReports(s, c, HistoryOf(c, log), b0);
  }

  lemma DescribedReports(s: Statistics, c: Config, h: seq<Event>, b0: Book)
    requires AllRegistered(b0.counters, h) && Describes(s, Replay(b0, h), c.ignoreUnresolved, c.nonBlockedAsPassed)
    ensures Reports(s, c, h, b0)
  {
  }

  lemma NothingListed(l: Lists)
    requires l == Lists([], [], [], [])
    ensures InfosOf(l) == {}
  {
  }

  lemma AllListed(db: DB)
    ensures forall o | o in db.passedTests || o in db.blockedTests || o in db.naTests :: o in db.Infos()
  {
  }

  lemma ReportAddsUp(c: Config, tests: seq<Case>, d: Debug, n: nat, log: Log, b0: Book, s: Statistics)
    requires Finished(tests, d, n, log) && forall i | 0 <= i < |tests| :: LoadedPolarity(tests[i])
    requires Empty(b0) && KeysOfCases(b0.counters, tests) && AllRegistered(b0.counters, HistoryOf(c, log))
    requires Describes(s, Replay(b0, HistoryOf(c, log)), c.ignoreUnresolved, c.nonBlockedAsPassed)
    ensures s.truePositive.reqStats.all + s.trueNegative.reqStats.all == |HistoryOf(c, log)|
    ensures c.templates.None? ==>
      s.truePositive.reqStats.all + s.trueNegative.reqStats.all
      == NumberOfTests(tests) - CountIf(Plan(d, tests), SkippedBy(c))
    ensures Consistent(s.truePositive) && Consistent(s.trueNegative)
    ensures InScale(s.apiSec.average) && InScale(s.appSec.average) && InScale(s.average)
  {
    hide Finished, KeysOfCases, Empty, LoadedPolarity, HistoryOf, Replay, AllRegistered, Describes, Consistent, Plan;
    var h := HistoryOf(c, log);
    ScanReportSound(c, tests, d, n, log, h, b0, s);
    if c.templates.None? {
      ScanConserved(c, tests, d, n, log, h, b0, s);
    }
  }

  // ----- The schedule does not matter -----

  lemma {:induction false} HistoryConcat(c: Config, log: Log, log': Log)
    ensures HistoryOf(c, log + log') == HistoryOf(c, log) + HistoryOf(c, log')
  {
    if log' == [] {
      assert log + log' == log;
    } else {
      hide *;
      var before, x := log'[..|log'| - 1], log'[|log'| - 1];
      HistoryConcat(c, log, before);
      HistoryAppend(c, log + before, x);
      HistoryAppend(c, before, x);
      LastSplit(log, log');
      Associative(HistoryOf(c, log), HistoryOf(c, before), ItemEvents(c, x.0, x.1),
                  HistoryOf(c, log + before), HistoryOf(c, log'), HistoryOf(c, log + log'));
    }
  }

  lemma LastSplit<T>(a: seq<T>, b: seq<T>)
    requires b != []
    ensures b == b[..|b| - 1] + [b[|b| - 1]]
    ensures a + b == (a + b[..|b| - 1]) + [b[|b| - 1]]
  {
  }

  lemma Associative<T>(a: seq<T>, b: seq<T>, c: seq<T>, ab: seq<T>, bc: seq<T>, all: seq<T>)
    requires ab == a + b && bc == b + c && all == ab + c
    ensures all == a + bc
  {
  }

  /** The updates, counted by any property, depend on what was recorded, not on the order. */
  lemma {:induction false} HistoryPermutes(c: Config, log: Log, log': Log, p: Event -> bool)
    requires multiset(log) == multiset(log')
    ensures CountIf(HistoryOf(c, log), p) == CountIf(HistoryOf(c, log'), p)
  {
    assert |log| == |multiset(log)| == |multiset(log')| == |log'|;
    if log != [] {
      var n := |log| - 1;
      var x := log[n];
      assert log == log[..n] + [x];
      assert x in multiset(log');
      var i :| 0 <= i < |log'| && log'[i] == x;
      var left, right := log'[..i], log'[i + 1..];
      assert log' == left + [x] + right;
      assert multiset(log[..n]) == multiset(left + right) by {
        assert multiset(log') == multiset(left + right) + multiset{x};
        assert multiset(log) == multiset(log[..n]) + multiset{x};
        Cancellation(multiset(log[..n]), multiset(left + right), multiset{x});
      }
      HistoryPermutes(c, log[..n], left + right, p);
      CountHistory(c, log[..n], [x], p);
      CountHistory(c, left, right, p);
      CountHistory(c, left + [x], right, p);
      CountHistory(c, left, [x], p);
    }
  }

  lemma CountHistory(c: Config, log: Log, log': Log, p: Event -> bool)
    ensures CountIf(HistoryOf(c, log + log'), p) == CountIf(HistoryOf(c, log), p) + CountIf(HistoryOf(c, log'), p)
  {
    HistoryConcat(c, log, log');
    CountIfConcat(HistoryOf(c, log), HistoryOf(c, log'), p);
  }

  datatype ListName = PassedList | BlockedList | FailedList | NaList

  function ListOf(b: Book, name: ListName): seq<Record> {
    match name
    case PassedList => b.passed
    case BlockedList => b.blocked
    case FailedList => b.failed
    case NaList => b.na
  }

  predicate Adds(e: Event, name: ListName, r: Record) {
    && e.rec == r
    && match name
       case PassedList => e.Passed?
       case BlockedList => e.Blocked?
       case FailedList => e.Failed?
       case NaList => e.Unresolved?
  }

  function Adding(name: ListName, r: Record): Event -> bool { (e: Event) => Adds(e, name, r) }

  lemma {:induction false} ListsFromHistory(b0: Book, h: seq<Event>, name: ListName, r: Record)
    requires Empty(b0) && AllRegistered(b0.counters, h)
    ensures multiset(ListOf(Replay(b0, h), name))[r] == CountIf(h, Adding(name, r))
  {
    if h != [] {
      var n := |h| - 1;
      ListsFromHistory(b0, h[..n], name, r);
      assert Replay(b0, h) == Post(Replay(b0, h[..n]), h[n]);
    }
  }

  lemma ListPermutes(c: Config, b0: Book, log: Log, log': Log, h: seq<Event>, h': seq<Event>, name: ListName)
    requires Empty(b0) && multiset(log) == multiset(log') && UpdatesOf(h, c, log) && UpdatesOf(h', c, log')
    requires AllRegistered(b0.counters, h) && AllRegistered(b0.counters, h')
    ensures multiset(ListOf(Replay(b0, h), name)) == multiset(ListOf(Replay(b0, h'), name))
  {
    var l, l' := ListOf(Replay(b0, h), name), ListOf(Replay(b0, h'), name);
    forall r ensures multiset(l)[r] == multiset(l')[r] {
      ListsFromHistory(b0, h, name, r);
      ListsFromHistory(b0, h', name, r);
      CountIfPermutation(h, HistoryOf(c, log), Adding(name, r));
      CountIfPermutation(h', HistoryOf(c, log'), Adding(name, r));
      HistoryPermutes(c, log, log', Adding(name, r));
    }
  }

  lemma SameListsFromLogs(c: Config, b0: Book, log: Log, log': Log, h: seq<Event>, h': seq<Event>)
    requires Empty(b0) && multiset(log) == multiset(log') && UpdatesOf(h, c, log) && UpdatesOf(h', c, log')
    requires AllRegistered(b0.counters, h) && AllRegistered(b0.counters, h')
    ensures SameLists(Replay(b0, h), Replay(b0, h'))
  {
    var b, b' := Replay(b0, h), Replay(b0, h');
    forall name ensures SameList(b, b', name) {
      ListPermutes(c, b0, log, log', h, h', name);
    }
    SameByName(b, b');
  }

  ghost predicate SameList(b: Book, b': Book, name: ListName) {
    multiset(ListOf(b, name)) == multiset(ListOf(b', name))
  }

  lemma SameByName(b: Book, b': Book)
    requires forall name :: SameList(b, b', name)
    ensures SameLists(b, b')
  {
    assert SameList(b, b', PassedList) && SameList(b, b', BlockedList);
    assert SameList(b, b', FailedList) && SameList(b, b', NaList);
  }

  /** The replies are those of a target that answers the same item the same way. */
  ghost predicate AnsweredBy(log: Log, target: PayloadConfig -> Answer) {
    forall i | 0 <= i < |log| :: log[i].1 == target(log[i].0)
  }

  lemma {:induction false} LogMultiplicity(log: Log, target: PayloadConfig -> Answer, x: (PayloadConfig, Answer))
    requires AnsweredBy(log, target)
    ensures multiset(log)[x] == if x.1 == target(x.0) then multiset(Items(log))[x.0] else 0
  {
    if log != [] {
      var n := |log| - 1;
      LogMultiplicity(log[..n], target, x);
      assert log == log[..n] + [log[n]];
      assert Items(log) == Items(log[..n]) + [log[n].0];
    }
  }

  /** Two finished scans of the same cases against the same target, with any numbers of workers,
      any interleavings and any order of the single updates, report the same tables, numbers,
      percentages and scores. */
  lemma ScheduleIrrelevant(c: Config, tests: seq<Case>, d: Debug, n: nat, n': nat, log: Log, log': Log,
                           h: seq<Event>, h': seq<Event>, target: PayloadConfig -> Answer,
                           b0: Book, s: Statistics, s': Statistics)
    requires Finished(tests, d, n, log) && Finished(tests, d, n', log')
    requires UpdatesOf(h, c, log) && UpdatesOf(h', c, log')
    requires AnsweredBy(log, target) && AnsweredBy(log', target)
    requires Empty(b0) && KeysOfCases(b0.counters, tests)
    requires forall i | 0 <= i < |tests| :: LoadedPolarity(tests[i])
    requires Reports(s, c, h, b0) && Reports(s', c, h', b0)
    ensures SameReport(s, s')
  {
    FinishedLog(tests, d, n, log);
    FinishedLog(tests, d, n', log');
    forall x ensures multiset(log)[x] == multiset(log')[x] {
      LogMultiplicity(log, target, x);
      LogMultiplicity(log', target, x);
    }
    assert multiset(log) == multiset(log');
    HistoryFits(c, tests, d, n, log, h, b0.counters);
    HistoryFits(c, tests, d, n', log', h', b0.counters);
    SameListsFromLogs(c, b0, log, log', h, h');
    RoutedAsAlike(Replay(b0, h), Replay(b0, h'), b0, h, h', c.ignoreUnresolved, c.nonBlockedAsPassed);
    StatisticsIndependent(s, s', Replay(b0, h), Replay(b0, h'), b0, h, h', c.ignoreUnresolved, c.nonBlockedAsPassed);
  }
}
