/** From the replies of the target to the numbers of the report: what a finished scan without OpenAPI
    templates reports, in terms of what became of its requests and of nothing in between. */
module ReplyReport {
  import opened Order
  import opened Text
  import opened Ledger
  import opened Scores
  import opened Statistics
  import opened Database
  import opened Outcomes
  import opened TemplateRuns
  import opened Pipeline
  import opened EndToEnd
  import opened Verdicts

  // ----- Counting replies -----

  /** Some of the (set, case) pairs: a single one, or all those of a half of the report. */
  type Place = Key -> bool

  function At(k: Key): Place { (x: Key) => x == k }

  /** The malicious or benign sets of the API half, or of the other one. */
  function Sets(benign: bool, api: bool): Place {
    (x: Key) => Contains(x.major, "false") == benign && Contains(x.major, "api") == api
  }

  function ItemKey(pc: PayloadConfig): Key { Key(pc.setName, pc.caseName) }

  /** The items of a place that met this end. */
  function Met(c: Config, f: Effect, at: Place): ((PayloadConfig, Answer)) -> bool {
    (x: (PayloadConfig, Answer)) => at(ItemKey(x.0)) && EffectOf(c, x.0, x.1.reply) == f
  }

  function Tally(c: Config, log: Log, f: Effect, at: Place): nat { CountIf(log, Met(c, f, at)) }

  /** The list that keeps the records of an effect. */
  function ListFor(f: Effect): ListName
    requires !f.NotSent?
  {
    match f
    case Stopped => BlockedList
    case GotThrough => PassedList
    case Unclear => NaList
    case Broken => FailedList
  }

  predicate Joins(e: Event, name: ListName) {
    match name
    case PassedList => e.Passed?
    case BlockedList => e.Blocked?
    case FailedList => e.Failed?
    case NaList => e.Unresolved?
  }

  function Joining(name: ListName, at: Place): Event -> bool { (e: Event) => Joins(e, name) && at(KeyOf(e.rec)) }

  function RecordsAt(at: Place): Record -> bool { (r: Record) => at(KeyOf(r)) }

  /** A list holds the updates that join it. */
  lemma {:induction false} ListTally(b0: Book, h: seq<Event>, name: ListName, at: Place)
    requires Empty(b0) && AllRegistered(b0.counters, h)
    ensures CountIf(ListOf(Replay(b0, h), name), RecordsAt(at)) == CountIf(h, Joining(name, at))
  {
    if h == [] {
      NothingListed(b0, name, at);
    } else {
      var n := |h| - 1;
      ListTally(b0, h[..n], name, at);
      ReplayLast(b0, h);
      hide *;
      PostTally(Replay(b0, h[..n]), h[n], name, at);
      CountIfAppend(h[..n], h[n], Joining(name, at));
    }
  }

  lemma NothingListed(b0: Book, name: ListName, at: Place)
    requires Empty(b0)
    ensures CountIf(ListOf(b0, name), RecordsAt(at)) == 0
  {
  }

  lemma PostTally(b: Book, e: Event, name: ListName, at: Place)
    requires Registered(b.counters, KeyOf(e.rec))
    ensures CountIf(ListOf(Post(b, e), name), RecordsAt(at))
         == CountIf(ListOf(b, name), RecordsAt(at)) + if Joining(name, at)(e) then 1 else 0
  {
    var before := ListOf(b, name);
    assert ListOf(Post(b, e), name) == if Joins(e, name) then before + [e.rec] else before;
    CountIfAppend(before, e.rec, RecordsAt(at));
  }

  /** The updates of the recorded items, effect by effect. */
  lemma {:induction false} HistoryTally(c: Config, log: Log, f: Effect, at: Place)
    requires c.templates.None? && !f.NotSent? && forall i | 0 <= i < |log| :: Answered(log[i].1.reply)
    ensures CountIf(HistoryOf(c, log), Joining(ListFor(f), at)) == Tally(c, log, f, at)
  {
    if log != [] {
      var n := |log| - 1;
      var last := log[n];
      HistoryTally(c, log[..n], f, at);
      ItemTally(c, last.0, last.1, f, at);
      CountIfConcat(HistoryOf(c, log[..n]), ItemEvents(c, last.0, last.1), Joining(ListFor(f), at));
      hide ItemEvents, Joining, Met;
    }
  }

  lemma ItemTally(c: Config, pc: PayloadConfig, a: Answer, f: Effect, at: Place)
    requires c.templates.None? && !f.NotSent? && Answered(a.reply)
    ensures CountIf(ItemEvents(c, pc, a), Joining(ListFor(f), at)) == if Met(c, f, at)((pc, a)) then 1 else 0
  {
    EffectRecorded(c, pc, a.reply);
    var es := ItemEvents(c, pc, a);
    assert es == PlainEvents(c, pc, a.reply);
    hide PlainEvents, EffectOf, ItemEvents;
    var met := EffectOf(c, pc, a.reply);
    assert Met(c, f, at)((pc, a)) <==> at(ItemKey(pc)) && met == f;
    if !met.NotSent? {
      var e := es[0];
      assert KeyOf(e.rec) == ItemKey(pc);
      assert Joins(e, ListFor(f)) <==> met == f;
      assert es == [] + [e];
      CountIfAppend([], e, Joining(ListFor(f), at));
    }
  }

  /** When a scan is over, each list holds one record for each item that met the end of that list. */
  lemma LedgerFromReplies(c: Config, tests: seq<Case>, d: Debug, n: nat, log: Log, h: seq<Event>, b0: Book, f: Effect,
                          at: Place)
    requires c.templates.None? && Finished(tests, d, n, log) && UpdatesOf(h, c, log)
    requires Empty(b0) && AllRegistered(b0.counters, h) && !f.NotSent?
    ensures CountIf(ListOf(Replay(b0, h), ListFor(f)), RecordsAt(at)) == Tally(c, log, f, at)
  {
    FinishedLog(tests, d, n, log);
    ListTally(b0, h, ListFor(f), at);
    CountIfPermutation(h, HistoryOf(c, log), Joining(ListFor(f), at));
    HistoryTally(c, log, f, at);
  }

  /** What the lists of a ledger hold at a place, against the replies. */
  ghost predicate Holds(b: Book, c: Config, log: Log, at: Place) {
    && CountIf(b.blocked, RecordsAt(at)) == Tally(c, log, Stopped, at)
    && CountIf(b.passed, RecordsAt(at)) == Tally(c, log, GotThrough, at)
    && CountIf(b.na, RecordsAt(at)) == Tally(c, log, Unclear, at)
    && CountIf(b.failed, RecordsAt(at)) == Tally(c, log, Broken, at)
  }

  lemma LedgerHolds(c: Config, tests: seq<Case>, d: Debug, n: nat, log: Log, h: seq<Event>, b0: Book, at: Place)
    requires c.templates.None? && Finished(tests, d, n, log) && UpdatesOf(h, c, log)
    requires Empty(b0) && AllRegistered(b0.counters, h)
    ensures Holds(Replay(b0, h), c, log, at)
  {
    hide Finished, UpdatesOf, Empty, AllRegistered, Replay, Tally, RecordsAt, CountIf;
    LedgerFromReplies(c, tests, d, n, log, h, b0, Stopped, at);
    LedgerFromReplies(c, tests, d, n, log, h, b0, GotThrough, at);
    LedgerFromReplies(c, tests, d, n, log, h, b0, Unclear, at);
    LedgerFromReplies(c, tests, d, n, log, h, b0, Broken, at);
  }

  // ----- The rows -----

  /** A finished scan of these cases, from the ledger `NewDB` makes, and its report. */
  ghost predicate Scanned(c: Config, tests: seq<Case>, d: Debug, n: nat, log: Log, h: seq<Event>, b0: Book,
                          s: Statistics) {
    && c.templates.None? && Finished(tests, d, n, log) && UpdatesOf(h, c, log)
    && Empty(b0) && KeysOfCases(b0.counters, tests)
    && (forall i | 0 <= i < |tests| :: LoadedPolarity(tests[i]))
    && Reports(s, c, h, b0)
  }

  /** Unresolved requests are not shown, but counted as let through in malicious sets and as blocked in
      benign ones. */
  predicate Resolves(c: Config) { c.ignoreUnresolved || c.nonBlockedAsPassed }

  /** A row of the report is a tally of the replies to the requests of its set and case, and its percentage
      the share of the good ones among the resolved. */
  lemma RowFromReplies(c: Config, tests: seq<Case>, d: Debug, n: nat, log: Log, h: seq<Event>, b0: Book, s: Statistics,
                       row: Row)
    requires Scanned(c, tests, d, n, log, h, b0, s)
    requires row in s.truePositive.summaryTable || row in s.trueNegative.summaryTable
    ensures var at, benign := At(Key(row.testSet, row.testCase)), Contains(row.testSet, "false");
      var unclear := Tally(c, log, Unclear, at);
      && row.blocked == Tally(c, log, Stopped, at) + (if Resolves(c) && benign then unclear else 0)
      && row.bypassed == Tally(c, log, GotThrough, at) + (if Resolves(c) && !benign then unclear else 0)
      && row.unresolved == (if Resolves(c) then 0 else unclear)
      && row.failed == Tally(c, log, Broken, at)
      && row.sent == row.blocked + row.bypassed + row.unresolved + row.failed
      && IsShare(row.percentage, if benign then row.bypassed else row.blocked, row.blocked + row.bypassed)
  {
    hide *;
    var k, iu, nb := Key(row.testSet, row.testCase), c.ignoreUnresolved, c.nonBlockedAsPassed;
    var b := ScanDescribed(c, tests, d, n, log, h, b0, s);
    LedgerHolds(c, tests, d, n, log, h, b0, At(k));
    ReportHas(s, b, iu, nb);
    if row in s.truePositive.summaryTable {
      RowOfLists(s.truePositive.summaryTable, b, b0, h, iu, nb, false, row);
    } else {
      RowOfLists(s.trueNegative.summaryTable, b, b0, h, iu, nb, true, row);
    }
    RowTallies(row, b, c, log);
  }

  lemma RowTallies(row: Row, b: Book, c: Config, log: Log)
    requires ShowsLists(row, b, c.ignoreUnresolved, c.nonBlockedAsPassed)
    requires Holds(b, c, log, At(Key(row.testSet, row.testCase)))
    ensures var at, benign := At(Key(row.testSet, row.testCase)), Contains(row.testSet, "false");
      var unclear := Tally(c, log, Unclear, at);
      && IsFalsePositive(row.testSet) == benign
      && row.blocked == Tally(c, log, Stopped, at) + (if Resolves(c) && benign then unclear else 0)
      && row.bypassed == Tally(c, log, GotThrough, at) + (if Resolves(c) && !benign then unclear else 0)
      && row.unresolved == (if Resolves(c) then 0 else unclear)
      && row.failed == Tally(c, log, Broken, at)
  {
    AtPlace(b, RowKey(row));
    hide Tally, CountIf, RecordsAt, At, Contains;
  }

  lemma AtPlace(b: Book, k: Key)
    ensures Occ(b.passed, k) == CountIf(b.passed, RecordsAt(At(k)))
    ensures Occ(b.blocked, k) == CountIf(b.blocked, RecordsAt(At(k)))
    ensures Occ(b.na, k) == CountIf(b.na, RecordsAt(At(k)))
    ensures Occ(b.failed, k) == CountIf(b.failed, RecordsAt(At(k)))
  {
    var p, q := AtKey(k), RecordsAt(At(k));
    forall r ensures p(r) == q(r) {
    }
    SameCount(b.passed, p, q);
    SameCount(b.blocked, p, q);
    SameCount(b.na, p, q);
    SameCount(b.failed, p, q);
  }

  lemma RowOfLists(rows: seq<Row>, b: Book, b0: Book, h: seq<Event>, iu: bool, nb: bool, fp: bool, row: Row)
    requires Reached(b, b0, h) && RoutedAs(h, iu, nb) && IsTable(rows, b, iu, nb, fp) && row in rows
    ensures ShowsLists(row, b, iu, nb) && IsFalsePositive(row.testSet) == fp
    ensures row.sent == row.blocked + row.bypassed + row.unresolved + row.failed
    ensures 0 <= row.blocked && 0 <= row.bypassed
    ensures IsShare(row.percentage, if fp then row.bypassed else row.blocked, row.blocked + row.bypassed)
  {
    RowOfTableFits(rows, b, iu, nb, fp, row);
    hide *;
    RowMeaning(row, b, b0, h, iu, nb);
    CountsNonNegative(row, b, iu, nb);
    RowOfTable(rows, b, iu, nb, fp, row);
  }

  lemma RowOfTableFits(rows: seq<Row>, b: Book, iu: bool, nb: bool, fp: bool, row: Row)
    requires IsTable(rows, b, iu, nb, fp) && row in rows
    ensures Registered(b.counters, RowKey(row)) && ShowsCounts(row, b, iu, nb) && IsFalsePositive(row.testSet) == fp
  {
  }

  lemma CountsNonNegative(row: Row, b: Book, iu: bool, nb: bool)
    requires ShowsLists(row, b, iu, nb)
    ensures 0 <= row.blocked && 0 <= row.bypassed
  {
  }

  // ----- The scores -----

  /** The requests of a malicious half that were blocked and resolved, and of a benign one that were let
      through and resolved. */
  function Caught(c: Config, log: Log, api: bool): nat { Tally(c, log, Stopped, Sets(false, api)) }

  function Attacks(c: Config, log: Log, api: bool): nat {
    Caught(c, log, api) + Tally(c, log, GotThrough, Sets(false, api))
    + if Resolves(c) then Tally(c, log, Unclear, Sets(false, api)) else 0
  }

  function LetIn(c: Config, log: Log, api: bool): nat { Tally(c, log, GotThrough, Sets(true, api)) }

  function Visits(c: Config, log: Log, api: bool): nat {
    LetIn(c, log, api) + Tally(c, log, Stopped, Sets(true, api))
    + if Resolves(c) then Tally(c, log, Unclear, Sets(true, api)) else 0
  }

  /** The scores of the report are those of the replies: of the attacks that were answered the share that
      was blocked, of the benign requests the share that was let in, and their mean. */
  lemma ScoreFromReplies(c: Config, tests: seq<Case>, d: Debug, n: nat, log: Log, h: seq<Event>, b0: Book,
                         s: Statistics, api: bool)
    requires Scanned(c, tests, d, n, log, h, b0, s)
    ensures ScoreFits(if api then s.apiSec else s.appSec, Caught(c, log, api), Attacks(c, log, api),
                      LetIn(c, log, api), Visits(c, log, api))
  {
    hide *;
    var b := ScanDescribed(c, tests, d, n, log, h, b0, s);
    LedgerHolds(c, tests, d, n, log, h, b0, Sets(false, api));
    LedgerHolds(c, tests, d, n, log, h, b0, Sets(true, api));
    HalfNumbers(s, b, c, log, api);
    HalfScore(s, b, c.ignoreUnresolved, c.nonBlockedAsPassed, api);
  }

  lemma ScanDescribed(c: Config, tests: seq<Case>, d: Debug, n: nat, log: Log, h: seq<Event>, b0: Book, s: Statistics)
    returns (b: Book)
    requires Scanned(c, tests, d, n, log, h, b0, s)
    ensures c.templates.None? && Finished(tests, d, n, log) && UpdatesOf(h, c, log)
    ensures Empty(b0) && AllRegistered(b0.counters, h) && b == Replay(b0, h)
    ensures Describes(s, b, c.ignoreUnresolved, c.nonBlockedAsPassed)
    ensures RoutedAs(h, c.ignoreUnresolved, c.nonBlockedAsPassed) && Reached(b, b0, h)
  {
    hide Finished, UpdatesOf, KeysOfCases, LoadedPolarity, RoutedAs, Replay, Describes, Empty;
    HistoryFits(c, tests, d, n, log, h, b0.counters);
    b := Replay(b0, h);
  }

  lemma HalfNumbers(s: Statistics, b: Book, c: Config, log: Log, api: bool)
    requires Describes(s, b, c.ignoreUnresolved, c.nonBlockedAsPassed)
    requires Holds(b, c, log, Sets(false, api)) && Holds(b, c, log, Sets(true, api))
    ensures var p, n := HalfStats(s.truePositive, api), HalfStats(s.trueNegative, api);
      && p.blocked == Caught(c, log, api) && p.blocked + p.bypassed == Attacks(c, log, api)
      && n.bypassed == LetIn(c, log, api) && n.blocked + n.bypassed == Visits(c, log, api)
  {
    HalvesCount(s, b, c.ignoreUnresolved, c.nonBlockedAsPassed, api);
    HalfPlace(b, false, api);
    HalfPlace(b, true, api);
    hide Describes, HalfStats, CountIf, Tally, SetsOf, RecordsAt, Sets;
  }

  lemma HalfPlace(b: Book, benign: bool, api: bool)
    ensures CountIf(b.passed, SetsOf(benign, api)) == CountIf(b.passed, RecordsAt(Sets(benign, api)))
    ensures CountIf(b.blocked, SetsOf(benign, api)) == CountIf(b.blocked, RecordsAt(Sets(benign, api)))
    ensures CountIf(b.na, SetsOf(benign, api)) == CountIf(b.na, RecordsAt(Sets(benign, api)))
    ensures CountIf(b.failed, SetsOf(benign, api)) == CountIf(b.failed, RecordsAt(Sets(benign, api)))
  {
    var p, q := SetsOf(benign, api), RecordsAt(Sets(benign, api));
    forall r ensures p(r) == q(r) {
      assert KeyOf(r).major == r.testSet;
    }
    SameCount(b.passed, p, q);
    SameCount(b.blocked, p, q);
    SameCount(b.na, p, q);
    SameCount(b.failed, p, q);
  }
}
