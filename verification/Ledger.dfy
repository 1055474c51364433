/** The results ledger of `internal/db/database.go`, as a value.

    The scan keeps the same facts twice: a counter for every (set, case, kind), and four
    lists of records.  `Post` is one `Update*` call, `Replay` a sequence of them; the
    `Database.DB` class is proved against these functions. */
module Ledger {
  import opened Order
  import opened Text

  /** The part of `db.Info` that never changes after the record is made. */
  datatype Record = Record(
    payload: string, encoder: string, placeholder: string,
    testSet: string, testCase: string, testType: string, statusCode: int)

  /** One call of `UpdatePassedTests`, `UpdateBlockedTests`, `UpdateFailedTests` or
      `UpdateNaTests`; the last carries the flags it was called with. */
  datatype Event =
    | Passed(rec: Record)
    | Blocked(rec: Record)
    | Failed(rec: Record)
    | Unresolved(rec: Record, ignoreUnresolved: bool, nonBlockedAsPassed: bool, isTruePositive: bool)

  type Counters = map<string, map<string, map<Kind, int>>>

  datatype Book = Book(
    counters: Counters,
    passed: seq<Record>, blocked: seq<Record>, failed: seq<Record>, na: seq<Record>)

  datatype Placeholder = Placeholder(name: string, config: string)

  datatype Case = Case(
    payloads: seq<string>, encoders: seq<string>, placeholders: seq<Placeholder>,
    testType: string, testSet: string, name: string, isTruePositive: bool)

  /** The innermost keys of the counters: "passed", "blocked" and "failed". */
  datatype Kind = PassedKind | BlockedKind | FailedKind

  function KeyOf(r: Record): Key { Key(r.testSet, r.testCase) }

  function CaseKey(c: Case): Key { Key(c.testSet, c.name) }

  /** `len(Payloads) * len(Encoders) * len(Placeholders)`, over all cases. */
  function NumberOfTests(tests: seq<Case>): nat {
    if tests == [] then 0
    else
      var t := tests[|tests| - 1];
      NumberOfTests(tests[..|tests| - 1]) + |t.payloads| * |t.encoders| * |t.placeholders|
  }

  predicate Registered(c: Counters, k: Key) {
    k.major in c && k.minor in c[k.major]
  }

  /** Reading a missing kind of a Go map yields zero. */
  function Count(c: Counters, k: Key, kind: Kind): int
    requires Registered(c, k)
  {
    if kind in c[k.major][k.minor] then c[k.major][k.minor][kind] else 0
  }

  function Bump(c: Counters, k: Key, kind: Kind): Counters
    requires Registered(c, k)
  {
    c[k.major := c[k.major][k.minor := c[k.major][k.minor][kind := Count(c, k, kind) + 1]]]
  }

  predicate ToPassed(e: Event)
    requires e.Unresolved?
  {
    (e.ignoreUnresolved || e.nonBlockedAsPassed) && e.isTruePositive
  }

  function KindOf(e: Event): Kind {
    match e
    case Passed(_) => PassedKind
    case Blocked(_) => BlockedKind
    case Failed(_) => FailedKind
    case Unresolved(_, _, _, _) => if ToPassed(e) then PassedKind else BlockedKind
  }

  /** The ledger after one update. */
  function Post(b: Book, e: Event): (r: Book)
    requires Registered(b.counters, KeyOf(e.rec))
    ensures SameKeys(b.counters, r.counters)
  {
    var b' := b.(counters := Bump(b.counters, KeyOf(e.rec), KindOf(e)));
    match e
    case Passed(r) => b'.(passed := b.passed + [r])
    case Blocked(r) => b'.(blocked := b.blocked + [r])
    case Failed(r) => b'.(failed := b.failed + [r])
    case Unresolved(r, _, _, _) => b'.(na := b.na + [r])
  }

  ghost predicate AllRegistered(c: Counters, h: seq<Event>) {
    forall i | 0 <= i < |h| :: Registered(c, KeyOf(h[i].rec))
  }

  ghost predicate SameKeys(c: Counters, c': Counters) {
    forall k: Key {:trigger Registered(c', k)} :: Registered(c, k) <==> Registered(c', k)
  }

  /** The ledger after a sequence of updates.  The set of (set, case) keys never changes. */
  ghost function Replay(b: Book, h: seq<Event>): (r: Book)
    requires AllRegistered(b.counters, h)
    ensures SameKeys(b.counters, r.counters)
  {
    if h == [] then b
    else
      var n := |h| - 1;
      var prev := Replay(b, h[..n]);
      Post(prev, h[n])
  }

  lemma ReplayAppend(b: Book, h: seq<Event>, e: Event)
    requires AllRegistered(b.counters, h) && Registered(b.counters, KeyOf(e.rec))
    ensures AllRegistered(b.counters, h + [e])
    ensures Registered(Replay(b, h).counters, KeyOf(e.rec))
    ensures Replay(b, h + [e]) == Post(Replay(b, h), e)
  {
    assert (h + [e])[..|h|] == h;
  }

  lemma {:induction false} ReplayConcat(b: Book, h: seq<Event>, g: seq<Event>)
    requires AllRegistered(b.counters, h) && AllRegistered(b.counters, g)
    ensures AllRegistered(b.counters, h + g) && AllRegistered(Replay(b, h).counters, g)
    ensures Replay(b, h + g) == Replay(Replay(b, h), g)
  {
    assert AllRegistered(Replay(b, h).counters, g);
    if g == [] {
      assert h + g == h;
    } else {
      var n := |g| - 1;
      assert h + g == (h + g[..n]) + [g[n]];
      ReplayConcat(b, h, g[..n]);
      ReplayAppend(b, h + g[..n], g[n]);
      assert g == g[..n] + [g[n]];
      ReplayAppend(Replay(b, h), g[..n], g[n]);
    }
  }

  // ----- What the lists hold -----

  function AtKey(k: Key): Record -> bool { (r: Record) => KeyOf(r) == k }

  /** Occurrences of one (set, case) in a list. */
  function Occ(rs: seq<Record>, k: Key): nat { CountIf(rs, AtKey(k)) }

  lemma ReplayLast(b0: Book, h: seq<Event>)
    requires h != [] && AllRegistered(b0.counters, h)
    ensures var n := |h| - 1;
      && AllRegistered(b0.counters, h[..n]) && h == h[..n] + [h[n]]
      && Registered(Replay(b0, h[..n]).counters, KeyOf(h[n].rec)) && Replay(b0, h) == Post(Replay(b0, h[..n]), h[n])
  {
  }

  /** The records of the unresolved updates that were counted as passed, or as blocked. */
  function NaRouted(h: seq<Event>, toPassed: bool): seq<Record> {
    if h == [] then []
    else
      var e := h[|h| - 1];
      NaRouted(h[..|h| - 1], toPassed)
        + if e.Unresolved? && ToPassed(e) == toPassed then [e.rec] else []
  }

  /** The counter of a kind, read off the lists and the history. */
  function Expected(b: Book, h: seq<Event>, k: Key, kind: Kind): nat {
    match kind
    case PassedKind => Occ(b.passed, k) + Occ(NaRouted(h, true), k)
    case BlockedKind => Occ(b.blocked, k) + Occ(NaRouted(h, false), k)
    case FailedKind => Occ(b.failed, k)
  }

  /** A ledger on which no update has been made. */
  ghost predicate Empty(b: Book) {
    && b.passed == [] && b.blocked == [] && b.failed == [] && b.na == []
    && forall k, kind | Registered(b.counters, k) :: Count(b.counters, k, kind) == 0
  }

  lemma CountAfterBump(c: Counters, k: Key, kind: Kind, k': Key, kind': Kind)
    requires Registered(c, k) && Registered(c, k')
    ensures Registered(Bump(c, k, kind), k')
    ensures Count(Bump(c, k, kind), k', kind') == Count(c, k', kind') + if k == k' && kind == kind' then 1 else 0
  {
  }

  lemma NaRoutedAppend(h: seq<Event>, e: Event, toPassed: bool, p: Record -> bool)
    ensures CountIf(NaRouted(h + [e], toPassed), p)
         == CountIf(NaRouted(h, toPassed), p)
          + if e.Unresolved? && ToPassed(e) == toPassed && p(e.rec) then 1 else 0
  {
    assert (h + [e])[..|h|] == h;
    assert NaRouted(h, toPassed) + [] == NaRouted(h, toPassed);
    CountIfAppend(NaRouted(h, toPassed), e.rec, p);
  }

  lemma ExpectedAfterPost(b: Book, h: seq<Event>, e: Event, k: Key, kind: Kind)
    requires Registered(b.counters, KeyOf(e.rec))
    ensures Expected(Post(b, e), h + [e], k, kind)
         == Expected(b, h, k, kind) + if KeyOf(e.rec) == k && KindOf(e) == kind then 1 else 0
  {
    NaRoutedAppend(h, e, true, AtKey(k));
    NaRoutedAppend(h, e, false, AtKey(k));
    match e
    case Passed(r) => CountIfAppend(b.passed, r, AtKey(k));
    case Blocked(r) => CountIfAppend(b.blocked, r, AtKey(k));
    case Failed(r) => CountIfAppend(b.failed, r, AtKey(k));
    case Unresolved(_, _, _, _) =>
  }

  /** The ledger invariant, over every sequence of updates: each counter is the number of
      occurrences in its list plus the unresolved records the flags routed to it. */
  lemma {:induction false} LedgerInvariant(b0: Book, h: seq<Event>, k: Key, kind: Kind)
    requires Empty(b0) && AllRegistered(b0.counters, h) && Registered(b0.counters, k)
    ensures Registered(Replay(b0, h).counters, k)
    ensures Count(Replay(b0, h).counters, k, kind) == Expected(Replay(b0, h), h, k, kind)
  {
    if h != [] {
      var n := |h| - 1;
      var e := h[n];
      var prev := Replay(b0, h[..n]);
      LedgerInvariant(b0, h[..n], k, kind);
      assert h == h[..n] + [e];
      ReplayAppend(b0, h[..n], e);
      CountAfterBump(prev.counters, KeyOf(e.rec), KindOf(e), k, kind);
      ExpectedAfterPost(prev, h[..n], e, k, kind);
    }
  }

  /** The lists hold one record per update. */
  lemma {:induction false} OneRecordPerUpdate(b0: Book, h: seq<Event>)
    requires Empty(b0) && AllRegistered(b0.counters, h)
    ensures var b := Replay(b0, h);
            |b.passed| + |b.blocked| + |b.failed| + |b.na| == |h|
  {
    if h != [] {
      OneRecordPerUpdate(b0, h[..|h| - 1]);
    }
  }

  /** Every listed record belongs to a registered (set, case). */
  ghost predicate Closed(c: Counters, rs: seq<Record>) {
    forall i | 0 <= i < |rs| :: Registered(c, KeyOf(rs[i]))
  }

  lemma {:induction false} ListsClosed(b0: Book, h: seq<Event>)
    requires Empty(b0) && AllRegistered(b0.counters, h)
    ensures var b := Replay(b0, h);
            && Closed(b0.counters, b.passed) && Closed(b0.counters, b.blocked)
            && Closed(b0.counters, b.failed) && Closed(b0.counters, b.na)
            && Closed(b0.counters, NaRouted(h, true)) && Closed(b0.counters, NaRouted(h, false))
  {
    if h != [] {
      var n := |h| - 1;
      ListsClosed(b0, h[..n]);
      assert Replay(b0, h) == Post(Replay(b0, h[..n]), h[n]);
      assert Registered(b0.counters, KeyOf(h[n].rec));
    }
  }

  // ----- The invariant, without the history -----

  ghost predicate CountsMatch(b: Book, up: seq<Record>, down: seq<Record>, k: Key)
    requires Registered(b.counters, k)
  {
    && Count(b.counters, k, PassedKind) == Occ(b.passed, k) + Occ(up, k)
    && Count(b.counters, k, BlockedKind) == Occ(b.blocked, k) + Occ(down, k)
    && Count(b.counters, k, FailedKind) == Occ(b.failed, k)
  }

  /** The counters agree with the lists, where the unresolved records split into those counted
      as passed (`up`) and those counted as blocked (`down`). */
  ghost predicate Balanced(b: Book, up: seq<Record>, down: seq<Record>) {
    && (forall k: Key | Registered(b.counters, k) :: CountsMatch(b, up, down, k))
    && Closed(b.counters, b.passed) && Closed(b.counters, b.blocked) && Closed(b.counters, b.failed)
    && Closed(b.counters, b.na) && Closed(b.counters, up) && Closed(b.counters, down)
    && multiset(b.na) == multiset(up) + multiset(down)
  }

  lemma ClosedUnder(c: Counters, c': Counters, rs: seq<Record>)
    requires Closed(c, rs) && SameKeys(c, c')
    ensures Closed(c', rs)
  {
    forall i | 0 <= i < |rs| ensures Registered(c', KeyOf(rs[i])) {
      assert Registered(c, KeyOf(rs[i]));
    }
  }

  lemma {:induction false} NaSplit(b0: Book, h: seq<Event>)
    requires Empty(b0) && AllRegistered(b0.counters, h)
    ensures multiset(Replay(b0, h).na) == multiset(NaRouted(h, true)) + multiset(NaRouted(h, false))
  {
    if h != [] {
      var n := |h| - 1;
      NaSplit(b0, h[..n]);
      assert Replay(b0, h) == Post(Replay(b0, h[..n]), h[n]);
    }
  }

  lemma ReplayBalanced(b0: Book, h: seq<Event>)
    requires Empty(b0) && AllRegistered(b0.counters, h)
    ensures Balanced(Replay(b0, h), NaRouted(h, true), NaRouted(h, false))
  {
    var b := Replay(b0, h);
    forall k: Key | Registered(b.counters, k)
      ensures CountsMatch(b, NaRouted(h, true), NaRouted(h, false), k)
    {
      LedgerInvariant(b0, h, k, PassedKind);
      LedgerInvariant(b0, h, k, BlockedKind);
      LedgerInvariant(b0, h, k, FailedKind);
    }
    ListsClosed(b0, h);
    ClosedUnder(b0.counters, b.counters, b.passed);
    ClosedUnder(b0.counters, b.counters, b.blocked);
    ClosedUnder(b0.counters, b.counters, b.failed);
    ClosedUnder(b0.counters, b.counters, b.na);
    ClosedUnder(b0.counters, b.counters, NaRouted(h, true));
    ClosedUnder(b0.counters, b.counters, NaRouted(h, false));
    NaSplit(b0, h);
  }

  lemma SplitCount(b: Book, up: seq<Record>, down: seq<Record>, p: Record -> bool)
    requires Balanced(b, up, down)
    ensures CountIf(b.na, p) == CountIf(up, p) + CountIf(down, p)
  {
    CountIfPermutation(b.na, up + down, p);
    CountIfConcat(up, down, p);
  }

  // ----- Polarity -----

  /** A set whose name contains "false" holds benign requests. */
  predicate IsFalsePositive(testSet: string) { Contains(testSet, "false") }

  predicate IsApi(testSet: string) { Contains(testSet, "api") }

  /** `LoadTestCases` sets the polarity of a case from the name of its set. */
  predicate LoadedPolarity(c: Case) { c.isTruePositive == !IsFalsePositive(c.testSet) }
}
