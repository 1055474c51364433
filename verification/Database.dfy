/** The results database of `internal/db`: the object that workers update under its lock and
    that `GetStatistics` reads.  Each method is one critical section, so it is atomic. */
module Database {
  import opened Order
  import opened Text
  import opened Ledger
  import opened Scores
  import opened Statistics
  import opened Tables

  /** `db.Info`: a recorded result.  Only `additionalInfo` changes after it is made. */
  class Info {
    const rec: Record
    var additionalInfo: seq<string>

    constructor (rec: Record)
      ensures this.rec == rec && additionalInfo == []
    {
      this.rec := rec;
      additionalInfo := [];
    }
  }

  function Records(infos: seq<Info>): seq<Record> {
    seq(|infos|, i requires 0 <= i < |infos| => infos[i].rec)
  }

  /** The results of one polarity, in list order. */
  function Select(infos: seq<Info>, falsePositive: bool): (r: seq<Info>)
    ensures forall o | o in r :: o in infos
    ensures forall i | 0 <= i < |r| :: r[i] in infos
  {
    if infos == [] then []
    else
      var last := infos[|infos| - 1];
      Select(infos[..|infos| - 1], falsePositive)
        + if IsFalsePositive(last.rec.testSet) == falsePositive then [last] else []
  }

  /** A result of a benign set, or of a malicious one. */
  function OfPolarity(benign: bool): Info -> bool { (o: Info) => Contains(o.rec.testSet, "false") == benign }

  lemma {:induction false} SelectIsFilter(infos: seq<Info>, benign: bool)
    ensures Select(infos, benign) == Filter(infos, OfPolarity(benign))
  {
    if infos != [] {
      SelectIsFilter(infos[..|infos| - 1], benign);
    }
  }

  /** The four lists of a database. */
  datatype Lists = Lists(passed: seq<Info>, blocked: seq<Info>, failed: seq<Info>, na: seq<Info>)

  ghost function BookOf(c: Counters, l: Lists): Book {
    Book(c, Records(l.passed), Records(l.blocked), Records(l.failed), Records(l.na))
  }

  lemma {:induction false} SelectSize(infos: seq<Info>, falsePositive: bool)
    ensures |Select(infos, falsePositive)|
         == CountIf(Records(infos), InGroup(falsePositive, true))
         + CountIf(Records(infos), InGroup(falsePositive, false))
  {
    if infos != [] {
      var n := |infos| - 1;
      SelectSize(infos[..n], falsePositive);
      assert Records(infos) == Records(infos[..n]) + [infos[n].rec];
      CountIfAppend(Records(infos[..n]), infos[n].rec, InGroup(falsePositive, true));
      CountIfAppend(Records(infos[..n]), infos[n].rec, InGroup(falsePositive, false));
    }
  }

  lemma SortIdempotent(s: seq<string>)
    ensures Sort(Sort(s, Less), Less) == Sort(s, Less)
  {
    LessIsTotal();
    SortCorrect(s, Less);
    SortCanonical(Sort(s, Less), s, Less);
  }

  // ----- The test cases -----

  ghost predicate HasCase(tests: seq<Case>, k: Key) {
    exists i :: 0 <= i < |tests| && CaseKey(tests[i]) == k
  }

  /** The counters have exactly the (set, case) keys of the test cases. */
  ghost predicate KeysOfCases(c: Counters, tests: seq<Case>) {
    forall k: Key {:trigger Registered(c, k)} :: Registered(c, k) <==> HasCase(tests, k)
  }

  ghost predicate AllZero(c: Counters) {
    forall k, kind | Registered(c, k) :: Count(c, k, kind) == 0
  }

  /** Makes the two outer levels of the counters for a key, if they are missing. */
  function Register(c: Counters, k: Key): Counters {
    var c' := if k.major !in c then c[k.major := map[]] else c;
    if k.minor !in c'[k.major] then c'[k.major := c'[k.major][k.minor := map[]]] else c'
  }

  lemma RegisterCase(c: Counters, tests: seq<Case>, t: Case)
    requires KeysOfCases(c, tests) && AllZero(c)
    ensures KeysOfCases(Register(c, CaseKey(t)), tests + [t]) && AllZero(Register(c, CaseKey(t)))
  {
    var c' := Register(c, CaseKey(t));
    forall k: Key ensures Registered(c', k) <==> HasCase(tests + [t], k) {
      assert Registered(c', k) <==> Registered(c, k) || k == CaseKey(t);
      HasCaseAppend(tests, t, k);
    }
    forall k, kind | Registered(c', k) ensures Count(c', k, kind) == 0 {
      assert Registered(c, k) ==> Count(c, k, kind) == 0;
    }
  }

  lemma HasCaseAppend(tests: seq<Case>, t: Case, k: Key)
    ensures HasCase(tests + [t], k) <==> HasCase(tests, k) || k == CaseKey(t)
  {
    if HasCase(tests, k) {
      var i :| 0 <= i < |tests| && CaseKey(tests[i]) == k;
      assert CaseKey((tests + [t])[i]) == k;
    }
    if k == CaseKey(t) {
      assert CaseKey((tests + [t])[|tests|]) == k;
    }
  }

  function Hashes(tests: seq<Case>, caseHash: Case -> string): seq<string> {
    seq(|tests|, i requires 0 <= i < |tests| => caseHash(tests[i]))
  }

  function Flatten(parts: seq<string>): string {
    if parts == [] then "" else Flatten(parts[..|parts| - 1]) + parts[|parts| - 1]
  }

  /** The fingerprint: the digest of the sorted case hashes. */
  function Fingerprint(tests: seq<Case>, caseHash: Case -> string, digest: string -> string): string {
    digest(Flatten(Sort(Hashes(tests, caseHash), Less)))
  }

  lemma {:induction false} HashesPermute(tests: seq<Case>, tests': seq<Case>, caseHash: Case -> string)
    requires multiset(tests) == multiset(tests')
    ensures multiset(Hashes(tests, caseHash)) == multiset(Hashes(tests', caseHash))
  {
    assert |tests| == |multiset(tests)| == |multiset(tests')| == |tests'|;
    if tests != [] {
      var n := |tests| - 1;
      var t := tests[n];
      assert tests == tests[..n] + [t];
      assert t in multiset(tests');
      var i :| 0 <= i < |tests'| && tests'[i] == t;
      var rest := tests'[..i] + tests'[i + 1..];
      assert tests' == tests'[..i] + [t] + tests'[i + 1..];
      assert multiset(tests') == multiset(rest) + multiset{t};
      assert multiset(tests[..n]) == multiset(tests) - multiset{t};
      HashesPermute(tests[..n], rest, caseHash);
      HashesConcat(tests[..n], [t], caseHash);
      HashesConcat(tests'[..i], tests'[i + 1..], caseHash);
      HashesConcat(tests'[..i] + [t], tests'[i + 1..], caseHash);
      HashesConcat(tests'[..i], [t], caseHash);
    }
  }

  lemma HashesConcat(a: seq<Case>, b: seq<Case>, caseHash: Case -> string)
    ensures Hashes(a + b, caseHash) == Hashes(a, caseHash) + Hashes(b, caseHash)
  {
  }

  /** All hashes have the size of a digest. */
  ghost predicate OfSize(parts: seq<string>, n: nat) { forall i | 0 <= i < |parts| :: |parts[i]| == n }

  /** The hashes stand in the stream one after the other. */
  lemma {:induction false} FlattenSlices(parts: seq<string>, n: nat, i: nat)
    requires OfSize(parts, n)
    ensures |Flatten(parts)| == n * |parts|
    ensures i < |parts| ==> 0 <= n * i <= n * i + n <= |Flatten(parts)| && Flatten(parts)[n * i..n * i + n] == parts[i]
  {
    if parts != [] {
      var m := |parts| - 1;
      var before := parts[..m];
      FlattenSlices(before, n, i);
      assert Flatten(parts) == Flatten(before) + parts[m];
      assert i < m ==> before[i] == parts[i];
      hide *;
      SliceFits(n, i, m);
      if i < m {
        assert Flatten(parts)[n * i..n * i + n] == Flatten(before)[n * i..n * i + n];
      }
    }
  }

  lemma SliceFits(n: nat, i: nat, m: nat)
    ensures n * (m + 1) == n * m + n && 0 <= n * i && (i < m ==> n * i + n <= n * m)
  {
    if i < m {
      assert n * (m - i - 1) >= 0;
    }
  }

  lemma FlattenInjective(a: seq<string>, b: seq<string>, n: nat)
    requires 0 < n && OfSize(a, n) && OfSize(b, n) && Flatten(a) == Flatten(b)
    ensures a == b
  {
    FlattenSlices(a, n, 0);
    FlattenSlices(b, n, 0);
    SameFactor(n, |a|, |b|);
    forall i | 0 <= i < |a| ensures a[i] == b[i] {
      FlattenSlices(a, n, i);
      FlattenSlices(b, n, i);
    }
  }

  lemma SameFactor(n: nat, x: nat, y: nat)
    requires 0 < n && n * x == n * y
    ensures x == y
  {
  }

  /** What is digested is the concatenation of the sorted hashes, so two lists of cases feed the same bytes to
      the digest if and only if they have the same hashes, each as often. */
  lemma FingerprintIff(tests: seq<Case>, tests': seq<Case>, caseHash: Case -> string, n: nat)
    requires 0 < n && OfSize(Hashes(tests, caseHash), n) && OfSize(Hashes(tests', caseHash), n)
    ensures Flatten(Sort(Hashes(tests, caseHash), Less)) == Flatten(Sort(Hashes(tests', caseHash), Less))
       <==> multiset(Hashes(tests, caseHash)) == multiset(Hashes(tests', caseHash))
  {
    var a, b := Hashes(tests, caseHash), Hashes(tests', caseHash);
    LessIsTotal();
    SortCanonical(a, b, Less);
    SortedSize(a, n);
    SortedSize(b, n);
    if Flatten(Sort(a, Less)) == Flatten(Sort(b, Less)) {
      FlattenInjective(Sort(a, Less), Sort(b, Less), n);
    }
  }

  lemma SortedSize(parts: seq<string>, n: nat)
    requires OfSize(parts, n)
    ensures OfSize(Sort(parts, Less), n)
  {
    LessIsTotal();
    SortCorrect(parts, Less);
    var s := Sort(parts, Less);
    forall i | 0 <= i < |s| ensures |s[i]| == n {
      assert s[i] in multiset(s);
      assert s[i] in multiset(parts);
    }
  }

  ghost function InfosOf(l: Lists): set<Info> {
    (set o | o in l.passed) + (set o | o in l.blocked) + (set o | o in l.failed) + (set o | o in l.na)
  }

  /** The fingerprint does not depend on the order in which the cases were loaded. */
  lemma FingerprintCanonical(tests: seq<Case>, tests': seq<Case>, caseHash: Case -> string, digest: string -> string)
    requires multiset(tests) == multiset(tests')
    ensures Flatten(Sort(Hashes(tests, caseHash), Less)) == Flatten(Sort(Hashes(tests', caseHash), Less))
    ensures Fingerprint(tests, caseHash, digest) == Fingerprint(tests', caseHash, digest)
  {
    LessIsTotal();
    HashesPermute(tests, tests', caseHash);
    SortCanonical(Hashes(tests, caseHash), Hashes(tests', caseHash), Less);
  }

  // ----- The database -----

  class DB {
    var counters: Counters
    var passedTests: seq<Info>
    var blockedTests: seq<Info>
    var failedTests: seq<Info>
    var naTests: seq<Info>
    const tests: seq<Case>
    var scannedPaths: Paths   // path to methods; empty stands for Go's nil map
    var numberOfTests: nat
    var hash: string
    var isGrpcAvailable: bool
    var isGraphQLAvailable: bool

    /** The ledger this object holds. */
    ghost function Contents(): Book
      reads this
    {
      BookOf(counters, AllLists())
    }

    function AllLists(): Lists
      reads this
    {
      Lists(passedTests, blockedTests, failedTests, naTests)
    }

    /** The records in the lists. */
    ghost function Infos(): set<Info>
      reads this
    {
      InfosOf(AllLists())
    }

    /** `NewDB`. */
    constructor (tests: seq<Case>, caseHash: Case -> string, digest: string -> string)
      ensures this.tests == tests
      ensures Empty(Contents()) && KeysOfCases(counters, tests)
      ensures passedTests == blockedTests == failedTests == naTests == []
      ensures scannedPaths == map[]
      ensures numberOfTests == NumberOfTests(tests)
      ensures hash == Fingerprint(tests, caseHash, digest)
    {
      var c: Counters := map[];
      var n := 0;
      var hashSums: seq<string> := [];
      for i := 0 to |tests|
        invariant KeysOfCases(c, tests[..i]) && AllZero(c)
        invariant n == NumberOfTests(tests[..i])
        invariant hashSums == Hashes(tests[..i], caseHash)
      {
        var t := tests[i];
        RegisterCase(c, tests[..i], t);
        c := Register(c, CaseKey(t));
        n := n + |t.payloads| * |t.encoders| * |t.placeholders|;
        hashSums := hashSums + [caseHash(t)];
        assert tests[..i + 1][..i] == tests[..i];
        HashesConcat(tests[..i], [t], caseHash);
        assert tests[..i] + [t] == tests[..i + 1];
      }
      assert tests[..|tests|] == tests;
      hashSums := Sort(hashSums, Less);
      var stream := "";
      for i := 0 to |hashSums|
        invariant stream == Flatten(hashSums[..i])
      {
        assert hashSums[..i + 1][..i] == hashSums[..i];
        stream := stream + hashSums[i];
      }
      assert hashSums[..|hashSums|] == hashSums;
      this.tests := tests;
      counters := c;
      passedTests, blockedTests, failedTests, naTests := [], [], [], [];
      scannedPaths := map[];
      numberOfTests := n;
      hash := digest(stream);
      isGrpcAvailable, isGraphQLAvailable := false, false;
    }

    method UpdatePassedTests(t: Info)
      requires Registered(counters, KeyOf(t.rec))
      modifies this`counters, this`passedTests
      ensures Contents() == Post(old(Contents()), Passed(t.rec))
      ensures passedTests == old(passedTests) + [t]
    {
      counters := Bump(counters, KeyOf(t.rec), PassedKind);
      passedTests := passedTests + [t];
      assert Records(passedTests) == old(Records(passedTests)) + [t.rec];
    }

    method UpdateNaTests(t: Info, ignoreUnresolved: bool, nonBlockedAsPassed: bool, isTruePositive: bool)
      requires Registered(counters, KeyOf(t.rec))
      modifies this`counters, this`naTests
      ensures Contents() ==
        Post(old(Contents()), Unresolved(t.rec, ignoreUnresolved, nonBlockedAsPassed, isTruePositive))
      ensures naTests == old(naTests) + [t]
    {
      if (ignoreUnresolved || nonBlockedAsPassed) && isTruePositive {
        counters := Bump(counters, KeyOf(t.rec), PassedKind);
      } else {
        counters := Bump(counters, KeyOf(t.rec), BlockedKind);
      }
      naTests := naTests + [t];
      assert Records(naTests) == old(Records(naTests)) + [t.rec];
    }

    method UpdateBlockedTests(t: Info)
      requires Registered(counters, KeyOf(t.rec))
      modifies this`counters, this`blockedTests
      ensures Contents() == Post(old(Contents()), Blocked(t.rec))
      ensures blockedTests == old(blockedTests) + [t]
    {
      counters := Bump(counters, KeyOf(t.rec), BlockedKind);
      blockedTests := blockedTests + [t];
      assert Records(blockedTests) == old(Records(blockedTests)) + [t.rec];
    }

    method UpdateFailedTests(t: Info)
      requires Registered(counters, KeyOf(t.rec))
      modifies this`counters, this`failedTests
      ensures Contents() == Post(old(Contents()), Failed(t.rec))
      ensures failedTests == old(failedTests) + [t]
    {
      counters := Bump(counters, KeyOf(t.rec), FailedKind);
      failedTests := failedTests + [t];
      assert Records(failedTests) == old(Records(failedTests)) + [t.rec];
    }

    method AddToScannedPaths(httpMethod: string, path: string)
      modifies this`scannedPaths
      ensures scannedPaths == AddScanned(old(scannedPaths), Key(path, httpMethod))
    {
      if path !in scannedPaths {
        scannedPaths := scannedPaths[path := {}];
      }
      scannedPaths := scannedPaths[path := scannedPaths[path] + {httpMethod}];
    }

    // ----- GetStatistics, loop by loop -----

    /** The unresolved results of each (set, case), all zero when they are not to be shown. */
    method CountUnresolved(ignoreUnresolved: bool, nonBlockedAsPassed: bool)
      returns (m: map<string, map<string, int>>)
      ensures CountsUnresolved(m, Records(naTests), ignoreUnresolved, nonBlockedAsPassed)
    {
      m := map[];
      for i := 0 to |naTests|
        invariant CountsUnresolved(m, Records(naTests)[..i], ignoreUnresolved, nonBlockedAsPassed)
      {
        var r := naTests[i].rec;
        ghost var m0 := m;
        if r.testSet !in m {
          m := m[r.testSet := map[]];
        }
        var was := if r.testCase in m[r.testSet] then m[r.testSet][r.testCase] else 0;
        var now := if ignoreUnresolved || nonBlockedAsPassed then 0 else was + 1;
        m := m[r.testSet := m[r.testSet][r.testCase := now]];
        assert Records(naTests)[..i + 1] == Records(naTests)[..i] + [r];
        forall k ensures LookUp(m, k) ==
            UnresolvedAt(Records(naTests)[..i + 1], k, ignoreUnresolved, nonBlockedAsPassed) {
          CountIfAppend(Records(naTests)[..i], r, AtKey(k));
          assert LookUp(m0, k) == UnresolvedAt(Records(naTests)[..i], k, ignoreUnresolved, nonBlockedAsPassed);
          assert was == LookUp(m0, KeyOf(r));
          assert LookUp(m, k) == if k == KeyOf(r) then now else LookUp(m0, k);
        }
      }
      assert Records(naTests)[..|naTests|] == Records(naTests);
    }

    /** `GetStatistics`. */
    method GetStatistics(ignoreUnresolved: bool, nonBlockedAsPassed: bool) returns (s: Statistics, ghost notes: Notes)
      modifies blockedTests, passedTests, naTests
      ensures Describes(s, Contents(), ignoreUnresolved, nonBlockedAsPassed)
      ensures Grouped(s.truePositive, AllLists(), notes, ignoreUnresolved, nonBlockedAsPassed, false)
      ensures Grouped(s.trueNegative, AllLists(), notes, ignoreUnresolved, nonBlockedAsPassed, true)
      ensures Now(blockedTests, notes) && Now(passedTests, notes) && Now(naTests, notes) && Now(failedTests, notes)
      ensures Resorted(old(blockedTests), notes) && Resorted(old(passedTests), notes) && Resorted(old(naTests), notes)
      ensures StrictlySorted(s.paths, KeyLess) && forall k :: k in s.paths <==> Scanned(scannedPaths, k)
      ensures s.isGrpcAvailable == isGrpcAvailable && s.isGraphQLAvailable == isGraphQLAvailable
      ensures s.testCasesFingerprint == hash
    {
      hide Describes, Grouped, SplitOf, CoversAll, CountsUnresolved, StrictlySorted, Scanned;
      var unresolved := CountUnresolved(ignoreUnresolved, nonBlockedAsPassed);
      var paths := ListPaths(scannedPaths);
      var positive, negative;
      positive, negative, notes := ClassifyAll(AllLists());
      s := Assemble(counters, unresolved, positive, negative, AllLists(), notes, paths, hash,
                    isGrpcAvailable, isGraphQLAvailable, ignoreUnresolved, nonBlockedAsPassed);
    }
  }

  // ----- GetStatistics, the lists -----

  /** `calculateTestsSummaryStat`, and the assembly of one polarity. */
  method Summarize(table: seq<Row>, sums: RequestStats, blocked: Half, bypassed: Half, unresolved: Half, failed: Half)
    returns (t: TestsSummary)
    requires SameSums(sums, SumRows(table))
    ensures t.summaryTable == table && t.reqStats == SumRows(table)
    ensures Assembled(t, blocked, bypassed, unresolved, failed)
    ensures HasPercentages(t)
  {
    var all := Totals(sums.blocked, sums.bypassed, sums.unresolved, sums.failed);
    SumRowsClosed(table);
    assert all == SumRows(table);
    t := TestsSummary(table, blocked.details, bypassed.details, unresolved.details, failed.details, all,
      Totals(blocked.api, bypassed.api, unresolved.api, failed.api),
      Totals(blocked.app, bypassed.app, unresolved.app, failed.app),
      CalculatePercentage(all.unresolved, all.all), CalculatePercentage(all.blocked, all.resolved),
      CalculatePercentage(all.bypassed, all.resolved), CalculatePercentage(all.failed, all.all));
  }

  /** One polarity of a list: its details, and how many are API and application tests. */
  datatype Half = Half(details: seq<TestDetails>, api: int, app: int)

  const NoHalf := Half([], 0, 0)

  function Both(h: Half, g: Half): Half { Half(h.details + g.details, h.api + g.api, h.app + g.app) }

  function AddDetail(h: Half, d: TestDetails): Half {
    if IsApi(d.rec.testSet)
    then Half(h.details + [d], h.api + 1, h.app)
    else Half(h.details + [d], h.api, h.app + 1)
  }

  /** The additional information of every result, at some moment. */
  type Notes = map<Info, seq<string>>

  ghost predicate Covers(notes: Notes, infos: seq<Info>) {
    forall o | o in infos :: o in notes
  }

  /** The details of some results. */
  ghost function Shown(infos: seq<Info>, notes: Notes): seq<TestDetails>
    requires Covers(notes, infos)
  {
    seq(|infos|, i requires 0 <= i < |infos| => TestDetails(infos[i].rec, notes[infos[i]]))
  }

  ghost function HalfOf(infos: seq<Info>, fp: bool, notes: Notes): Half
    requires Covers(notes, infos)
  {
    Half(Shown(Select(infos, fp), notes),
         CountIf(Records(infos), InGroup(fp, true)), CountIf(Records(infos), InGroup(fp, false)))
  }

  /** The detail lists of one polarity, as a report with these flags groups them. */
  ghost predicate Grouped(t: TestsSummary, l: Lists, notes: Notes, ignoreUnresolved: bool, nonBlockedAsPassed: bool,
                          fp: bool) {
    var na := Select(l.na, fp);
    var resolve := ignoreUnresolved || nonBlockedAsPassed;
    && Covers(notes, l.blocked) && Covers(notes, l.passed) && Covers(notes, l.na) && Covers(notes, l.failed)
    && t.blocked == Shown(Select(l.blocked, fp), notes) + (if resolve && fp then Shown(na, notes) else [])
    && t.bypasses == Shown(Select(l.passed, fp), notes) + (if resolve && !fp then Shown(na, notes) else [])
    && t.unresolved == (if resolve then [] else Shown(na, notes))
    && t.failed == Shown(Select(l.failed, fp), notes)
  }

  ghost function RecordsOf(ds: seq<TestDetails>): seq<Record> { seq(|ds|, i requires 0 <= i < |ds| => ds[i].rec) }

  /** The detail lists are the results of the polarity, in the order they were recorded; those that stay
      unresolved but are not shown follow the bypasses of malicious sets and the blocked ones of benign
      sets. */
  lemma DetailsListed(t: TestsSummary, l: Lists, notes: Notes, iu: bool, nb: bool, benign: bool)
    requires Grouped(t, l, notes, iu, nb, benign)
    ensures var p, na := OfPolarity(benign), Records(Filter(l.na, OfPolarity(benign)));
      && RecordsOf(t.blocked) == Records(Filter(l.blocked, p)) + (if (iu || nb) && benign then na else [])
      && RecordsOf(t.bypasses) == Records(Filter(l.passed, p)) + (if (iu || nb) && !benign then na else [])
      && RecordsOf(t.unresolved) == (if iu || nb then [] else na)
      && RecordsOf(t.failed) == Records(Filter(l.failed, p))
  {
    SelectIsFilter(l.blocked, benign);
    SelectIsFilter(l.passed, benign);
    SelectIsFilter(l.na, benign);
    SelectIsFilter(l.failed, benign);
    hide Filter, Select;
  }

  /** Splits a list by polarity, sorting each result's additional information in place; `notes`
      says what the information of each result becomes. */
  method Classify(infos: seq<Info>, sortNotes: bool, ghost notes: Notes) returns (positive: Half, negative: Half)
    requires Covers(notes, infos)
    requires forall o | o in infos :: notes[o] == if sortNotes then Sort(o.additionalInfo, Less) else o.additionalInfo
    modifies set o | o in infos && sortNotes
    ensures positive == HalfOf(infos, false, notes) && negative == HalfOf(infos, true, notes)
    ensures forall o | o in infos :: o.additionalInfo == notes[o]
  {
    positive, negative := NoHalf, NoHalf;
    for i := 0 to |infos|
      invariant positive == HalfOf(infos[..i], false, notes) && negative == HalfOf(infos[..i], true, notes)
      invariant forall o | o in infos[..i] :: o.additionalInfo == notes[o]
      invariant forall o | o in infos && o !in infos[..i] :: o.additionalInfo == old(o.additionalInfo)
    {
      var o := infos[i];
      assert infos[..i + 1] == infos[..i] + [o];
      SortIdempotent(old(o.additionalInfo));
      if sortNotes {
        o.additionalInfo := Sort(o.additionalInfo, Less);
      }
      HalfAppend(infos[..i], o, false, notes);
      HalfAppend(infos[..i], o, true, notes);
      if IsFalsePositive(o.rec.testSet) {
        negative := AddDetail(negative, TestDetails(o.rec, o.additionalInfo));
      } else {
        positive := AddDetail(positive, TestDetails(o.rec, o.additionalInfo));
      }
    }
    assert infos[..|infos|] == infos;
  }

  lemma HalfAppend(infos: seq<Info>, o: Info, fp: bool, notes: Notes)
    requires Covers(notes, infos) && o in notes
    ensures Covers(notes, infos + [o])
    ensures HalfOf(infos + [o], fp, notes)
         == if IsFalsePositive(o.rec.testSet) == fp
            then AddDetail(HalfOf(infos, fp, notes), TestDetails(o.rec, notes[o]))
            else HalfOf(infos, fp, notes)
  {
    assert (infos + [o])[..|infos|] == infos;
    assert Records(infos + [o]) == Records(infos) + [o.rec];
    CountIfAppend(Records(infos), o.rec, InGroup(fp, true));
    CountIfAppend(Records(infos), o.rec, InGroup(fp, false));
    assert Select(infos, fp) + [] == Select(infos, fp);
  }

  /** The four lists split by polarity: the API and application halves of each. */
  datatype Split = Split(blocked: Half, passed: Half, na: Half, failed: Half)

  ghost predicate CoversAll(notes: Notes, l: Lists) {
    Covers(notes, l.blocked) && Covers(notes, l.passed) && Covers(notes, l.na) && Covers(notes, l.failed)
  }

  ghost function SplitOf(l: Lists, fp: bool, notes: Notes): Split
    requires CoversAll(notes, l)
  {
    Split(HalfOf(l.blocked, fp, notes), HalfOf(l.passed, fp, notes),
          HalfOf(l.na, fp, notes), HalfOf(l.failed, fp, notes))
  }

  ghost predicate Now(infos: seq<Info>, notes: Notes)
    reads set o | o in infos
  {
    forall o | o in infos :: o in notes && o.additionalInfo == notes[o]
  }

  /** The notes of these results are those of before, sorted. */
  twostate predicate Resorted(infos: seq<Info>, new notes: Notes)
    reads set o | o in infos
  {
    forall o | o in infos :: o in notes && notes[o] == Sort(old(o.additionalInfo), Less)
  }

  /** All notes are sorted, but those of the failed tests that are in no other list. */
  method ClassifyAll(l: Lists) returns (positive: Split, negative: Split, ghost notes: Notes)
    modifies l.blocked, l.passed, l.na
    ensures CoversAll(notes, l) && positive == SplitOf(l, false, notes) && negative == SplitOf(l, true, notes)
    ensures Now(l.blocked, notes) && Now(l.passed, notes) && Now(l.na, notes) && Now(l.failed, notes)
    ensures Resorted(l.blocked, notes) && Resorted(l.passed, notes) && Resorted(l.na, notes)
  {
    hide HalfOf, Sort;
    ghost var sorted := l.blocked + l.passed + l.na;
    notes := map o | o in sorted + l.failed :: if o in sorted then Sort(o.additionalInfo, Less) else o.additionalInfo;
    forall o | o in sorted ensures Sort(notes[o], Less) == notes[o] {
      SortIdempotent(o.additionalInfo);
    }
    var bp, bn := Classify(l.blocked, true, notes);
    assert forall o | o in l.passed :: Sort(o.additionalInfo, Less) == notes[o];
    assert forall o | o in l.na :: Sort(o.additionalInfo, Less) == notes[o];
    var pp, pn := Classify(l.passed, true, notes);
    assert forall o | o in l.na :: Sort(o.additionalInfo, Less) == notes[o];
    var up, un := Classify(l.na, true, notes);
    assert forall o | o in l.failed :: o.additionalInfo == notes[o];
    var fp, fn := Classify(l.failed, false, notes);
    positive, negative := Split(bp, pp, up, fp), Split(bn, pn, un, fn);
  }

  /** Both polarities of the report. */
  method Summaries(counters: Counters, unresolved: map<string, map<string, int>>, positive: Split, negative: Split,
                   ghost l: Lists, ghost notes: Notes, ignoreUnresolved: bool, nonBlockedAsPassed: bool)
    returns (truePositive: TestsSummary, trueNegative: TestsSummary)
    requires CountsUnresolved(unresolved, Records(l.na), ignoreUnresolved, nonBlockedAsPassed)
    requires CoversAll(notes, l) && positive == SplitOf(l, false, notes) && negative == SplitOf(l, true, notes)
    ensures SummaryOf(truePositive, BookOf(counters, l), ignoreUnresolved, nonBlockedAsPassed, false)
    ensures SummaryOf(trueNegative, BookOf(counters, l), ignoreUnresolved, nonBlockedAsPassed, true)
    ensures Grouped(truePositive, l, notes, ignoreUnresolved, nonBlockedAsPassed, false)
    ensures Grouped(trueNegative, l, notes, ignoreUnresolved, nonBlockedAsPassed, true)
  {
    ghost var b := BookOf(counters, l);
    var positiveRows, positiveSums, negativeRows, negativeSums :=
      SummaryTables(counters, unresolved, b, ignoreUnresolved, nonBlockedAsPassed);
    var resolve := ignoreUnresolved || nonBlockedAsPassed;
    truePositive := Summarize(positiveRows, positiveSums, positive.blocked,
      if resolve then Both(positive.passed, positive.na) else positive.passed,
      if resolve then NoHalf else positive.na, positive.failed);
    trueNegative := Summarize(negativeRows, negativeSums,
      if resolve then Both(negative.blocked, negative.na) else negative.blocked,
      negative.passed, if resolve then NoHalf else negative.na, negative.failed);
    PositiveSummary(truePositive, l, counters, notes, ignoreUnresolved, nonBlockedAsPassed);
    NegativeSummary(trueNegative, l, counters, notes, ignoreUnresolved, nonBlockedAsPassed);
    SummaryFits(truePositive, b, ignoreUnresolved, nonBlockedAsPassed, false);
    SummaryFits(trueNegative, b, ignoreUnresolved, nonBlockedAsPassed, true);
  }

  method Assemble(counters: Counters, unresolved: map<string, map<string, int>>, positive: Split, negative: Split,
                  ghost l: Lists, ghost notes: Notes, paths: seq<Key>, hash: string,
                  grpc: bool, graphQL: bool, ignoreUnresolved: bool, nonBlockedAsPassed: bool)
    returns (s: Statistics)
    requires CountsUnresolved(unresolved, Records(l.na), ignoreUnresolved, nonBlockedAsPassed)
    requires CoversAll(notes, l) && positive == SplitOf(l, false, notes) && negative == SplitOf(l, true, notes)
    ensures Describes(s, BookOf(counters, l), ignoreUnresolved, nonBlockedAsPassed)
    ensures Grouped(s.truePositive, l, notes, ignoreUnresolved, nonBlockedAsPassed, false)
    ensures Grouped(s.trueNegative, l, notes, ignoreUnresolved, nonBlockedAsPassed, true)
    ensures s.paths == paths && s.testCasesFingerprint == hash
    ensures s.isGrpcAvailable == grpc && s.isGraphQLAvailable == graphQL
  {
    var p, n := Summaries(counters, unresolved, positive, negative, l, notes, ignoreUnresolved, nonBlockedAsPassed);
    var apiSec := CalculateScorePercentage(p.apiSecReqStats.blocked, p.apiSecReqStats.resolved,
                                           n.apiSecReqStats.bypassed, n.apiSecReqStats.resolved);
    var appSec := CalculateScorePercentage(p.appSecReqStats.blocked, p.appSecReqStats.resolved,
                                           n.appSecReqStats.bypassed, n.appSecReqStats.resolved);
    var average := CalculateOverall(apiSec, appSec);
    s := Statistics(grpc, graphQL, paths, hash, p, n, apiSec, appSec, average);
  }

  ghost predicate Assembled(t: TestsSummary, blocked: Half, bypassed: Half, unresolved: Half, failed: Half) {
    && t.apiSecReqStats == Totals(blocked.api, bypassed.api, unresolved.api, failed.api)
    && t.appSecReqStats == Totals(blocked.app, bypassed.app, unresolved.app, failed.app)
    && t.blocked == blocked.details && t.bypasses == bypassed.details
    && t.unresolved == unresolved.details && t.failed == failed.details
  }

  /** The part of `SummaryOf` that speaks of the lists. */
  ghost predicate ListsFit(t: TestsSummary, b: Book, iu: bool, nb: bool, fp: bool) {
    && t.apiSecReqStats == ListStats(b, iu, nb, fp, true)
    && t.appSecReqStats == ListStats(b, iu, nb, fp, false)
    && |t.blocked| == t.apiSecReqStats.blocked + t.appSecReqStats.blocked
    && |t.bypasses| == t.apiSecReqStats.bypassed + t.appSecReqStats.bypassed
    && |t.unresolved| == t.apiSecReqStats.unresolved + t.appSecReqStats.unresolved
    && |t.failed| == t.apiSecReqStats.failed + t.appSecReqStats.failed
  }

  lemma SummaryFits(t: TestsSummary, b: Book, iu: bool, nb: bool, fp: bool)
    requires IsTable(t.summaryTable, b, iu, nb, fp) && t.reqStats == SumRows(t.summaryTable)
    requires ListsFit(t, b, iu, nb, fp) && HasPercentages(t)
    ensures SummaryOf(t, b, iu, nb, fp)
  {
  }

  lemma PositiveSummary(t: TestsSummary, l: Lists, c: Counters, notes: Notes, iu: bool, nb: bool)
    requires CoversAll(notes, l)
    requires PositiveFrom(t, SplitOf(l, false, notes), iu || nb)
    ensures ListsFit(t, BookOf(c, l), iu, nb, false) && Grouped(t, l, notes, iu, nb, false)
  {
    HalfSizes(l, false, notes);
    hide CountIf, InGroup, Select, Shown, Records;
  }

  /** The unresolved results go to the bypasses when they are not to be shown. */
  ghost predicate PositiveFrom(t: TestsSummary, s: Split, resolve: bool) {
    Assembled(t, s.blocked, if resolve then Both(s.passed, s.na) else s.passed,
              if resolve then NoHalf else s.na, s.failed)
  }

  lemma NegativeSummary(t: TestsSummary, l: Lists, c: Counters, notes: Notes, iu: bool, nb: bool)
    requires CoversAll(notes, l)
    requires NegativeFrom(t, SplitOf(l, true, notes), iu || nb)
    ensures ListsFit(t, BookOf(c, l), iu, nb, true) && Grouped(t, l, notes, iu, nb, true)
  {
    HalfSizes(l, true, notes);
    hide CountIf, InGroup, Select, Shown, Records;
  }

  /** The unresolved results go to the blocked ones when they are not to be shown. */
  ghost predicate NegativeFrom(t: TestsSummary, s: Split, resolve: bool) {
    Assembled(t, if resolve then Both(s.blocked, s.na) else s.blocked, s.passed,
              if resolve then NoHalf else s.na, s.failed)
  }

  /** Every detail of a half is counted as API or as application. */
  lemma HalfSizes(l: Lists, fp: bool, notes: Notes)
    requires CoversAll(notes, l)
    ensures var s := SplitOf(l, fp, notes);
      && |s.blocked.details| == s.blocked.api + s.blocked.app && |s.passed.details| == s.passed.api + s.passed.app
      && |s.na.details| == s.na.api + s.na.app && |s.failed.details| == s.failed.api + s.failed.app
  {
    SelectSize(l.blocked, fp);
    SelectSize(l.passed, fp);
    SelectSize(l.na, fp);
    SelectSize(l.failed, fp);
    hide CountIf, InGroup, Select, Records;
  }
}
