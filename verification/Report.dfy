/** The roll-up of the summary rows by test set, and the totals, in the HTML report
    (`prepareHTMLFullReport` in `internal/report/html.go`). */
module Report {
  import opened Order
  import opened Ledger
  import opened Scores
  import opened Statistics

  /** What a `report.TestSetSummary` holds. */
  datatype SetSummary = SetSummary(
    testCases: seq<Row>, percentage: real,
    sent: int, blocked: int, bypassed: int, unresolved: int, failed: int, resolvedTestCases: nat)

  const NoCases := SetSummary([], 0.0, 0, 0, 0, 0, 0, 0)

  class TestSetSummary {
    var testCases: seq<Row>
    var percentage: real
    var sent: int
    var blocked: int
    var bypassed: int
    var unresolved: int
    var failed: int
    var resolvedTestCases: nat

    constructor ()
      ensures Value() == NoCases
    {
      testCases, percentage := [], 0.0;
      sent, blocked, bypassed, unresolved, failed, resolvedTestCases := 0, 0, 0, 0, 0, 0;
    }

    function Value(): SetSummary
      reads this
    {
      SetSummary(testCases, percentage, sent, blocked, bypassed, unresolved, failed, resolvedTestCases)
    }

    method Add(row: Row)
      modifies this
      ensures Value() == WithRow(old(Value()), row)
    {
      testCases := testCases + [row];
      sent := sent + row.sent;
      blocked := blocked + row.blocked;
      bypassed := bypassed + row.bypassed;
      unresolved := unresolved + row.unresolved;
      failed := failed + row.failed;
      if row.blocked + row.bypassed != 0 {
        resolvedTestCases := resolvedTestCases + 1;
        percentage := percentage + row.percentage;
      }
    }
  }

  predicate IsResolved(row: Row) { row.blocked + row.bypassed != 0 }

  function WithRow(s: SetSummary, row: Row): SetSummary {
    SetSummary(s.testCases + [row], if IsResolved(row) then s.percentage + row.percentage else s.percentage,
               s.sent + row.sent, s.blocked + row.blocked, s.bypassed + row.bypassed,
               s.unresolved + row.unresolved, s.failed + row.failed,
               if IsResolved(row) then s.resolvedTestCases + 1 else s.resolvedTestCases)
  }

  /** The summary of the rows of one set, before its percentage is averaged. */
  function Rolled(rows: seq<Row>, testSet: string): SetSummary {
    if rows == [] then NoCases
    else
      var before, row := Rolled(rows[..|rows| - 1], testSet), rows[|rows| - 1];
      if row.testSet == testSet then WithRow(before, row) else before
  }

  /** The mean over the resolved test cases; 0/0 is rounded to 0. */
  function Averaged(s: SetSummary): SetSummary {
    s.(percentage := if s.resolvedTestCases == 0 then 0.0 else Round(s.percentage / s.resolvedTestCases as real))
  }

  ghost predicate HasSet(rows: seq<Row>, testSet: string) {
    exists i | 0 <= i < |rows| :: rows[i].testSet == testSet
  }

  type Table = map<string, TestSetSummary>

  /** The objects of a table are its own: fresh, and one for each set. */
  ghost predicate Separate(table: Table) {
    forall s, t | s in table && t in table && table[s] == table[t] :: s == t
  }

  lemma RolledAppend(rows: seq<Row>, row: Row, testSet: string)
    ensures Rolled(rows + [row], testSet)
         == if row.testSet == testSet then WithRow(Rolled(rows, testSet), row) else Rolled(rows, testSet)
    ensures HasSet(rows + [row], testSet) <==> HasSet(rows, testSet) || row.testSet == testSet
  {
    var all := rows + [row];
    assert all[..|rows|] == rows && all[|rows|] == row;
    assert forall i | 0 <= i < |rows| :: all[i] == rows[i];
  }

  lemma {:induction false} NoSetNothing(rows: seq<Row>, testSet: string)
    requires !HasSet(rows, testSet)
    ensures Rolled(rows, testSet) == NoCases
  {
    if rows != [] {
      assert rows[|rows| - 1].testSet != testSet;
      assert !HasSet(rows[..|rows| - 1], testSet) by {
        assert forall i | 0 <= i < |rows| - 1 :: rows[..|rows| - 1][i] == rows[i];
      }
      NoSetNothing(rows[..|rows| - 1], testSet);
    }
  }

  /** The table of one polarity: an entry for each set of the rows, averaged. */
  method RollUp(rows: seq<Row>) returns (table: Table)
    ensures Separate(table) && forall s | s in table :: fresh(table[s])
    ensures forall s :: s in table <==> HasSet(rows, s)
    ensures forall s | s in table :: table[s].Value() == Averaged(Rolled(rows, s))
  {
    table := Accumulate(rows);
    var rest := table.Keys;
    while rest != {}
      invariant rest <= table.Keys
      invariant forall s | s in table ::
        table[s].Value() == if s in rest then Rolled(rows, s) else Averaged(Rolled(rows, s))
      decreases rest
    {
      var s :| s in rest;
      var o := table[s];
      o.percentage := if o.resolvedTestCases == 0 then 0.0 else Round(o.percentage / o.resolvedTestCases as real);
      rest := rest - {s};
    }
  }

  method Accumulate(rows: seq<Row>) returns (table: Table)
    ensures Separate(table) && forall s | s in table :: fresh(table[s])
    ensures forall s :: s in table <==> HasSet(rows, s)
    ensures forall s | s in table :: table[s].Value() == Rolled(rows, s)
  {
    table := map[];
    for i := 0 to |rows|
      invariant Separate(table) && forall s | s in table :: fresh(table[s])
      invariant forall s :: s in table <==> HasSet(rows[..i], s)
      invariant forall s | s in table :: table[s].Value() == Rolled(rows[..i], s)
    {
      var row := rows[i];
      assert rows[..i + 1] == rows[..i] + [row];
      forall s
        ensures Rolled(rows[..i + 1], s) ==
          if row.testSet == s then WithRow(Rolled(rows[..i], s), row) else Rolled(rows[..i], s)
        ensures HasSet(rows[..i + 1], s) <==> HasSet(rows[..i], s) || row.testSet == s
      {
        RolledAppend(rows[..i], row, s);
      }
      if row.testSet !in table {
        NoSetNothing(rows[..i], row.testSet);
        var o := new TestSetSummary();
        table := table[row.testSet := o];
      }
      table[row.testSet].Add(row);
    }
    assert rows[..|rows|] == rows;
  }

  // ----- The sets partition the rows -----

  /** Sent, blocked, bypassed, unresolved, failed. */
  datatype Numbers = Numbers(sent: int, blocked: int, bypassed: int, unresolved: int, failed: int)

  const Zero := Numbers(0, 0, 0, 0, 0)

  function Added(a: Numbers, b: Numbers): Numbers {
    Numbers(a.sent + b.sent, a.blocked + b.blocked, a.bypassed + b.bypassed,
            a.unresolved + b.unresolved, a.failed + b.failed)
  }

  function NumbersOf(s: SetSummary): Numbers { Numbers(s.sent, s.blocked, s.bypassed, s.unresolved, s.failed) }

  function RowNumbers(r: Row): Numbers { Numbers(r.sent, r.blocked, r.bypassed, r.unresolved, r.failed) }

  /** The numbers of the rows of one set, together. */
  function PartOf(rows: seq<Row>, testSet: string): Numbers {
    if rows == [] then Zero
    else
      var before, row := PartOf(rows[..|rows| - 1], testSet), rows[|rows| - 1];
      if row.testSet == testSet then Added(before, RowNumbers(row)) else before
  }

  /** These are the numbers in the summary of the set. */
  lemma {:induction false} SummaryNumbers(rows: seq<Row>, testSet: string)
    ensures NumbersOf(Rolled(rows, testSet)) == PartOf(rows, testSet)
    ensures NumbersOf(Averaged(Rolled(rows, testSet))) == PartOf(rows, testSet)
  {
    if rows != [] {
      SummaryNumbers(rows[..|rows| - 1], testSet);
    }
  }

  /** The numbers of some sets, together. */
  function OverSets(sets: seq<string>, rows: seq<Row>): Numbers {
    if sets == [] then Zero
    else Added(OverSets(sets[..|sets| - 1], rows), PartOf(rows, sets[|sets| - 1]))
  }

  /** The numbers of some rows, together. */
  function OverRows(rows: seq<Row>): Numbers {
    if rows == [] then Zero else Added(OverRows(rows[..|rows| - 1]), RowNumbers(rows[|rows| - 1]))
  }

  lemma {:induction false} OverSetsEmpty(sets: seq<string>)
    ensures OverSets(sets, []) == Zero
  {
    if sets != [] {
      OverSetsEmpty(sets[..|sets| - 1]);
    }
  }

  lemma PartAppend(rows: seq<Row>, row: Row, testSet: string)
    ensures PartOf(rows + [row], testSet)
         == if row.testSet == testSet then Added(PartOf(rows, testSet), RowNumbers(row)) else PartOf(rows, testSet)
  {
    assert (rows + [row])[..|rows|] == rows;
  }

  lemma {:induction false} OverSetsAppend(sets: seq<string>, rows: seq<Row>, row: Row)
    requires Distinct(sets)
    ensures OverSets(sets, rows + [row])
         == if row.testSet in sets then Added(OverSets(sets, rows), RowNumbers(row)) else OverSets(sets, rows)
  {
    if sets != [] {
      var n := |sets| - 1;
      OverSetsAppend(sets[..n], rows, row);
      PartAppend(rows, row, sets[n]);
      assert sets == sets[..n] + [sets[n]];
      assert row.testSet in sets[..n] ==> row.testSet != sets[n];
      hide PartOf, RowNumbers;
    }
  }

  /** Every row is counted in exactly one set, so the sets add up to the rows. */
  lemma {:induction false} SetsPartitionRows(sets: seq<string>, rows: seq<Row>)
    requires Distinct(sets) && forall i | 0 <= i < |rows| :: rows[i].testSet in sets
    ensures OverSets(sets, rows) == OverRows(rows)
  {
    if rows == [] {
      OverSetsEmpty(sets);
    } else {
      var n := |rows| - 1;
      SetsPartitionRows(sets, rows[..n]);
      OverSetsAppend(sets, rows[..n], rows[n]);
      assert rows == rows[..n] + [rows[n]];
      hide OverSets, RowNumbers, Added;
    }
  }

  // ----- Percentages -----

  lemma {:induction false} RolledInScale(rows: seq<Row>, testSet: string)
    requires RowsInScale(rows)
    ensures var s := Rolled(rows, testSet); 0.0 <= s.percentage <= 100.0 * s.resolvedTestCases as real
  {
    if rows != [] {
      var n := |rows| - 1;
      assert RowsInScale(rows[..n]) by {
        assert forall i | 0 <= i < n :: rows[..n][i] == rows[i];
      }
      RolledInScale(rows[..n], testSet);
      assert 0.0 <= rows[n].percentage <= 100.0;
    }
  }

  /** The percentage of a set is the rounded mean over its resolved test cases: in [0, 100]. */
  lemma SetPercentageInScale(rows: seq<Row>, testSet: string)
    requires RowsInScale(rows)
    ensures 0.0 <= Averaged(Rolled(rows, testSet)).percentage <= 100.0
  {
    var s := Rolled(rows, testSet);
    RolledInScale(rows, testSet);
    if s.resolvedTestCases > 0 {
      MeanOfScale(s.percentage, s.resolvedTestCases);
      RoundInRange(s.percentage / s.resolvedTestCases as real);
    }
  }

  /** The percentages of the resolved test cases of a set. */
  function ResolvedShares(rows: seq<Row>, testSet: string): seq<real> {
    if rows == [] then []
    else
      var row := rows[|rows| - 1];
      ResolvedShares(rows[..|rows| - 1], testSet)
        + if row.testSet == testSet && row.blocked + row.bypassed != 0 then [row.percentage] else []
  }

  lemma {:induction false} RolledShares(rows: seq<Row>, testSet: string)
    ensures var s, shares := Rolled(rows, testSet), ResolvedShares(rows, testSet);
      s.resolvedTestCases == |shares| && s.percentage == Sum(shares)
  {
    if rows != [] {
      var n := |rows| - 1;
      RolledShares(rows[..n], testSet);
      var before, row := ResolvedShares(rows[..n], testSet), rows[n];
      SumLast(before, row.percentage);
      assert before + [] == before;
      hide Sum;
    }
  }

  lemma SumLast(xs: seq<real>, x: real)
    ensures Sum(xs + [x]) == Sum(xs) + x
  {
    assert (xs + [x])[..|xs|] == xs;
  }

  /** The percentage of a set is the mean over its resolved test cases, to two decimals, and zero when there
      are none: no other number of two decimals is nearer. */
  lemma SetPercentageMeaning(rows: seq<Row>, testSet: string) returns (cents: int)
    ensures var shares, percentage := ResolvedShares(rows, testSet), Averaged(Rolled(rows, testSet)).percentage;
      && percentage == cents as real / 100.0
      && (shares == [] ==> cents == 0)
      && (shares != [] ==> -0.5 <= cents as real - 100.0 * (Sum(shares) / |shares| as real) <= 0.5)
  {
    RolledShares(rows, testSet);
    var shares := ResolvedShares(rows, testSet);
    if shares == [] {
      cents := 0;
    } else {
      var mean := Sum(shares) / |shares| as real;
      RoundNearest(mean);
      cents := RoundHalfAway(mean * 100.0);
    }
  }

  function InSet(testSet: string): Row -> bool { (row: Row) => row.testSet == testSet }

  /** The test cases of a set are its rows, in the order of the table. */
  lemma {:induction false} SetListsRows(rows: seq<Row>, testSet: string)
    ensures Rolled(rows, testSet).testCases == Filter(rows, InSet(testSet))
    ensures Averaged(Rolled(rows, testSet)).testCases == Filter(rows, InSet(testSet))
  {
    if rows != [] {
      SetListsRows(rows[..|rows| - 1], testSet);
    }
  }

  lemma MeanOfScale(x: real, n: nat)
    requires 0 < n && 0.0 <= x <= 100.0 * n as real
    ensures 0.0 <= x / n as real <= 100.0
  {
    var d := n as real;
    assert x / d <= 100.0 * d / d;
    assert 100.0 * d / d == 100.0;
  }

  // ----- The totals -----

  /** The numbers at the head of the report. */
  function TotalsOf(s: Statistics): Numbers {
    var p, n := s.truePositive.reqStats, s.trueNegative.reqStats;
    Numbers(p.all + n.all, p.blocked + n.blocked, p.bypassed + n.bypassed,
            p.unresolved + n.unresolved, p.failed + n.failed)
  }

  function StatsNumbers(r: RequestStats): Numbers { Numbers(r.all, r.blocked, r.bypassed, r.unresolved, r.failed) }

  ghost predicate RowsBalance(rows: seq<Row>) {
    forall i | 0 <= i < |rows| ::
      rows[i].sent == rows[i].blocked + rows[i].bypassed + rows[i].unresolved + rows[i].failed
  }

  lemma {:induction false} RowsAddUp(rows: seq<Row>)
    requires RowsBalance(rows)
    ensures OverRows(rows) == StatsNumbers(SumRows(rows))
  {
    if rows != [] {
      var n := |rows| - 1;
      assert RowsBalance(rows[..n]) by {
        assert forall i | 0 <= i < n :: rows[..n][i] == rows[i];
      }
      RowsAddUp(rows[..n]);
      assert rows[n].sent == rows[n].blocked + rows[n].bypassed + rows[n].unresolved + rows[n].failed;
    }
  }

  lemma TableBalances(rows: seq<Row>, b: Book, b0: Book, h: seq<Event>, iu: bool, nb: bool, fp: bool)
    requires Reached(b, b0, h) && IsTable(rows, b, iu, nb, fp)
    ensures RowsBalance(rows)
  {
    forall i | 0 <= i < |rows|
      ensures rows[i].sent == rows[i].blocked + rows[i].bypassed + rows[i].unresolved + rows[i].failed
    {
      RowMeaning(rows[i], b, b0, h, iu, nb);
    }
  }

  /** For every history of updates and every setting of the flags, the per-set numbers of both
      tables add up to the totals of the report, and the total sent is the number of updates. */
  lemma SetsAddUpToTotals(s: Statistics, b: Book, b0: Book, h: seq<Event>, iu: bool, nb: bool, ps: seq<string>,
                          ns: seq<string>)
    requires Reached(b, b0, h) && Describes(s, b, iu, nb)
    requires Distinct(ps) && ListsSets(s.truePositive.summaryTable, ps)
    requires Distinct(ns) && ListsSets(s.trueNegative.summaryTable, ns)
    ensures Added(OverSets(ps, s.truePositive.summaryTable), OverSets(ns, s.trueNegative.summaryTable)) == TotalsOf(s)
    ensures TotalsOf(s).sent == |h|
  {
    RequestsConserved(s, b, b0, h, iu, nb);
    TableAddsUp(s.truePositive, b, b0, h, iu, nb, false, ps);
    TableAddsUp(s.trueNegative, b, b0, h, iu, nb, true, ns);
    TotalsAdd(s);
    hide *;
  }

  lemma TotalsAdd(s: Statistics)
    ensures TotalsOf(s) == Added(StatsNumbers(s.truePositive.reqStats), StatsNumbers(s.trueNegative.reqStats))
    ensures TotalsOf(s).sent == s.truePositive.reqStats.all + s.trueNegative.reqStats.all
  {
  }

  ghost predicate ListsSets(rows: seq<Row>, sets: seq<string>) {
    forall i | 0 <= i < |rows| :: rows[i].testSet in sets
  }

  lemma TableAddsUp(t: TestsSummary, b: Book, b0: Book, h: seq<Event>, iu: bool, nb: bool, fp: bool, sets: seq<string>)
    requires Reached(b, b0, h) && SummaryOf(t, b, iu, nb, fp) && Distinct(sets) && ListsSets(t.summaryTable, sets)
    ensures OverSets(sets, t.summaryTable) == StatsNumbers(t.reqStats)
  {
    SetsPartitionRows(sets, t.summaryTable);
    TableBalances(t.summaryTable, b, b0, h, iu, nb, fp);
    RowsAddUp(t.summaryTable);
  }
}
