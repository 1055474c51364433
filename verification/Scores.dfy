/** Percentages and scores (`internal/db/helpers.go`, the end of `internal/db/statistics.go`),
    over exact reals. */
module Scores {

  /** `math.Round`: nearest integer, halves away from zero. */
  function RoundHalfAway(x: real): int {
    if x >= 0.0 then (x + 0.5).Floor else -((0.5 - x).Floor)
  }

  /** `Round`: two decimals. */
  function Round(n: real): real { RoundHalfAway(n * 100.0) as real / 100.0 }

  function CalculatePercentage(first: int, second: int): real {
    if second == 0 then 0.0 else Round(first as real / second as real * 100.0)
  }

  lemma RoundMonotone(x: real, y: real)
    requires x <= y
    ensures Round(x) <= Round(y)
  {
    assert x * 100.0 <= y * 100.0;
    assert RoundHalfAway(x * 100.0) <= RoundHalfAway(y * 100.0);
  }

  lemma RoundInRange(x: real)
    requires 0.0 <= x <= 100.0
    ensures 0.0 <= Round(x) <= 100.0
  {
    RoundMonotone(0.0, x);
    RoundMonotone(x, 100.0);
    assert RoundHalfAway(100.0 * 100.0) == 10000;
  }

  lemma QuotientMonotone(a: int, a': int, b: int)
    requires a <= a' && 0 < b
    ensures a as real / b as real * 100.0 <= a' as real / b as real * 100.0
  {
    assert a as real / b as real <= a' as real / b as real;
  }

  /** A part of a whole is a percentage in [0, 100] that grows with the part. */
  lemma PercentageRange(a: int, b: int)
    requires 0 <= a <= b
    ensures 0.0 <= CalculatePercentage(a, b) <= 100.0
  {
    if b != 0 {
      QuotientMonotone(0, a, b);
      QuotientMonotone(a, b, b);
      assert b as real / b as real == 1.0;
      RoundInRange(a as real / b as real * 100.0);
    }
  }

  lemma PercentageMonotone(a: int, a': int, b: int)
    requires 0 <= a <= a' <= b
    ensures CalculatePercentage(a, b) <= CalculatePercentage(a', b)
  {
    if b != 0 {
      QuotientMonotone(a, a', b);
      RoundMonotone(a as real / b as real * 100.0, a' as real / b as real * 100.0);
    }
  }

  /** The two resolved percentages land on a half of the second decimal. */
  predicate RoundingTie(a: int, n: int)
    requires n > 0
  {
    20000 * a % n == 0 && 20000 * a / n % 2 == 1
  }

  /** `10000 * a / n` rounded, in integers. */
  lemma PercentageInCents(a: int, n: int)
    requires 0 <= a && 0 < n
    ensures CalculatePercentage(a, n) == ((20000 * a + n) / (2 * n)) as real / 100.0
  {
    var x := a as real / n as real * 100.0 * 100.0;
    var q, m := 20000 * a + n, 2 * n;
    assert x + 0.5 == q as real / m as real by {
      assert x == (10000 * a) as real / n as real;
      assert (20000 * a + n) as real / (2 * n) as real
          == (20000 * a) as real / (2 * n) as real + n as real / (2 * n) as real;
      assert (20000 * a) as real / (2 * n) as real == (10000 * a) as real / n as real;
      assert n as real / (2 * n) as real == 0.5;
    }
    FloorOfQuotient(q, m);
    assert x >= 0.0;
  }

  lemma FloorOfQuotient(q: int, m: int)
    requires 0 <= q && 0 < m
    ensures (q as real / m as real).Floor == q / m
  {
    var k, r := q / m, q % m;
    assert q == k * m + r;
    assert q as real == k as real * m as real + r as real;
    assert q as real / m as real == k as real + r as real / m as real;
    assert 0.0 <= r as real / m as real < 1.0;
  }

  lemma DivUnique(q: int, m: int, k: int)
    requires 0 < m && k * m <= q < k * m + m
    ensures q / m == k
  {
    var d := q / m;
    assert d * m <= q < d * m + m;
    assert (k - d) * m < m && (d - k) * m < m;
    LessThanOne(k - d, m);
    LessThanOne(d - k, m);
  }

  lemma LessThanOne(x: int, m: int)
    requires 0 < m && x * m < m
    ensures x < 1
  {
  }

  lemma TieIffExact(a: int, n: int)
    requires 0 <= a && 0 < n
    ensures RoundingTie(a, n) <==> (20000 * a + n) % (2 * n) == 0
  {
    var c := 20000 * a;
    var m := 2 * n;
    if RoundingTie(a, n) {
      var h := c / n / 2;
      assert c == (2 * h + 1) * n;
      assert c + n == (h + 1) * m;
      DivUnique(c + n, m, h + 1);
    }
    if (c + n) % m == 0 {
      var k := (c + n) / m;
      assert c + n == k * m;
      assert c == (2 * k - 1) * n;
      DivUnique(c, n, 2 * k - 1);
    }
  }

  /** With something resolved, blocked% + bypassed% is 100, or 100.01 on a rounding tie. */
  lemma PercentagesComplement(a: int, b: int)
    requires 0 <= a && 0 <= b && 0 < a + b
    ensures CalculatePercentage(a, a + b) + CalculatePercentage(b, a + b)
         == if RoundingTie(a, a + b) then 100.01 else 100.0
  {
    var n := a + b;
    PercentageInCents(a, n);
    PercentageInCents(b, n);
    TieIffExact(a, n);
    CentsComplement(20000 * a + n, 20000 * b + n, 2 * n);
  }

  lemma CentsComplement(p: int, q: int, m: int)
    requires 0 < m && p + q == 10001 * m
    ensures p / m + q / m == if p % m == 0 then 10001 else 10000
  {
    var k, r := p / m, p % m;
    assert p == k * m + r;
    if r == 0 {
      assert q == (10001 - k) * m;
      DivUnique(q, m, 10001 - k);
    } else {
      assert q == (10000 - k) * m + (m - r);
      DivUnique(q, m, 10000 - k);
    }
  }

  // ----- Scores -----

  datatype Score = Score(truePositive: real, trueNegative: real, average: real)

  function Sum(xs: seq<real>): real {
    if xs == [] then 0.0 else Sum(xs[..|xs| - 1]) + xs[|xs| - 1]
  }

  /** The two-decimal mean, or the mark -1 for "nothing was measured". */
  function MeanOf(xs: seq<real>): real {
    if xs == [] then -1.0 else Mean(Sum(xs), |xs|)
  }

  function Mean(sum: real, n: nat): real
    requires n != 0
  {
    Round(sum / n as real)
  }

  function Measured(part: int, whole: int): seq<real> {
    if whole == 0 then [] else [CalculatePercentage(part, whole)]
  }

  /** What `calculateScorePercentage` computes: the mean of the polarities that have resolved
      requests, except that a scan that blocked no malicious request scores zero. */
  function ScoreOf(blocked: int, positives: int, bypassed: int, negatives: int): Score {
    var measured := Measured(blocked, positives) + Measured(bypassed, negatives);
    Score(
      if positives == 0 then -1.0 else CalculatePercentage(blocked, positives),
      if negatives == 0 then -1.0 else CalculatePercentage(bypassed, negatives),
      if measured != [] && blocked == 0 then 0.0 else MeanOf(measured))
  }

  function Scored(average: real): seq<real> {
    if average == -1.0 then [] else [average]
  }

  function OverallAverage(api: Score, app: Score): real {
    MeanOf(Scored(api.average) + Scored(app.average))
  }

  method CalculateScorePercentage(blocked: int, positives: int, bypassed: int, negatives: int) returns (s: Score)
    ensures s == ScoreOf(blocked, positives, bypassed, negatives)
  {
    hide Mean, CalculatePercentage;
    var divider: nat, sum := 0, 0.0;
    var truePositive := CalculatePercentage(blocked, positives);
    var trueNegative := CalculatePercentage(bypassed, negatives);
    if positives != 0 {
      divider, sum := divider + 1, sum + truePositive;
    } else {
      truePositive := -1.0;
    }
    if negatives != 0 {
      divider, sum := divider + 1, sum + trueNegative;
    } else {
      trueNegative := -1.0;
    }
    ghost var measured := Measured(blocked, positives) + Measured(bypassed, negatives);
    assert divider == |measured|;
    assert sum == Sum(measured) by { SumOfTwo(Measured(blocked, positives), Measured(bypassed, negatives)); }
    var average := -1.0;
    if divider != 0 {
      average := if blocked == 0 then 0.0 else Mean(sum, divider);
    }
    s := Score(truePositive, trueNegative, average);
  }

  method CalculateOverall(api: Score, app: Score) returns (average: real)
    ensures average == OverallAverage(api, app)
  {
    hide Mean;
    var divider: nat, sum := 0, 0.0;
    if api.average != -1.0 {
      divider, sum := divider + 1, sum + api.average;
    }
    if app.average != -1.0 {
      divider, sum := divider + 1, sum + app.average;
    }
    SumOfTwo(Scored(api.average), Scored(app.average));
    average := if divider != 0 then Mean(sum, divider) else -1.0;
  }

  lemma SumOfTwo(xs: seq<real>, ys: seq<real>)
    requires |xs| <= 1 && |ys| <= 1
    ensures Sum(xs + ys) == (if xs == [] then 0.0 else xs[0]) + (if ys == [] then 0.0 else ys[0])
  {
    if ys == [] {
      assert xs + ys == xs;
    } else {
      assert (xs + ys)[..|xs|] == xs;
    }
  }

  predicate InScale(x: real) { x == -1.0 || 0.0 <= x <= 100.0 }

  lemma MeanInRange(xs: seq<real>, ys: seq<real>)
    requires |xs| <= 1 && |ys| <= 1
    requires forall x | x in xs + ys :: 0.0 <= x <= 100.0
    ensures if xs + ys == [] then MeanOf(xs + ys) == -1.0 else 0.0 <= MeanOf(xs + ys) <= 100.0
  {
    SumOfTwo(xs, ys);
    if xs != [] { assert xs[0] in xs + ys; }
    if ys != [] { assert ys[0] in xs + ys; }
    if xs + ys != [] {
      RoundInRange(Sum(xs + ys) / |xs + ys| as real);
    }
  }

  lemma MeanMonotone(xs: seq<real>, ys: seq<real>, xs': seq<real>, ys': seq<real>)
    requires |xs| == |xs'| <= 1 && |ys| == |ys'| <= 1
    requires xs != [] ==> xs[0] <= xs'[0]
    requires ys != [] ==> ys[0] <= ys'[0]
    ensures MeanOf(xs + ys) <= MeanOf(xs' + ys')
  {
    SumOfTwo(xs, ys);
    SumOfTwo(xs', ys');
    if xs + ys != [] {
      var n := |xs + ys|;
      assert |xs' + ys'| == n && (n == 1 || n == 2);
      RoundMonotone(Sum(xs + ys) / n as real, Sum(xs' + ys') / n as real);
    }
  }

  predicate Parts(blocked: int, positives: int, bypassed: int, negatives: int) {
    0 <= blocked <= positives && 0 <= bypassed <= negatives
  }

  /** Every score is -1 or lies in [0, 100], and is -1 exactly when nothing was resolved. */
  lemma ScoreInScale(blocked: int, positives: int, bypassed: int, negatives: int)
    requires Parts(blocked, positives, bypassed, negatives)
    ensures var s := ScoreOf(blocked, positives, bypassed, negatives);
            && InScale(s.truePositive) && (s.truePositive == -1.0 <==> positives == 0)
            && InScale(s.trueNegative) && (s.trueNegative == -1.0 <==> negatives == 0)
            && InScale(s.average) && (s.average == -1.0 <==> positives == 0 && negatives == 0)
  {
    PercentageRange(blocked, positives);
    PercentageRange(bypassed, negatives);
    MeanInRange(Measured(blocked, positives), Measured(bypassed, negatives));
  }

  /** With the totals fixed, blocking more malicious requests never lowers a score. */
  lemma ScoreMonotone(blocked: int, blocked': int, positives: int, bypassed: int, negatives: int)
    requires Parts(blocked, positives, bypassed, negatives) && blocked <= blocked' <= positives
    ensures var s := ScoreOf(blocked, positives, bypassed, negatives);
            var s' := ScoreOf(blocked', positives, bypassed, negatives);
            s.truePositive <= s'.truePositive && s.trueNegative == s'.trueNegative && s.average <= s'.average
  {
    PercentageMonotone(blocked, blocked', positives);
    ScoreInScale(blocked', positives, bypassed, negatives);
    MeanMonotone(Measured(blocked, positives), Measured(bypassed, negatives),
                 Measured(blocked', positives), Measured(bypassed, negatives));
  }

  /** The overall average is -1 exactly when both halves measured nothing, and it is in scale. */
  lemma OverallInScale(api: Score, app: Score)
    requires InScale(api.average) && InScale(app.average)
    ensures InScale(OverallAverage(api, app))
    ensures OverallAverage(api, app) == -1.0 <==> api.average == -1.0 && app.average == -1.0
  {
    MeanInRange(Scored(api.average), Scored(app.average));
  }

  lemma OverallMonotone(api: Score, app: Score, api': Score, app': Score)
    requires InScale(api.average) && InScale(app.average) && InScale(api'.average) && InScale(app'.average)
    requires api.average == -1.0 <==> api'.average == -1.0
    requires app.average == -1.0 <==> app'.average == -1.0
    requires api.average <= api'.average && app.average <= app'.average
    ensures OverallAverage(api, app) <= OverallAverage(api', app')
  {
    MeanMonotone(Scored(api.average), Scored(app.average), Scored(api'.average), Scored(app'.average));
  }

  // ----- Scores in hundredths -----

  /** A share in hundredths of a percent, rounded half up. */
  function Cents(part: nat, whole: nat): (r: nat)
    requires 0 < whole
  {
    NotNegative(20000 * part + whole, 2 * whole);
    (20000 * part + whole) / (2 * whole)
  }

  lemma NotNegative(q: nat, m: nat)
    requires 0 < m
    ensures q / m >= 0
  {
  }

  /** It is the integer nearest to the share. */
  lemma CentsNearest(part: nat, whole: nat)
    requires 0 < whole
    ensures 0 - whole < 2 * whole * Cents(part, whole) - 20000 * part <= whole
  {
    var q, m := 20000 * part + whole, 2 * whole;
    assert q == q / m * m + q % m;
  }

  lemma HalfRounds(n: nat)
    ensures RoundHalfAway(n as real / 2.0) == (n + 1) / 2
  {
    assert n as real / 2.0 + 0.5 == (n + 1) as real / 2 as real;
    FloorOfQuotient(n + 1, 2);
  }

  lemma RoundCents(n: nat)
    ensures Round(n as real / 100.0) == n as real / 100.0
    ensures Round(n as real / 100.0 / 2.0) == ((n + 1) / 2) as real / 100.0
  {
    HalfRounds(n);
    HalfRounds(2 * n);
    hide RoundHalfAway;
    assert n as real / 100.0 * 100.0 == (2 * n) as real / 2.0;
    assert n as real / 100.0 / 2.0 * 100.0 == n as real / 2.0;
    assert (2 * n + 1) / 2 == n;
  }

  /** Two decimals, nearest to the number. */
  lemma RoundNearest(x: real)
    ensures Round(x) == RoundHalfAway(x * 100.0) as real / 100.0 && -0.5 <= 100.0 * (Round(x) - x) <= 0.5
  {
    var y := x * 100.0;
    assert -0.5 <= RoundHalfAway(y) as real - y <= 0.5;
  }

  lemma MeanOfOne(x: real)
    ensures MeanOf([x]) == Round(x)
  {
    assert [x][..0] == [] && Sum([x]) == x && x / 1.0 == x;
  }

  lemma MeanOfTwo(x: real, y: real)
    ensures MeanOf([x, y]) == Round((x + y) / 2.0)
  {
    assert [x] + [y] == [x, y];
    SumOfTwo([x], [y]);
  }

  /** The rates, and the score they give: nothing when nothing was resolved, zero when no malicious
      request was blocked, otherwise the mean of the rates that there are. */
  ghost predicate ScoreFits(s: Score, blocked: nat, positives: nat, bypassed: nat, negatives: nat) {
    && (0 < positives ==> s.truePositive == Cents(blocked, positives) as real / 100.0)
    && (0 < negatives ==> s.trueNegative == Cents(bypassed, negatives) as real / 100.0)
    && (positives == 0 ==> s.truePositive == -1.0) && (negatives == 0 ==> s.trueNegative == -1.0)
    && (positives == 0 && negatives == 0 ==> s.average == -1.0)
    && (0 < positives + negatives && blocked == 0 ==> s.average == 0.0)
    && (0 < blocked && 0 < positives && negatives == 0 ==> s.average == Cents(blocked, positives) as real / 100.0)
    && (0 < blocked && 0 < positives && 0 < negatives ==>
          s.average == ((Cents(blocked, positives) + Cents(bypassed, negatives) + 1) / 2) as real / 100.0)
  }

  lemma ScoreMeaning(blocked: nat, positives: nat, bypassed: nat, negatives: nat)
    requires Parts(blocked, positives, bypassed, negatives)
    ensures ScoreFits(ScoreOf(blocked, positives, bypassed, negatives), blocked, positives, bypassed, negatives)
  {
    var p := if positives > 0 then Cents(blocked, positives) else 0;
    var n := if negatives > 0 then Cents(bypassed, negatives) else 0;
    if positives > 0 {
      PercentageInCents(blocked, positives);
    }
    if negatives > 0 {
      PercentageInCents(bypassed, negatives);
    }
    hide Cents, CalculatePercentage, Round, MeanOf;
    if 0 < blocked && negatives == 0 {
      MeanOfOne(p as real / 100.0);
      RoundCents(p);
      assert Measured(blocked, positives) + Measured(bypassed, negatives) == [p as real / 100.0];
    }
    if 0 < blocked && 0 < negatives {
      MeanOfTwo(p as real / 100.0, n as real / 100.0);
      RoundCents(p + n);
      assert Measured(blocked, positives) + Measured(bypassed, negatives) == [p as real / 100.0, n as real / 100.0];
      assert p as real / 100.0 + n as real / 100.0 == (p + n) as real / 100.0;
    }
  }

  /** Averages are hundredths, so the overall average is the rounded mean of the halves that were
      measured. */
  lemma OverallMeaning(api: Score, app: Score, a: nat, b: nat)
    requires api.average == -1.0 || api.average == a as real / 100.0
    requires app.average == -1.0 || app.average == b as real / 100.0
    ensures OverallAverage(api, app) ==
      if api.average == -1.0 then app.average
      else if app.average == -1.0 then api.average
      else ((a + b + 1) / 2) as real / 100.0
  {
    hide MeanOf, Round;
    assert 0.0 <= a as real / 100.0 && 0.0 <= b as real / 100.0;
    if api.average == -1.0 && app.average == -1.0 {
      NothingMeasured();
      assert Scored(api.average) + Scored(app.average) == [];
    } else if api.average == -1.0 {
      assert Scored(api.average) + Scored(app.average) == [app.average];
      MeanOfOne(app.average);
      RoundCents(b);
    } else if app.average == -1.0 {
      assert Scored(api.average) + Scored(app.average) == [api.average];
      MeanOfOne(api.average);
      RoundCents(a);
    } else {
      assert Scored(api.average) + Scored(app.average) == [api.average, app.average];
      MeanOfTwo(api.average, app.average);
      RoundCents(a + b);
      assert api.average + app.average == (a + b) as real / 100.0;
    }
  }

  lemma NothingMeasured()
    ensures MeanOf([]) == -1.0
  {
  }
}
