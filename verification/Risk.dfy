/** Stockout risk: shortage ratios, quantile thresholds, severities, and the forecast metrics, over exact
    real numbers. */
module Risk {
  import opened Domain
  import opened Permutations

  datatype RiskInput = RiskInput(
    recordIndex: int, sku: string, warehouse: string,
    onHand: real, reserved: real, inbound: real, forecast: real, actual: real)

  datatype RiskSeverity = NoRisk | Low | Medium | High

  datatype RiskThresholds = RiskThresholds(lowToMedium: real, mediumToHigh: real)

  datatype RiskResult = RiskResult(
    input: RiskInput, available: real, projectedEnding: real, shortage: real, ratio: real, severity: RiskSeverity)

  function AtLeastZero(x: real): real {
    if x > 0.0 then x else 0.0
  }

  function Available(r: RiskInput): real {
    AtLeastZero(r.onHand - r.reserved)
  }

  function ProjectedEnding(r: RiskInput): real {
    Available(r) + r.inbound - r.forecast
  }

  function Shortage(r: RiskInput): real {
    AtLeastZero(-ProjectedEnding(r))
  }

  function ShortageRatio(r: RiskInput): real {
    if r.forecast > 0.0 then Shortage(r) / r.forecast else 0.0
  }

  function PositiveRatio(r: RiskInput): seq<real> {
    if ShortageRatio(r) > 0.0 then [ShortageRatio(r)] else []
  }

  function PositiveRatios(records: seq<RiskInput>): seq<real> {
    Collect(records, PositiveRatio)
  }

  // ---------------------------------------------------------------------- quantiles

  function Itself(x: real): real { x }

  function Sorted(s: seq<real>): seq<real> {
    SortBy(s, Itself)
  }

  /** The quantile num/den by linear interpolation between the two nearest order statistics. */
  function QuantileOfSorted(s: seq<real>, num: nat, den: nat): real
    requires |s| > 0 && 0 < num < den
  {
    var virtual := (|s| - 1) * num;
    var i := virtual / den;
    IndexInRange(|s| - 1, num, den);
    if i + 1 < |s| then s[i] + (s[i + 1] - s[i]) * ((virtual % den) as real / den as real) else s[i]
  }

  lemma IndexInRange(last: nat, num: nat, den: nat)
    requires 0 < num < den
    ensures 0 <= (last * num) / den <= last
  {
    var q := (last * num) / den;
    if q > last {
      MultiplyKeepsOrder(den, last + 1, q);
      MultiplyKeepsOrder(last, num, den);
      assert false;
    }
  }

  lemma MultiplyKeepsOrder(m: nat, a: int, b: int)
    requires a <= b
    ensures m * a <= m * b
  {
  }

  function Thresholds(records: seq<RiskInput>): RiskThresholds {
    var s := Sorted(PositiveRatios(records));
    if |s| == 0 then RiskThresholds(0.0, 0.0)
    else RiskThresholds(QuantileOfSorted(s, 1, 2), QuantileOfSorted(s, 4, 5))
  }

  /** The first condition that holds decides. */
  function Severity(ratio: real, t: RiskThresholds): RiskSeverity {
    if ratio == 0.0 then NoRisk
    else if ratio <= t.lowToMedium then Low
    else if ratio <= t.mediumToHigh then Medium
    else High
  }

  function ResultOf(r: RiskInput, t: RiskThresholds): RiskResult {
    RiskResult(r, Available(r), ProjectedEnding(r), Shortage(r), ShortageRatio(r), Severity(ShortageRatio(r), t))
  }

  function Results(records: seq<RiskInput>, t: RiskThresholds): seq<RiskResult> {
    Collect(records, r => [ResultOf(r, t)])
  }

  ghost predicate Increasing(s: seq<real>) {
    forall i, j :: 0 <= i < j < |s| ==> s[i] <= s[j]
  }

  lemma SortedSorts(s: seq<real>)
    ensures Increasing(Sorted(s)) && Ascending(Sorted(s), Itself) && multiset(Sorted(s)) == multiset(s)
  {
    SortBySorts(s, Itself);
    var sorted := Sorted(s);
    assert forall i, j :: 0 <= i < j < |sorted| ==> Itself(sorted[i]) <= Itself(sorted[j]);
  }

  // -------------------------------------------------------------------- permutation

  /** Thresholds and severities do not depend on the order of the records: a permuted input gives the same
      thresholds, hence the same result for every record. */
  lemma OrderDoesNotMatter(a: seq<RiskInput>, b: seq<RiskInput>)
    requires multiset(a) == multiset(b)
    ensures Thresholds(a) == Thresholds(b)
    ensures multiset(Results(a, Thresholds(a))) == multiset(Results(b, Thresholds(b)))
  {
    CollectPermutes(a, b, PositiveRatio);
    var p, q := PositiveRatios(a), PositiveRatios(b);
    SortedSorts(p);
    SortedSorts(q);
    SortedIsUnique(Sorted(p), Sorted(q), Itself);
    var t := Thresholds(a);
    CollectPermutes(a, b, r => [ResultOf(r, t)]);
  }

  // ----------------------------------------------------------------- quantile bounds

  /** A quantile lies between the order statistics around it. */
  lemma QuantileBetween(s: seq<real>, num: nat, den: nat)
    requires |s| > 0 && 0 < num < den && Increasing(s)
    ensures var i := ((|s| - 1) * num) / den;
            && 0 <= i < |s| && s[i] <= QuantileOfSorted(s, num, den)
            && (i + 1 < |s| ==> QuantileOfSorted(s, num, den) <= s[i + 1])
            && (i + 1 == |s| ==> QuantileOfSorted(s, num, den) == s[i])
  {
    IndexInRange(|s| - 1, num, den);
    var virtual := (|s| - 1) * num;
    var i := virtual / den;
    if i + 1 < |s| {
      assert s[i] <= s[i + 1];
      Interpolation(s[i + 1] - s[i], (virtual % den) as real, den as real);
    }
  }

  lemma Interpolation(gap: real, part: real, whole: real)
    requires gap >= 0.0 && 0.0 <= part < whole
    ensures 0.0 <= gap * (part / whole) <= gap
  {
    assert 0.0 <= part / whole <= 1.0;
  }

  lemma MedianBelowEighty(s: seq<real>)
    requires |s| > 0 && Increasing(s)
    ensures QuantileOfSorted(s, 1, 2) <= QuantileOfSorted(s, 4, 5)
  {
    QuantileBetween(s, 1, 2);
    QuantileBetween(s, 4, 5);
    var last := |s| - 1;
    var i, j := (last * 1) / 2, (last * 4) / 5;
    if i + 1 <= j {
      assert s[i + 1] <= s[j] || i + 1 == j;
    } else if last == 0 {
    } else if last == 1 {
      assert QuantileOfSorted(s, 1, 2) == s[0] + (s[1] - s[0]) * (1 as real / 2 as real);
      assert QuantileOfSorted(s, 4, 5) == s[0] + (s[1] - s[0]) * (4 as real / 5 as real);
      assert s[0] <= s[1];
    } else {
      SmallCase(s);
    }
  }

  /** The only other length at which both quantiles fall between the same two order statistics. */
  lemma SmallCase(s: seq<real>)
    requires |s| > 2 && Increasing(s) && ((|s| - 1) * 4) / 5 <= ((|s| - 1) * 1) / 2
    ensures |s| == 3
    ensures QuantileOfSorted(s, 1, 2) <= QuantileOfSorted(s, 4, 5)
  {
    assert s[1] <= s[2];
  }

  // ----------------------------------------------------------------- threshold values

  /** The thresholds of a run over its n positive ratios, in any sorted arrangement: the middle ratio, or the mean of
      the two middle ones, and the point four fifths of the way along the n - 1 gaps. */
  lemma ThresholdsExactly(records: seq<RiskInput>, s: seq<real>)
    requires Increasing(s) && multiset(s) == multiset(PositiveRatios(records))
    ensures var t, n := Thresholds(records), |s|;
            if n == 0 then t.lowToMedium == 0.0 && t.mediumToHigh == 0.0
            else
              var i, r := 4 * (n - 1) / 5, 4 * (n - 1) % 5;
              && t.lowToMedium == (if n % 2 == 1 then s[n / 2] else (s[n / 2 - 1] + s[n / 2]) / 2.0)
              && (r == 0 ==> t.mediumToHigh == s[i])
              && (r > 0 ==> i + 1 < n && t.mediumToHigh == s[i] + (s[i + 1] - s[i]) * (r as real / 5.0))
  {
    var p := PositiveRatios(records);
    SortedSorts(p);
    assert forall i, j :: 0 <= i < j < |s| ==> Itself(s[i]) <= Itself(s[j]);
    SortedIsUnique(Sorted(p), s, Itself);
    assert |s| == |multiset(s)| == |multiset(p)| == |p|;
    if |s| > 0 {
      MedianExactly(s);
      EightyExactly(s);
    }
  }

  lemma MedianExactly(s: seq<real>)
    requires |s| > 0
    ensures QuantileOfSorted(s, 1, 2) == if |s| % 2 == 1 then s[|s| / 2] else (s[|s| / 2 - 1] + s[|s| / 2]) / 2.0
  {
    if |s| % 2 == 0 {
      assert QuantileOfSorted(s, 1, 2) == s[|s| / 2 - 1] + (s[|s| / 2] - s[|s| / 2 - 1]) * (1 as real / 2 as real);
    } else {
      OnPoint(s, 1, 2);
    }
  }

  lemma EightyExactly(s: seq<real>)
    requires |s| > 0
    ensures var i, r := 4 * (|s| - 1) / 5, 4 * (|s| - 1) % 5;
            && 0 <= i < |s|
            && (r == 0 ==> QuantileOfSorted(s, 4, 5) == s[i])
            && (r > 0 ==> i + 1 < |s| && QuantileOfSorted(s, 4, 5) == s[i] + (s[i + 1] - s[i]) * (r as real / 5.0))
  {
    var i, r := 4 * (|s| - 1) / 5, 4 * (|s| - 1) % 5;
    assert (|s| - 1) * 4 == 4 * (|s| - 1);
    if r == 0 { OnPoint(s, 4, 5); }
  }

  /** A quantile without a remainder is an order statistic. */
  lemma OnPoint(s: seq<real>, num: nat, den: nat)
    requires |s| > 0 && 0 < num < den && ((|s| - 1) * num) % den == 0
    ensures 0 <= ((|s| - 1) * num) / den < |s| && QuantileOfSorted(s, num, den) == s[((|s| - 1) * num) / den]
  {
    IndexInRange(|s| - 1, num, den);
    var i := ((|s| - 1) * num) / den;
    if i + 1 < |s| { TimesNothing(s[i + 1] - s[i], den as real); }
  }

  lemma TimesNothing(gap: real, whole: real)
    requires whole > 0.0
    ensures gap * (0 as real / whole) == 0.0
  {
  }

  function BelowOf(t: real): real -> seq<real> {
    x => if x < t then [x] else []
  }

  /** How many values are strictly below `t`. */
  function CountBelow(s: seq<real>, t: real): nat {
    |Collect(s, BelowOf(t))|
  }

  lemma {:induction false} CountBelowBound(s: seq<real>, t: real, k: nat)
    requires forall i :: k <= i < |s| ==> s[i] >= t
    ensures CountBelow(s, t) <= k
  {
    if s != [] { CountBelowBound(s[..|s| - 1], t, if k < |s| then k else k - 1); }
  }

  /** No more values are strictly below a quantile than there are order statistics up to its lower neighbour, and
      not even that one if the quantile is it. */
  lemma QuantileBelow(p: seq<real>, num: nat, den: nat)
    requires |p| > 0 && 0 < num < den && |Sorted(p)| == |p|
    ensures var virtual := (|p| - 1) * num;
            CountBelow(p, QuantileOfSorted(Sorted(p), num, den)) <=
            virtual / den + (if virtual % den == 0 then 0 else 1)
  {
    var s := Sorted(p);
    SortedSorts(p);
    QuantileBetween(s, num, den);
    var virtual, q := (|s| - 1) * num, QuantileOfSorted(s, num, den);
    var i := virtual / den;
    SameCountBelow(p, s, q);
    if virtual % den == 0 {
      OnPoint(s, num, den);
      CountBelowBound(s, q, i);
    } else {
      CountBelowBound(s, q, i + 1);
    }
  }

  lemma SameCountBelow(p: seq<real>, s: seq<real>, q: real)
    requires multiset(p) == multiset(s)
    ensures CountBelow(p, q) == CountBelow(s, q)
  {
    CollectPermutes(p, s, BelowOf(q));
    assert |Collect(p, BelowOf(q))| == |multiset(Collect(p, BelowOf(q)))| == |Collect(s, BelowOf(q))|;
  }

  /** From below: at most half of the positive ratios, rounded down, lie under the first threshold, and at most four
      fifths of the n - 1 gaps, rounded up, under the second. */
  lemma ThresholdsFromBelow(records: seq<RiskInput>)
    ensures var p, t := PositiveRatios(records), Thresholds(records);
            && CountBelow(p, t.lowToMedium) <= |p| / 2
            && (|p| > 0 ==> CountBelow(p, t.mediumToHigh) <= (4 * (|p| - 1) + 4) / 5)
  {
    var p := PositiveRatios(records);
    SortedSorts(p);
    assert |Sorted(p)| == |multiset(Sorted(p))| == |multiset(p)| == |p|;
    if |p| > 0 {
      QuantileBelow(p, 1, 2);
      QuantileBelow(p, 4, 5);
    }
  }

  // ------------------------------------------------------------------ severity counts

  function CountAtMost(s: seq<real>, t: real): nat {
    if s == [] then 0 else CountAtMost(s[1..], t) + (if s[0] <= t then 1 else 0)
  }

  lemma CountAfterInsert(x: real, s: seq<real>, t: real)
    ensures CountAtMost(Insert(x, s, Itself), t) == CountAtMost(s, t) + (if x <= t then 1 else 0)
  {
    if s == [] || x <= s[0] {
      assert ([x] + s)[1..] == s;
    } else {
      CountAfterInsert(x, s[1..], t);
      assert ([s[0]] + Insert(x, s[1..], Itself))[1..] == Insert(x, s[1..], Itself);
    }
  }

  lemma {:induction false} CountAfterSort(s: seq<real>, t: real)
    ensures CountAtMost(Sorted(s), t) == CountAtMost(s, t)
  {
    if s != [] {
      CountAfterSort(s[1..], t);
      CountAfterInsert(s[0], Sorted(s[1..]), t);
    }
  }

  lemma {:induction false} PrefixCounts(s: seq<real>, k: nat, t: real)
    requires k <= |s| && forall i :: 0 <= i < k ==> s[i] <= t
    ensures k <= CountAtMost(s, t) <= |s|
  {
    if s != [] {
      PrefixCounts(s[1..], if k > 0 then k - 1 else 0, t);
    }
  }

  /** At least i + 1 of the values are at most a quantile whose lower order statistic has index i. */
  lemma QuantileCount(p: seq<real>, num: nat, den: nat)
    requires |p| > 0 && 0 < num < den && |Sorted(p)| == |p|
    ensures ((|p| - 1) * num) / den + 1 <= CountAtMost(p, QuantileOfSorted(Sorted(p), num, den)) <= |p|
  {
    var s := Sorted(p);
    SortedSorts(p);
    QuantileBetween(s, num, den);
    var i, q := ((|s| - 1) * num) / den, QuantileOfSorted(s, num, den);
    forall j | 0 <= j < i + 1 ensures s[j] <= q {
      assert s[j] <= s[i] || j == i;
    }
    PrefixCounts(s, i + 1, q);
    CountAfterSort(p, q);
  }

  function SeverityCount(results: seq<RiskResult>, severity: RiskSeverity): nat {
    if results == [] then 0
    else
      SeverityCount(results[..|results| - 1], severity) +
      (if results[|results| - 1].severity == severity then 1 else 0)
  }

  lemma {:induction false} CountOfSum(a: seq<real>, b: seq<real>, t: real)
    ensures CountAtMost(a + b, t) == CountAtMost(a, t) + CountAtMost(b, t)
  {
    if a == [] {
      assert a + b == b;
    } else {
      assert (a + b)[1..] == a[1..] + b;
      CountOfSum(a[1..], b, t);
    }
  }

  /** Ratios are never negative. */
  lemma RatioNonnegative(r: RiskInput)
    ensures ShortageRatio(r) >= 0.0
  {
    if r.forecast > 0.0 {
      DivisionNonnegative(Shortage(r), r.forecast);
    }
  }

  lemma DivisionNonnegative(a: real, b: real)
    requires a >= 0.0 && b > 0.0
    ensures a / b >= 0.0
  {
  }

  /** With ordered thresholds, LOW results are the positive ratios up to the first threshold and HIGH ones
      those above the second. */
  lemma {:induction false} SeveritiesCountRatios(records: seq<RiskInput>, t: RiskThresholds)
    requires t.lowToMedium <= t.mediumToHigh
    ensures SeverityCount(Results(records, t), Low) == CountAtMost(PositiveRatios(records), t.lowToMedium)
    ensures SeverityCount(Results(records, t), High) ==
            |PositiveRatios(records)| - CountAtMost(PositiveRatios(records), t.mediumToHigh)
  {
    if records != [] {
      var before, r := records[..|records| - 1], records[|records| - 1];
      SeveritiesCountRatios(before, t);
      RatioNonnegative(r);
      CountOfSum(PositiveRatios(before), PositiveRatio(r), t.lowToMedium);
      CountOfSum(PositiveRatios(before), PositiveRatio(r), t.mediumToHigh);
      assert Results(records, t)[..|records| - 1] == Results(before, t) by { ResultsAt(before, t); }
    }
  }

  lemma {:induction false} ResultsAt(records: seq<RiskInput>, t: RiskThresholds)
    ensures |Results(records, t)| == |records|
    ensures forall i :: 0 <= i < |records| ==> Results(records, t)[i] == ResultOf(records[i], t)
  {
    if records != [] { ResultsAt(records[..|records| - 1], t); }
  }

  /** The severity bounds: with n positive ratios, at least half of them, rounded up, are LOW, and at most
      ceil((n - 1) / 5) are HIGH. */
  lemma SeverityBounds(records: seq<RiskInput>)
    ensures var t, n := Thresholds(records), |PositiveRatios(records)|;
            && t.lowToMedium <= t.mediumToHigh
            && SeverityCount(Results(records, t), Low) >= (n + 1) / 2
            && SeverityCount(Results(records, t), High) <= (n + 3) / 5
  {
    var p, t := PositiveRatios(records), Thresholds(records);
    SortedSorts(p);
    assert |Sorted(p)| == |multiset(Sorted(p))| == |multiset(p)| == |p|;
    if |p| > 0 {
      MedianBelowEighty(Sorted(p));
      QuantileCount(p, 1, 2);
      QuantileCount(p, 4, 5);
    }
    SeveritiesCountRatios(records, t);
  }

  function Rank(s: RiskSeverity): int {
    match s
    case NoRisk => 0
    case Low => 1
    case Medium => 2
    case High => 3
  }

  /** Within one run, a larger shortage ratio never gets a lower severity. */
  lemma SeverityIsMonotone(records: seq<RiskInput>, x: RiskInput, y: RiskInput)
    requires ShortageRatio(x) <= ShortageRatio(y)
    ensures var t := Thresholds(records);
            Rank(Severity(ShortageRatio(x), t)) <= Rank(Severity(ShortageRatio(y), t))
  {
    SeverityBounds(records);
    RatioNonnegative(x);
  }

  /** A record carries no risk exactly when its forecast is not positive or what is available, together with
      what is inbound, covers it. */
  lemma NoRiskExactly(records: seq<RiskInput>, r: RiskInput)
    ensures Severity(ShortageRatio(r), Thresholds(records)) == NoRisk <==>
            r.forecast <= 0.0 || AtLeastZero(r.onHand - r.reserved) + r.inbound >= r.forecast
  {
    if r.forecast > 0.0 && Shortage(r) > 0.0 { QuotientPositive(Shortage(r), r.forecast); }
  }

  lemma QuotientPositive(a: real, b: real)
    requires a > 0.0 && b > 0.0
    ensures a / b > 0.0
  {
  }

  // ----------------------------------------------------------------- forecast metrics

  datatype ForecastMetrics = ForecastMetrics(meanAbsoluteError: real, meanSquaredError: real, bias: real, wape: real)

  function Abs(x: real): real {
    if x < 0.0 then -x else x
  }

  function Sum(s: seq<real>): real {
    if s == [] then 0.0 else Sum(s[..|s| - 1]) + s[|s| - 1]
  }

  function Errors(forecast: seq<real>, actual: seq<real>): seq<real>
    requires |forecast| == |actual|
  {
    seq(|forecast|, i requires 0 <= i < |forecast| => forecast[i] - actual[i])
  }

  function Absolutes(s: seq<real>): seq<real> {
    seq(|s|, i requires 0 <= i < |s| => Abs(s[i]))
  }

  function Square(x: real): real {
    x * x
  }

  function Squares(s: seq<real>): seq<real> {
    seq(|s|, i requires 0 <= i < |s| => Square(s[i]))
  }

  function Mean(s: seq<real>): real
    requires |s| > 0
  {
    Sum(s) / |s| as real
  }

  /** `Err` for arrays of different or zero length. */
  function CalculateForecastMetrics(forecast: seq<real>, actual: seq<real>): Result<ForecastMetrics, ServiceError> {
    if |forecast| != |actual| || |forecast| == 0 then Err(Invalid)
    else
      var errors := Errors(forecast, actual);
      var actualTotal := Sum(Absolutes(actual));
      Ok(ForecastMetrics(
           Mean(Absolutes(errors)), Mean(Squares(errors)), Mean(errors),
           if actualTotal > 0.0 then Sum(Absolutes(errors)) / actualTotal else 0.0))
  }

  lemma {:induction false} SumBounds(s: seq<real>)
    ensures Abs(Sum(s)) <= Sum(Absolutes(s))
  {
    if s != [] {
      SumBounds(s[..|s| - 1]);
      assert Absolutes(s)[..|s| - 1] == Absolutes(s[..|s| - 1]);
    }
  }

  /** The square of a sum of absolute values is at most their number times the sum of the squares. */
  lemma {:induction false} SquareOfSum(s: seq<real>)
    ensures Sum(Absolutes(s)) * Sum(Absolutes(s)) <= |s| as real * Sum(Squares(s))
  {
    if s != [] {
      var before, x := s[..|s| - 1], s[|s| - 1];
      SquareOfSum(before);
      assert Absolutes(s)[..|s| - 1] == Absolutes(before) && Squares(s)[..|s| - 1] == Squares(before);
      SquareStep(|before|, Sum(Absolutes(before)), Sum(Squares(before)), x);
    }
  }

  lemma SquareStep(m: nat, s: real, q: real, x: real)
    requires s * s <= m as real * q && (m == 0 ==> s == 0.0 && q == 0.0)
    ensures (s + Abs(x)) * (s + Abs(x)) <= (m + 1) as real * (q + Square(x))
  {
    assert Abs(x) * Abs(x) == Square(x);
    if m > 0 {
      OneMoreSquare(m as real, s, q, Abs(x));
    }
  }

  lemma OneMoreSquare(m: real, s: real, q: real, x: real)
    requires m >= 1.0 && s * s <= m * q
    ensures (s + x) * (s + x) <= (m + 1.0) * (q + x * x)
  {
    var d := s - m * x;
    assert 0.0 <= d * d;
    assert d * d == s * s - 2.0 * (m * s * x) + m * m * x * x;
    assert m * (2.0 * s * x) <= m * (q + m * x * x);
    CancelPositive(m, 2.0 * s * x, q + m * x * x);
    assert (s + x) * (s + x) == s * s + 2.0 * s * x + x * x;
    assert (m + 1.0) * (q + x * x) == m * q + q + m * x * x + x * x;
  }

  lemma ScalePositive(m: real, a: real, b: real)
    requires m > 0.0 && a > b
    ensures m * a > m * b
  {
  }

  lemma CancelPositive(m: real, a: real, b: real)
    requires m > 0.0 && m * a <= m * b
    ensures a <= b
  {
    if a > b { ScalePositive(m, a, b); }
  }

  function Magnitude(x: real): real {
    if x >= 0.0 then x else 0.0 - x
  }

  function Deviations(forecast: seq<real>, actual: seq<real>): seq<real>
    requires |forecast| == |actual|
  {
    seq(|forecast|, i requires 0 <= i < |forecast| => Magnitude(forecast[i] - actual[i]))
  }

  function SquaredDeviations(forecast: seq<real>, actual: seq<real>): seq<real>
    requires |forecast| == |actual|
  {
    seq(|forecast|, i requires 0 <= i < |forecast| => var e := forecast[i] - actual[i]; e * e)
  }

  function Demands(actual: seq<real>): seq<real> {
    seq(|actual|, i requires 0 <= i < |actual| => Magnitude(actual[i]))
  }

  /** What the metrics are: the difference of the totals, the total error and the total squared error, each divided by
      the number of values; and the total error divided by the total demand. */
  predicate Measures(m: ForecastMetrics, forecast: seq<real>, actual: seq<real>)
    requires |forecast| == |actual| > 0
  {
    var n, demand := |forecast| as real, Sum(Demands(actual));
    && m.bias == (Sum(forecast) - Sum(actual)) / n
    && m.meanAbsoluteError == Sum(Deviations(forecast, actual)) / n
    && m.meanSquaredError == Sum(SquaredDeviations(forecast, actual)) / n
    && m.wape == if demand > 0.0 then Sum(Deviations(forecast, actual)) / demand else 0.0
  }

  lemma {:induction false} SumOfErrors(forecast: seq<real>, actual: seq<real>)
    requires |forecast| == |actual|
    ensures Sum(Errors(forecast, actual)) == Sum(forecast) - Sum(actual)
  {
    if forecast != [] {
      var n := |forecast| - 1;
      SumOfErrors(forecast[..n], actual[..n]);
      assert Errors(forecast, actual)[..n] == Errors(forecast[..n], actual[..n]);
    }
  }

  lemma ErrorsDeviate(forecast: seq<real>, actual: seq<real>)
    requires |forecast| == |actual|
    ensures Absolutes(Errors(forecast, actual)) == Deviations(forecast, actual)
    ensures Squares(Errors(forecast, actual)) == SquaredDeviations(forecast, actual)
    ensures Absolutes(actual) == Demands(actual)
  {
    forall i | 0 <= i < |forecast|
      ensures Squares(Errors(forecast, actual))[i] == SquaredDeviations(forecast, actual)[i]
    {
      assert Squares(Errors(forecast, actual))[i] == Square(forecast[i] - actual[i]);
    }
  }

  lemma MetricsMeasure(forecast: seq<real>, actual: seq<real>)
    requires |forecast| == |actual| > 0
    ensures Measures(CalculateForecastMetrics(forecast, actual).value, forecast, actual)
  {
    ErrorsDeviate(forecast, actual);
    SumOfErrors(forecast, actual);
  }

  /** Arrays of different or zero length are refused, and nothing else is. */
  lemma MetricsExactly(forecast: seq<real>, actual: seq<real>)
    ensures CalculateForecastMetrics(forecast, actual).Ok? <==> |forecast| == |actual| > 0
    ensures CalculateForecastMetrics(forecast, actual).Err? ==>
              CalculateForecastMetrics(forecast, actual).error == Invalid
    ensures |forecast| == |actual| > 0 ==> Measures(CalculateForecastMetrics(forecast, actual).value, forecast, actual)
  {
    if |forecast| == |actual| > 0 { MetricsMeasure(forecast, actual); }
  }

  lemma QuotientTimes(a: real, b: real)
    requires b > 0.0
    ensures a / b * b == a
  {
  }

  /** The error metrics of any forecast: the bias is at most the mean absolute error, whose square is at most
      the mean squared error. */
  lemma MetricInequalities(forecast: seq<real>, actual: seq<real>)
    requires |forecast| == |actual| && |forecast| > 0
    ensures var m := CalculateForecastMetrics(forecast, actual).value;
            && Abs(m.bias) <= m.meanAbsoluteError
            && m.meanAbsoluteError * m.meanAbsoluteError <= m.meanSquaredError
  {
    var errors := Errors(forecast, actual);
    SumBounds(errors);
    SquareOfSum(errors);
    MeanInequalities(|forecast| as real, Sum(Absolutes(errors)), Sum(Squares(errors)), Sum(errors));
  }

  /** The mean absolute error, and hence the bias, is at most the root mean squared error: it is at most every
      number whose square is not below the mean squared error, and the root is the least of them. */
  lemma BelowRootMeanSquare(forecast: seq<real>, actual: seq<real>, root: real)
    requires |forecast| == |actual| && |forecast| > 0
    requires root >= 0.0 && root * root >= CalculateForecastMetrics(forecast, actual).value.meanSquaredError
    ensures var m := CalculateForecastMetrics(forecast, actual).value;
            Abs(m.bias) <= m.meanAbsoluteError <= root
  {
    MetricInequalities(forecast, actual);
    RootKeepsOrder(CalculateForecastMetrics(forecast, actual).value.meanAbsoluteError, root);
  }

  lemma RootKeepsOrder(a: real, b: real)
    requires b >= 0.0 && a * a <= b * b
    ensures a <= b
  {
    Distribute(a, b);
    if a > b { ScalePositive(a + b, a, b); }
  }

  lemma Distribute(a: real, b: real)
    ensures (a + b) * a == a * a + a * b && (a + b) * b == a * b + b * b
  {
  }

  lemma MeanInequalities(n: real, s: real, q: real, b: real)
    requires n > 0.0 && Abs(b) <= s && s * s <= n * q
    ensures Abs(b / n) <= s / n
    ensures (s / n) * (s / n) <= q / n
  {
    var x, y := s / n, q / n;
    assert x * n == s && y * n == q;
    assert n * (n * (x * x)) == s * s;
    assert n * (n * y) == n * q;
    CancelPositive(n, n * (x * x), n * y);
    CancelPositive(n, x * x, y);
    QuotientBound(n, b, s);
  }

  lemma QuotientBound(n: real, b: real, s: real)
    requires n > 0.0 && Abs(b) <= s
    ensures Abs(b / n) <= s / n
  {
    assert (b / n) * n == b && (s / n) * n == s;
    CancelPositive(n, b / n, s / n);
    CancelPositive(n, -(b / n), s / n);
  }

  /** A perfect forecast has zero everywhere. */
  lemma PerfectForecast(values: seq<real>)
    requires |values| > 0
    ensures CalculateForecastMetrics(values, values) == Ok(ForecastMetrics(0.0, 0.0, 0.0, 0.0))
  {
    var errors := Errors(values, values);
    ZeroSum(Absolutes(errors));
    ZeroSum(Squares(errors));
    ZeroSum(errors);
  }

  lemma {:induction false} ZeroSum(s: seq<real>)
    requires forall i :: 0 <= i < |s| ==> s[i] == 0.0
    ensures Sum(s) == 0.0
  {
    if s != [] { ZeroSum(s[..|s| - 1]); }
  }

  // ------------------------------------------------------------------- the whole run

  datatype RiskExecution = RiskExecution(results: seq<RiskResult>, metrics: ForecastMetrics, thresholds: RiskThresholds)

  /** `Err` for an empty list of records. */
  function CalculateStockoutRisks(records: seq<RiskInput>): Result<RiskExecution, ServiceError> {
    if records == [] then Err(Invalid)
    else
      match CalculateForecastMetrics(Map(records, (r: RiskInput) => r.forecast),
                                     Map(records, (r: RiskInput) => r.actual))
      case Err(e) => Err(e)
      case Ok(metrics) => Ok(RiskExecution(Results(records, Thresholds(records)), metrics, Thresholds(records)))
  }

  /** One result per record, in order: what is available, what will be left, what will be short and by which share of
      the forecast, and the severity that the thresholds give that share. */
  ghost predicate Follow(results: seq<RiskResult>, records: seq<RiskInput>, t: RiskThresholds) {
    && |results| == |records|
    && forall i :: 0 <= i < |records| ==> RowFollows(results[i], records[i], t)
  }

  ghost predicate RowFollows(x: RiskResult, r: RiskInput, t: RiskThresholds) {
    && x.input == r
    && (r.onHand >= r.reserved ==> x.available == r.onHand - r.reserved)
    && (r.onHand < r.reserved ==> x.available == 0.0)
    && x.projectedEnding == x.available + r.inbound - r.forecast
    && (x.projectedEnding >= 0.0 ==> x.shortage == 0.0)
    && (x.projectedEnding < 0.0 ==> x.shortage == r.forecast - x.available - r.inbound)
    && (r.forecast > 0.0 ==> x.ratio * r.forecast == x.shortage)
    && (r.forecast <= 0.0 ==> x.ratio == 0.0)
    && x.ratio >= 0.0
    && (x.severity == NoRisk <==> x.ratio == 0.0)
    && (x.severity == Low <==> 0.0 < x.ratio <= t.lowToMedium)
    && (x.severity == Medium <==> x.ratio > 0.0 && t.lowToMedium < x.ratio <= t.mediumToHigh)
    && (x.severity == High <==> x.ratio > 0.0 && t.mediumToHigh < x.ratio)
    && (x.severity == NoRisk <==> r.forecast <= 0.0 || x.available + r.inbound >= r.forecast)
  }

  /** A larger ratio never has a lower severity. */
  ghost predicate Monotone(results: seq<RiskResult>) {
    forall i, j :: 0 <= i < |results| && 0 <= j < |results| && results[i].ratio <= results[j].ratio ==>
      Rank(results[i].severity) <= Rank(results[j].severity)
  }

  lemma ResultsFollow(records: seq<RiskInput>)
    ensures Follow(Results(records, Thresholds(records)), records, Thresholds(records))
  {
    ResultsAt(records, Thresholds(records));
    SeverityBounds(records);
    forall i | 0 <= i < |records|
      ensures RowFollows(ResultOf(records[i], Thresholds(records)), records[i], Thresholds(records))
    {
      RowOfRun(records, records[i]);
    }
  }

  lemma RatioExactly(r: RiskInput)
    ensures ShortageRatio(r) >= 0.0 && (r.forecast <= 0.0 ==> ShortageRatio(r) == 0.0)
    ensures r.forecast > 0.0 ==> ShortageRatio(r) * r.forecast == Shortage(r)
  {
    RatioNonnegative(r);
    if r.forecast > 0.0 { QuotientTimes(Shortage(r), r.forecast); }
  }

  lemma SeverityRule(ratio: real, t: RiskThresholds)
    requires ratio >= 0.0 && t.lowToMedium <= t.mediumToHigh
    ensures Severity(ratio, t) == NoRisk <==> ratio == 0.0
    ensures Severity(ratio, t) == Low <==> 0.0 < ratio <= t.lowToMedium
    ensures Severity(ratio, t) == Medium <==> ratio > 0.0 && t.lowToMedium < ratio <= t.mediumToHigh
    ensures Severity(ratio, t) == High <==> ratio > 0.0 && t.mediumToHigh < ratio
  {
  }

  lemma RowOfRun(records: seq<RiskInput>, r: RiskInput)
    requires Thresholds(records).lowToMedium <= Thresholds(records).mediumToHigh
    ensures RowFollows(ResultOf(r, Thresholds(records)), r, Thresholds(records))
  {
    RatioExactly(r);
    SeverityRule(ShortageRatio(r), Thresholds(records));
    NoRiskExactly(records, r);
  }

  lemma ResultsMonotone(records: seq<RiskInput>)
    ensures Monotone(Results(records, Thresholds(records)))
  {
    var t := Thresholds(records);
    ResultsAt(records, t);
    forall i, j | 0 <= i < |records| && 0 <= j < |records| && ShortageRatio(records[i]) <= ShortageRatio(records[j])
      ensures Rank(Severity(ShortageRatio(records[i]), t)) <= Rank(Severity(ShortageRatio(records[j]), t))
    {
      SeverityIsMonotone(records, records[i], records[j]);
    }
  }

  /** Only an empty list is refused. Otherwise the results follow the records and the thresholds, severities rise with
      the ratios, the metrics measure the forecasts against the demands, and the bounds hold together. */
  lemma RiskRun(records: seq<RiskInput>)
    ensures CalculateStockoutRisks(records) == Err(Invalid) <==> records == []
    ensures CalculateStockoutRisks(records).Ok? <==> records != []
    ensures records != [] ==>
              var run, n := CalculateStockoutRisks(records).value, |PositiveRatios(records)|;
              && run.thresholds == Thresholds(records)
              && Follow(run.results, records, run.thresholds) && Monotone(run.results)
              && Measures(run.metrics, Map(records, (r: RiskInput) => r.forecast),
                          Map(records, (r: RiskInput) => r.actual))
              && SeverityCount(run.results, Low) >= (n + 1) / 2 && SeverityCount(run.results, High) <= (n + 3) / 5
              && Abs(run.metrics.bias) <= run.metrics.meanAbsoluteError
              && Square(run.metrics.meanAbsoluteError) <= run.metrics.meanSquaredError
  {
    if records != [] {
      ResultsFollow(records);
      ResultsMonotone(records);
      SeverityBounds(records);
      MetricInequalities(Map(records, (r: RiskInput) => r.forecast), Map(records, (r: RiskInput) => r.actual));
      MetricsExactly(Map(records, (r: RiskInput) => r.forecast), Map(records, (r: RiskInput) => r.actual));
    }
  }
}
