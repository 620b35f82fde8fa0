/**
 Averages over an indexer's daily data points, weighted by the number of data points of
 each day and computed in integers scaled by 10^9.
 */
module QosAggregate {
  import opened Arithmetic
  import opened Decimal
  import opened Options
  import opened Qos

  datatype Point = Point(
    dataPointCount: Option<string>,
    queryCount: Option<string>,
    latency: Option<string>,
    success: Option<string>,
    blocksBehind: Option<string>)

  datatype Metric = Latency | Success | BlocksBehind

  datatype Report = Report(
    latency: Option<string>,
    success: Option<string>,
    blocksBehind: Option<string>,
    queryCount: string,
    dataPointCount: string)

  function Reading(p: Point, m: Metric): Option<string> {
    match m
    case Latency => p.latency
    case Success => p.success
    case BlocksBehind => p.blocksBehind
  }

  /** Rows without a positive count carry no weight. */
  function Weight(p: Point): nat {
    var n := ParseBigInt(p.dataPointCount);
    if n <= 0 then 0 else n
  }

  predicate Counts(p: Point, m: Metric) {
    0 < Weight(p) && Reading(p, m).Some?
  }

  function Term(p: Point, m: Metric): int {
    if Counts(p, m) then ParseBigDecimalScaled(Reading(p, m)) * Weight(p) else 0
  }

  function SumOver(ps: seq<Point>, f: Point -> int): int {
    if ps == [] then 0 else SumOver(ps[..|ps| - 1], f) + f(ps[|ps| - 1])
  }

  function WeightSum(ps: seq<Point>): int { SumOver(ps, (p: Point) => Weight(p)) }

  function Weighted(ps: seq<Point>, m: Metric): int { SumOver(ps, (p: Point) => Term(p, m)) }

  function Readings(ps: seq<Point>, m: Metric): int { SumOver(ps, (p: Point) => if Counts(p, m) then 1 else 0) }

  function Queries(ps: seq<Point>): int { SumOver(ps, (p: Point) => ParseBigInt(p.queryCount)) }

  /** BigInt division: towards zero. */
  function TruncDiv(n: int, d: int): int
    requires 0 < d
  {
    if 0 <= n then n / d else -((-n) / d)
  }

  /** The scaled average of one metric, if any row carries it. */
  function Average(ps: seq<Point>, m: Metric): Option<int> {
    if 0 < Readings(ps, m) && 0 < WeightSum(ps) then Some(TruncDiv(Weighted(ps, m), WeightSum(ps))) else None
  }

  function Printed(a: Option<int>): Option<string> {
    match a case None => None case Some(x) => Some(FormatScaled(x))
  }

  function PrintInt(n: int): string {
    if n < 0 then "-" + PrintNat(-n) else PrintNat(n)
  }

  function ReportOf(ps: seq<Point>): Report {
    Report(
      Printed(Average(ps, Latency)), Printed(Average(ps, Success)), Printed(Average(ps, BlocksBehind)),
      PrintInt(Queries(ps)), PrintInt(WeightSum(ps)))
  }

  // ---------------------------------------------------------------------------
  // The report in terms of its rows
  // ---------------------------------------------------------------------------

  /** All data points: rows with a count that is not positive have none. */
  function Mass(ps: seq<Point>): int {
    SumOver(ps, (p: Point) => Max(0, ParseBigInt(p.dataPointCount)))
  }

  /** Every reading times the number of its data points. */
  function Moment(ps: seq<Point>, read: Point -> Option<string>): int {
    SumOver(ps, (p: Point) =>
      if read(p).Some? then Max(0, ParseBigInt(p.dataPointCount)) * ParseBigDecimalScaled(read(p)) else 0)
  }

  /** a is n / d, cut towards zero. */
  ghost predicate Cut(n: int, d: int, a: int) {
    if 0 <= n then 0 <= a && a * d <= n < (a + 1) * d else a <= 0 && (a - 1) * d < n <= a * d
  }

  /** Nothing without a weighted reading, otherwise the printed mean over the data points. */
  ghost predicate MeanIs(printed: Option<string>, ps: seq<Point>, read: Point -> Option<string>) {
    if exists p :: p in ps && 0 < ParseBigInt(p.dataPointCount) && read(p).Some?
    then 0 < Mass(ps) && exists a :: printed == Some(FormatScaled(a)) && Cut(Moment(ps, read), Mass(ps), a)
    else printed == None
  }

  /** The three means are of the metrics of the same name; both counts are sums over the rows. */
  ghost predicate ReportIs(ps: seq<Point>, r: Report) {
    && MeanIs(r.latency, ps, (p: Point) => p.latency)
    && MeanIs(r.success, ps, (p: Point) => p.success)
    && MeanIs(r.blocksBehind, ps, (p: Point) => p.blocksBehind)
    && ParseBigInt(Some(r.queryCount)) == SumOver(ps, (p: Point) => ParseBigInt(p.queryCount))
    && ParseBigInt(Some(r.dataPointCount)) == Mass(ps)
  }

  lemma {:induction false} SumSame(ps: seq<Point>, f: Point -> int, g: Point -> int)
    requires forall p :: p in ps ==> f(p) == g(p)
    ensures SumOver(ps, f) == SumOver(ps, g)
  {
    if ps != [] { SumSame(ps[..|ps| - 1], f, g); }
  }

  lemma {:induction false} ReadingsIff(ps: seq<Point>, m: Metric)
    ensures 0 <= Readings(ps, m)
    ensures 0 < Readings(ps, m) <==> exists p :: p in ps && Counts(p, m)
  {
    hide Counts;
    if ps != [] {
      var n := |ps| - 1;
      ReadingsIff(ps[..n], m);
      assert ps == ps[..n] + [ps[n]];
    }
  }

  lemma {:induction false} MassPositive(ps: seq<Point>)
    ensures 0 <= Mass(ps)
    ensures forall p :: p in ps && 0 < ParseBigInt(p.dataPointCount) ==> 0 < Mass(ps)
  {
    hide ParseBigInt;
    if ps != [] {
      var n := |ps| - 1;
      MassPositive(ps[..n]);
      assert ps == ps[..n] + [ps[n]];
    }
  }

  lemma CutIs(n: int, d: int)
    requires 0 < d
    ensures Cut(n, d, TruncDiv(n, d))
  {
    if 0 <= n {
      DivBounds(n, d);
      DivGalois(n, d, 0);
    } else {
      DivBounds(-n, d);
      DivGalois(-n, d, 0);
      var q := (-n) / d;
      assert -q * d == -(q * d) && (-q - 1) * d == -(q * d) - d && (q + 1) * d == q * d + d;
    }
  }

  lemma MetricIsMean(ps: seq<Point>, m: Metric, read: Point -> Option<string>)
    requires forall p :: read(p) == Reading(p, m)
    ensures MeanIs(Printed(Average(ps, m)), ps, read)
  {
    hide ParseBigInt, ParseBigDecimalScaled, FormatScaled, TruncDiv, Cut, SumOver;
    ReadingsIff(ps, m);
    MassPositive(ps);
    SumSame(ps, (p: Point) => Weight(p), (p: Point) => Max(0, ParseBigInt(p.dataPointCount)));
    SumSame(ps, (p: Point) => Term(p, m), (p: Point) =>
      if read(p).Some? then Max(0, ParseBigInt(p.dataPointCount)) * ParseBigDecimalScaled(read(p)) else 0);
    assert WeightSum(ps) == Mass(ps) && Weighted(ps, m) == Moment(ps, read);
    if 0 < Readings(ps, m) { CutIs(Moment(ps, read), Mass(ps)); }
  }

  lemma PrintedIntReads(n: int)
    ensures ParseBigInt(Some(PrintInt(n))) == n
  {
    hide ParseBigInt, PrintNat, ParseNat;
    var k := if n < 0 then -n else n;
    PrintNatCanonical(k);
    CountIsInteger(PrintNat(k), []);
  }

  lemma ReportIsMean(ps: seq<Point>)
    ensures ReportIs(ps, ReportOf(ps))
  {
    hide ParseBigInt, MeanIs, Average, Printed, PrintInt, SumOver;
    MetricIsMean(ps, Latency, (p: Point) => p.latency);
    MetricIsMean(ps, Success, (p: Point) => p.success);
    MetricIsMean(ps, BlocksBehind, (p: Point) => p.blocksBehind);
    PrintedIntReads(Queries(ps));
    PrintedIntReads(WeightSum(ps));
    SumSame(ps, (p: Point) => Weight(p), (p: Point) => Max(0, ParseBigInt(p.dataPointCount)));
  }

  method AggregateIndexerQoS(raw: seq<Point>) returns (r: Report)
    ensures r == ReportOf(raw) && ReportIs(raw, r)
  {
    ReportIsMean(raw);
    hide ParseBigInt, ParseBigDecimalScaled, FormatScaled, PrintInt, TruncDiv;
    var weightSum, latencyNum, successNum, blocksNum, queryCountSum := 0, 0, 0, 0, 0;
    var hasLatency, hasSuccess, hasBlocks := false, false, false;
    for i := 0 to |raw|
      invariant weightSum == WeightSum(raw[..i]) && queryCountSum == Queries(raw[..i])
      invariant latencyNum == Weighted(raw[..i], Latency) && (hasLatency <==> 0 < Readings(raw[..i], Latency))
      invariant successNum == Weighted(raw[..i], Success) && (hasSuccess <==> 0 < Readings(raw[..i], Success))
      invariant blocksNum == Weighted(raw[..i], BlocksBehind) && (hasBlocks <==> 0 < Readings(raw[..i], BlocksBehind))
    {
      var p := raw[i];
      RowStep(raw, i, Latency);
      RowStep(raw, i, Success);
      RowStep(raw, i, BlocksBehind);
      queryCountSum := queryCountSum + ParseBigInt(p.queryCount);
      var dpc := ParseBigInt(p.dataPointCount);
      if dpc <= 0 { continue; }
      weightSum := weightSum + dpc;
      if p.latency.Some? {
        latencyNum, hasLatency := latencyNum + ParseBigDecimalScaled(p.latency) * dpc, true;
      }
      if p.success.Some? {
        successNum, hasSuccess := successNum + ParseBigDecimalScaled(p.success) * dpc, true;
      }
      if p.blocksBehind.Some? {
        blocksNum, hasBlocks := blocksNum + ParseBigDecimalScaled(p.blocksBehind) * dpc, true;
      }
    }
    assert raw[..|raw|] == raw;
    var latency := if hasLatency && weightSum > 0 then Some(FormatScaled(TruncDiv(latencyNum, weightSum))) else None;
    var success := if hasSuccess && weightSum > 0 then Some(FormatScaled(TruncDiv(successNum, weightSum))) else None;
    var blocks := if hasBlocks && weightSum > 0 then Some(FormatScaled(TruncDiv(blocksNum, weightSum))) else None;
    r := Report(latency, success, blocks, PrintInt(queryCountSum), PrintInt(weightSum));
  }

  lemma RowStep(ps: seq<Point>, i: nat, m: Metric)
    requires i < |ps|
    ensures Weighted(ps[..i + 1], m) == Weighted(ps[..i], m) + Term(ps[i], m)
    ensures Readings(ps[..i + 1], m) == Readings(ps[..i], m) + if Counts(ps[i], m) then 1 else 0
    ensures WeightSum(ps[..i + 1]) == WeightSum(ps[..i]) + Weight(ps[i])
    ensures Queries(ps[..i + 1]) == Queries(ps[..i]) + ParseBigInt(ps[i].queryCount)
    ensures 0 <= Readings(ps[..i], m)
  {
    assert ps[..i + 1][..i] == ps[..i];
    ReadingsIff(ps[..i], m);
  }

  // ---------------------------------------------------------------------------
  // The averages
  // ---------------------------------------------------------------------------

  /** Every reading that counts is between lo and hi. */
  ghost predicate ReadingsBetween(ps: seq<Point>, m: Metric, lo: int, hi: int) {
    forall p :: p in ps && Counts(p, m) ==> lo <= ParseBigDecimalScaled(Reading(p, m)) <= hi
  }

  /** No weighted row lacks the metric. */
  ghost predicate AllCarry(ps: seq<Point>, m: Metric) {
    forall p :: p in ps && 0 < Weight(p) ==> Reading(p, m).Some?
  }

  lemma {:induction false} WeightedBounds(ps: seq<Point>, m: Metric, lo: int, hi: int)
    requires ReadingsBetween(ps, m, lo, hi)
    requires AllCarry(ps, m) || lo <= 0 <= hi
    ensures 0 <= WeightSum(ps)
    ensures lo * WeightSum(ps) <= Weighted(ps, m) <= hi * WeightSum(ps)
  {
    hide ParseBigInt, ParseBigDecimalScaled, Weight, Term;
    if ps != [] {
      var n := |ps| - 1;
      var p := ps[n];
      assert ps == ps[..n] + [p];
      WeightedBounds(ps[..n], m, lo, hi);
      TermBounds(p, m, lo, hi);
      MulDistributesInt(lo, WeightSum(ps[..n]), Weight(p));
      MulDistributesInt(hi, WeightSum(ps[..n]), Weight(p));
    }
  }

  lemma MulDistributesInt(a: int, b: int, c: int)
    ensures a * (b + c) == a * b + a * c
  {
  }

  lemma TermBounds(p: Point, m: Metric, lo: int, hi: int)
    requires ReadingsBetween([p], m, lo, hi)
    requires AllCarry([p], m) || lo <= 0 <= hi
    ensures lo * Weight(p) <= Term(p, m) <= hi * Weight(p)
  {
    hide ParseBigInt, ParseBigDecimalScaled;
    assert p in [p];
    if Counts(p, m) {
      MulMono(ParseBigDecimalScaled(Reading(p, m)), hi, Weight(p));
      MulMono(lo, ParseBigDecimalScaled(Reading(p, m)), Weight(p));
    } else if Weight(p) > 0 {
      MulMono(0, hi, Weight(p));
      MulMono(lo, 0, Weight(p));
    }
  }

  lemma TruncDivBounds(n: int, d: int, lo: int, hi: int)
    requires 0 < d && lo * d <= n <= hi * d
    ensures lo <= TruncDiv(n, d) <= hi
  {
    if 0 <= n {
      DivGalois(n, d, lo);
      DivGalois(n, d, hi + 1);
      assert (hi + 1) * d == hi * d + d;
    } else {
      DivGalois(-n, d, -hi);
      DivGalois(-n, d, -lo + 1);
      assert (-hi) * d == -(hi * d);
      assert (-lo + 1) * d == -(lo * d) + d;
    }
  }

  /**
   An average lies between any bounds on the readings that count, of either sign, when
   every weighted row carries the metric. A weighted row without it counts as a reading
   of 0, so then 0 has to lie between the bounds too.
   */
  lemma AverageBounds(ps: seq<Point>, m: Metric, lo: int, hi: int)
    requires ReadingsBetween(ps, m, lo, hi) && Average(ps, m).Some?
    requires AllCarry(ps, m) || lo <= 0 <= hi
    ensures lo <= Average(ps, m).value <= hi
  {
    hide ParseBigInt, ParseBigDecimalScaled, TruncDiv;
    WeightedBounds(ps, m, lo, hi);
    TruncDivBounds(Weighted(ps, m), WeightSum(ps), lo, hi);
  }

  /** One weighted row without the metric pulls the average below the only reading there is. */
  lemma MissingReadingDilutes(p: Point, q: Point, m: Metric)
    requires Counts(p, m) && 0 < ParseBigDecimalScaled(Reading(p, m))
    requires 0 < Weight(q) && Reading(q, m).None?
    ensures Average([p, q], m).Some? && Average([p, q], m).value < ParseBigDecimalScaled(Reading(p, m))
  {
    hide ParseBigInt, ParseBigDecimalScaled, Weight;
    var x, w, v := ParseBigDecimalScaled(Reading(p, m)), Weight(p), Weight(q);
    RowStep([p, q], 0, m);
    RowStep([p, q], 1, m);
    assert [p, q][..2] == [p, q] && [p, q][..0] == [];
    assert Weighted([p, q], m) == x * w;
    assert 0 <= x * w by { MulMono(0, x, w); }
    MulDistributesInt(x, w, v);
    MulMono(1, x, v);
    DivGalois(x * w, w + v, x);
  }

  /** The printed average reads back as itself. */
  lemma AverageReadsBack(ps: seq<Point>, m: Metric, hi: int)
    requires 0 <= hi && ReadingsBetween(ps, m, 0, hi) && Average(ps, m).Some?
    ensures ParseBigDecimalScaled(Printed(Average(ps, m))) == Average(ps, m).value
  {
    AverageBounds(ps, m, 0, hi);
    ScaledRoundTripIff(Average(ps, m).value);
  }

  lemma {:induction false} SumConcat(x: seq<Point>, y: seq<Point>, f: Point -> int)
    ensures SumOver(x + y, f) == SumOver(x, f) + SumOver(y, f)
  {
    if y == [] {
      assert x + y == x;
    } else {
      assert (x + y)[..|x + y| - 1] == x + y[..|y| - 1];
      SumConcat(x, y[..|y| - 1], f);
    }
  }

  /** Moving one element out of the middle. */
  lemma SumWithout(before: seq<Point>, p: Point, after: seq<Point>, f: Point -> int)
    ensures SumOver(before + [p] + after, f) == SumOver(before + after, f) + f(p)
  {
    SumConcat(before + [p], after, f);
    SumConcat(before, after, f);
    assert (before + [p])[..|before|] == before;
  }

  lemma MultisetWithout(before: seq<Point>, p: Point, after: seq<Point>)
    ensures multiset(before + [p] + after) == multiset(before + after) + multiset{p}
  {
  }

  /** Only the data points count: a day of n + m of them is as good as two days of n and of m. */
  lemma SplitDay(before: seq<Point>, after: seq<Point>, day: Point, first: Point, second: Point)
    requires 0 < ParseBigInt(first.dataPointCount) && 0 < ParseBigInt(second.dataPointCount)
    requires ParseBigInt(day.dataPointCount) == ParseBigInt(first.dataPointCount) + ParseBigInt(second.dataPointCount)
    requires ParseBigInt(day.queryCount) == ParseBigInt(first.queryCount) + ParseBigInt(second.queryCount)
    requires first == day.(dataPointCount := first.dataPointCount, queryCount := first.queryCount)
    requires second == day.(dataPointCount := second.dataPointCount, queryCount := second.queryCount)
    ensures ReportOf(before + [day] + after) == ReportOf(before + [first, second] + after)
  {
    hide ParseBigInt, ParseBigDecimalScaled, FormatScaled, PrintInt, TruncDiv, SumOver;
    var x, y := before + [day] + after, before + [first, second] + after;
    SplitSum(before, after, day, first, second, (p: Point) => Weight(p));
    SplitSum(before, after, day, first, second, (p: Point) => ParseBigInt(p.queryCount));
    forall m: Metric ensures Average(x, m) == Average(y, m) {
      hide Weight;
      ReadingsIff(x, m);
      ReadingsIff(y, m);
      SplitTerm(day, first, second, m);
      SplitSum(before, after, day, first, second, (p: Point) => Term(p, m));
      assert forall p :: p in x <==> p in before || p == day || p in after;
      assert forall p :: p in y <==> p in before || p == first || p == second || p in after;
    }
  }

  lemma SplitTerm(day: Point, first: Point, second: Point, m: Metric)
    requires 0 < ParseBigInt(first.dataPointCount) && 0 < ParseBigInt(second.dataPointCount)
    requires ParseBigInt(day.dataPointCount) == ParseBigInt(first.dataPointCount) + ParseBigInt(second.dataPointCount)
    requires Reading(first, m) == Reading(second, m) == Reading(day, m)
    ensures Term(day, m) == Term(first, m) + Term(second, m)
    ensures Counts(day, m) == Counts(first, m) == Counts(second, m)
  {
    hide ParseBigInt, ParseBigDecimalScaled;
    MulDistributesInt(ParseBigDecimalScaled(Reading(day, m)), Weight(first), Weight(second));
  }

  lemma SplitSum(before: seq<Point>, after: seq<Point>, day: Point, first: Point, second: Point, f: Point -> int)
    requires f(day) == f(first) + f(second)
    ensures SumOver(before + [day] + after, f) == SumOver(before + [first, second] + after, f)
  {
    SumWithout(before, day, after, f);
    SumWithout(before + [first], second, after, f);
    SumWithout(before, first, after, f);
    assert before + [first, second] + after == before + [first] + [second] + after;
  }

  lemma Cancels(x: multiset<Point>, y: multiset<Point>, p: Point)
    requires x + multiset{p} == y + multiset{p}
    ensures x == y
  {
    assert x == (x + multiset{p}) - multiset{p};
    assert y == (y + multiset{p}) - multiset{p};
  }

  /** Where the last element of x sits in a rearrangement of x. */
  lemma Rearranged(x: seq<Point>, y: seq<Point>) returns (before: seq<Point>, after: seq<Point>)
    requires multiset(x) == multiset(y) && x != []
    ensures y == before + [x[|x| - 1]] + after
    ensures multiset(x[..|x| - 1]) == multiset(before + after)
  {
    var n := |x| - 1;
    var p := x[n];
    assert x == x[..n] + [p];
    assert p in multiset(y);
    var k :| 0 <= k < |y| && y[k] == p;
    before, after := y[..k], y[k + 1..];
    assert y == before + [p] + after;
    MultisetWithout(before, p, after);
    MultisetWithout(x[..n], p, []);
    assert x == x[..n] + [p] + [] && x[..n] + [] == x[..n];
    Cancels(multiset(x[..n]), multiset(before + after), p);
  }

  lemma {:induction false} SumPermutes(x: seq<Point>, y: seq<Point>, f: Point -> int)
    requires multiset(x) == multiset(y)
    ensures SumOver(x, f) == SumOver(y, f)
  {
    if x == [] {
      assert |multiset(x)| == 0;
    } else {
      var before, after := Rearranged(x, y);
      SumWithout(before, x[|x| - 1], after, f);
      SumPermutes(x[..|x| - 1], before + after, f);
    }
  }

  /** The report does not depend on the order of the rows. */
  lemma ReportPermutes(x: seq<Point>, y: seq<Point>)
    requires multiset(x) == multiset(y)
    ensures ReportOf(x) == ReportOf(y)
  {
    hide SumOver, ParseBigInt, ParseBigDecimalScaled, FormatScaled, PrintInt, TruncDiv, Term, Counts, Weight;
    SumPermutes(x, y, (p: Point) => Weight(p));
    SumPermutes(x, y, (p: Point) => ParseBigInt(p.queryCount));
    MetricPermutes(x, y, Latency);
    MetricPermutes(x, y, Success);
    MetricPermutes(x, y, BlocksBehind);
  }

  lemma MetricPermutes(x: seq<Point>, y: seq<Point>, m: Metric)
    requires multiset(x) == multiset(y)
    ensures Weighted(x, m) == Weighted(y, m) && Readings(x, m) == Readings(y, m)
  {
    hide SumOver;
    SumPermutes(x, y, (p: Point) => Term(p, m));
    SumPermutes(x, y, (p: Point) => if Counts(p, m) then 1 else 0);
  }
}
