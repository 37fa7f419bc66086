/** The pure helpers of the KPI panel: `sum`, `average`, the per-operator series
    selection, the "teli" scaling and the `all` aggregation of the mock data.
    Numbers are modelled as `real` (exact), not as IEEE doubles. */
module Kpi {

  /** `values.reduce((acc, v) => acc + v, 0)`: the left fold of + from 0. */
  function Sum(xs: seq<real>): (r: real)
    decreases |xs|
  {
    if xs == [] then 0.0 else Sum(xs[..|xs| - 1]) + xs[|xs| - 1]
  }

  /** A series of non-negative values has a non-negative total. */
  lemma {:induction false} SumNonNegative(xs: seq<real>)
    requires forall i :: 0 <= i < |xs| ==> xs[i] >= 0.0
    ensures Sum(xs) >= 0.0
    decreases |xs|
  {
    if xs != [] {
      SumNonNegative(xs[..|xs| - 1]);
    }
  }

  /** Reference definition: the same total as a right fold. */
  function SumRight(xs: seq<real>): real
    decreases |xs|
  {
    if xs == [] then 0.0 else xs[0] + SumRight(xs[1..])
  }

  lemma {:induction false} SumAppend(xs: seq<real>, ys: seq<real>)
    ensures Sum(xs + ys) == Sum(xs) + Sum(ys)
    decreases |ys|
  {
    if ys != [] {
      var zs := xs + ys;
      assert zs[..|zs| - 1] == xs + ys[..|ys| - 1];
      SumAppend(xs, ys[..|ys| - 1]);
    } else {
      assert xs + ys == xs;
    }
  }

  /** The left fold and the right fold agree, so the order of addition does not matter. */
  lemma {:induction false} SumIsRightFold(xs: seq<real>)
    ensures Sum(xs) == SumRight(xs)
    decreases |xs|
  {
    if xs != [] {
      assert xs == [xs[0]] + xs[1..];
      SumAppend([xs[0]], xs[1..]);
      SumIsRightFold(xs[1..]);
    }
  }

  /** `average`: 0 for an empty list, otherwise the sum divided by the length. */
  function Average(xs: seq<real>): (r: real)
    ensures xs == [] ==> r == 0.0
    ensures xs != [] ==> r * (|xs| as real) == Sum(xs)
  {
    if |xs| == 0 then 0.0 else Sum(xs) / (|xs| as real)
  }

  /** `c * x` for every element `x`. */
  function Scale(c: real, xs: seq<real>): (r: seq<real>)
    ensures |r| == |xs|
  {
    seq(|xs|, i requires 0 <= i < |xs| => c * xs[i])
  }

  /** Scaling every element scales the total. */
  lemma {:induction false} SumScale(c: real, xs: seq<real>)
    ensures Sum(Scale(c, xs)) == c * Sum(xs)
    decreases |xs|
  {
    if xs != [] {
      var n := |xs| - 1;
      forall i | 0 <= i < n
        ensures Scale(c, xs)[..n][i] == Scale(c, xs[..n])[i]
      {
      }
      assert Scale(c, xs)[..n] == Scale(c, xs[..n]);
      SumScale(c, xs[..n]);
      var a := Sum(xs[..n]);
      assert c * (a + xs[n]) == c * a + c * xs[n];
    }
  }

  /** A series that is element-wise at most another has at most its total. */
  lemma {:induction false} SumMonotone(xs: seq<real>, ys: seq<real>)
    requires |xs| == |ys|
    requires forall i :: 0 <= i < |xs| ==> xs[i] <= ys[i]
    ensures Sum(xs) <= Sum(ys)
    decreases |xs|
  {
    if xs != [] {
      var n := |xs| - 1;
      SumMonotone(xs[..n], ys[..n]);
    }
  }

  /** Element-wise addition of two series adds their totals. */
  lemma {:induction false} SumPointwise(xs: seq<real>, ys: seq<real>, zs: seq<real>)
    requires |xs| == |ys| == |zs|
    requires forall i :: 0 <= i < |zs| ==> zs[i] == xs[i] + ys[i]
    ensures Sum(zs) == Sum(xs) + Sum(ys)
    decreases |zs|
  {
    if zs != [] {
      var n := |zs| - 1;
      SumPointwise(xs[..n], ys[..n], zs[..n]);
    }
  }

  /** A series of n elements, each between `lo` and `hi`, totals between n * lo and n * hi. */
  lemma {:induction false} SumBounds(xs: seq<real>, lo: real, hi: real)
    requires forall i :: 0 <= i < |xs| ==> lo <= xs[i] <= hi
    ensures lo * (|xs| as real) <= Sum(xs) <= hi * (|xs| as real)
    decreases |xs|
  {
    if xs != [] {
      var n := |xs| - 1;
      SumBounds(xs[..n], lo, hi);
      assert lo * ((n + 1) as real) == lo * (n as real) + lo;
      assert hi * ((n + 1) as real) == hi * (n as real) + hi;
    }
  }

  /** The average line lies within the range of the bars. */
  lemma AverageWithinBounds(xs: seq<real>, lo: real, hi: real)
    requires xs != []
    requires forall i :: 0 <= i < |xs| ==> lo <= xs[i] <= hi
    ensures lo <= Average(xs) <= hi
  {
    SumBounds(xs, lo, hi);
    QuotientBetween(Sum(xs), |xs| as real, lo, hi);
  }

  lemma QuotientBetween(s: real, n: real, lo: real, hi: real)
    requires n > 0.0 && lo * n <= s <= hi * n
    ensures lo <= s / n <= hi
  {
    var q := s / n;
    assert q * n == s;
    assert (q - lo) * n >= 0.0;
    assert (hi - q) * n >= 0.0;
  }

  // ---------------------------------------------------------------------
  // Series of the panel

  datatype KpiData = KpiData(
    labels: seq<string>,
    all: seq<real>,
    byOperator: map<string, seq<real>>,
    efficiencyAll: seq<real>,
    efficiencyByOperator: map<string, seq<real>>,
    teliMultipliers: seq<real>)

  /** `table[key] ?? []` */
  function SeriesOf(table: map<string, seq<real>>, key: string): seq<real> {
    if key in table then table[key] else []
  }

  /** `computeSeries`: the aggregate for "all", otherwise the operator's own series. */
  function ComputeSeries(data: KpiData, operatorId: string): (r: seq<real>)
    ensures r == data.all || r in data.byOperator.Values || r == []
  {
    if operatorId == "all" then data.all else SeriesOf(data.byOperator, operatorId)
  }

  /** `computeEfficiencySeries`: the same selection over the efficiency tables. */
  function ComputeEfficiencySeries(data: KpiData, operatorId: string): (r: seq<real>)
    ensures r == data.efficiencyAll || r in data.efficiencyByOperator.Values || r == []
  {
    if operatorId == "all" then data.efficiencyAll else SeriesOf(data.efficiencyByOperator, operatorId)
  }

  /** Both selections give the aggregate for "all", the operator's series when the
      operator is known, and the empty series (so a total and an average of 0) otherwise. */
  lemma SeriesSelection(data: KpiData, operatorId: string)
    ensures operatorId == "all" ==>
              ComputeSeries(data, operatorId) == data.all &&
              ComputeEfficiencySeries(data, operatorId) == data.efficiencyAll
    ensures operatorId != "all" && operatorId in data.byOperator ==>
              ComputeSeries(data, operatorId) == data.byOperator[operatorId]
    ensures operatorId != "all" && operatorId in data.efficiencyByOperator ==>
              ComputeEfficiencySeries(data, operatorId) == data.efficiencyByOperator[operatorId]
    ensures operatorId != "all" && operatorId !in data.byOperator ==>
              ComputeSeries(data, operatorId) == [] &&
              Sum(ComputeSeries(data, operatorId)) == 0.0 && Average(ComputeSeries(data, operatorId)) == 0.0
    ensures operatorId != "all" && operatorId !in data.efficiencyByOperator ==>
              ComputeEfficiencySeries(data, operatorId) == [] &&
              Average(ComputeEfficiencySeries(data, operatorId)) == 0.0
  {
  }

  /** `teliMultipliers?.[i] ?? 100`: the i-th multiplier, or 100 when there is none. */
  function Multiplier(multipliers: seq<real>, i: int): real {
    if 0 <= i < |multipliers| then multipliers[i] else 100.0
  }

  /** `base.map((v, i) => v * multiplier(i))` */
  function TeliSeries(base: seq<real>, multipliers: seq<real>): (r: seq<real>)
    ensures |r| == |base|
    ensures forall i :: 0 <= i < |r| ==> r[i] == base[i] * Multiplier(multipliers, i)
  {
    seq(|base|, i requires 0 <= i < |base| => base[i] * Multiplier(multipliers, i))
  }

  /** `computeTeliSeries` */
  function ComputeTeliSeries(data: KpiData, operatorId: string): (r: seq<real>)
    ensures |r| == |ComputeSeries(data, operatorId)|
    ensures forall i :: 0 <= i < |r| ==>
              r[i] == ComputeSeries(data, operatorId)[i] * Multiplier(data.teliMultipliers, i)
  {
    TeliSeries(ComputeSeries(data, operatorId), data.teliMultipliers)
  }

  /** With multipliers between `lo` and `hi` on a non-negative series, the teli total
      lies between `lo` and `hi` times the base total. */
  lemma TeliTotalBounds(base: seq<real>, multipliers: seq<real>, lo: real, hi: real)
    requires forall i :: 0 <= i < |base| ==> base[i] >= 0.0
    requires forall i :: 0 <= i < |multipliers| ==> lo <= multipliers[i] <= hi
    requires lo <= 100.0 <= hi
    ensures lo * Sum(base) <= Sum(TeliSeries(base, multipliers)) <= hi * Sum(base)
  {
    var r := TeliSeries(base, multipliers);
    var low, high := Scale(lo, base), Scale(hi, base);
    forall i | 0 <= i < |base|
      ensures low[i] <= r[i] <= high[i]
    {
      TeliBetween(base, multipliers, lo, hi, i);
    }
    SumMonotone(low, r);
    SumMonotone(r, high);
    SumScale(lo, base);
    SumScale(hi, base);
  }

  lemma TeliBetween(base: seq<real>, multipliers: seq<real>, lo: real, hi: real, i: int)
    requires 0 <= i < |base| && base[i] >= 0.0
    requires lo <= Multiplier(multipliers, i) <= hi
    ensures Scale(lo, base)[i] <= TeliSeries(base, multipliers)[i] <= Scale(hi, base)[i]
  {
    var x, m := base[i], Multiplier(multipliers, i);
    assert TeliSeries(base, multipliers)[i] == x * m;
    assert Scale(lo, base)[i] == lo * x;
    assert Scale(hi, base)[i] == hi * x;
    ScaledBetween(x, lo, m, hi);
  }

  /** With no multipliers the teli total is 100 times the base total. */
  lemma TeliDefaultTotal(base: seq<real>)
    ensures Sum(TeliSeries(base, [])) == 100.0 * Sum(base)
  {
    assert TeliSeries(base, []) == Scale(100.0, base);
    SumScale(100.0, base);
  }

  lemma ScaledBetween(x: real, lo: real, m: real, hi: real)
    requires x >= 0.0 && lo <= m <= hi
    ensures lo * x <= x * m <= hi * x
  {
    assert (m - lo) * x >= 0.0;
    assert (hi - m) * x >= 0.0;
  }

  /** `series[i] ?? 0` */
  function At(xs: seq<real>, i: int): real {
    if 0 <= i < |xs| then xs[i] else 0.0
  }

  /** `labels.map((_, i) => (a[i] ?? 0) + (b[i] ?? 0))`: the `all` series of the mock data. */
  function CombineTotals(labelCount: nat, a: seq<real>, b: seq<real>): (r: seq<real>)
    ensures |r| == labelCount
    ensures forall i :: 0 <= i < labelCount ==> r[i] == At(a, i) + At(b, i)
  {
    seq(labelCount, i requires 0 <= i < labelCount => At(a, i) + At(b, i))
  }

  /** `labels.map((_, i) => ((a[i] ?? 0) + (b[i] ?? 0)) / 2)`: the `efficiencyAll` series. */
  function CombineMeans(labelCount: nat, a: seq<real>, b: seq<real>): (r: seq<real>)
    ensures |r| == labelCount
    ensures forall i :: 0 <= i < labelCount ==> r[i] == CombineTotals(labelCount, a, b)[i] / 2.0
  {
    seq(labelCount, i requires 0 <= i < labelCount => (At(a, i) + At(b, i)) / 2.0)
  }

  /** When both operators have one value per label, the `all` total is the sum of
      their totals. */
  lemma CombineTotalsSum(labelCount: nat, a: seq<real>, b: seq<real>)
    requires |a| == |b| == labelCount
    ensures Sum(CombineTotals(labelCount, a, b)) == Sum(a) + Sum(b)
  {
    SumPointwise(a, b, CombineTotals(labelCount, a, b));
  }

  /** When both operators have one value per label, the average of the `efficiencyAll`
      series is the mean of the two operators' averages. */
  lemma CombineMeansAverage(labelCount: nat, a: seq<real>, b: seq<real>)
    requires |a| == |b| == labelCount
    ensures Average(CombineMeans(labelCount, a, b)) == (Average(a) + Average(b)) / 2.0
  {
    var t := CombineTotals(labelCount, a, b);
    CombineTotalsSum(labelCount, a, b);
    var m := CombineMeans(labelCount, a, b);
    assert m == Scale(0.5, t);
    SumScale(0.5, t);
    if labelCount > 0 {
      var n, sa, sb := labelCount as real, Sum(a), Sum(b);
      assert Sum(m) == 0.5 * (sa + sb);
      MeanOfQuotients(sa, sb, n);
    }
  }

  lemma MeanOfQuotients(sa: real, sb: real, n: real)
    requires n > 0.0
    ensures (0.5 * (sa + sb)) / n == (sa / n + sb / n) / 2.0
  {
  }

  /** `getMockData`, with the randomly drawn teli multipliers as a parameter. */
  function GetMockData(teliMultipliers: seq<real>): (data: KpiData)
    ensures |data.labels| == 5
    ensures data.byOperator.Keys == data.efficiencyByOperator.Keys == {"juan-pedro", "juan-franco"}
    ensures |data.all| == |data.efficiencyAll| == 5
    ensures forall op :: op in data.byOperator ==> |data.byOperator[op]| == 5
    ensures forall op :: op in data.efficiencyByOperator ==> |data.efficiencyByOperator[op]| == 5
    ensures forall i :: 0 <= i < 5 ==>
              data.all[i] == data.byOperator["juan-pedro"][i] + data.byOperator["juan-franco"][i]
    ensures data.teliMultipliers == teliMultipliers
  {
    var byOperator := map["juan-pedro" := [8.0, 10.0, 6.0, 7.0, 9.0],
                          "juan-franco" := [4.0, 3.0, 5.0, 4.0, 4.0]];
    var efficiencyByOperator := map["juan-pedro" := [72.0, 71.0, 70.0, 73.0, 74.0],
                                    "juan-franco" := [68.0, 67.0, 66.0, 69.0, 70.0]];
    KpiData(
      ["Lun", "Mar", "Mer", "Gio", "Ven"],
      CombineTotals(5, byOperator["juan-pedro"], byOperator["juan-franco"]),
      byOperator,
      CombineMeans(5, efficiencyByOperator["juan-pedro"], efficiencyByOperator["juan-franco"]),
      efficiencyByOperator,
      teliMultipliers)
  }

  /** The panel's figures on the mock data: 60 markers in all, 12 a day on average,
      efficiency 70 % on average, and a teli total between 6000 and 7200 for multipliers
      drawn from 100..120. */
  lemma MockFigures(teliMultipliers: seq<real>)
    requires forall i :: 0 <= i < |teliMultipliers| ==> 100.0 <= teliMultipliers[i] <= 120.0
    ensures var data := GetMockData(teliMultipliers);
      && ComputeSeries(data, "all") == [12.0, 13.0, 11.0, 11.0, 13.0]
      && Sum(ComputeSeries(data, "all")) == 60.0
      && Average(ComputeSeries(data, "all")) == 12.0
      && Average(ComputeEfficiencySeries(data, "all")) == 70.0
      && 6000.0 <= Sum(ComputeTeliSeries(data, "all")) <= 7200.0
  {
    var data := GetMockData(teliMultipliers);
    var all := ComputeSeries(data, "all");
    assert all == [12.0, 13.0, 11.0, 11.0, 13.0];
    SumOfFive(12.0, 13.0, 11.0, 11.0, 13.0);
    var eff := ComputeEfficiencySeries(data, "all");
    assert eff == [70.0, 69.0, 68.0, 71.0, 72.0];
    SumOfFive(70.0, 69.0, 68.0, 71.0, 72.0);
    TeliTotalBounds(all, teliMultipliers, 100.0, 120.0);
  }

  lemma SumSnoc(xs: seq<real>, x: real)
    ensures Sum(xs + [x]) == Sum(xs) + x
  {
    assert (xs + [x])[..|xs|] == xs;
  }

  lemma SumOfFive(a: real, b: real, c: real, d: real, e: real)
    ensures Sum([a, b, c, d, e]) == a + b + c + d + e
  {
    SumSnoc([], a);
    assert [a, b] == [a] + [b];
    SumSnoc([a], b);
    assert [a, b, c] == [a, b] + [c];
    SumSnoc([a, b], c);
    assert [a, b, c, d] == [a, b, c] + [d];
    SumSnoc([a, b, c], d);
    assert [a, b, c, d, e] == [a, b, c, d] + [e];
    SumSnoc([a, b, c, d], e);
  }
}
