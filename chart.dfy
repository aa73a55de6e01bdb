/**
 * The arithmetic of the retirement chart: the vertical scale, the horizontal
 * step, the coordinate maps, the gridlines, the vertex lists of the filled
 * band and area and of the stroked lines, and the choice of age labels.
 *
 * The chart is 200 logical units high with fixed padding; its width is the
 * width of the drawing surface, a parameter here.
 */
module Chart {
  import opened Projection

  datatype Point = Point(x: real, y: real)

  const Height: real := 200.0
  const PadTop: real := 15.0
  const PadRight: real := 15.0
  const PadBottom: real := 30.0
  const PadLeft: real := 60.0
  const ChartHeight: real := Height - PadTop - PadBottom
  /** The vertical axis maximum is rounded up to a multiple of this. */
  const AxisUnit: real := 100000.0
  /** Gridlines are drawn at 0/4, 1/4, ..., 4/4 of the axis maximum. */
  const GridLineCount: nat := 4

  /** The plotting width inside the padding of a surface `w` units wide. */
  function ChartWidth(w: real): real
  {
    w - PadLeft - PadRight
  }

  /** The largest of a non-empty list of values (Math.max). */
  function MaxOf(values: seq<real>): (m: real)
    requires |values| > 0
    ensures forall i :: 0 <= i < |values| ==> values[i] <= m
    ensures exists i :: 0 <= i < |values| && values[i] == m
  {
    if |values| == 1 then values[0]
    else
      var rest := MaxOf(values[1..]);
      assert forall i :: 1 <= i < |values| ==> values[i] == values[1..][i - 1];
      if values[0] >= rest then values[0] else rest
  }

  /** The largest total of a non-empty projection. */
  function MaxTotal(data: seq<Snapshot>): (m: real)
    requires |data| > 0
    ensures forall i :: 0 <= i < |data| ==> data[i].total <= m
    ensures exists i :: 0 <= i < |data| && data[i].total == m
  {
    var totals := TotalsOf(data);
    assert forall i :: 0 <= i < |data| ==> totals[i] == data[i].total;
    MaxOf(totals)
  }

  /** A total that bounds every total of the run and is reached at index `j` is the run's largest total. */
  lemma MaxTotalIs(data: seq<Snapshot>, v: real, j: nat)
    requires j < |data| && data[j].total == v
    requires forall k :: 0 <= k < |data| ==> data[k].total <= v
    ensures MaxTotal(data) == v
  {
    var k :| 0 <= k < |data| && data[k].total == MaxTotal(data);
    assert data[j].total <= MaxTotal(data);
  }

  /** Math.ceil: the least integer not below `x`. */
  function Ceil(x: real): (k: int)
    ensures (k as real) - 1.0 < x <= k as real
  {
    -((-x).Floor)
  }

  /** `x` is a whole number of `unit`s. */
  predicate IsWholeMultiple(x: real, unit: real)
    requires unit != 0.0
  {
    (x / unit).Floor as real == x / unit
  }

  /**
   * The axis maximum: the largest value rounded up to a whole number of
   * AxisUnit, or 1 when that rounds to zero.
   */
  function NiceMax(maxVal: real): (r: real)
    ensures r != 0.0
    ensures maxVal <= r
    ensures r == 1.0 <==> -AxisUnit < maxVal <= 0.0
    ensures r != 1.0 ==> IsWholeMultiple(r, AxisUnit) && r - AxisUnit < maxVal
    ensures maxVal > -AxisUnit ==> r > 0.0
  {
    var k := Ceil(maxVal / AxisUnit);
    if k == 0 then 1.0
    else
      assert (k as real) * AxisUnit / AxisUnit == k as real;
      (k as real) * AxisUnit
  }

  /**
   * The horizontal distance between consecutive snapshots; a single snapshot
   * divides by 1 instead of 0 (and an empty projection by -1).
   */
  function XStep(chartW: real, n: nat): (s: real)
    ensures n >= 2 ==> s * ((n - 1) as real) == chartW
    ensures n == 1 ==> s == chartW
    ensures n == 0 ==> s == -chartW
  {
    var d := n - 1;
    chartW / ((if d == 0 then 1 else d) as real)
  }

  /** The x coordinate of snapshot index `i`. */
  function GetX(xStep: real, i: int): real
  {
    PadLeft + (i as real) * xStep
  }

  /** The y coordinate of the value `val` (screen y grows downwards). */
  function GetY(niceMax: real, val: real): real
    requires niceMax != 0.0
  {
    PadTop + ChartHeight - (val / niceMax) * ChartHeight
  }

  /** The first snapshot sits on the left edge of the plot, the last on the right edge. */
  lemma XEndpoints(w: real, n: nat)
    requires n >= 1
    ensures GetX(XStep(ChartWidth(w), n), 0) == PadLeft
    ensures n >= 2 ==> GetX(XStep(ChartWidth(w), n), n - 1) == PadLeft + ChartWidth(w)
  {
    var s := XStep(ChartWidth(w), n);
    if n >= 2 {
      assert ((n - 1) as real) * s == s * ((n - 1) as real);
    }
  }

  /** Zero sits on the bottom edge of the plot and the axis maximum on the top edge. */
  lemma YEndpoints(niceMax: real)
    requires niceMax != 0.0
    ensures GetY(niceMax, 0.0) == PadTop + ChartHeight
    ensures GetY(niceMax, niceMax) == PadTop
  {
  }

  /**
   * With a positive axis maximum, larger values are drawn higher, and every
   * value between 0 and the maximum lands inside the plot.
   */
  lemma GetYOrder(niceMax: real, v1: real, v2: real)
    requires niceMax > 0.0
    requires v1 <= v2
    ensures GetY(niceMax, v2) <= GetY(niceMax, v1)
    ensures 0.0 <= v1 && v2 <= niceMax ==>
      PadTop <= GetY(niceMax, v2) && GetY(niceMax, v1) <= PadTop + ChartHeight
  {
    assert v1 / niceMax <= v2 / niceMax by {
      assert v2 / niceMax - v1 / niceMax == (v2 - v1) / niceMax;
    }
    if 0.0 <= v1 && v2 <= niceMax {
      assert v2 / niceMax <= 1.0;
      assert 0.0 <= v1 / niceMax;
    }
  }

  datatype GridLine = GridLine(y: real, value: real)

  /** Gridline `i`: the fraction i/4 of the axis maximum, at the fraction i/4 of the plot height above its bottom. */
  function GridLineAt(i: nat, niceMax: real): GridLine
  {
    var f := (i as real) / (GridLineCount as real);
    GridLine(PadTop + ChartHeight - f * ChartHeight, f * niceMax)
  }

  /**
   * The horizontal gridlines, bottom to top: equally spaced values from 0 to
   * the axis maximum.
   */
  function GridLines(niceMax: real): (g: seq<GridLine>)
    ensures |g| == GridLineCount + 1
    ensures g[0].value == 0.0 && g[GridLineCount].value == niceMax
    ensures forall i :: 0 <= i < GridLineCount ==> g[i + 1].value - g[i].value == niceMax / 4.0
  {
    seq(GridLineCount + 1, i requires 0 <= i <= GridLineCount => GridLineAt(i, niceMax))
  }

  /** `f * d / d == f` for a non-zero `d`. */
  lemma DivCancel(f: real, d: real)
    requires d != 0.0
    ensures f * d / d == f
  {
  }

  /** Each gridline is drawn at the height the y map gives its own value, so its label reads true. */
  lemma GridLinesOnScale(niceMax: real)
    requires niceMax != 0.0
    ensures var g := GridLines(niceMax);
      forall i :: 0 <= i < |g| ==> g[i].y == GetY(niceMax, g[i].value)
  {
    var g := GridLines(niceMax);
    forall i | 0 <= i < |g| ensures g[i].y == GetY(niceMax, g[i].value) {
      var f := (i as real) / (GridLineCount as real);
      assert g[i] == GridLine(PadTop + ChartHeight - f * ChartHeight, f * niceMax);
      DivCancel(f, niceMax);
    }
  }

  /** The vertex of snapshot index `i` at value `val`. */
  function Vertex(xStep: real, niceMax: real, i: int, val: real): Point
    requires niceMax != 0.0
  {
    Point(GetX(xStep, i), GetY(niceMax, val))
  }

  /** The polyline through `values`, one vertex per snapshot index. */
  function Polyline(values: seq<real>, xStep: real, niceMax: real): seq<Point>
    requires niceMax != 0.0
  {
    seq(|values|, i requires 0 <= i < |values| => Vertex(xStep, niceMax, i, values[i]))
  }

  function TotalsOf(data: seq<Snapshot>): seq<real>
  {
    seq(|data|, i requires 0 <= i < |data| => data[i].total)
  }

  function RealTotalsOf(data: seq<Snapshot>): seq<real>
  {
    seq(|data|, i requires 0 <= i < |data| => data[i].realTotal)
  }

  function ContributedOf(data: seq<Snapshot>): seq<real>
  {
    seq(|data|, i requires 0 <= i < |data| => data[i].contributed)
  }

  function Reversed<T>(s: seq<T>): seq<T>
  {
    seq(|s|, i requires 0 <= i < |s| => s[|s| - 1 - i])
  }

  /** The band polygon: the high totals left to right, then the low totals right to left. */
  function BandPolygon(low: seq<Snapshot>, high: seq<Snapshot>, xStep: real, niceMax: real): seq<Point>
    requires niceMax != 0.0
  {
    Polyline(TotalsOf(high), xStep, niceMax) + Reversed(Polyline(TotalsOf(low), xStep, niceMax))
  }

  /** The band path as the drawing code traces it: a forward pass over the high run, a backward pass over the low run. */
  method BandPath(low: seq<Snapshot>, high: seq<Snapshot>, xStep: real, niceMax: real) returns (path: seq<Point>)
    requires niceMax != 0.0
    ensures path == BandPolygon(low, high, xStep, niceMax)
  {
    path := [];
    var i := 0;
    while i < |high|
      invariant 0 <= i <= |high|
      invariant |path| == i
      invariant forall k :: 0 <= k < i ==> path[k] == Vertex(xStep, niceMax, k, high[k].total)
    {
      path := path + [Vertex(xStep, niceMax, i, high[i].total)];
      i := i + 1;
    }
    var j := |low| - 1;
    while j >= 0
      invariant -1 <= j < |low|
      invariant |path| == |high| + (|low| - 1 - j)
      invariant forall k :: 0 <= k < |high| ==> path[k] == Vertex(xStep, niceMax, k, high[k].total)
      invariant forall k :: |high| <= k < |path| ==>
        path[k] == Vertex(xStep, niceMax, |high| + |low| - 1 - k, low[|high| + |low| - 1 - k].total)
    {
      path := path + [Vertex(xStep, niceMax, j, low[j].total)];
      j := j - 1;
    }
  }

  /**
   * The band polygon closes up: both its joins are vertical (at the first and
   * at the last index), and when every low total is at most the high total of
   * the same index, the upper edge never dips below the lower edge.
   */
  lemma BandShape(low: seq<Snapshot>, high: seq<Snapshot>, xStep: real, niceMax: real)
    requires niceMax > 0.0
    requires |low| == |high| >= 1
    requires forall i :: 0 <= i < |low| ==> low[i].total <= high[i].total
    ensures var b := BandPolygon(low, high, xStep, niceMax);
      var n := |high|;
      |b| == 2 * n &&
      b[0].x == b[2 * n - 1].x == PadLeft &&
      b[n - 1].x == b[n].x &&
      forall i :: 0 <= i < n ==> b[i].x == b[2 * n - 1 - i].x && b[i].y <= b[2 * n - 1 - i].y
  {
    var b := BandPolygon(low, high, xStep, niceMax);
    var n := |high|;
    forall i | 0 <= i < n ensures b[i].x == b[2 * n - 1 - i].x && b[i].y <= b[2 * n - 1 - i].y {
      assert b[2 * n - 1 - i] == Vertex(xStep, niceMax, i, low[i].total);
      GetYOrder(niceMax, low[i].total, high[i].total);
    }
  }

  /**
   * The area under the contributions line: it drops from the zero line to the
   * first contribution vertex, follows the contributions line, and drops back
   * to the zero line below the last vertex.
   */
  function ContributionArea(low: seq<Snapshot>, xStep: real, niceMax: real): (a: seq<Point>)
    requires niceMax != 0.0
    ensures |a| == |low| + 2
    ensures a[0].y == a[|a| - 1].y == GetY(niceMax, 0.0)
    ensures a[1..|a| - 1] == Polyline(ContributedOf(low), xStep, niceMax)
    ensures |low| >= 1 ==> a[0].x == a[1].x && a[|a| - 1].x == a[|a| - 2].x
  {
    [Point(GetX(xStep, 0), PadTop + ChartHeight)]
      + Polyline(ContributedOf(low), xStep, niceMax)
      + [Point(GetX(xStep, |low| - 1), PadTop + ChartHeight)]
  }

  /** The four stroked lines, in drawing order. */
  datatype Lines = Lines(high: seq<Point>, low: seq<Point>, highReal: seq<Point>, contributed: seq<Point>)

  function StrokedLines(low: seq<Snapshot>, high: seq<Snapshot>, xStep: real, niceMax: real): (l: Lines)
    requires niceMax != 0.0
    ensures |l.high| == |l.highReal| == |high| && |l.low| == |l.contributed| == |low|
    ensures forall i :: 0 <= i < |high| ==>
      l.high[i] == Point(GetX(xStep, i), GetY(niceMax, high[i].total)) &&
      l.highReal[i] == Point(GetX(xStep, i), GetY(niceMax, high[i].realTotal))
    ensures forall i :: 0 <= i < |low| ==>
      l.low[i] == Point(GetX(xStep, i), GetY(niceMax, low[i].total)) &&
      l.contributed[i] == Point(GetX(xStep, i), GetY(niceMax, low[i].contributed))
  {
    Lines(Polyline(TotalsOf(high), xStep, niceMax),
          Polyline(TotalsOf(low), xStep, niceMax),
          Polyline(RealTotalsOf(high), xStep, niceMax),
          Polyline(ContributedOf(low), xStep, niceMax))
  }

  /** The band's upper edge is the high line and its lower edge is the low line, traced backwards. */
  lemma {:induction false} BandEdgesAreLines(low: seq<Snapshot>, high: seq<Snapshot>, xStep: real, niceMax: real)
    requires niceMax != 0.0
    ensures var b := BandPolygon(low, high, xStep, niceMax);
      var l := StrokedLines(low, high, xStep, niceMax);
      b[..|high|] == l.high && Reversed(b[|high|..]) == l.low
  {
    var b := BandPolygon(low, high, xStep, niceMax);
    var l := StrokedLines(low, high, xStep, niceMax);
    assert b[|high|..] == Reversed(l.low);
    assert Reversed(Reversed(l.low)) == l.low;
  }

  /** The stride between labelled ages: max(1, floor(n / 6)). */
  function LabelInterval(n: nat): (k: nat)
    ensures k >= 1
    ensures n < 12 ==> k == 1
    ensures n >= 6 ==> 6 * k <= n < 6 * (k + 1)
  {
    if 1 >= n / 6 then 1 else n / 6
  }

  /** Index `i` of `n` gets an age label when it is on the stride or is the last index. */
  predicate IsLabelled(i: nat, n: nat)
  {
    i % LabelInterval(n) == 0 || i == n - 1
  }

  datatype AxisLabel = AxisLabel(index: nat, age: int, x: real)

  /** The age labels among the first `m` snapshots, in index order. */
  function LabelsUpTo(data: seq<Snapshot>, xStep: real, m: nat): seq<AxisLabel>
    requires m <= |data|
  {
    if m == 0 then []
    else
      var prev := LabelsUpTo(data, xStep, m - 1);
      if IsLabelled(m - 1, |data|) then prev + [AxisLabel(m - 1, data[m - 1].age, GetX(xStep, m - 1))]
      else prev
  }

  /**
   * The labels among the first `m` snapshots are exactly the labelled
   * indices below `m`, in increasing order, each with its snapshot's age and x.
   */
  lemma {:induction false} LabelsUpToSpec(data: seq<Snapshot>, xStep: real, m: nat)
    requires m <= |data|
    ensures var r := LabelsUpTo(data, xStep, m);
      (forall k :: 0 <= k < |r| ==>
        r[k].index < m && IsLabelled(r[k].index, |data|) &&
        r[k].age == data[r[k].index].age && r[k].x == GetX(xStep, r[k].index)) &&
      (forall k, l :: 0 <= k < l < |r| ==> r[k].index < r[l].index) &&
      (forall i :: 0 <= i < m && IsLabelled(i, |data|) ==> exists k :: 0 <= k < |r| && r[k].index == i)
  {
    if m > 0 {
      LabelsUpToSpec(data, xStep, m - 1);
      var prev := LabelsUpTo(data, xStep, m - 1);
      var r := LabelsUpTo(data, xStep, m);
      if IsLabelled(m - 1, |data|) {
        assert r == prev + [AxisLabel(m - 1, data[m - 1].age, GetX(xStep, m - 1))];
        assert forall k :: 0 <= k < |prev| ==> r[k] == prev[k];
        assert r[|prev|].index == m - 1;
      } else {
        assert r == prev;
      }
    }
  }

  /** The x-axis pass: walk the low run and emit a label at every labelled index. */
  method XAxisLabels(low: seq<Snapshot>, xStep: real) returns (labels: seq<AxisLabel>)
    ensures labels == LabelsUpTo(low, xStep, |low|)
  {
    var labelInterval := if 1 >= |low| / 6 then 1 else |low| / 6;
    labels := [];
    var i := 0;
    while i < |low|
      invariant 0 <= i <= |low|
      invariant labelInterval == LabelInterval(|low|)
      invariant labels == LabelsUpTo(low, xStep, i)
    {
      ghost var next := LabelsUpTo(low, xStep, i + 1);
      if i % labelInterval == 0 || i == |low| - 1 {
        assert IsLabelled(i, |low|);
        labels := labels + [AxisLabel(i, low[i].age, GetX(xStep, i))];
      } else {
        assert !IsLabelled(i, |low|);
      }
      assert labels == next;
      i := i + 1;
    }
  }

  /** The first and the last snapshot always carry an age label, at the ends of the label list. */
  lemma EndsLabelled(data: seq<Snapshot>, xStep: real)
    requires |data| >= 1
    ensures var r := LabelsUpTo(data, xStep, |data|);
      |r| >= 1 && r[0].index == 0 && r[|r| - 1].index == |data| - 1
  {
    var r := LabelsUpTo(data, xStep, |data|);
    LabelsUpToSpec(data, xStep, |data|);
    assert IsLabelled(0, |data|);
    assert IsLabelled(|data| - 1, |data|);
    var k0 :| 0 <= k0 < |r| && r[k0].index == 0;
    var k1 :| 0 <= k1 < |r| && r[k1].index == |data| - 1;
    assert forall k :: 0 <= k < |r| ==> r[0].index <= r[k].index;
    assert forall k :: 0 <= k < |r| ==> r[k].index <= r[|r| - 1].index;
    assert r[0].index <= r[k0].index;
    assert r[k1].index <= r[|r| - 1].index;
  }

  /** Every point of `ps` lies vertically within the plot, between its top and bottom edges. */
  predicate InPlot(ps: seq<Point>)
  {
    forall k :: 0 <= k < |ps| ==> PadTop <= ps[k].y <= PadTop + ChartHeight
  }

  /** Under a positive axis maximum, a value is drawn inside the plot exactly when it lies between 0 and the maximum. */
  lemma ValueInPlot(niceMax: real, v: real)
    requires niceMax > 0.0
    ensures PadTop <= GetY(niceMax, v) <= PadTop + ChartHeight <==> 0.0 <= v <= niceMax
  {
    var q := v / niceMax;
    assert q * niceMax == v;
    if v < 0.0 {
      assert q < 0.0;
    } else if v > niceMax {
      assert v / niceMax - niceMax / niceMax == (v - niceMax) / niceMax;
      assert niceMax / niceMax == 1.0;
      assert q > 1.0;
    } else {
      GetYOrder(niceMax, v, v);
    }
  }

  /** A polyline stays inside the plot exactly when all of its values lie between 0 and a positive axis maximum. */
  lemma PolylineInPlot(values: seq<real>, xStep: real, niceMax: real)
    requires niceMax > 0.0
    ensures InPlot(Polyline(values, xStep, niceMax)) <==> forall i :: 0 <= i < |values| ==> 0.0 <= values[i] <= niceMax
  {
    var l := Polyline(values, xStep, niceMax);
    forall i | 0 <= i < |values|
      ensures PadTop <= l[i].y <= PadTop + ChartHeight <==> 0.0 <= values[i] <= niceMax
    {
      ValueInPlot(niceMax, values[i]);
    }
  }

  /** The contribution area stays inside the plot exactly when the contributions line does. */
  lemma AreaInPlot(low: seq<Snapshot>, xStep: real, niceMax: real)
    requires niceMax > 0.0
    ensures InPlot(ContributionArea(low, xStep, niceMax)) <==> InPlot(Polyline(ContributedOf(low), xStep, niceMax))
  {
    var a := ContributionArea(low, xStep, niceMax);
    var l := Polyline(ContributedOf(low), xStep, niceMax);
    YEndpoints(niceMax);
    assert forall k :: 0 <= k < |l| ==> l[k] == a[k + 1];
    if InPlot(l) {
      forall k | 0 <= k < |a| ensures PadTop <= a[k].y <= PadTop + ChartHeight {
        if 0 < k < |a| - 1 {
          assert a[k] == l[k - 1];
        }
      }
    }
  }

  /**
   * When both totals, the high real total and the contributions of every
   * snapshot lie between 0 and a positive axis maximum, the band, the
   * contribution area and all four stroked lines lie inside the plot.
   */
  lemma SeriesInPlot(low: seq<Snapshot>, high: seq<Snapshot>, xStep: real, niceMax: real)
    requires niceMax > 0.0
    requires forall i :: 0 <= i < |high| ==> 0.0 <= high[i].total <= niceMax && 0.0 <= high[i].realTotal <= niceMax
    requires forall i :: 0 <= i < |low| ==> 0.0 <= low[i].total <= niceMax && 0.0 <= low[i].contributed <= niceMax
    ensures var l := StrokedLines(low, high, xStep, niceMax);
      InPlot(l.high) && InPlot(l.low) && InPlot(l.highReal) && InPlot(l.contributed) &&
      InPlot(BandPolygon(low, high, xStep, niceMax)) && InPlot(ContributionArea(low, xStep, niceMax))
  {
    PolylineInPlot(TotalsOf(high), xStep, niceMax);
    PolylineInPlot(TotalsOf(low), xStep, niceMax);
    PolylineInPlot(RealTotalsOf(high), xStep, niceMax);
    PolylineInPlot(ContributedOf(low), xStep, niceMax);
    AreaInPlot(low, xStep, niceMax);
    var up := Polyline(TotalsOf(high), xStep, niceMax);
    var down := Reversed(Polyline(TotalsOf(low), xStep, niceMax));
    var b := BandPolygon(low, high, xStep, niceMax);
    forall k | 0 <= k < |b| ensures PadTop <= b[k].y <= PadTop + ChartHeight {
      if k < |up| {
        assert b[k] == up[k];
      } else {
        assert b[k] == down[k - |up|];
      }
    }
  }

  /**
   * With non-negative totals, low totals at most the high ones and the axis
   * maximum computed from the high run, every vertex of the band lies inside
   * the plot vertically.
   */
  lemma BandInPlot(low: seq<Snapshot>, high: seq<Snapshot>, xStep: real)
    requires |low| == |high| >= 1
    requires forall i :: 0 <= i < |low| ==> 0.0 <= low[i].total <= high[i].total
    ensures var niceMax := NiceMax(MaxTotal(high));
      var b := BandPolygon(low, high, xStep, niceMax);
      niceMax > 0.0 &&
      (forall i :: 0 <= i < |high| ==> high[i].total <= niceMax) &&
      forall k :: 0 <= k < |b| ==> PadTop <= b[k].y <= PadTop + ChartHeight
  {
    var niceMax := NiceMax(MaxTotal(high));
    var b := BandPolygon(low, high, xStep, niceMax);
    var n := |high|;
    assert 0.0 <= high[0].total <= MaxTotal(high);
    forall k | 0 <= k < |b| ensures PadTop <= b[k].y <= PadTop + ChartHeight {
      var i := if k < n then k else 2 * n - 1 - k;
      var v := if k < n then high[i].total else low[i].total;
      assert b[k] == Vertex(xStep, niceMax, i, v);
      assert 0.0 <= v <= high[i].total <= MaxTotal(high);
      GetYOrder(niceMax, v, v);
    }
  }

  /**
   * For the runs `calculate` draws with non-negative money, a non-negative low
   * rate at most the high rate and non-negative inflation, the axis maximum
   * taken from the high totals alone is enough: the band, the contribution
   * area and all four stroked lines lie inside the plot.
   */
  lemma LinesInPlot(sl: Scenario, rateHigh: real, xStep: real)
    requires sl.currentSavings >= 0.0 && sl.contribution >= 0.0
    requires 0.0 <= sl.returnRate <= rateHigh
    requires sl.inflationRate >= 0.0
    ensures var low, high := Project(sl), Project(sl.(returnRate := rateHigh));
      var niceMax := NiceMax(MaxTotal(high));
      var l := StrokedLines(low, high, xStep, niceMax);
      niceMax > 0.0 &&
      InPlot(l.high) && InPlot(l.low) && InPlot(l.highReal) && InPlot(l.contributed) &&
      InPlot(BandPolygon(low, high, xStep, niceMax)) && InPlot(ContributionArea(low, xStep, niceMax))
  {
    var sh := sl.(returnRate := rateHigh);
    var low, high := Project(sl), Project(sh);
    var m := MaxTotal(high);
    var niceMax := NiceMax(m);
    forall i | 0 <= i < |high|
      ensures 0.0 <= high[i].total <= niceMax && 0.0 <= high[i].realTotal <= niceMax
      ensures 0.0 <= low[i].total <= niceMax && 0.0 <= low[i].contributed <= niceMax
    {
      TotalMonotoneInRate(sl, sh, i);
      TotalAtLeastContributed(sl, i);
      RealTotalAtMostTotal(sh, i);
      assert high[i].total <= m;
    }
    SeriesInPlot(low, high, xStep, niceMax);
  }

  /**
   * An axis maximum that covers every plotted series (both totals, the high
   * real total and the contributions), not only the high totals: the largest
   * plotted value, rounded up as `NiceMax` rounds.
   */
  function PlotMax(low: seq<Snapshot>, high: seq<Snapshot>): (r: real)
    requires |low| == |high| >= 1
    ensures r != 0.0
    ensures forall i :: 0 <= i < |high| ==> high[i].total <= r && high[i].realTotal <= r
    ensures forall i :: 0 <= i < |low| ==> low[i].total <= r && low[i].contributed <= r
    ensures high[0].total >= 0.0 ==> r > 0.0
  {
    var highMax := Max(MaxOf(TotalsOf(high)), MaxOf(RealTotalsOf(high)));
    var lowMax := Max(MaxOf(TotalsOf(low)), MaxOf(ContributedOf(low)));
    assert forall i :: 0 <= i < |high| ==>
      high[i].total == TotalsOf(high)[i] <= highMax && high[i].realTotal == RealTotalsOf(high)[i] <= highMax;
    assert forall i :: 0 <= i < |low| ==>
      low[i].total == TotalsOf(low)[i] <= lowMax && low[i].contributed == ContributedOf(low)[i] <= lowMax;
    NiceMax(Max(highMax, lowMax))
  }

  function Max(a: real, b: real): real
  {
    if a >= b then a else b
  }

  /**
   * When no plotted value exceeds the largest high total, the corrected axis
   * maximum is the one the chart computes from the high totals alone.
   */
  lemma PlotMaxAgrees(low: seq<Snapshot>, high: seq<Snapshot>)
    requires |low| == |high| >= 1
    requires forall i :: 0 <= i < |high| ==> high[i].realTotal <= MaxTotal(high)
    requires forall i :: 0 <= i < |low| ==> low[i].total <= MaxTotal(high) && low[i].contributed <= MaxTotal(high)
    ensures PlotMax(low, high) == NiceMax(MaxTotal(high))
  {
    var m := MaxTotal(high);
    MaxOfAtMost(RealTotalsOf(high), m);
    MaxOfAtMost(TotalsOf(low), m);
    MaxOfAtMost(ContributedOf(low), m);
  }

  /** A bound on every value of a non-empty list bounds its largest value. */
  lemma MaxOfAtMost(values: seq<real>, bound: real)
    requires |values| > 0
    requires forall i :: 0 <= i < |values| ==> values[i] <= bound
    ensures MaxOf(values) <= bound
  {
    var j :| 0 <= j < |values| && values[j] == MaxOf(values);
  }

  /**
   * With the corrected axis maximum, the chart stays inside the plot for every
   * run with non-negative money, rates of at least -100% in order and
   * inflation above -100%, deflation and negative rates included.
   */
  lemma PlotMaxKeepsLinesInPlot(sl: Scenario, rateHigh: real, xStep: real)
    requires sl.currentSavings >= 0.0 && sl.contribution >= 0.0
    requires -1.0 <= sl.returnRate <= rateHigh
    requires sl.inflationRate > -1.0
    ensures var low, high := Project(sl), Project(sl.(returnRate := rateHigh));
      var niceMax := PlotMax(low, high);
      var l := StrokedLines(low, high, xStep, niceMax);
      niceMax > 0.0 &&
      InPlot(l.high) && InPlot(l.low) && InPlot(l.highReal) && InPlot(l.contributed) &&
      InPlot(BandPolygon(low, high, xStep, niceMax)) && InPlot(ContributionArea(low, xStep, niceMax))
  {
    var sh := sl.(returnRate := rateHigh);
    var low, high := Project(sl), Project(sh);
    var niceMax := PlotMax(low, high);
    forall i | 0 <= i < |high|
      ensures 0.0 <= high[i].total && 0.0 <= high[i].realTotal
      ensures 0.0 <= low[i].total && 0.0 <= low[i].contributed
    {
      SnapshotNonNegative(sl, i);
      SnapshotNonNegative(sh, i);
    }
    SeriesInPlot(low, high, xStep, niceMax);
  }

  /**
   * Under the conditions of `LinesInPlot` the corrected axis maximum changes
   * nothing: it equals the one computed from the high totals.
   */
  lemma PlotMaxUnchangedWithoutDeflation(sl: Scenario, rateHigh: real)
    requires sl.currentSavings >= 0.0 && sl.contribution >= 0.0
    requires 0.0 <= sl.returnRate <= rateHigh
    requires sl.inflationRate >= 0.0
    ensures var low, high := Project(sl), Project(sl.(returnRate := rateHigh));
      PlotMax(low, high) == NiceMax(MaxTotal(high))
  {
    var sh := sl.(returnRate := rateHigh);
    var low, high := Project(sl), Project(sh);
    var m := MaxTotal(high);
    forall i | 0 <= i < |high|
      ensures high[i].realTotal <= m && low[i].total <= m && low[i].contributed <= m
    {
      TotalMonotoneInRate(sl, sh, i);
      TotalAtLeastContributed(sl, i);
      RealTotalAtMostTotal(sh, i);
      assert high[i].total <= m;
    }
    PlotMaxAgrees(low, high);
  }

  /**
   * As written, the axis maximum covers only the high totals. Under deflation
   * the real total rises above the total: 100000 saved, nothing added, both
   * rates 0% and -50% inflation over one year give an axis maximum of 100000
   * and a real total of 200000, drawn above the top of the plot.
   */
  lemma DeflationLeavesPlot(sc: Scenario, xStep: real)
    requires sc == Scenario(100000.0, 0.0, false, 0.0, -0.5, 1, 30)
    ensures var run := Project(sc);
      var niceMax := NiceMax(MaxTotal(run));
      niceMax == 100000.0 && run[1].realTotal == 200000.0 &&
      StrokedLines(run, run, xStep, niceMax).highReal[1].y < PadTop &&
      !InPlot(StrokedLines(run, run, xStep, niceMax).highReal)
  {
    DeflationRun(sc);
    var run := Project(sc);
    var m := MaxTotal(run);
    MaxTotalIs(run, 100000.0, 0);
    assert Ceil(m / AxisUnit) == Ceil(1.0) == 1;
    var l := StrokedLines(run, run, xStep, 100000.0);
    assert l.highReal[1].y == GetY(100000.0, 200000.0) == -140.0;
  }

  /** The run of `DeflationLeavesPlot`: the total stays at 100000 and the real total doubles. */
  lemma DeflationRun(sc: Scenario)
    requires sc == Scenario(100000.0, 0.0, false, 0.0, -0.5, 1, 30)
    ensures var run := Project(sc);
      |run| == 2 && run[0].total == run[1].total == 100000.0 && run[1].realTotal == 200000.0
  {
    var run := Project(sc);
    assert run[0] == SnapshotAt(sc, 0) && run[1] == SnapshotAt(sc, 1);
    var t1 := TotalAt(sc, 1);
    assert t1 == YearStep(100000.0, 0.0, false, 0.0) == 100000.0;
    var f1 := Pow(1.0 + sc.inflationRate, 1);
    assert f1 == 0.5 * Pow(0.5, 0) == 0.5;
    assert run[1].realTotal == t1 / f1;
  }

  /**
   * As written, a negative rate leaves the contributions above the axis
   * maximum: nothing saved, 100000 a year, both rates -50% and no inflation
   * over two years give totals 0, 50000 and 75000, an axis maximum of 100000
   * and contributions of 200000 at the last index, above the top of the plot.
   */
  lemma NegativeRateLeavesPlot(sc: Scenario, xStep: real)
    requires sc == Scenario(0.0, 100000.0, false, -0.5, 0.0, 2, 30)
    ensures var run := Project(sc);
      var niceMax := NiceMax(MaxTotal(run));
      niceMax == 100000.0 && run[2].contributed == 200000.0 &&
      StrokedLines(run, run, xStep, niceMax).contributed[2].y < PadTop &&
      !InPlot(ContributionArea(run, xStep, niceMax))
  {
    NegativeRateRun(sc);
    var run := Project(sc);
    var m := MaxTotal(run);
    MaxTotalIs(run, 75000.0, 2);
    assert Ceil(m / AxisUnit) == Ceil(0.75) == 1;
    var l := StrokedLines(run, run, xStep, 100000.0);
    assert l.contributed[2].y == GetY(100000.0, 200000.0) == -140.0;
    assert ContributionArea(run, xStep, 100000.0)[3] == l.contributed[2];
  }

  /** The run of `NegativeRateLeavesPlot`: totals 0, 50000 and 75000 against contributions of 200000. */
  lemma NegativeRateRun(sc: Scenario)
    requires sc == Scenario(0.0, 100000.0, false, -0.5, 0.0, 2, 30)
    ensures var run := Project(sc);
      |run| == 3 && run[0].total == 0.0 && run[1].total == 50000.0 && run[2].total == 75000.0 &&
      run[2].contributed == 200000.0
  {
    var run := Project(sc);
    assert run[0] == SnapshotAt(sc, 0) && run[1] == SnapshotAt(sc, 1) && run[2] == SnapshotAt(sc, 2);
    assert TotalAt(sc, 1) == YearStep(0.0, 100000.0, false, -0.5) == 50000.0;
    assert TotalAt(sc, 2) == YearStep(50000.0, 100000.0, false, -0.5) == 75000.0;
  }
}
