/** The mirror bar chart comparing two players: which metrics are shown, the shared scale, and the
    marks appended for each metric (the band scale's vertical positions are not modelled). */
module MirrorChart {

  /** One compared statistic: its key, its label (`caption`) and the two players' values. */
  datatype Metric = Metric(key: string, caption: string, p1: real, p2: real)

  const Width: real := 700.0
  const AxisX: real := 350.0
  /** The room a full bar has on either side of the axis (`axisX - 80`). */
  const Reach: real := 270.0

  /** `metrics.filter(m => activeMetrics.includes(m.key))`. */
  function VisibleMetrics(metrics: seq<Metric>, active: seq<string>): (visible: seq<Metric>)
    ensures |visible| <= |metrics|
  {
    if metrics == [] then []
    else (if metrics[0].key in active then [metrics[0]] else []) + VisibleMetrics(metrics[1..], active)
  }

  /** A metric is shown iff it is one of the chart's metrics and its key is active. */
  lemma {:induction false} VisibleMetricsExactly(metrics: seq<Metric>, active: seq<string>, m: Metric)
    ensures m in VisibleMetrics(metrics, active) <==> m in metrics && m.key in active
  {
    if metrics != [] {
      VisibleMetricsExactly(metrics[1..], active, m);
      assert m in metrics <==> m == metrics[0] || m in metrics[1..];
    }
  }

  /** Filtering keeps the original order: it works block by block. */
  lemma {:induction false} VisibleMetricsAppend(a: seq<Metric>, b: seq<Metric>, active: seq<string>)
    ensures VisibleMetrics(a + b, active) == VisibleMetrics(a, active) + VisibleMetrics(b, active)
  {
    if a != [] {
      var ab := a + b;
      assert ab[0] == a[0] && ab[1..] == a[1..] + b;
      VisibleMetricsAppend(a[1..], b, active);
      var head := if a[0].key in active then [a[0]] else [];
      assert VisibleMetrics(ab, active) == head + VisibleMetrics(a[1..] + b, active);
      assert VisibleMetrics(a, active) == head + VisibleMetrics(a[1..], active);
    } else {
      assert a + b == b;
    }
  }

  /** `visibleMetrics.flatMap(m => [m.p1, m.p2])`. */
  function Values(visible: seq<Metric>): (vs: seq<real>)
    ensures |vs| == 2 * |visible|
  {
    if visible == [] then [] else [visible[0].p1, visible[0].p2] + Values(visible[1..])
  }

  /** Metric `i` contributes the values at `2 i` and `2 i + 1`. */
  lemma {:induction false} ValuesAt(visible: seq<Metric>, i: nat)
    requires i < |visible|
    ensures Values(visible)[2 * i] == visible[i].p1 && Values(visible)[2 * i + 1] == visible[i].p2
  {
    if i > 0 {
      ValuesAt(visible[1..], i - 1);
    }
  }

  /** `d3.max` of a non-empty list. */
  function MaxOf(xs: seq<real>): (m: real)
    requires |xs| >= 1
    ensures m in xs
    ensures forall i :: 0 <= i < |xs| ==> xs[i] <= m
  {
    if |xs| == 1 then xs[0]
    else
      var rest := MaxOf(xs[1..]);
      assert forall i :: 1 <= i < |xs| ==> xs[i] == xs[1..][i - 1];
      if xs[0] >= rest then xs[0] else rest
  }

  /** `d3.max(...) || 1`: one global maximum over both players and every visible metric; 1 when no
      metric is visible or that maximum is 0 (a negative maximum is kept). */
  function MaxValue(visible: seq<Metric>): (mv: real)
    ensures mv != 0.0
    ensures visible == [] ==> mv == 1.0
    ensures visible != [] ==> mv == MaxOf(Values(visible)) || (MaxOf(Values(visible)) == 0.0 && mv == 1.0)
  {
    if visible == [] then 1.0
    else
      var m := MaxOf(Values(visible));
      if m == 0.0 then 1.0 else m
  }

  /** Unless it fell back to 1, the shared maximum bounds both players' values of every metric. */
  lemma MaxValueBounds(visible: seq<Metric>, i: nat)
    requires i < |visible|
    ensures visible[i].p1 <= MaxOf(Values(visible)) && visible[i].p2 <= MaxOf(Values(visible))
  {
    ValuesAt(visible, i);
  }

  /** The chart's height: 75 per visible metric. */
  function Height(visible: seq<Metric>): real
  {
    75.0 * |visible| as real
  }

  /** The indices of the metrics among the first `n` whose key is active. */
  function ActiveIndices(metrics: seq<Metric>, active: seq<string>, n: nat): set<nat>
    requires n <= |metrics|
  {
    set i: nat | i < n && metrics[i].key in active
  }

  /** The chart is 75 high for every index whose metric key is active (the height follows the filter). */
  lemma {:induction false} HeightCountsActive(metrics: seq<Metric>, active: seq<string>, n: nat)
    requires n <= |metrics|
    ensures |VisibleMetrics(metrics[..n], active)| == |ActiveIndices(metrics, active, n)|
    ensures Height(VisibleMetrics(metrics[..n], active)) == 75.0 * |ActiveIndices(metrics, active, n)| as real
  {
    if n > 0 {
      HeightCountsActive(metrics, active, n - 1);
      assert metrics[..n] == metrics[..n - 1] + [metrics[n - 1]];
      VisibleMetricsAppend(metrics[..n - 1], [metrics[n - 1]], active);
      assert VisibleMetrics([metrics[n - 1]], active)
        == (if metrics[n - 1].key in active then [metrics[n - 1]] else []) + VisibleMetrics([], active);
      var before := ActiveIndices(metrics, active, n - 1);
      if metrics[n - 1].key in active {
        assert ActiveIndices(metrics, active, n) == before + {n - 1};
        assert n - 1 !in before;
      } else {
        assert ActiveIndices(metrics, active, n) == before;
      }
    } else {
      assert ActiveIndices(metrics, active, 0) == {};
    }
  }

  /** `xLeft`: domain [0, maxValue] onto [350, 80]. */
  function XLeft(v: real, maxValue: real): real
    requires maxValue != 0.0
  {
    AxisX - Reach * (v / maxValue)
  }

  /** `xRight`: domain [0, maxValue] onto [350, 620]. */
  function XRight(v: real, maxValue: real): real
    requires maxValue != 0.0
  {
    AxisX + Reach * (v / maxValue)
  }

  /** A value gets a bar when it is positive, or whatever it is for the games-played metric. */
  predicate ShowsBar(v: real, key: string) { v > 0.0 || key == "games_played" }

  datatype Side = Left | Right

  /** What the chart appends, in order. */
  datatype Mark =
    | Axis(x: real, height: real)
    | Label(x: real, text: string)
    | Bar(side: Side, x: real, width: real)
    | ValueText(side: Side, x: real, value: real)
    | NotAvailable(side: Side, x: real)

  /** The marks for one side of one metric: a bar and its value, or an "N/A" text 20 away from the
      axis. */
  function SideMarks(side: Side, v: real, key: string, maxValue: real): (ms: seq<Mark>)
    requires maxValue != 0.0
    ensures |ms| >= 1 && (ShowsBar(v, key) <==> ms[0].Bar?)
    ensures !ShowsBar(v, key) ==> ms == [NotAvailable(side, if side == Left then AxisX - 20.0 else AxisX + 20.0)]
    ensures ShowsBar(v, key) ==> |ms| == 2 && ms[0].side == side && ms[0].width == Reach * (v / maxValue)
  {
    if !ShowsBar(v, key) then
      [NotAvailable(side, if side == Left then AxisX - 20.0 else AxisX + 20.0)]
    else match side
      case Left =>
        [Bar(Left, XLeft(v, maxValue), AxisX - XLeft(v, maxValue)), ValueText(Left, XLeft(v, maxValue) - 8.0, v)]
      case Right =>
        [Bar(Right, AxisX, XRight(v, maxValue) - AxisX), ValueText(Right, XRight(v, maxValue) + 8.0, v)]
  }

  /** The marks for one metric: its label on the axis, then the left side, then the right side. */
  function MetricMarks(m: Metric, maxValue: real): seq<Mark>
    requires maxValue != 0.0
  {
    [Label(AxisX, m.caption)] + SideMarks(Left, m.p1, m.key, maxValue) + SideMarks(Right, m.p2, m.key, maxValue)
  }

  /** The marks of the `forEach` over the visible metrics. */
  function MarksFor(visible: seq<Metric>, maxValue: real): seq<Mark>
    requires maxValue != 0.0
  {
    if visible == [] then []
    else MarksFor(visible[..|visible| - 1], maxValue) + MetricMarks(visible[|visible| - 1], maxValue)
  }

  lemma MarksForSnoc(visible: seq<Metric>, i: nat, maxValue: real)
    requires i < |visible| && maxValue != 0.0
    ensures MarksFor(visible[..i + 1], maxValue) == MarksFor(visible[..i], maxValue) + MetricMarks(visible[i], maxValue)
  {
    assert visible[..i + 1][..i] == visible[..i];
    assert visible[..i + 1][i] == visible[i];
  }

  /** Everything the effect draws: the centre line, then each visible metric's marks. */
  function Chart(metrics: seq<Metric>, active: seq<string>): seq<Mark> {
    var visible := VisibleMetrics(metrics, active);
    [Axis(AxisX, Height(visible))] + MarksFor(visible, MaxValue(visible))
  }

  /** The drawing effect: the centre line, then the `forEach` over the visible metrics. */
  method Draw(metrics: seq<Metric>, active: seq<string>) returns (marks: seq<Mark>)
    ensures marks == Chart(metrics, active)
  {
    var visible := VisibleMetrics(metrics, active);
    var maxValue := MaxValue(visible);
    var body := DrawMetrics(visible, maxValue);
    marks := [Axis(AxisX, Height(visible))] + body;
  }

  /** The `forEach`: appends each metric's marks in turn. */
  method DrawMetrics(visible: seq<Metric>, maxValue: real) returns (marks: seq<Mark>)
    requires maxValue != 0.0
    ensures marks == MarksFor(visible, maxValue)
  {
    marks := [];
    var i := 0;
    while i < |visible|
      invariant 0 <= i <= |visible|
      invariant marks == MarksFor(visible[..i], maxValue)
    {
      MarksForSnoc(visible, i, maxValue);
      marks := marks + MetricMarks(visible[i], maxValue);
      i := i + 1;
    }
    assert visible[..i] == visible;
  }

  /** A scaled fraction of the reach stays within it. */
  lemma ScaleWithin(v: real, maxValue: real)
    requires 0.0 <= v <= maxValue
    requires maxValue > 0.0
    ensures 0.0 <= Reach * (v / maxValue) <= Reach
  {
    assert v / maxValue <= 1.0 by {
      assert v / maxValue * maxValue == v;
    }
  }

  /** A value equal to the scale's maximum spans the whole reach on either side. */
  lemma FullWidth(side: Side, key: string, maxValue: real)
    requires maxValue > 0.0
    ensures SideMarks(side, maxValue, key, maxValue)[0] ==
      Bar(side, if side == Left then AxisX - Reach else AxisX, Reach)
  {
    assert maxValue / maxValue == 1.0;
  }

  /** Some visible value equals the shared maximum, so its bar spans the whole reach. */
  lemma LargestPresent(visible: seq<Metric>)
    requires visible != [] && MaxOf(Values(visible)) > 0.0
    ensures exists i :: 0 <= i < |visible| && (visible[i].p1 == MaxValue(visible) || visible[i].p2 == MaxValue(visible))
  {
    var vs := Values(visible);
    var m := MaxOf(vs);
    assert MaxValue(visible) == m;
    var k := IndexOf(vs, m);
    var i := k / 2;
    assert k == 2 * i || k == 2 * i + 1;
    assert i < |visible|;
    ValuesAt(visible, i);
    assert visible[i].p1 == m || visible[i].p2 == m;
  }

  lemma IndexOf(xs: seq<real>, x: real) returns (k: nat)
    requires x in xs
    ensures k < |xs| && xs[k] == x
  {
    k :| 0 <= k < |xs| && xs[k] == x;
  }

  /** A bar mark lying inside the drawing area [80, 620]. */
  predicate InsideChart(mark: Mark) {
    mark.Bar? ==> 80.0 <= mark.x && mark.x + mark.width <= Width - 80.0
  }

  lemma MetricInside(m: Metric, maxValue: real)
    requires maxValue > 0.0
    requires 0.0 <= m.p1 <= maxValue && 0.0 <= m.p2 <= maxValue
    ensures forall j :: 0 <= j < |MetricMarks(m, maxValue)| ==> InsideChart(MetricMarks(m, maxValue)[j])
  {
    ScaleWithin(m.p1, maxValue);
    ScaleWithin(m.p2, maxValue);
  }

  /** With values between 0 and the scale's maximum, every bar stays within x in [80, 620]. */
  lemma {:induction false} BarsInside(visible: seq<Metric>, maxValue: real)
    requires maxValue > 0.0
    requires forall i :: 0 <= i < |visible| ==> 0.0 <= visible[i].p1 <= maxValue && 0.0 <= visible[i].p2 <= maxValue
    ensures forall j :: 0 <= j < |MarksFor(visible, maxValue)| ==> InsideChart(MarksFor(visible, maxValue)[j])
  {
    if visible != [] {
      var init := visible[..|visible| - 1];
      BarsInside(init, maxValue);
      MetricInside(visible[|visible| - 1], maxValue);
      var a, b := MarksFor(init, maxValue), MetricMarks(visible[|visible| - 1], maxValue);
      assert forall j :: |a| <= j < |a + b| ==> (a + b)[j] == b[j - |a|];
    }
  }

  /** For non-negative statistics the whole chart keeps its bars inside [80, 620]. */
  lemma ChartInside(metrics: seq<Metric>, active: seq<string>)
    requires forall i :: 0 <= i < |metrics| ==> metrics[i].p1 >= 0.0 && metrics[i].p2 >= 0.0
    ensures forall j :: 0 <= j < |Chart(metrics, active)| ==> InsideChart(Chart(metrics, active)[j])
  {
    var visible := VisibleMetrics(metrics, active);
    var mv := MaxValue(visible);
    forall i | 0 <= i < |visible|
      ensures 0.0 <= visible[i].p1 <= mv && 0.0 <= visible[i].p2 <= mv
    {
      VisibleMetricsExactly(metrics, active, visible[i]);
      assert visible[i] in visible;
      MaxValueBounds(visible, i);
    }
    BarsInside(visible, mv);
    var a, b := [Axis(AxisX, Height(visible))], MarksFor(visible, mv);
    assert forall j :: 1 <= j < |a + b| ==> (a + b)[j] == b[j - 1];
  }
}
