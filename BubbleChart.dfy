/** The clutch bubble chart: the dynamic x-axis maximum, the linear scales for position and radius,
    the numbering of the bubbles and their legend rows, and the axis ticks. */
module BubbleChart {
  import opened Wrappers
  import opened Numbers
  import opened Text

  /** One team or player plotted: points per game, win and field-goal percentages, colour. */
  datatype Datum = Datum(name: string, ppg: real, winPct: real, fgPct: real, colour: string)

  const InnerWidth: real := 640.0   // 1000 - 60 - 300
  const InnerHeight: real := 390.0  // 500 - 50 - 60
  const BaseMax := 50

  /** `d3.max(data, d => d.ppg)` over non-empty data. */
  function MaxPpg(data: seq<Datum>): (m: real)
    requires |data| >= 1
    ensures exists i :: 0 <= i < |data| && data[i].ppg == m
    ensures forall i :: 0 <= i < |data| ==> data[i].ppg <= m
  {
    if |data| == 1 then data[0].ppg
    else
      var rest := MaxPpg(data[1..]);
      assert forall i :: 1 <= i < |data| ==> data[i] == data[1..][i - 1];
      if data[0].ppg >= rest then data[0].ppg else rest
  }

  /** `maxPPG > 50 ? Math.ceil(maxPPG / 5) * 5 : 50`: 50, or the smallest multiple of 5 at or above
      the maximum. */
  function DynamicMax(maxPpg: real): (d: int)
    ensures d >= BaseMax && d % 5 == 0 && maxPpg <= d as real
    ensures maxPpg <= BaseMax as real ==> d == BaseMax
    ensures maxPpg > BaseMax as real ==> maxPpg > (d - 5) as real
  {
    if maxPpg > BaseMax as real then
      var c := Ceil(maxPpg / 5.0);
      assert maxPpg / 5.0 <= c as real < maxPpg / 5.0 + 1.0;
      assert c >= 11;
      c * 5
    else BaseMax
  }

  /** No multiple of 5 that is at least 50 and at least the maximum is smaller than `DynamicMax`. */
  lemma DynamicMaxLeast(maxPpg: real, d: int)
    requires d >= BaseMax && d % 5 == 0 && maxPpg <= d as real
    ensures DynamicMax(maxPpg) <= d
  {
  }

  /** `radius`: domain [0, 100] onto [15, 45], not clamped. */
  function Radius(fgPct: real): real {
    15.0 + (fgPct / 100.0) * 30.0
  }

  /** `x`: domain [-5, dynamicMax] onto [0, 640]. */
  function X(ppg: real, dynamicMax: int): real
    requires dynamicMax >= BaseMax
  {
    InnerWidth * ((ppg + 5.0) / (dynamicMax as real + 5.0))
  }

  /** `y`: domain [-18, 100] onto [390, 0]. */
  function Y(winPct: real): real {
    InnerHeight - InnerHeight * ((winPct + 18.0) / 118.0)
  }

  /** The radius is 15 + 0.3 fg%: within [15, 45] for percentages in [0, 100], and beyond 45 above
      100, since the scale is not clamped. */
  lemma RadiusRange(fgPct: real)
    ensures Radius(fgPct) == 15.0 + 0.3 * fgPct
    ensures 0.0 <= fgPct <= 100.0 ==> 15.0 <= Radius(fgPct) <= 45.0
    ensures fgPct > 100.0 ==> Radius(fgPct) > 45.0
  {
  }

  /** `a / span` lies in [0, 1] when `a` lies in [0, span]. */
  lemma FractionWithin(a: real, span: real)
    requires span > 0.0 && 0.0 <= a <= span
    ensures 0.0 <= a / span <= 1.0
  {
    assert a / span * span == a;
  }

  /** Points between -5 and the axis maximum land inside the 640-wide plot. */
  lemma XWithin(ppg: real, dynamicMax: int)
    requires dynamicMax >= BaseMax
    requires -5.0 <= ppg <= dynamicMax as real
    ensures 0.0 <= X(ppg, dynamicMax) <= InnerWidth
  {
    FractionWithin(ppg + 5.0, dynamicMax as real + 5.0);
  }

  /** Win percentages between -18 and 100 land inside the 390-high plot, higher ones nearer the top. */
  lemma YWithin(w: real, v: real)
    requires -18.0 <= w <= 100.0
    ensures 0.0 <= Y(w) <= InnerHeight
    ensures w < v ==> Y(v) < Y(w)
  {
    FractionWithin(w + 18.0, 118.0);
  }

  /** `d3.range(start, stop, step)` for whole numbers. */
  function Range(start: int, stop: int, step: nat): seq<int>
    requires step > 0
    decreases stop - start
  {
    if start >= stop then [] else [start] + Range(start + step, stop, step)
  }

  /** The range counts up by `step` from `start`, taking every value below `stop`. */
  lemma {:induction false} RangeShape(start: int, stop: int, step: nat)
    requires step > 0
    ensures var r := Range(start, stop, step);
      && (forall i :: 0 <= i < |r| ==> r[i] == start + i * step && r[i] < stop)
      && (r != [] ==> r[|r| - 1] + step >= stop)
      && (start < stop <==> r != [])
    decreases stop - start
  {
    if start < stop {
      RangeShape(start + step, stop, step);
      var r := Range(start, stop, step);
      var rest := Range(start + step, stop, step);
      forall i | 0 <= i < |r|
        ensures r[i] == start + i * step
      {
        if i > 0 {
          assert r[i] == rest[i - 1];
          assert start + step + (i - 1) * step == start + i * step;
        }
      }
    }
  }

  /** The x ticks `d3.range(0, dynamicMax + 1, 5)` are 0, 5, …, dynamicMax. */
  lemma XTicks(dynamicMax: int)
    requires dynamicMax >= BaseMax && dynamicMax % 5 == 0
    ensures var ticks := Range(0, dynamicMax + 1, 5);
      |ticks| == dynamicMax / 5 + 1 && ticks[0] == 0 && ticks[|ticks| - 1] == dynamicMax
      && forall i :: 0 <= i < |ticks| ==> ticks[i] == 5 * i
  {
    RangeShape(0, dynamicMax + 1, 5);
    var ticks := Range(0, dynamicMax + 1, 5);
    var n := |ticks|;
    assert ticks[n - 1] == 5 * (n - 1);
    assert 5 * (n - 1) <= dynamicMax < 5 * (n - 1) + 5;
  }

  /** The y ticks `d3.range(0, 101, 10)` are 0, 10, …, 100. */
  lemma YTicks()
    ensures var ticks := Range(0, 101, 10);
      |ticks| == 11 && forall i :: 0 <= i < |ticks| ==> ticks[i] == 10 * i
  {
    RangeShape(0, 101, 10);
    var ticks := Range(0, 101, 10);
    var n := |ticks|;
    assert ticks[n - 1] == 10 * (n - 1);
    assert 10 * (n - 1) <= 100 < 10 * (n - 1) + 10;
  }

  /** A drawn bubble with its number, and its legend row. */
  datatype Bubble = Bubble(index: nat, cx: real, cy: real, r: real, colour: string, number: string)
  datatype LegendRow = LegendRow(offsetY: nat, colour: string, text: string)

  /** What one effect run draws. */
  datatype Plot = Plot(dynamicMax: int, bubbles: seq<Bubble>, legend: seq<LegendRow>,
                       xTicks: seq<int>, yTicks: seq<int>)

  /** The bubble for the datum at position `i` (numbered `i + 1`). */
  function BubbleAt(d: Datum, i: nat, dynamicMax: int): Bubble
    requires dynamicMax >= BaseMax
  {
    Bubble(i + 1, X(d.ppg, dynamicMax), Y(d.winPct), Radius(d.fgPct), d.colour, NatToString(i + 1) + ".")
  }

  /** The legend row for the datum at position `i`: 34 lower per row. */
  function LegendAt(d: Datum, i: nat): LegendRow {
    LegendRow(34 * i, d.colour, NatToString(i + 1) + ". " + d.name)
  }

  /** The chart for the given data; nothing when the data is missing or empty. */
  function PlotFor(data: Option<seq<Datum>>): Option<Plot> {
    if data.None? || data.value == [] then None
    else
      var ds := data.value;
      var dm := DynamicMax(MaxPpg(ds));
      Some(Plot(dm, Bubbles(ds, dm), Legend(ds), Range(0, dm + 1, 5), Range(0, 101, 10)))
  }

  /** One bubble per datum, in input order. */
  function Bubbles(ds: seq<Datum>, dm: int): seq<Bubble>
    requires dm >= BaseMax
  {
    seq(|ds|, i requires 0 <= i < |ds| => BubbleAt(ds[i], i, dm))
  }

  /** One legend row per datum, in input order. */
  function Legend(ds: seq<Datum>): seq<LegendRow>
  {
    seq(|ds|, i requires 0 <= i < |ds| => LegendAt(ds[i], i))
  }

  /** The effect: bail out on no data, then the bubbles' data join and the legend's `.each`. */
  method Draw(data: Option<seq<Datum>>) returns (plot: Option<Plot>)
    ensures plot == PlotFor(data)
  {
    if data.None? || |data.value| == 0 {
      return None;
    }
    var ds := data.value;
    var dm := DynamicMax(MaxPpg(ds));
    var bubbles := DrawBubbles(ds, dm);
    var legend := DrawLegend(ds);
    plot := Some(Plot(dm, bubbles, legend, Range(0, dm + 1, 5), Range(0, 101, 10)));
  }

  /** One circle and one number per datum, appended in input order. */
  method DrawBubbles(ds: seq<Datum>, dm: int) returns (bubbles: seq<Bubble>)
    requires dm >= BaseMax
    ensures bubbles == Bubbles(ds, dm)
  {
    bubbles := [];
    var i := 0;
    while i < |ds|
      invariant 0 <= i <= |ds|
      invariant |bubbles| == i
      invariant forall j :: 0 <= j < i ==> bubbles[j] == BubbleAt(ds[j], j, dm)
    {
      bubbles := bubbles + [BubbleAt(ds[i], i, dm)];
      i := i + 1;
    }
  }

  /** One legend row per datum, appended in input order. */
  method DrawLegend(ds: seq<Datum>) returns (legend: seq<LegendRow>)
    ensures legend == Legend(ds)
  {
    legend := [];
    var i := 0;
    while i < |ds|
      invariant 0 <= i <= |ds|
      invariant |legend| == i
      invariant forall j :: 0 <= j < i ==> legend[j] == LegendAt(ds[j], j)
    {
      legend := legend + [LegendAt(ds[i], i)];
      i := i + 1;
    }
  }

  /** Nothing is drawn exactly when the data is missing or empty; otherwise every datum gets one
      bubble and one legend row, numbered 1..n in input order with rows 34 apart. */
  lemma PlotNumbering(data: Option<seq<Datum>>)
    ensures PlotFor(data).None? <==> data.None? || data.value == []
    ensures PlotFor(data).Some? ==>
      var p := PlotFor(data).value;
      |p.bubbles| == |data.value| && |p.legend| == |data.value|
      && (forall i :: 0 <= i < |p.bubbles| ==> p.bubbles[i].index == i + 1 && p.bubbles[i].colour == data.value[i].colour)
      && (forall i :: 0 <= i < |p.legend| ==>
            p.legend[i].offsetY == 34 * i && p.legend[i].text == NatToString(i + 1) + ". " + data.value[i].name)
  {
  }

  /** With all points per game between -5 and the axis maximum, every bubble centre lies in the plot. */
  lemma BubblesInside(data: seq<Datum>)
    requires data != []
    requires forall i :: 0 <= i < |data| ==> -5.0 <= data[i].ppg && -18.0 <= data[i].winPct <= 100.0
    ensures var p := PlotFor(Some(data)).value;
      forall i :: 0 <= i < |p.bubbles| ==> 0.0 <= p.bubbles[i].cx <= InnerWidth && 0.0 <= p.bubbles[i].cy <= InnerHeight
  {
    var dm := DynamicMax(MaxPpg(data));
    forall i | 0 <= i < |data|
      ensures 0.0 <= X(data[i].ppg, dm) <= InnerWidth && 0.0 <= Y(data[i].winPct) <= InnerHeight
    {
      XWithin(data[i].ppg, dm);
      YWithin(data[i].winPct, data[i].winPct);
    }
  }

  /** One datum at 30 points, 80% wins and 50% shooting: axis maximum 50 and a bubble of radius 30. */
  lemma SingleDatum(name: string, colour: string)
    ensures var p := PlotFor(Some([Datum(name, 30.0, 80.0, 50.0, colour)])).value;
      p.dynamicMax == 50 && |p.bubbles| == 1 && p.bubbles[0].r == 30.0
      && p.bubbles[0].cx == 640.0 * 35.0 / 55.0 && p.bubbles[0].cy == 390.0 - 390.0 * 98.0 / 118.0
      && p.bubbles[0].number == "1."
  {
    assert MaxPpg([Datum(name, 30.0, 80.0, 50.0, colour)]) == 30.0;
    assert NatToString(1) == "1";
  }

  /** A best of 51 points stretches the axis to 55. */
  lemma AxisStretches()
    ensures DynamicMax(51.0) == 55
  {
    var c := Ceil(51.0 / 5.0);
    assert 10.2 <= c as real < 11.2;
  }
}
