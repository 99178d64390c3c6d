/** The chart geometry of drawChart (public/main.js): a fixed y-range, clamped series,
    gridlines every tick, an optional threshold line, index-based x spacing and two time labels.
    The canvas is a list of abstract draw commands; strokes, colours and fonts are not modelled. */
module Chart {
  import opened Basics
  import opened JsMath
  import opened Profiles

  const PadLeft: real := 50.0
  const PadRight: real := 10.0
  const PadTop: real := 10.0
  const PadBottom: real := 26.0
  /** Slack at the upper end of the tick loop. */
  const TickEpsilon: real := 0.001
  /** `cfg.tick || 1000`. */
  const FallbackTick: real := 1000.0
  /** `canvas.clientWidth || 300`, `canvas.clientHeight || 160`. */
  const FallbackCssWidth: nat := 300
  const FallbackCssHeight: nat := 160
  /** Offset of the time labels below the plot area. */
  const LabelDrop: real := 18.0

  type Ratio = r: real | r >= 0.0

  /** One drawing operation, in CSS pixels. */
  datatype Draw =
    | Axes(x: real, top: real, bottom: real, right: real)  // left axis then bottom axis
    | Gridline(y: real, x0: real, x1: real)
    | TickLabel(value: int, x: real, y: real)
    | ThresholdLine(y: real, x0: real, x1: real)           // dashed
    | Vertex(x: real, y: real)                             // one corner of the series polyline
    | Marker(x: real, y: real)                             // one point marker
    | TimeLabel(t: int, x: real, y: real)                  // a reading's time of day

  function PlotWidth(w: real): (pw: real) { w - PadLeft - PadRight }
  function PlotHeight(h: real): (ph: real) { h - PadTop - PadBottom }

  /** `toY`: a display value's y coordinate on the configured, fixed axis range. */
  function ToY(c: Config, plotH: real, v: real): (y: real)
    requires c.yMin < c.yMax
    ensures v == c.yMin ==> y == PadTop + plotH
    ensures v == c.yMax ==> y == PadTop
  {
    assert (c.yMax - c.yMin) / (c.yMax - c.yMin) == 1.0;
    PadTop + plotH - ((v - c.yMin) / (c.yMax - c.yMin)) * plotH
  }

  /** Horizontal distance between consecutive points: by index, not by time. */
  function Step(plotW: real, n: nat): (dx: real)
  {
    if n > 1 then plotW / (n - 1) as real else plotW
  }

  function XAt(plotW: real, n: nat, i: nat): (x: real)
  {
    PadLeft + i as real * Step(plotW, n)
  }

  /** The plotted y of reading i: transformed, clamped into the axis range, mapped by toY. */
  function YAt(c: Config, plotH: real, hist: seq<Reading>, i: nat): (y: real)
    requires WellFormed(c) && i < |hist|
  {
    ToY(c, plotH, Clamp(Display(c, hist[i].v), c.yMin, c.yMax))
  }

  function EffectiveTick(c: Config): (t: real)
    requires WellFormed(c)
    ensures t > 0.0
  {
    if c.tick == 0.0 then FallbackTick else c.tick
  }

  /** The value of the k-th gridline, yMin + k·tick. */
  function TickValue(c: Config, k: nat): (v: real)
    requires WellFormed(c)
  {
    c.yMin + k as real * EffectiveTick(c)
  }

  /** How many gridlines the tick loop draws. */
  function TickCount(c: Config): (n: nat)
    requires WellFormed(c)
    ensures n >= 1
  {
    var q := (c.yMax + TickEpsilon - c.yMin) / EffectiveTick(c);
    assert q >= 0.0;
    q.Floor + 1
  }

  /** One iteration of the tick loop: the gridline and its rounded value label. */
  function GridStep(c: Config, plotW: real, plotH: real, yTick: real): (ds: seq<Draw>)
    requires WellFormed(c)
  {
    var y := ToY(c, plotH, yTick);
    [Gridline(y, PadLeft, PadLeft + plotW), TickLabel(Round(yTick), PadLeft - 6.0, y + 4.0)]
  }

  /** The first k iterations of the tick loop. */
  function GridUpTo(c: Config, plotW: real, plotH: real, k: nat): (ds: seq<Draw>)
    requires WellFormed(c)
  {
    if k == 0 then [] else GridUpTo(c, plotW, plotH, k - 1) + GridStep(c, plotW, plotH, TickValue(c, k - 1))
  }

  /** The threshold line, drawn only when the threshold lies inside the axis range. */
  function ThresholdMark(c: Config, threshold: real, plotW: real, plotH: real): (ds: seq<Draw>)
    requires WellFormed(c)
  {
    if c.yMin <= threshold <= c.yMax then [ThresholdLine(ToY(c, plotH, threshold), PadLeft, PadLeft + plotW)]
    else []
  }

  /** The first i corners of the series polyline. */
  function SeriesUpTo(c: Config, hist: seq<Reading>, plotW: real, plotH: real, i: nat): (ds: seq<Draw>)
    requires WellFormed(c) && i <= |hist|
  {
    if i == 0 then []
    else SeriesUpTo(c, hist, plotW, plotH, i - 1) + [Vertex(XAt(plotW, |hist|, i - 1), YAt(c, plotH, hist, i - 1))]
  }

  /** The first i point markers. */
  function MarkersUpTo(c: Config, hist: seq<Reading>, plotW: real, plotH: real, i: nat): (ds: seq<Draw>)
    requires WellFormed(c) && i <= |hist|
  {
    if i == 0 then []
    else MarkersUpTo(c, hist, plotW, plotH, i - 1) + [Marker(XAt(plotW, |hist|, i - 1), YAt(c, plotH, hist, i - 1))]
  }

  /** The first reading's time at the left edge, the last one's at the right edge when there are two or more. */
  function TimeLabels(hist: seq<Reading>, plotW: real, plotH: real): (ds: seq<Draw>)
    requires |hist| > 0
  {
    var n := |hist|;
    [TimeLabel(hist[0].t, PadLeft, PadTop + plotH + LabelDrop)]
    + (if n >= 2 then [TimeLabel(hist[n - 1].t, PadLeft + plotW, PadTop + plotH + LabelDrop)] else [])
  }

  function AxesBox(plotW: real, plotH: real): (d: Draw)
  {
    Axes(PadLeft, PadTop, PadTop + plotH, PadLeft + plotW)
  }

  /** Everything drawChart draws after clearing a w × h canvas (CSS pixels). */
  function ChartFrame(c: Config, threshold: real, hist: seq<Reading>, w: real, h: real): (f: seq<Draw>)
    requires WellFormed(c)
    ensures |f| > 0 && f[0] == AxesBox(PlotWidth(w), PlotHeight(h))
    ensures |hist| == 0 ==> |f| == 1
    ensures |hist| > 0 ==> |f| == 1 + 2 * TickCount(c) + (if c.yMin <= threshold <= c.yMax then 1 else 0)
                                 + 2 * |hist| + (if |hist| >= 2 then 2 else 1)
  {
    var plotW, plotH := PlotWidth(w), PlotHeight(h);
    GridLength(c, plotW, plotH, TickCount(c));
    SeriesAt(c, hist, plotW, plotH, |hist|, 0);
    if |hist| == 0 then [AxesBox(plotW, plotH)]
    else ([AxesBox(plotW, plotH)]
      + GridUpTo(c, plotW, plotH, TickCount(c))
      + ThresholdMark(c, threshold, plotW, plotH)
      + SeriesUpTo(c, hist, plotW, plotH, |hist|)
      + MarkersUpTo(c, hist, plotW, plotH, |hist|)
      + TimeLabels(hist, plotW, plotH))
  }

  /** `window.devicePixelRatio || 1`. */
  function EffectiveDpr(d: Ratio): (r: real)
    ensures r > 0.0
  {
    if d == 0.0 then 1.0 else d
  }

  function CssSize(client: nat, fallback: nat): (css: nat)
  {
    if client == 0 then fallback else client
  }

  /** `Math.floor(css × DPR)`: the backing-buffer size for a CSS size. */
  function BackingSize(css: nat, d: Ratio): (px: nat)
    ensures EffectiveDpr(d) == 1.0 ==> px == css
  {
    var p := css as real * EffectiveDpr(d);
    assert p >= 0.0;
    p.Floor
  }

  /** The frame drawChart produces for a canvas of the given CSS box and pixel ratio. */
  function Frame(c: Config, threshold: real, hist: seq<Reading>, clientWidth: nat, clientHeight: nat, d: Ratio): (f: seq<Draw>)
    requires WellFormed(c)
    ensures d == 0.0 || d == 1.0 ==>
      f == ChartFrame(c, threshold, hist, CssSize(clientWidth, FallbackCssWidth) as real, CssSize(clientHeight, FallbackCssHeight) as real)
  {
    var dpr := EffectiveDpr(d);
    var w := BackingSize(CssSize(clientWidth, FallbackCssWidth), d) as real / dpr;
    var h := BackingSize(CssSize(clientHeight, FallbackCssHeight), d) as real / dpr;
    assert dpr == 1.0 ==> w == CssSize(clientWidth, FallbackCssWidth) as real && h == CssSize(clientHeight, FallbackCssHeight) as real;
    ChartFrame(c, threshold, hist, w, h)
  }

  // ---------------------------------------------------------------------------------------
  // Properties of the frame

  lemma {:induction false} MulMonotone(a: real, b: real, t: real)
    requires t > 0.0
    ensures a <= b <==> a * t <= b * t
  {
    assert b * t - a * t == (b - a) * t;
  }

  /** Gridline k is drawn exactly when yMin + k·tick does not exceed yMax (plus the epsilon). */
  lemma {:induction false} TickIndex(c: Config, k: nat)
    requires WellFormed(c)
    ensures TickValue(c, k) <= c.yMax + TickEpsilon <==> k < TickCount(c)
  {
    var t := EffectiveTick(c);
    var d := c.yMax + TickEpsilon - c.yMin;
    var q := d / t;
    assert q * t == d;
    MulMonotone(k as real, q, t);
    assert k as real <= q <==> k <= q.Floor;
  }

  lemma {:induction false} GridAt(c: Config, plotW: real, plotH: real, k: nat, j: nat)
    requires WellFormed(c) && j < k
    ensures |GridUpTo(c, plotW, plotH, k)| == 2 * k
    ensures GridUpTo(c, plotW, plotH, k)[2 * j] == Gridline(ToY(c, plotH, TickValue(c, j)), PadLeft, PadLeft + plotW)
    ensures GridUpTo(c, plotW, plotH, k)[2 * j + 1] == TickLabel(Round(TickValue(c, j)), PadLeft - 6.0, ToY(c, plotH, TickValue(c, j)) + 4.0)
  {
    if j < k - 1 {
      GridAt(c, plotW, plotH, k - 1, j);
    } else if k > 1 {
      GridLength(c, plotW, plotH, k - 1);
    }
  }

  lemma {:induction false} GridLength(c: Config, plotW: real, plotH: real, k: nat)
    requires WellFormed(c)
    ensures |GridUpTo(c, plotW, plotH, k)| == 2 * k
  {
    if k > 0 {
      GridLength(c, plotW, plotH, k - 1);
    }
  }

  /** The grid: one gridline and one label per k with yMin + k·tick <= yMax + 0.001, in
      increasing k, and nothing else. */
  lemma GridlinesExactly(c: Config, plotW: real, plotH: real)
    requires WellFormed(c)
    ensures |GridUpTo(c, plotW, plotH, TickCount(c))| == 2 * TickCount(c)
    ensures forall k: nat :: TickValue(c, k) <= c.yMax + TickEpsilon <==> k < TickCount(c)
    ensures forall k: nat :: k < TickCount(c) ==>
      GridUpTo(c, plotW, plotH, TickCount(c))[2 * k] == Gridline(ToY(c, plotH, TickValue(c, k)), PadLeft, PadLeft + plotW)
  {
    GridLength(c, plotW, plotH, TickCount(c));
    forall k: nat ensures TickValue(c, k) <= c.yMax + TickEpsilon <==> k < TickCount(c) {
      TickIndex(c, k);
    }
    forall k: nat | k < TickCount(c)
      ensures GridUpTo(c, plotW, plotH, TickCount(c))[2 * k] == Gridline(ToY(c, plotH, TickValue(c, k)), PadLeft, PadLeft + plotW)
    {
      GridAt(c, plotW, plotH, TickCount(c), k);
    }
  }

  /** The configured profiles: five gridlines (0..4000) for photo and the fallback, nine (300..500) for current. */
  lemma ProfileTickCounts()
    ensures TickCount(Photo) == 5 && TickCount(Fallback) == 5 && TickCount(Current) == 9
  {
    assert (Photo.yMax + TickEpsilon - Photo.yMin) / EffectiveTick(Photo) == 4.096001;
    assert (Current.yMax + TickEpsilon - Current.yMin) / EffectiveTick(Current) == 8.00004;
  }

  lemma {:induction false} GridKinds(c: Config, plotW: real, plotH: real, k: nat)
    requires WellFormed(c)
    ensures forall d :: d in GridUpTo(c, plotW, plotH, k) ==> d.Gridline? || d.TickLabel?
  {
    if k > 0 {
      GridKinds(c, plotW, plotH, k - 1);
    }
  }

  /** A fraction in [0, 1] of a span lies between 0 and the span, whatever its sign. */
  lemma {:induction false} FractionOfSpan(g: real, p: real)
    requires 0.0 <= g <= 1.0
    ensures Between(g * p, 0.0, p)
  {
    if p > 0.0 {
      MulMonotone(0.0, g, p);
      MulMonotone(g, 1.0, p);
    } else if p < 0.0 {
      MulMonotone(0.0, g, 0.0 - p);
      MulMonotone(g, 1.0, 0.0 - p);
      assert g * p == 0.0 - g * (0.0 - p);
    }
  }

  /** The position of v between yMin and yMax, as a fraction of the axis range. */
  lemma {:induction false} AxisFraction(c: Config, v: real)
    requires WellFormed(c) && c.yMin <= v <= c.yMax
    ensures 0.0 <= (v - c.yMin) / (c.yMax - c.yMin) <= 1.0
  {
    var d := c.yMax - c.yMin;
    var f := (v - c.yMin) / d;
    assert f * d == v - c.yMin;
    MulMonotone(f, 1.0, d);
    assert f * d <= 1.0 * d;
    MulMonotone(0.0, f, d);
    assert 0.0 * d <= f * d;
  }

  /** A plotted y always lies inside the plot band, whatever the reading: the clamp keeps it on the axis. */
  lemma {:induction false} PlottedYInBand(c: Config, plotH: real, hist: seq<Reading>, i: nat)
    requires WellFormed(c) && i < |hist|
    ensures Between(YAt(c, plotH, hist, i), PadTop, PadTop + plotH)
  {
    var v := Clamp(Display(c, hist[i].v), c.yMin, c.yMax);
    var f := (v - c.yMin) / (c.yMax - c.yMin);
    AxisFraction(c, v);
    FractionOfSpan(1.0 - f, plotH);
    assert YAt(c, plotH, hist, i) == PadTop + (1.0 - f) * plotH;
  }

  /** A reading whose display value is at or above yMax plots on the top edge, one at or below
      yMin on the bottom edge. */
  lemma OutliersPlotOnEdges(c: Config, plotH: real, hist: seq<Reading>, i: nat)
    requires WellFormed(c) && i < |hist|
    ensures Display(c, hist[i].v) >= c.yMax ==> YAt(c, plotH, hist, i) == PadTop
    ensures Display(c, hist[i].v) <= c.yMin ==> YAt(c, plotH, hist, i) == PadTop + plotH
  {
    assert (c.yMin - c.yMin) / (c.yMax - c.yMin) * plotH == 0.0;
  }

  lemma {:induction false} SeriesAt(c: Config, hist: seq<Reading>, plotW: real, plotH: real, i: nat, j: nat)
    requires WellFormed(c) && i <= |hist|
    ensures |SeriesUpTo(c, hist, plotW, plotH, i)| == i
    ensures |MarkersUpTo(c, hist, plotW, plotH, i)| == i
    ensures j < i ==> SeriesUpTo(c, hist, plotW, plotH, i)[j] == Vertex(XAt(plotW, |hist|, j), YAt(c, plotH, hist, j))
    ensures j < i ==> MarkersUpTo(c, hist, plotW, plotH, i)[j] == Marker(XAt(plotW, |hist|, j), YAt(c, plotH, hist, j))
  {
    if i > 0 {
      SeriesAt(c, hist, plotW, plotH, i - 1, j);
    }
  }

  lemma {:induction false} SeriesInBand(c: Config, hist: seq<Reading>, plotW: real, plotH: real, i: nat)
    requires WellFormed(c) && i <= |hist|
    ensures forall d :: d in SeriesUpTo(c, hist, plotW, plotH, i) ==> d.Vertex? && Between(d.y, PadTop, PadTop + plotH)
    ensures forall d :: d in MarkersUpTo(c, hist, plotW, plotH, i) ==> d.Marker? && Between(d.y, PadTop, PadTop + plotH)
  {
    if i > 0 {
      SeriesInBand(c, hist, plotW, plotH, i - 1);
      PlottedYInBand(c, plotH, hist, i - 1);
    }
  }

  /** Points are spaced evenly by index from the left edge; with two or more points the last
      one sits on the right edge. */
  lemma {:induction false} XPositions(plotW: real, n: nat)
    requires n > 0
    ensures XAt(plotW, n, 0) == PadLeft
    ensures forall i: nat :: i + 1 < n ==> XAt(plotW, n, i + 1) - XAt(plotW, n, i) == Step(plotW, n)
    ensures n > 1 ==> XAt(plotW, n, n - 1) == PadLeft + plotW
  {
    forall i: nat | i + 1 < n ensures XAt(plotW, n, i + 1) - XAt(plotW, n, i) == Step(plotW, n) {
      assert (i + 1) as real * Step(plotW, n) == i as real * Step(plotW, n) + Step(plotW, n);
    }
    if n > 1 {
      assert (n - 1) as real * (plotW / (n - 1) as real) == plotW;
    }
  }

  /** With no history the frame is the axes box alone; otherwise there is more than the box. */
  lemma {:induction false} EmptyHistoryOnlyBox(c: Config, threshold: real, hist: seq<Reading>, w: real, h: real)
    requires WellFormed(c)
    ensures ChartFrame(c, threshold, hist, w, h) == [AxesBox(PlotWidth(w), PlotHeight(h))] <==> |hist| == 0
  {
    if |hist| > 0 {
      assert ChartFrame(c, threshold, hist, w, h)[|ChartFrame(c, threshold, hist, w, h)| - 1].TimeLabel?;
    }
  }

  /** Where each kind of command in a non-empty frame comes from. */
  lemma {:induction false} FrameParts(c: Config, threshold: real, hist: seq<Reading>, w: real, h: real, d: Draw)
    requires WellFormed(c) && |hist| > 0 && d in ChartFrame(c, threshold, hist, w, h)
    ensures d.ThresholdLine? ==> d in ThresholdMark(c, threshold, PlotWidth(w), PlotHeight(h))
    ensures d.TimeLabel? ==> d in TimeLabels(hist, PlotWidth(w), PlotHeight(h))
    ensures d.Vertex? || d.Marker? ==> Between(d.y, PadTop, PadTop + PlotHeight(h))
  {
    var plotW, plotH := PlotWidth(w), PlotHeight(h);
    GridKinds(c, plotW, plotH, TickCount(c));
    SeriesInBand(c, hist, plotW, plotH, |hist|);
  }

  /** The threshold line is drawn, once, exactly when there is history and
      yMin <= threshold <= yMax. */
  lemma ThresholdLineIff(c: Config, threshold: real, hist: seq<Reading>, w: real, h: real)
    requires WellFormed(c)
    ensures (exists d :: d in ChartFrame(c, threshold, hist, w, h) && d.ThresholdLine?)
            <==> |hist| > 0 && c.yMin <= threshold <= c.yMax
  {
    var f := ChartFrame(c, threshold, hist, w, h);
    if |hist| > 0 {
      forall d | d in f && d.ThresholdLine? ensures c.yMin <= threshold <= c.yMax {
        FrameParts(c, threshold, hist, w, h, d);
      }
      if c.yMin <= threshold <= c.yMax {
        assert ThresholdMark(c, threshold, PlotWidth(w), PlotHeight(h))[0] in f;
      }
    }
  }

  /** Every plotted point, polyline corner or marker, lies in [top, top + plotH] (read in
      whichever order the two bounds come on a canvas shorter than the padding). */
  lemma PointsInBand(c: Config, threshold: real, hist: seq<Reading>, w: real, h: real)
    requires WellFormed(c)
    ensures forall d :: d in ChartFrame(c, threshold, hist, w, h) && (d.Vertex? || d.Marker?) ==>
      Between(d.y, PadTop, PadTop + PlotHeight(h))
  {
    forall d | d in ChartFrame(c, threshold, hist, w, h) && (d.Vertex? || d.Marker?)
      ensures Between(d.y, PadTop, PadTop + PlotHeight(h))
    {
      FrameParts(c, threshold, hist, w, h, d);
    }
  }

  /** The time labels: the first reading's at the left edge, and the last reading's at the
      right edge only when there are at least two readings; no other time label is drawn. */
  lemma TimeLabelsDrawn(c: Config, threshold: real, hist: seq<Reading>, w: real, h: real)
    requires WellFormed(c) && |hist| > 0
    ensures var f := ChartFrame(c, threshold, hist, w, h);
      var y := PadTop + PlotHeight(h) + LabelDrop;
      && TimeLabel(hist[0].t, PadLeft, y) in f
      && (forall d :: d in f && d.TimeLabel? ==>
            d == TimeLabel(hist[0].t, PadLeft, y)
            || (|hist| >= 2 && d == TimeLabel(hist[|hist| - 1].t, PadLeft + PlotWidth(w), y)))
      && (|hist| >= 2 ==> f[|f| - 1] == TimeLabel(hist[|hist| - 1].t, PadLeft + PlotWidth(w), y))
  {
    var f := ChartFrame(c, threshold, hist, w, h);
    forall d | d in f && d.TimeLabel?
      ensures d in TimeLabels(hist, PlotWidth(w), PlotHeight(h))
    {
      FrameParts(c, threshold, hist, w, h, d);
    }
  }

  // ---------------------------------------------------------------------------------------
  // The canvas and drawChart

  /** What a drawChart call was asked to show. */
  datatype Picture = Picture(config: Config, threshold: real, hist: seq<Reading>)

  /** A chart canvas: its CSS box and the window's pixel ratio (set by the browser), its backing
      buffer size, and what has been drawn since the last clear. */
  class Canvas {
    var clientWidth: nat
    var clientHeight: nat
    var devicePixelRatio: Ratio
    var width: int
    var height: int
    var frame: seq<Draw>
    ghost var shows: Option<Picture>    // the arguments of the last drawChart

    /** The drawing on the canvas is the frame of the last drawChart for the current CSS box. */
    ghost predicate Consistent()
      reads this
    {
      shows.Some? ==>
        && WellFormed(shows.value.config)
        && frame == Frame(shows.value.config, shows.value.threshold, shows.value.hist, clientWidth, clientHeight, devicePixelRatio)
    }

    /** A fresh canvas element has the HTML default 300 × 150 buffer and nothing drawn. */
    constructor (clientWidth: nat, clientHeight: nat, dpr: Ratio)
      ensures this.clientWidth == clientWidth && this.clientHeight == clientHeight
      ensures devicePixelRatio == dpr
      ensures width == 300 && height == 150 && frame == [] && shows == None
    {
      this.clientWidth := clientWidth;
      this.clientHeight := clientHeight;
      devicePixelRatio := dpr;
      width := 300;
      height := 150;
      frame := [];
      shows := None;
    }
  }

  /** drawChart: resize the backing buffer if it no longer matches the CSS box, clear, and draw
      the frame for the given configuration, threshold and history. Only the canvas changes. */
  method DrawChart(canvas: Canvas, c: Config, threshold: real, hist: seq<Reading>)
    requires WellFormed(c)
    modifies canvas
    ensures canvas.clientWidth == old(canvas.clientWidth) && canvas.clientHeight == old(canvas.clientHeight)
    ensures canvas.devicePixelRatio == old(canvas.devicePixelRatio)
    ensures canvas.width == BackingSize(CssSize(canvas.clientWidth, FallbackCssWidth), canvas.devicePixelRatio)
    ensures canvas.height == BackingSize(CssSize(canvas.clientHeight, FallbackCssHeight), canvas.devicePixelRatio)
    ensures canvas.frame == Frame(c, threshold, hist, canvas.clientWidth, canvas.clientHeight, canvas.devicePixelRatio)
    ensures canvas.shows == Some(Picture(c, threshold, hist)) && canvas.Consistent()
  {
    var dpr := EffectiveDpr(canvas.devicePixelRatio);
    var backW := BackingSize(CssSize(canvas.clientWidth, FallbackCssWidth), canvas.devicePixelRatio);
    var backH := BackingSize(CssSize(canvas.clientHeight, FallbackCssHeight), canvas.devicePixelRatio);
    if canvas.width != backW || canvas.height != backH {
      canvas.width := backW;
      canvas.height := backH;
    }
    var w := canvas.width as real / dpr;
    var h := canvas.height as real / dpr;
    DrawFrame(canvas, c, threshold, hist, w, h);
    canvas.shows := Some(Picture(c, threshold, hist));
  }

  /** Clear a w × h canvas and draw: the axes box, then, with history, the grid, the threshold
      line, the series, the markers and the time labels. */
  method DrawFrame(canvas: Canvas, c: Config, threshold: real, hist: seq<Reading>, w: real, h: real)
    requires WellFormed(c)
    modifies canvas`frame
    ensures canvas.frame == ChartFrame(c, threshold, hist, w, h)
  {
    var plotW := w - PadLeft - PadRight;
    var plotH := h - PadTop - PadBottom;
    assert plotW == PlotWidth(w) && plotH == PlotHeight(h);

    canvas.frame := [];
    canvas.frame := canvas.frame + [Axes(PadLeft, PadTop, PadTop + plotH, PadLeft + plotW)];
    if |hist| == 0 {
      return;
    }
    ghost var box := canvas.frame;

    DrawGrid(canvas, c, plotW, plotH);
    ghost var grid := canvas.frame;

    if threshold >= c.yMin && threshold <= c.yMax {
      var yAlarm := ToY(c, plotH, threshold);
      canvas.frame := canvas.frame + [ThresholdLine(yAlarm, PadLeft, PadLeft + plotW)];
    }
    assert canvas.frame == grid + ThresholdMark(c, threshold, plotW, plotH);

    DrawSeries(canvas, c, hist, plotW, plotH, false);
    DrawSeries(canvas, c, hist, plotW, plotH, true);
    ghost var plotted := canvas.frame;

    var n := |hist|;
    canvas.frame := canvas.frame + [TimeLabel(hist[0].t, PadLeft, PadTop + plotH + LabelDrop)];
    if n >= 2 {
      canvas.frame := canvas.frame + [TimeLabel(hist[n - 1].t, PadLeft + plotW, PadTop + plotH + LabelDrop)];
    }
    assert canvas.frame == plotted + TimeLabels(hist, plotW, plotH);
    assert box == [AxesBox(plotW, plotH)];
    assert canvas.frame == [AxesBox(plotW, plotH)]
      + GridUpTo(c, plotW, plotH, TickCount(c))
      + ThresholdMark(c, threshold, plotW, plotH)
      + SeriesUpTo(c, hist, plotW, plotH, |hist|)
      + MarkersUpTo(c, hist, plotW, plotH, |hist|)
      + TimeLabels(hist, plotW, plotH);
  }

  /** The tick loop: `for (yTick = yMin; yTick <= yMax + 0.001; yTick += tick)`. */
  method DrawGrid(canvas: Canvas, c: Config, plotW: real, plotH: real)
    requires WellFormed(c)
    modifies canvas`frame
    ensures canvas.frame == old(canvas.frame) + GridUpTo(c, plotW, plotH, TickCount(c))
  {
    var tick := EffectiveTick(c);
    var yTick := c.yMin;
    ghost var k: nat := 0;
    while yTick <= c.yMax + TickEpsilon
      invariant yTick == TickValue(c, k)
      invariant k <= TickCount(c)
      invariant canvas.frame == old(canvas.frame) + GridUpTo(c, plotW, plotH, k)
      decreases TickCount(c) - k
    {
      TickContinues(c, k, yTick);
      canvas.frame := canvas.frame + GridStep(c, plotW, plotH, yTick);
      yTick := yTick + tick;
      k := k + 1;
    }
    TickIndex(c, k);
  }

  /** The tick loop goes on from gridline k only while k is below the count, and then the
      next tick value is one tick higher. */
  lemma TickContinues(c: Config, k: nat, y: real)
    requires WellFormed(c) && y == TickValue(c, k) && y <= c.yMax + TickEpsilon
    ensures k < TickCount(c)
    ensures y + EffectiveTick(c) == TickValue(c, k + 1)
  {
    TickIndex(c, k);
    assert (k + 1) as real * EffectiveTick(c) == k as real * EffectiveTick(c) + EffectiveTick(c);
  }

  /** The series loop (markers = false) or the points loop (markers = true): x by index, y of
      the clamped display value. */
  method DrawSeries(canvas: Canvas, c: Config, hist: seq<Reading>, plotW: real, plotH: real, markers: bool)
    requires WellFormed(c)
    modifies canvas`frame
    ensures canvas.frame == old(canvas.frame) +
      (if markers then MarkersUpTo(c, hist, plotW, plotH, |hist|) else SeriesUpTo(c, hist, plotW, plotH, |hist|))
  {
    var n := |hist|;
    var i := 0;
    while i < n
      invariant 0 <= i <= n
      invariant canvas.frame == old(canvas.frame) +
        (if markers then MarkersUpTo(c, hist, plotW, plotH, i) else SeriesUpTo(c, hist, plotW, plotH, i))
    {
      var x := XAt(plotW, n, i);
      var y := YAt(c, plotH, hist, i);
      canvas.frame := canvas.frame + [if markers then Marker(x, y) else Vertex(x, y)];
      i := i + 1;
    }
  }
}
