/** The average-line tooltip of the KPI charts, `avgLinePlugin.afterEvent`: the
    tooltip is shown when the pointer is inside the chart area and within a
    threshold of the dashed average line, placed right of the pointer and above
    the line, and clamped to the canvas. Coordinates are `real` CSS pixels. */
module Tooltip {
  import opened Wrappers

  /** A rectangle given by its edges (Chart.js's `chartArea`). */
  datatype Area = Area(left: real, right: real, top: real, bottom: real)

  /** A Chart.js event: a `mouseout`, or a pointer event with the browser's client
      coordinates (when they are numbers) and the chart's canvas coordinates. */
  datatype ChartEvent =
    | MouseOut
    | Pointer(clientX: Option<real>, clientY: Option<real>, x: real, y: real)

  /** The canvas's bounding rectangle and its size relative to the chart's pixel size
      (`rect.width / chart.width`, `rect.height / chart.height`). */
  datatype Canvas = Canvas(rectLeft: real, rectTop: real, rectWidth: real, ratioX: real, ratioY: real)

  /** What the handler does to the tooltip element. */
  datatype Effect = Unchanged | Hide | Show(left: real, top: real)

  const Padding: real := 8.0
  const Lift: real := 6.0
  const DefaultHoverThreshold: real := 10.0

  function Abs(x: real): real { if x < 0.0 then -x else x }
  function Max(a: real, b: real): real { if a < b then b else a }
  function Min(a: real, b: real): real { if a < b then a else b }

  /** Pointer position in CSS pixels: from the client coordinates when present,
      otherwise the canvas coordinates scaled by the ratio. */
  function CssX(ev: ChartEvent, canvas: Canvas): real
    requires ev.Pointer?
  {
    if ev.clientX.Some? then ev.clientX.value - canvas.rectLeft else ev.x * canvas.ratioX
  }

  function CssY(ev: ChartEvent, canvas: Canvas): real
    requires ev.Pointer?
  {
    if ev.clientY.Some? then ev.clientY.value - canvas.rectTop else ev.y * canvas.ratioY
  }

  /** The chart area in CSS pixels. */
  function CssArea(a: Area, canvas: Canvas): Area {
    Area(a.left * canvas.ratioX, a.right * canvas.ratioX, a.top * canvas.ratioY, a.bottom * canvas.ratioY)
  }

  /** Inside the area, edges included. */
  predicate WithinArea(x: real, y: real, a: Area) {
    a.left <= x <= a.right && a.top <= y <= a.bottom
  }

  predicate NearLine(yMouse: real, yLine: real, threshold: real) {
    Abs(yMouse - yLine) <= threshold
  }

  /** Where the tooltip goes: `padding` right of the pointer but inside [0, rect.width -
      tooltipWidth], and `tooltipHeight + 6` above the line but not above the canvas. */
  function Placement(xCss: real, yLineCss: real, rectWidth: real, tooltipWidth: real, tooltipHeight: real): (e: Effect)
    ensures e.Show?
    ensures e.left >= 0.0 && e.top >= 0.0
    ensures rectWidth - tooltipWidth >= 0.0 ==> e.left <= rectWidth - tooltipWidth
    ensures 0.0 <= xCss + Padding <= rectWidth - tooltipWidth ==> e.left == xCss + Padding
    ensures yLineCss - tooltipHeight - Lift >= 0.0 ==> e.top == yLineCss - tooltipHeight - Lift
    ensures yLineCss - tooltipHeight - Lift < 0.0 ==> e.top == 0.0
  {
    var maxLeft := rectWidth - tooltipWidth;
    Show(Max(0.0, Min(maxLeft, xCss + Padding)), Max(0.0, yLineCss - tooltipHeight - Lift))
  }

  /** `afterEvent`. `attached` says that the plugin has a tooltip element and a
      non-empty label; `pixelForValue` is the y scale's `getPixelForValue`. */
  function AfterEvent(attached: bool, avg: Option<real>, event: Option<ChartEvent>,
                      chartArea: Option<Area>, pixelForValue: Option<real -> real>,
                      canvas: Canvas, hoverThreshold: Option<real>,
                      tooltipWidth: real, tooltipHeight: real): (e: Effect)
    ensures e.Unchanged? <==>
              !attached || avg.None? || event.None? ||
              (event.value.Pointer? && (chartArea.None? || pixelForValue.None?))
    ensures e.Show? ==>
              event.Some? && event.value.Pointer? && chartArea.Some? && pixelForValue.Some? && avg.Some? &&
              WithinArea(CssX(event.value, canvas), CssY(event.value, canvas), CssArea(chartArea.value, canvas)) &&
              NearLine(CssY(event.value, canvas), pixelForValue.value(avg.value) * canvas.ratioY,
                       hoverThreshold.GetOr(DefaultHoverThreshold))
    ensures e.Show? ==> e.left >= 0.0 && e.top >= 0.0
    ensures e.Show? && canvas.rectWidth - tooltipWidth >= 0.0 ==> e.left <= canvas.rectWidth - tooltipWidth
  {
    if !attached || avg.None? || event.None? then Unchanged
    else if event.value.MouseOut? then Hide
    else if chartArea.None? || pixelForValue.None? then Unchanged
    else
      var ev := event.value;
      var xCss, yMouseCss := CssX(ev, canvas), CssY(ev, canvas);
      var yLineCss := pixelForValue.value(avg.value) * canvas.ratioY;
      var threshold := hoverThreshold.GetOr(DefaultHoverThreshold);
      if !WithinArea(xCss, yMouseCss, CssArea(chartArea.value, canvas)) || !NearLine(yMouseCss, yLineCss, threshold) then
        Hide
      else
        Placement(xCss, yLineCss, canvas.rectWidth, tooltipWidth, tooltipHeight)
  }

  /** Every pointer event that gets past the guards either hides or shows the tooltip,
      and it is shown exactly when the pointer is inside the area and near the line;
      a `mouseout` always hides it. */
  lemma ShownIffHit(avg: real, ev: ChartEvent, area: Area, pixelForValue: real -> real,
                    canvas: Canvas, hoverThreshold: Option<real>, tooltipWidth: real, tooltipHeight: real)
    ensures var e := AfterEvent(true, Some(avg), Some(ev), Some(area), Some(pixelForValue),
                                canvas, hoverThreshold, tooltipWidth, tooltipHeight);
      && (ev.MouseOut? ==> e == Hide)
      && (ev.Pointer? ==>
            (e.Show? <==>
               WithinArea(CssX(ev, canvas), CssY(ev, canvas), CssArea(area, canvas)) &&
               NearLine(CssY(ev, canvas), pixelForValue(avg) * canvas.ratioY,
                        hoverThreshold.GetOr(DefaultHoverThreshold))) &&
            (!e.Show? ==> e == Hide))
  {
  }

  /** A larger hover threshold never hides a tooltip that a smaller one shows, and
      with no threshold configured the default of 10 pixels applies. */
  lemma ThresholdMonotone(attached: bool, avg: Option<real>, event: Option<ChartEvent>,
                          chartArea: Option<Area>, pixelForValue: Option<real -> real>,
                          canvas: Canvas, t1: real, t2: real, tooltipWidth: real, tooltipHeight: real)
    requires t1 <= t2
    ensures AfterEvent(attached, avg, event, chartArea, pixelForValue, canvas, Some(t1), tooltipWidth, tooltipHeight).Show? ==>
            AfterEvent(attached, avg, event, chartArea, pixelForValue, canvas, Some(t2), tooltipWidth, tooltipHeight).Show?
    ensures AfterEvent(attached, avg, event, chartArea, pixelForValue, canvas, None, tooltipWidth, tooltipHeight) ==
            AfterEvent(attached, avg, event, chartArea, pixelForValue, canvas, Some(DefaultHoverThreshold), tooltipWidth, tooltipHeight)
  {
  }
}
