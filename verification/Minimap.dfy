/** Geometry of the scrollbar preview, over exact numbers: thumb, window of rows, and pixel tiling.
    `h` is the track height in pixels, `total` the number of rows, `viewport` the number of visible rows. */
module Minimap {

  const MIN_THUMB := 8.0

  function MinR(a: real, b: real): real {
    if a <= b then a else b
  }

  function MaxR(a: real, b: real): real {
    if a >= b then a else b
  }

  function MinI(a: int, b: int): int {
    if a <= b then a else b
  }

  function MaxI(a: int, b: int): int {
    if a >= b then a else b
  }

  /** Rounding to the nearest integer, halves to the even one. */
  function Round(x: real): int {
    var floor := x.Floor;
    var rest := x - floor as real;
    if rest < 0.5 then floor
    else if rest > 0.5 then floor + 1
    else if floor % 2 == 0 then floor
    else floor + 1
  }

  // ---------- the formulas ----------

  function Share(h: nat, part: int, total: nat): real
    requires total > 0
  {
    h as real * part as real / total as real
  }

  function ThumbH(h: nat, viewport: nat, total: nat): real
    requires total > 0
  {
    MaxR(MIN_THUMB, MinR(h as real, Share(h, viewport, total)))
  }

  function IndicatorY(topRow: nat, h: nat, viewport: nat, total: nat): real {
    var maxTop := total - viewport;
    if maxTop <= 0 then 0.0
    else MinI(topRow, maxTop) as real / maxTop as real * (h as real - ThumbH(h, viewport, total))
  }

  datatype Window = Window(start: int, count: int, scale: real, indicatorY: real)

  function WindowFor(topRow: nat, h: nat, viewport: nat, total: nat): Window
    requires viewport <= total || total <= h
  {
    if total <= h then Window(0, total, Scale(h, total), 0.0)
    else
      var anchor: nat := MinI(topRow, total - viewport);
      WindowAt(anchor, IndicatorY(anchor, h, viewport, total), h, total)
  }

  /** The window of a long document when the thumb's top edge is at `y`. */
  function WindowAt(anchor: nat, y: real, h: nat, total: nat): Window {
    var start := MaxI(0, Round(anchor as real - y));
    var count := MinI(h, MaxI(0, total - start));
    Window(start, count, Scale(h, count), y)
  }

  function Scale(h: nat, count: int): real {
    h as real / MaxI(1, count) as real
  }

  /** Pixel where row `i` starts. */
  function Cut(scale: real): nat -> int {
    (i: nat) => CutAt(i, scale)
  }

  function CutAt(i: nat, scale: real): int {
    Round(i as real * scale)
  }

  function Heights(cut: nat -> int, count: nat): (heights: seq<int>)
    ensures |heights| == count
  {
    seq(count, i requires 0 <= i => cut(i + 1) - cut(i))
  }

  function TiledHeights(count: nat, scale: real): (heights: seq<int>)
    ensures |heights| == count
  {
    Heights(Cut(scale), count)
  }

  function Total(heights: seq<int>): int {
    if heights == [] then 0 else Total(heights[..|heights| - 1]) + heights[|heights| - 1]
  }

  // ---------- rounding ----------

  lemma RoundIsNear(x: real)
    ensures -0.5 <= Round(x) as real - x <= 0.5
  {
  }

  lemma RoundOfInteger(n: int)
    ensures Round(n as real) == n
  {
  }

  /** A half goes to the even neighbour. */
  lemma HalvesRoundToEven(n: int)
    ensures Round(n as real + 0.5) == if n % 2 == 0 then n else n + 1
  {
  }

  /** More than one apart rounds to at least one apart. */
  lemma RoundStride(x: real, y: real)
    requires x + 1.0 < y
    ensures Round(y) - Round(x) >= 1
  {
  }

  // ---------- real arithmetic ----------

  lemma Quotient(a: real, b: real)
    requires b != 0.0
    ensures a / b * b == a
  {
  }

  // ---------- tiling ----------

  lemma {:induction false} HeightsTelescope(cut: nat -> int, n: nat)
    ensures Total(Heights(cut, n)) == cut(n) - cut(0)
  {
    if n > 0 {
      HeightsTelescope(cut, n - 1);
      assert Heights(cut, n)[..n - 1] == Heights(cut, n - 1);
    }
  }

  lemma CutAtZero(scale: real)
    ensures Cut(scale)(0) == 0
  {
  }

  lemma CutAtEnd(h: nat, count: nat)
    requires count >= 1
    ensures Cut(Scale(h, count))(count) == h
  {
  }

  /** The tiles fill the track without gap or overlap, unless there is a track and no row. */
  lemma TilesFillTrackIff(h: nat, count: nat)
    ensures Total(TiledHeights(count, Scale(h, count))) == h <==> count >= 1 || h == 0
  {
    HeightsTelescope(Cut(Scale(h, count)), count);
    CutAtZero(Scale(h, count));
    if count >= 1 {
      CutAtEnd(h, count);
    }
  }

  lemma ScaleAtLeastOne(h: nat, count: nat)
    requires 1 <= count <= h
    ensures if count == h then Scale(h, count) == 1.0 else Scale(h, count) > 1.0
  {
  }

  lemma CutIsRounded(scale: real, i: nat, x: real)
    requires x == i as real * scale
    ensures Cut(scale)(i) == Round(x)
  {
  }

  lemma NextCut(scale: real, i: nat, x: real)
    requires x == i as real * scale
    ensures Cut(scale)(i + 1) == Round(x + scale)
  {
  }

  lemma CutsApart(scale: real, i: nat)
    requires scale >= 1.0
    ensures Cut(scale)(i + 1) - Cut(scale)(i) >= 1
  {
    var x := i as real * scale;
    CutIsRounded(scale, i, x);
    NextCut(scale, i, x);
    if scale == 1.0 {
      assert x == i as real;
      RoundOfInteger(i);
      RoundOfInteger(i + 1);
    } else {
      RoundStride(x, x + scale);
    }
  }

  lemma TileAt(scale: real, count: nat, i: nat)
    requires scale >= 1.0 && i < count
    ensures TiledHeights(count, scale)[i] >= 1
  {
    CutsApart(scale, i);
    HeightAt(Cut(scale), count, i);
  }

  lemma HeightAt(cut: nat -> int, count: nat, i: nat)
    requires i < count
    ensures Heights(cut, count)[i] == cut(i + 1) - cut(i)
  {
  }

  lemma TileAtLeastOne(h: nat, count: nat, i: nat)
    requires 1 <= count <= h && i < count
    ensures TiledHeights(count, Scale(h, count))[i] >= 1
  {
    ScaleAtLeastOne(h, count);
    TileAt(Scale(h, count), count, i);
  }

  lemma {:induction false} TotalOfPositive(heights: seq<int>)
    requires forall i :: 0 <= i < |heights| ==> heights[i] >= 1
    ensures Total(heights) >= |heights|
  {
    if heights != [] {
      TotalOfPositive(heights[..|heights| - 1]);
    }
  }

  /** Every tile is visible exactly when there are no more rows than pixels. */
  lemma TilesVisibleIff(h: nat, count: nat)
    requires count >= 1
    ensures (forall i :: 0 <= i < count ==> TiledHeights(count, Scale(h, count))[i] >= 1) <==> count <= h
  {
    var heights := TiledHeights(count, Scale(h, count));
    if count <= h {
      forall i | 0 <= i < count
        ensures heights[i] >= 1
      {
        TileAtLeastOne(h, count, i);
      }
    } else if forall i :: 0 <= i < count ==> heights[i] >= 1 {
      TotalOfPositive(heights);
      TilesFillTrackIff(h, count);
      assert false;
    }
  }

  // ---------- fit regime: the whole document on the track ----------

  lemma ShareWithin(h: nat, part: nat, total: nat)
    requires 0 < total && part <= total
    ensures 0.0 <= Share(h, part, total) <= h as real
  {
  }

  lemma Product(a: real, b: real, c: real)
    requires 0.0 <= a <= b && 0.0 <= c
    ensures 0.0 <= c * a <= c * b
  {
  }

  lemma ShareAtLeast(h: nat, part: nat, total: nat)
    requires 0 < total
    ensures Share(h, part, total) >= MIN_THUMB <==> h * part >= 8 * total
  {
  }

  /** The thumb covers exactly the visible rows unless the eight-pixel minimum binds. */
  lemma ThumbIsShareIff(h: nat, viewport: nat, total: nat)
    requires 0 < total && viewport <= total
    ensures ThumbH(h, viewport, total) == Share(h, viewport, total) <==> h * viewport >= 8 * total
  {
    ShareWithin(h, viewport, total);
    ShareAtLeast(h, viewport, total);
  }

  /** Rows left over for travelling, in pixels. */
  lemma ShareOfRest(h: nat, viewport: nat, total: nat)
    requires 0 < total && viewport <= total
    ensures h as real - Share(h, viewport, total) == Share(h, total - viewport, total)
  {
  }

  /** Position of the thumb when its height is `thumb`. */
  lemma IndicatorSlope(topRow: nat, h: nat, viewport: nat, total: nat)
    requires viewport < total && topRow <= total - viewport
    ensures IndicatorY(topRow, h, viewport, total)
         == topRow as real * ((h as real - ThumbH(h, viewport, total)) / (total - viewport) as real)
  {
  }

  /** The thumb lies exactly over the visible rows at every position, or only at the top: it depends on
      the eight-pixel minimum alone. */
  lemma FitAlignedIff(h: nat, viewport: nat, total: nat, topRow: nat)
    requires viewport < total <= h && topRow <= total - viewport
    ensures IndicatorY(topRow, h, viewport, total) == Share(h, topRow, total)
       <==> topRow == 0 || h * viewport >= 8 * total
  {
    ThumbIsShareIff(h, viewport, total);
    AlignedIffThumb(h, viewport, total, topRow);
  }

  lemma AlignedIffThumb(h: nat, viewport: nat, total: nat, topRow: nat)
    requires viewport < total && topRow <= total - viewport
    ensures IndicatorY(topRow, h, viewport, total) == Share(h, topRow, total)
       <==> topRow == 0 || ThumbH(h, viewport, total) == Share(h, viewport, total)
  {
  }

  /** The script's own alignment claim fails here: 100 rows, one visible, 600 pixels. */
  lemma FitMisalignedExample()
    ensures IndicatorY(99, 600, 1, 100) != Share(600, 99, 100)
  {
  }

  /** When the minimum binds, the thumb has exactly eight pixels. */
  lemma SmallThumb(h: nat, viewport: nat, total: nat)
    requires 0 < total && viewport <= total && h * viewport < 8 * total
    ensures ThumbH(h, viewport, total) == 8.0
  {
    ShareAtLeast(h, viewport, total);
  }

  /** The thumb starts at the top of the track and ends at its bottom, and stays there when the position is
      beyond the document. */
  lemma ThumbSpansTrack(topRow: nat, h: nat, viewport: nat, total: nat)
    requires viewport < total
    ensures IndicatorY(0, h, viewport, total) == 0.0
    ensures topRow >= total - viewport ==> IndicatorY(topRow, h, viewport, total) == h as real - ThumbH(h, viewport, total)
  {
  }

  /** A document that fits is shown whole, from its first row, on the whole track, at every position. */
  lemma FitShowsAll(topRow: nat, h: nat, viewport: nat, total: nat)
    requires 1 <= total <= h
    ensures var w := WindowFor(topRow, h, viewport, total);
            && w.start == 0 && w.count == total && w.scale == h as real / total as real
            && Total(TiledHeights(w.count, w.scale)) == h
            && forall i :: 0 <= i < total ==> TiledHeights(w.count, w.scale)[i] >= 1
  {
    TilesFillTrackIff(h, total);
    TilesVisibleIff(h, total);
  }

  lemma ScaleIsShare(h: nat, part: nat, total: nat)
    requires total >= 1
    ensures part as real * Scale(h, total) == Share(h, part, total)
  {
  }

  /** The document overflows the viewport and the thumb would be smaller than eight pixels. */
  predicate MinimumBinds(h: nat, viewport: nat, total: nat) {
    viewport < total && h * viewport < 8 * total
  }

  lemma FitPosition(h: nat, viewport: nat, total: nat, topRow: nat)
    requires total <= h && topRow <= MaxI(0, total - viewport)
    ensures IndicatorY(topRow, h, viewport, total) == topRow as real * Scale(h, total)
       <==> topRow == 0 || !MinimumBinds(h, viewport, total)
  {
    if viewport < total {
      FitAlignedIff(h, viewport, total, topRow);
      ScaleIsShare(h, topRow, total);
    }
  }

  lemma FitThumb(h: nat, viewport: nat, total: nat)
    requires viewport < total <= h
    ensures ThumbH(h, viewport, total) == viewport as real * Scale(h, total) <==> !MinimumBinds(h, viewport, total)
  {
    ThumbIsShareIff(h, viewport, total);
    ScaleIsShare(h, viewport, total);
  }

  /** The script's six checks. */
  datatype Check = P1 | P2 | P3 | P4 | P5 | P6

  lemma FitTiles(h: nat, viewport: nat, total: nat)
    requires total <= h
    ensures var w := WindowFor(0, h, viewport, total);
            w.count == total && (Total(TiledHeights(w.count, w.scale)) == h <==> total >= 1 || h == 0)
  {
    TilesFillTrackIff(h, total);
  }

  /** One scenario of the fit regime. P1 and P2 are reported exactly when the document overflows the viewport
      and the eight-pixel minimum binds, P6 exactly when there is a track but no row. */
  method RunFit(total: nat, viewport: nat, h: nat) returns (failures: seq<Check>)
    requires total <= h
    ensures P1 in failures <==> MinimumBinds(h, viewport, total)
    ensures P2 in failures <==> MinimumBinds(h, viewport, total)
    ensures P6 in failures <==> total == 0 && h > 0
    ensures forall f :: f in failures ==> f in [P1, P2, P6]
  {
    failures := FitScan(total, viewport, h);
    if total > viewport {
      FitThumb(h, viewport, total);
      if ThumbH(h, viewport, total) != viewport as real * Scale(h, total) {
        failures := failures + [P2];
      }
    }
    var fills := FillsTrack(total, viewport, h);
    if !fills {
      failures := failures + [P6];
    }
  }

  method FillsTrack(total: nat, viewport: nat, h: nat) returns (fills: bool)
    requires total <= h
    ensures fills <==> total >= 1 || h == 0
  {
    FitTiles(h, viewport, total);
    var w := WindowFor(0, h, viewport, total);
    fills := Total(TiledHeights(w.count, w.scale)) == h;
  }

  /** The positions of one scenario. */
  method FitScan(total: nat, viewport: nat, h: nat) returns (failures: seq<Check>)
    requires total <= h
    ensures forall f :: f in failures ==> f == P1
    ensures P1 in failures <==> MinimumBinds(h, viewport, total)
  {
    failures := [];
    var maxTop: nat := MaxI(0, total - viewport);
    var topRow: nat := 0;
    while topRow <= maxTop
      invariant topRow <= maxTop + 1
      invariant forall f :: f in failures ==> f == P1
      invariant P1 in failures <==> topRow >= 2 && MinimumBinds(h, viewport, total)
    {
      FitPosition(h, viewport, total, topRow);
      if IndicatorY(topRow, h, viewport, total) != topRow as real * Scale(h, total) {
        failures := failures + [P1];
      }
      topRow := topRow + 1;
    }
  }

  // ---------- windowed regime: more rows than pixels ----------

  predicate Windowed(h: nat, viewport: nat, total: nat) {
    total > h >= 8 && 1 <= viewport < total
  }

  /** Pixels the thumb moves per scrolled row. */
  function Slope(h: nat, viewport: nat, total: nat): real
    requires viewport < total
  {
    (h as real - ThumbH(h, viewport, total)) / (total - viewport) as real
  }

  lemma ShareBelowPart(h: nat, part: nat, total: nat)
    requires h < total && part > 0
    ensures Share(h, part, total) < part as real
  {
  }

  lemma ThumbBounds(h: nat, viewport: nat, total: nat)
    requires Windowed(h, viewport, total)
    ensures MIN_THUMB <= ThumbH(h, viewport, total) <= h as real
    ensures ThumbH(h, viewport, total) == MaxR(MIN_THUMB, Share(h, viewport, total))
  {
  }

  /** The thumb travels fewer pixels than the document has rows to scroll. */
  lemma TravelBelowRows(h: nat, viewport: nat, total: nat)
    requires Windowed(h, viewport, total)
    ensures h as real - ThumbH(h, viewport, total) < (total - viewport) as real
  {
    ThumbBounds(h, viewport, total);
    ShareAtLeast(h, viewport, total);
    ShareOfRest(h, viewport, total);
    if h * viewport >= 8 * total {
      ShareBelowPart(h, total - viewport, total);
    } else {
      ShortThumbTravel(h, viewport, total);
    }
  }

  lemma ShortThumbTravel(h: nat, viewport: nat, total: nat)
    requires total > h >= 8 && h * viewport < 8 * total
    ensures h - 8 < total - viewport
  {
    var spare := total - h;
    NonNegativeProduct(h - 8, spare);
    assert (h - 8) * spare == h * spare - 8 * spare;
    assert h * viewport - 8 * h < h * spare;
    assert h * (viewport - 8) == h * viewport - 8 * h;
    LessFactor(h, viewport - 8, spare);
  }

  lemma NonNegativeProduct(a: int, b: int)
    requires a >= 0 && b >= 0
    ensures a * b >= 0
  {
  }

  lemma LessFactor(a: int, b: int, c: int)
    requires a > 0 && a * b < a * c
    ensures b < c
  {
  }

  lemma SlopeRange(travel: real, rows: real, slope: real)
    requires rows > 0.0 && slope * rows == travel && 0.0 <= travel < rows
    ensures 0.0 <= slope < 1.0
    ensures slope == 0.0 <==> travel == 0.0
  {
  }

  lemma SlopeBelowOne(h: nat, viewport: nat, total: nat)
    requires Windowed(h, viewport, total)
    ensures 0.0 <= Slope(h, viewport, total) < 1.0
  {
    ThumbBounds(h, viewport, total);
    TravelBelowRows(h, viewport, total);
    var travel, rows := h as real - ThumbH(h, viewport, total), (total - viewport) as real;
    Quotient(travel, rows);
    SlopeRange(travel, rows, Slope(h, viewport, total));
  }

  lemma Complement(a: real, slope: real)
    ensures a * (1.0 - slope) == a - a * slope
  {
  }

  lemma EdgeNotNegative(a: real, slope: real)
    requires a >= 0.0 && slope < 1.0
    ensures a * (1.0 - slope) >= 0.0
  {
    Product(0.0, 1.0 - slope, a);
  }

  lemma RoundNotNegative(x: real)
    requires x >= 0.0
    ensures Round(x) >= 0
  {
  }

  /** Unrounded first row of the window, when the thumb moves `slope` pixels per scrolled row. */
  function EdgeAt(topRow: nat, slope: real): real {
    topRow as real * (1.0 - slope)
  }

  /** Pixels travelled after scrolling `rows` rows. */
  function Travelled(rows: nat, slope: real): real {
    slope * rows as real
  }

  lemma WindowAtEdge(anchor: nat, slope: real, y: real, edge: real, h: nat, total: nat)
    requires y == anchor as real * slope && edge == EdgeAt(anchor, slope) && slope < 1.0
    ensures edge >= 0.0 && y == anchor as real - edge
    ensures WindowAt(anchor, y, h, total).start == Round(edge) >= 0
  {
    Complement(anchor as real, slope);
    EdgeNotNegative(anchor as real, slope);
    RoundNotNegative(edge);
  }

  /** The window starts at the rounded row that lies under the top of the track. */
  lemma StartIsRounded(topRow: nat, h: nat, viewport: nat, total: nat) returns (slope: real, edge: real)
    requires Windowed(h, viewport, total) && topRow <= total - viewport
    ensures slope == Slope(h, viewport, total)
    ensures 0.0 <= slope < 1.0
    ensures edge == EdgeAt(topRow, slope) && edge >= 0.0
    ensures WindowFor(topRow, h, viewport, total).start == Round(edge) >= 0
    ensures WindowFor(topRow, h, viewport, total).indicatorY == topRow as real - edge
  {
    slope := Slope(h, viewport, total);
    edge := EdgeAt(topRow, slope);
    SlopeBelowOne(h, viewport, total);
    IndicatorSlope(topRow, h, viewport, total);
    WindowAtEdge(topRow, slope, IndicatorY(topRow, h, viewport, total), edge, h, total);
  }

  lemma StepOfAtMostOne(x: real, step: real, n: int)
    requires 0.0 < step <= 1.0 && (step == 1.0 ==> x == n as real)
    ensures 0 <= Round(x + step) - Round(x) <= 1
  {
  }

  lemma NextEdge(topRow: nat, slope: real)
    ensures EdgeAt(topRow + 1, slope) == EdgeAt(topRow, slope) + (1.0 - slope)
    ensures slope == 0.0 ==> EdgeAt(topRow, slope) == topRow as real
  {
  }

  lemma EdgesAdvance(topRow: nat, slope: real)
    requires 0.0 <= slope < 1.0
    ensures 0 <= Round(EdgeAt(topRow + 1, slope)) - Round(EdgeAt(topRow, slope)) <= 1
  {
    NextEdge(topRow, slope);
    StepOfAtMostOne(EdgeAt(topRow, slope), 1.0 - slope, topRow);
  }

  /** Scrolling by one row moves the window by no row or one: no jump, although halves round to even. */
  lemma WindowAdvancesSmoothly(topRow: nat, h: nat, viewport: nat, total: nat)
    requires Windowed(h, viewport, total) && topRow + 1 <= total - viewport
    ensures 0 <= WindowFor(topRow + 1, h, viewport, total).start - WindowFor(topRow, h, viewport, total).start <= 1
  {
    var slope, x := StartIsRounded(topRow, h, viewport, total);
    var slope', y := StartIsRounded(topRow + 1, h, viewport, total);
    EdgesAdvance(topRow, slope);
  }

  /** The row under the thumb's top edge is the top visible row to within half a row. */
  lemma ThumbMarksTopRow(topRow: nat, h: nat, viewport: nat, total: nat)
    requires Windowed(h, viewport, total) && topRow <= total - viewport
    ensures var w := WindowFor(topRow, h, viewport, total);
            -0.5 <= w.start as real + w.indicatorY - topRow as real <= 0.5
  {
    var slope, edge := StartIsRounded(topRow, h, viewport, total);
    RoundIsNear(edge);
  }

  lemma {:induction false} StartBelowBottomStart(topRow: nat, h: nat, viewport: nat, total: nat)
    requires Windowed(h, viewport, total) && topRow <= total - viewport
    ensures WindowFor(topRow, h, viewport, total).start <= WindowFor(total - viewport, h, viewport, total).start
    decreases total - viewport - topRow
  {
    if topRow < total - viewport {
      WindowAdvancesSmoothly(topRow, h, viewport, total);
      StartBelowBottomStart(topRow + 1, h, viewport, total);
    }
  }

  lemma SlopeTimesRows(h: nat, viewport: nat, total: nat)
    requires viewport < total
    ensures Travelled(total - viewport, Slope(h, viewport, total)) == h as real - ThumbH(h, viewport, total)
  {
  }

  lemma ThumbAgainstViewport(h: nat, viewport: nat, total: nat)
    requires Windowed(h, viewport, total)
    ensures if viewport >= 8 then ThumbH(h, viewport, total) <= viewport as real else ThumbH(h, viewport, total) == 8.0
  {
    ThumbBounds(h, viewport, total);
    ShareBelowPart(h, viewport, total);
  }

  lemma BottomStart(h: nat, viewport: nat, total: nat)
    requires Windowed(h, viewport, total)
    ensures var start := WindowFor(total - viewport, h, viewport, total).start;
            if viewport >= 8 then start <= total - h else start == total - h + (8 - viewport)
  {
    var slope, edge := StartIsRounded(total - viewport, h, viewport, total);
    SlopeTimesRows(h, viewport, total);
    ThumbAgainstViewport(h, viewport, total);
    RoundedBottom(h, viewport, total, ThumbH(h, viewport, total), slope, edge);
  }

  lemma RoundedBottom(h: nat, viewport: nat, total: nat, thumb: real, slope: real, edge: real)
    requires viewport < total
    requires Travelled(total - viewport, slope) == h as real - thumb
    requires edge == EdgeAt(total - viewport, slope)
    requires if viewport >= 8 then thumb <= viewport as real else thumb == 8.0
    ensures if viewport >= 8 then Round(edge) <= total - h else Round(edge) == total - h + (8 - viewport)
  {
  }

  /** The window never leaves the document, never outgrows the track, and is never empty. */
  lemma WindowInsideDocument(topRow: nat, h: nat, viewport: nat, total: nat)
    requires Windowed(h, viewport, total) && topRow <= total - viewport
    ensures var w := WindowFor(topRow, h, viewport, total);
            && 0 <= w.start && 1 <= w.count <= h && w.start + w.count <= total
            && Total(TiledHeights(w.count, w.scale)) == h
  {
    var slope, edge := StartIsRounded(topRow, h, viewport, total);
    StartBelowBottomStart(topRow, h, viewport, total);
    BottomStart(h, viewport, total);
    TilesFillTrackIff(h, WindowFor(topRow, h, viewport, total).count);
  }

  /** The window has one row per pixel at every position exactly when the viewport has at least eight
      rows; otherwise it falls short at the bottom, by the rows missing to eight. */
  lemma WindowFullEverywhereIff(h: nat, viewport: nat, total: nat)
    requires Windowed(h, viewport, total)
    ensures (forall topRow: nat :: topRow <= total - viewport ==> WindowFor(topRow, h, viewport, total).count == h)
       <==> viewport >= 8
    ensures viewport < 8 ==> WindowFor(total - viewport, h, viewport, total).count == h - (8 - viewport)
  {
    BottomStart(h, viewport, total);
    if viewport >= 8 {
      forall topRow: nat | topRow <= total - viewport
        ensures WindowFor(topRow, h, viewport, total).count == h
      {
        var slope, edge := StartIsRounded(topRow, h, viewport, total);
        StartBelowBottomStart(topRow, h, viewport, total);
      }
    } else {
      var slope, edge := StartIsRounded(total - viewport, h, viewport, total);
    }
  }

  // ---------- the script's scan over every scroll position ----------

  /** One scenario of the windowed regime: the four checks at every position. */
  method RunWindowed(total: nat, viewport: nat, h: nat) returns (failures: seq<Check>)
    requires Windowed(h, viewport, total)
    ensures failures == []
  {
    failures := [];
    var previous := -1;
    var topRow: nat := 0;
    while topRow <= total - viewport
      invariant topRow <= total - viewport + 1
      invariant failures == []
      invariant topRow > 0 ==> previous == WindowFor(topRow - 1, h, viewport, total).start
    {
      var w := WindowFor(topRow, h, viewport, total);
      WindowInsideDocument(topRow, h, viewport, total);
      ThumbMarksTopRow(topRow, h, viewport, total);
      var off := w.start as real + w.indicatorY - topRow as real;
      if off > 1.0 || off < -1.0 {
        failures := failures + [P3];
      }
      if topRow > 0 {
        WindowAdvancesSmoothly(topRow - 1, h, viewport, total);
        if !(0 <= w.start - previous <= 1) {
          failures := failures + [P4];
        }
      }
      previous := w.start;
      if !(0 <= w.count <= h && w.start + w.count <= total) {
        failures := failures + [P5];
      }
      if w.count < 0 || Total(TiledHeights(w.count, w.scale)) != h {
        failures := failures + [P6];
      }
      topRow := topRow + 1;
    }
  }
}
