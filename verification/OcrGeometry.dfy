/** Boxes of paddle_ocr.py: corners of a quadrilateral, intersection over union, corner zones. Ratios are exact. */
module OcrGeometry {

  datatype Point = Point(x: real, y: real)

  datatype Box = Box(minX: int, minY: int, maxX: int, maxY: int)

  /** `int(x)`: truncation toward zero. */
  function Trunc(x: real): int {
    if x >= 0.0 then x.Floor else -((-x).Floor)
  }

  lemma TruncMonotone(x: real, y: real)
    requires x <= y
    ensures Trunc(x) <= Trunc(y)
  {
  }

  function MinReal(a: real, b: real): real { if b < a then b else a }

  function MaxReal(a: real, b: real): real { if b > a then b else a }

  function MinX(points: seq<Point>): real
    requires points != []
  {
    if |points| == 1 then points[0].x else MinReal(MinX(points[..|points| - 1]), points[|points| - 1].x)
  }

  function MaxX(points: seq<Point>): real
    requires points != []
  {
    if |points| == 1 then points[0].x else MaxReal(MaxX(points[..|points| - 1]), points[|points| - 1].x)
  }

  function MinY(points: seq<Point>): real
    requires points != []
  {
    if |points| == 1 then points[0].y else MinReal(MinY(points[..|points| - 1]), points[|points| - 1].y)
  }

  function MaxY(points: seq<Point>): real
    requires points != []
  {
    if |points| == 1 then points[0].y else MaxReal(MaxY(points[..|points| - 1]), points[|points| - 1].y)
  }

  /** The bounding box of a quadrilateral; anything else gives the empty box at the origin. */
  function GetCornersFromPoints(points: seq<Point>): Box {
    if |points| != 4 then Box(0, 0, 0, 0)
    else Box(Trunc(MinX(points)), Trunc(MinY(points)), Trunc(MaxX(points)), Trunc(MaxY(points)))
  }

  predicate WellFormed(b: Box) { b.minX <= b.maxX && b.minY <= b.maxY }

  /** `n` is `x` with its fraction cut off. */
  predicate Truncates(x: real, n: int) {
    (x >= 0.0 ==> n as real <= x < (n + 1) as real) && (x <= 0.0 ==> (n - 1) as real < x <= n as real)
  }

  lemma TruncSays(x: real, n: int)
    ensures Truncates(x, n) <==> n == Trunc(x)
  {
  }

  /** The least and the greatest coordinates are coordinates of points. */
  lemma {:induction false} ExtremesAttained(points: seq<Point>) returns (l: nat, r: nat, t: nat, b: nat)
    requires points != []
    ensures l < |points| && r < |points| && t < |points| && b < |points|
    ensures MinX(points) == points[l].x && MaxX(points) == points[r].x
    ensures MinY(points) == points[t].y && MaxY(points) == points[b].y
  {
    l, r, t, b := 0, 0, 0, 0;
    if |points| > 1 {
      var n := |points| - 1;
      l, r, t, b := ExtremesAttained(points[..n]);
      if points[n].x < points[l].x { l := n; }
      if points[n].x > points[r].x { r := n; }
      if points[n].y < points[t].y { t := n; }
      if points[n].y > points[b].y { b := n; }
    }
  }

  lemma {:induction false} Extremes(points: seq<Point>, k: nat)
    requires k < |points|
    ensures MinX(points) <= points[k].x <= MaxX(points) && MinY(points) <= points[k].y <= MaxY(points)
  {
    if k < |points| - 1 {
      Extremes(points[..|points| - 1], k);
    } else if |points| > 1 {
      Extremes(points[..|points| - 1], 0);
    }
  }

  /** `n` is the least, or the greatest, truncated x of the points; and so for y. */
  ghost predicate LeastX(points: seq<Point>, n: int) {
    && (exists k :: 0 <= k < |points| && Truncates(points[k].x, n))
    && forall k, m :: 0 <= k < |points| && Truncates(points[k].x, m) ==> n <= m
  }

  ghost predicate GreatestX(points: seq<Point>, n: int) {
    && (exists k :: 0 <= k < |points| && Truncates(points[k].x, n))
    && forall k, m :: 0 <= k < |points| && Truncates(points[k].x, m) ==> m <= n
  }

  ghost predicate LeastY(points: seq<Point>, n: int) {
    && (exists k :: 0 <= k < |points| && Truncates(points[k].y, n))
    && forall k, m :: 0 <= k < |points| && Truncates(points[k].y, m) ==> n <= m
  }

  ghost predicate GreatestY(points: seq<Point>, n: int) {
    && (exists k :: 0 <= k < |points| && Truncates(points[k].y, n))
    && forall k, m :: 0 <= k < |points| && Truncates(points[k].y, m) ==> m <= n
  }

  /** The box of four points is bounded by their truncated coordinates; anything else gives the box at the origin. */
  lemma CornersSay(points: seq<Point>)
    ensures
      var box := GetCornersFromPoints(points);
      if |points| == 4
      then
        && LeastX(points, box.minX) && GreatestX(points, box.maxX)
        && LeastY(points, box.minY) && GreatestY(points, box.maxY)
      else box == Box(0, 0, 0, 0)
  {
    if |points| == 4 {
      var l, r, t, b := ExtremesAttained(points);
      TruncSays(points[l].x, Trunc(points[l].x));
      TruncSays(points[r].x, Trunc(points[r].x));
      TruncSays(points[t].y, Trunc(points[t].y));
      TruncSays(points[b].y, Trunc(points[b].y));
      CornersAreWellFormed(points);
      forall k, m | 0 <= k < |points| && Truncates(points[k].x, m)
        ensures GetCornersFromPoints(points).minX <= m <= GetCornersFromPoints(points).maxX
      {
        TruncSays(points[k].x, m);
      }
      forall k, m | 0 <= k < |points| && Truncates(points[k].y, m)
        ensures GetCornersFromPoints(points).minY <= m <= GetCornersFromPoints(points).maxY
      {
        TruncSays(points[k].y, m);
      }
    }
  }

  /** Every box the detectors compute is well-formed, and holds the truncated points it was made from. */
  lemma CornersAreWellFormed(points: seq<Point>)
    ensures WellFormed(GetCornersFromPoints(points))
    ensures |points| == 4 ==> forall k :: 0 <= k < 4 ==>
              var b := GetCornersFromPoints(points);
              b.minX <= Trunc(points[k].x) <= b.maxX && b.minY <= Trunc(points[k].y) <= b.maxY
  {
    if |points| == 4 {
      forall k | 0 <= k < 4
        ensures Trunc(MinX(points)) <= Trunc(points[k].x) <= Trunc(MaxX(points))
        ensures Trunc(MinY(points)) <= Trunc(points[k].y) <= Trunc(MaxY(points))
      {
        Extremes(points, k);
        TruncMonotone(MinX(points), points[k].x);
        TruncMonotone(points[k].x, MaxX(points));
        TruncMonotone(MinY(points), points[k].y);
        TruncMonotone(points[k].y, MaxY(points));
      }
      assert Trunc(MinX(points)) <= Trunc(points[0].x) <= Trunc(MaxX(points));
    }
  }

  // ---- Intersection over union ----

  function Max(a: int, b: int): int { if b > a then b else a }

  function Min(a: int, b: int): int { if b < a then b else a }

  function Area(b: Box): int { (b.maxX - b.minX) * (b.maxY - b.minY) }

  /** The overlap of two boxes along the axes. */
  function OverlapX(a: Box, b: Box): int { Max(0, Min(a.maxX, b.maxX) - Max(a.minX, b.minX)) }

  function OverlapY(a: Box, b: Box): int { Max(0, Min(a.maxY, b.maxY) - Max(a.minY, b.minY)) }

  function Intersection(a: Box, b: Box): int { OverlapX(a, b) * OverlapY(a, b) }

  function Ratio(part: int, whole: int): real
  {
    if whole > 0 then part as real / whole as real else 0.0
  }

  function CalculateIou(a: Box, b: Box): real {
    var inter := Intersection(a, b);
    Ratio(inter, Area(a) + Area(b) - inter)
  }

  lemma IouSymmetric(a: Box, b: Box)
    ensures CalculateIou(a, b) == CalculateIou(b, a)
  {
    assert Intersection(a, b) == Intersection(b, a);
  }

  lemma ProductMonotone(w: int, h: int, w': int, h': int)
    requires 0 <= w <= w' && 0 <= h <= h'
    ensures 0 <= w * h <= w' * h'
  {
    assert w * h <= w' * h;
    assert w' * h <= w' * h';
  }

  lemma IntersectionBounded(a: Box, b: Box)
    requires WellFormed(a) && WellFormed(b)
    ensures 0 <= Intersection(a, b) <= Area(a)
    ensures Intersection(a, b) <= Area(b)
  {
    ProductMonotone(OverlapX(a, b), OverlapY(a, b), a.maxX - a.minX, a.maxY - a.minY);
    ProductMonotone(OverlapX(a, b), OverlapY(a, b), b.maxX - b.minX, b.maxY - b.minY);
  }

  lemma QuotientBounded(a: real, b: real)
    requires 0.0 <= a <= b && b > 0.0
    ensures 0.0 <= a / b <= 1.0
  {
    assert a / b * b == a;
  }

  lemma RatioBounded(part: int, whole: int)
    requires 0 <= part <= whole
    ensures 0.0 <= Ratio(part, whole) <= 1.0
    ensures part == whole > 0 ==> Ratio(part, whole) == 1.0
  {
    if whole > 0 { QuotientBounded(part as real, whole as real); }
  }

  /** IoU of well-formed boxes lies between 0 and 1. */
  lemma IouBounded(a: Box, b: Box)
    requires WellFormed(a) && WellFormed(b)
    ensures 0.0 <= CalculateIou(a, b) <= 1.0
  {
    IntersectionBounded(a, b);
    RatioBounded(Intersection(a, b), Area(a) + Area(b) - Intersection(a, b));
  }

  /** A flat box, such as that of a detection without four points, has no overlap with any box, so it never continues
      a track. */
  lemma FlatNeverMatches(a: Box, b: Box)
    requires WellFormed(a) && WellFormed(b) && (a.minX == a.maxX || a.minY == a.maxY)
    ensures CalculateIou(a, b) == 0.0 && CalculateIou(b, a) == 0.0
  {
    assert OverlapX(a, b) == 0 || OverlapY(a, b) == 0;
    assert Intersection(a, b) == 0;
    IouSymmetric(a, b);
  }

  /** A box matches itself exactly when it has an area. */
  lemma IouSelf(b: Box)
    requires WellFormed(b)
    ensures CalculateIou(b, b) == if b.minX < b.maxX && b.minY < b.maxY then 1.0 else 0.0
  {
    var w, h := b.maxX - b.minX, b.maxY - b.minY;
    assert Intersection(b, b) == w * h == Area(b);
    if w > 0 && h > 0 {
      assert w * h > 0;
      RatioBounded(w * h, w * h);
    } else {
      assert w * h == 0;
    }
  }

  // ---- Counting cells ----

  /** The unit cells of a box. */
  ghost function Cells(b: Box): set<(int, int)> {
    set x: int, y: int | b.minX <= x < b.maxX && b.minY <= y < b.maxY :: (x, y)
  }

  ghost function Column(x: int, minY: int, maxY: int): set<(int, int)> {
    set y: int | minY <= y < maxY :: (x, y)
  }

  lemma {:induction false} ColumnCount(x: int, minY: int, maxY: int)
    requires minY <= maxY
    ensures |Column(x, minY, maxY)| == maxY - minY
    decreases maxY - minY
  {
    if minY < maxY {
      ColumnCount(x, minY, maxY - 1);
      assert Column(x, minY, maxY) == Column(x, minY, maxY - 1) + {(x, maxY - 1)};
    } else {
      assert Column(x, minY, maxY) == {};
    }
  }

  lemma OneMoreColumn(b: Box, less: Box)
    requires b.minX < b.maxX && less == b.(maxX := b.maxX - 1)
    ensures |Cells(b)| == |Cells(less)| + |Column(b.maxX - 1, b.minY, b.maxY)|
  {
    assert Cells(b) == Cells(less) + Column(b.maxX - 1, b.minY, b.maxY);
    assert Cells(less) * Column(b.maxX - 1, b.minY, b.maxY) == {};
  }

  lemma OneMoreArea(width: int, height: int)
    ensures width * height == (width - 1) * height + height
  {
  }

  lemma {:induction false} CellsCount(b: Box)
    requires WellFormed(b)
    ensures |Cells(b)| == Area(b)
    decreases b.maxX - b.minX
  {
    if b.minX < b.maxX {
      var less := b.(maxX := b.maxX - 1);
      CellsCount(less);
      ColumnCount(b.maxX - 1, b.minY, b.maxY);
      OneMoreColumn(b, less);
      OneMoreArea(b.maxX - b.minX, b.maxY - b.minY);
    } else {
      assert Cells(b) == {};
    }
  }

  lemma CellsShared(a: Box, b: Box)
    requires WellFormed(a) && WellFormed(b)
    ensures |Cells(a) * Cells(b)| == Intersection(a, b)
  {
    var x, y := Max(a.minX, b.minX), Max(a.minY, b.minY);
    var both := Box(x, y, x + OverlapX(a, b), y + OverlapY(a, b));
    CellsCount(both);
    assert Cells(a) * Cells(b) == Cells(both);
    assert (both.maxX - both.minX) * (both.maxY - both.minY) == OverlapX(a, b) * OverlapY(a, b);
  }

  /** The ratio of two well-formed boxes is the number of cells they share over the number of cells of either. */
  lemma IouCountsCells(a: Box, b: Box)
    requires WellFormed(a) && WellFormed(b)
    ensures
      var shared, either := |Cells(a) * Cells(b)|, |Cells(a) + Cells(b)|;
      CalculateIou(a, b) == if either > 0 then shared as real / either as real else 0.0
  {
    CellsCount(a);
    CellsCount(b);
    CellsShared(a, b);
  }

  // ---- Corner zones ----

  /** The doubled centre of a box lies within the margins of a vertical and of a horizontal edge. */
  ghost predicate AtCorner(b: Box, frameWidth: int, frameHeight: int, xNorm: real, yNorm: real) {
    var x, y := (b.minX + b.maxX) as real, (b.minY + b.maxY) as real;
    var mx, my := 2.0 * xNorm * frameWidth as real, 2.0 * yNorm * frameHeight as real;
    && frameWidth > 0 && frameHeight > 0
    && (x <= mx || x >= 2.0 * frameWidth as real - mx)
    && (y <= my || y >= 2.0 * frameHeight as real - my)
  }

  lemma CornerZoneSays(b: Box, frameWidth: int, frameHeight: int, xNorm: real, yNorm: real)
    ensures IsBboxInCornerZone(b, frameWidth, frameHeight, xNorm, yNorm) <==>
              AtCorner(b, frameWidth, frameHeight, xNorm, yNorm)
  {
    var x, y := (b.minX + b.maxX) as real, (b.minY + b.maxY) as real;
    assert x / 2.0 * 2.0 == x && y / 2.0 * 2.0 == y;
    assert 2.0 * xNorm * frameWidth as real == 2.0 * (xNorm * frameWidth as real);
    assert 2.0 * yNorm * frameHeight as real == 2.0 * (yNorm * frameHeight as real);
  }

  function IsBboxInCornerZone(b: Box, frameWidth: int, frameHeight: int, xNorm: real, yNorm: real): bool {
    if frameWidth <= 0 || frameHeight <= 0 then false
    else
      var cx, cy := (b.minX + b.maxX) as real / 2.0, (b.minY + b.maxY) as real / 2.0;
      var mx, my := xNorm * frameWidth as real, yNorm * frameHeight as real;
      || (cx <= mx && cy <= my)
      || (cx >= frameWidth as real - mx && cy <= my)
      || (cx <= mx && cy >= frameHeight as real - my)
      || (cx >= frameWidth as real - mx && cy >= frameHeight as real - my)
  }

  function MirrorX(b: Box, frameWidth: int): Box { Box(frameWidth - b.maxX, b.minY, frameWidth - b.minX, b.maxY) }

  function MirrorY(b: Box, frameHeight: int): Box { Box(b.minX, frameHeight - b.maxY, b.maxX, frameHeight - b.minY) }

  /** The four corners are treated alike: mirroring the frame changes nothing. */
  lemma CornerZoneIsSymmetric(b: Box, frameWidth: int, frameHeight: int, xNorm: real, yNorm: real)
    ensures IsBboxInCornerZone(MirrorX(b, frameWidth), frameWidth, frameHeight, xNorm, yNorm)
         == IsBboxInCornerZone(b, frameWidth, frameHeight, xNorm, yNorm)
    ensures IsBboxInCornerZone(MirrorY(b, frameHeight), frameWidth, frameHeight, xNorm, yNorm)
         == IsBboxInCornerZone(b, frameWidth, frameHeight, xNorm, yNorm)
  {
    assert (frameWidth - b.maxX + (frameWidth - b.minX)) as real / 2.0
        == frameWidth as real - (b.minX + b.maxX) as real / 2.0;
    assert (frameHeight - b.maxY + (frameHeight - b.minY)) as real / 2.0
        == frameHeight as real - (b.minY + b.maxY) as real / 2.0;
  }
}
