/**
 * Integer plane geometry of the detector: points, the quadrant rule `calcOrthant`,
 * the centroid, the bounding box and the crop slice
 * (src/detect_scanned_image_edge_position.py, lines 6-28, 79-100 and 159).
 */
module Geometry {
  import opened Wrappers
  import opened Sequences
  import opened Pixels

  /** A contour vertex in pixel coordinates: x is the column, y the row. */
  datatype Point = Point(x: int, y: int)

  /** An ordered sequence of vertices, as `cv2.findContours` and `cv2.approxPolyDP` return. */
  type Contour = seq<Point>

  function Xs(pts: Contour): (xs: seq<int>)
    ensures |xs| == |pts|
  {
    seq(|pts|, i requires 0 <= i < |pts| => pts[i].x)
  }

  function Ys(pts: Contour): (ys: seq<int>)
    ensures |ys| == |pts|
  {
    seq(|pts|, i requires 0 <= i < |pts| => pts[i].y)
  }

  /**
   * `calcOrthant(x_c, y_c, x, y)`: 1 right-top, 2 left-top, 3 left-bottom, 4 right-bottom,
   * with None as the chain's last alternative. A point on the vertical through the centre
   * counts as left, one on the horizontal counts as top. The chain never reaches None,
   * and exactly one label applies to each point.
   */
  function CalcOrthant(xc: real, yc: real, x: int, y: int): (r: Option<int>)
    ensures r.Some? && 1 <= r.value <= 4
    ensures r == Some(1) <==> x as real > xc && y as real <= yc
    ensures r == Some(2) <==> x as real <= xc && y as real <= yc
    ensures r == Some(3) <==> x as real <= xc && y as real > yc
    ensures r == Some(4) <==> x as real > xc && y as real > yc
  {
    if x as real - xc > 0.0 && y as real - yc <= 0.0 then Some(1)
    else if x as real - xc <= 0.0 && y as real - yc <= 0.0 then Some(2)
    else if x as real - xc <= 0.0 && y as real - yc > 0.0 then Some(3)
    else if x as real - xc > 0.0 && y as real - yc > 0.0 then Some(4)
    else None
  }

  /** `np.average` of the x coordinates. */
  function XCenter(pts: Contour): real
    requires |pts| > 0
  {
    Sum(Xs(pts)) as real / |pts| as real
  }

  /** `np.average` of the y coordinates. */
  function YCenter(pts: Contour): real
    requires |pts| > 0
  {
    Sum(Ys(pts)) as real / |pts| as real
  }

  /** Comparing with the mean of four coordinates is comparing four times the coordinate with their sum. */
  lemma CompareWithMean(v: int, total: int)
    ensures v as real > total as real / 4.0 <==> 4 * v > total
    ensures v as real <= total as real / 4.0 <==> 4 * v <= total
  {
  }

  /** The quadrant rule with the centroid of four points, in integers only. */
  lemma OrthantByIntegers(pts: Contour, p: Point)
    requires |pts| == 4
    ensures var sx, sy := Sum(Xs(pts)), Sum(Ys(pts));
      var r := CalcOrthant(XCenter(pts), YCenter(pts), p.x, p.y);
      (r == Some(1) <==> 4 * p.x > sx && 4 * p.y <= sy)
      && (r == Some(2) <==> 4 * p.x <= sx && 4 * p.y <= sy)
      && (r == Some(3) <==> 4 * p.x <= sx && 4 * p.y > sy)
      && (r == Some(4) <==> 4 * p.x > sx && 4 * p.y > sy)
  {
    CompareWithMean(p.x, Sum(Xs(pts)));
    CompareWithMean(p.y, Sum(Ys(pts)));
  }

  /** An axis-aligned box given by its extreme coordinates, as lines 79-82 compute them. */
  datatype Box = Box(left: int, top: int, right: int, bottom: int)
  {
    function Width(): int { right - left }
    function Height(): int { bottom - top }
  }

  /** Bounding box of the vertices: least and greatest x and y (lines 79-84). */
  function BoundingBox(pts: Contour): (b: Box)
    requires |pts| > 0
    ensures b.Width() >= 0 && b.Height() >= 0
    ensures forall i :: 0 <= i < |pts| ==>
      b.left <= pts[i].x <= b.right && b.top <= pts[i].y <= b.bottom
    ensures exists i :: 0 <= i < |pts| && pts[i].x == b.left
    ensures exists i :: 0 <= i < |pts| && pts[i].x == b.right
    ensures exists i :: 0 <= i < |pts| && pts[i].y == b.top
    ensures exists i :: 0 <= i < |pts| && pts[i].y == b.bottom
  {
    var xs, ys := Xs(pts), Ys(pts);
    var b := Box(MinInt(xs), MinInt(ys), MaxInt(xs), MaxInt(ys));
    assert forall i :: 0 <= i < |pts| ==> xs[i] == pts[i].x && ys[i] == pts[i].y;
    b
  }

  /** Normalises one bound of a Python slice `s[lo:hi]` (step 1) for a sequence of length `n`. */
  function SliceBound(i: int, n: nat): (k: nat)
    ensures k <= n
  {
    if i < 0 then (if i + n < 0 then 0 else i + n)
    else if i > n then n
    else i
  }

  /** Python's `s[lo:hi]`: negative bounds count from the end, bounds are clamped, an empty range gives []. */
  function PySlice<T>(s: seq<T>, lo: int, hi: int): (r: seq<T>)
    ensures 0 <= lo <= hi <= |s| ==> r == s[lo..hi]
  {
    var a, b := SliceBound(lo, |s|), SliceBound(hi, |s|);
    if a < b then s[a..b] else []
  }

  /** `image[top:bottom, left:right]` (line 159). */
  function Crop<T>(img: Grid<T>, b: Box): Grid<T>
  {
    var rows := PySlice(img, b.top, b.bottom);
    seq(|rows|, i requires 0 <= i < |rows| => PySlice(rows[i], b.left, b.right))
  }

  /** Every row of the image has at least `w` pixels. */
  predicate RowsAtLeast<T>(img: Grid<T>, w: int)
  {
    forall i :: 0 <= i < |img| ==> w <= |img[i]|
  }

  /**
   * A box inside the image crops to Height() rows of Width() pixels: rows top..bottom-1 and
   * columns left..right-1, the bottom row and right column excluded.
   */
  lemma CropExtent<T>(img: Grid<T>, b: Box)
    requires 0 <= b.top <= b.bottom <= |img|
    requires 0 <= b.left <= b.right
    requires RowsAtLeast(img, b.right)
    ensures |Crop(img, b)| == b.Height()
    ensures forall i :: 0 <= i < b.Height() ==> |Crop(img, b)[i]| == b.Width()
    ensures forall i, j :: 0 <= i < b.Height() && 0 <= j < b.Width() ==>
      Crop(img, b)[i][j] == img[b.top + i][b.left + j]
  {
    var rows := PySlice(img, b.top, b.bottom);
    assert rows == img[b.top..b.bottom];
    forall i | 0 <= i < b.Height()
      ensures Crop(img, b)[i] == img[b.top + i][b.left..b.right]
    {
      assert rows[i] == img[b.top + i];
    }
  }

  /** Every vertex lies on a pixel of an image with `h` rows and `w` columns. */
  predicate WithinImage(pts: Contour, h: int, w: int)
  {
    forall i :: 0 <= i < |pts| ==> 0 <= pts[i].x < w && 0 <= pts[i].y < h
  }

  /** The bounding box of vertices that lie on the image crops to exactly Height() x Width() pixels. */
  lemma CropOfBoundingBox<T>(img: Grid<T>, pts: Contour)
    requires |pts| > 0
    requires WithinImage(pts, |img|, if |img| == 0 then 0 else |img[0]|)
    requires forall i :: 0 <= i < |img| ==> |img[i]| == |img[0]|
    ensures var b := BoundingBox(pts);
      |Crop(img, b)| == b.Height()
      && forall i :: 0 <= i < b.Height() ==> |Crop(img, b)[i]| == b.Width()
  {
    var b := BoundingBox(pts);
    assert 0 <= pts[0].x;
    CropExtent(img, b);
  }
}
