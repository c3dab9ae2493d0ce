/**
 * The boundary detector `detect_scanned_image_edge_position`
 * (src/detect_scanned_image_edge_position.py): foreground mask, longest external contour,
 * simplification to at most four vertices, the area filter, corner lookup by quadrant,
 * bounding box, the twelve-field result record and the crop.
 *
 * The OpenCV routines it calls are not modelled; they are the function values of a `Library`.
 */
module Detector {
  import opened Wrappers
  import opened Sequences
  import opened Text
  import opened Pixels
  import opened Geometry

  /** The OpenCV calls the detector makes, each a given function. */
  datatype Library = Library(
    bgrToHsv: Grid<Bgr> -> Grid<Hsv>,                   // cv2.cvtColor(image, cv2.COLOR_BGR2HSV)
    otsuThreshold: Grid<Byte> -> Grid<Byte>,             // cv2.threshold(gray, 0, 255, THRESH_BINARY + THRESH_OTSU)
    findExternalContours: Grid<Byte> -> seq<Contour>,    // cv2.findContours(mask, RETR_EXTERNAL, CHAIN_APPROX_SIMPLE)
    arcLength: Contour -> real,                          // cv2.arcLength(contour, True)
    approxPolyDP: (Contour, real) -> Contour,            // cv2.approxPolyDP(contour, epsilon, True)
    contourArea: Contour -> real,                        // cv2.contourArea(contour)
    annotate: (Grid<Bgr>, seq<Contour>, Box) -> Grid<Bgr> // drawContours, rectangle and the two putText calls on a copy
  )

  /** How the detector ends without a result. */
  datatype Failure =
    | NoContours           // max() of an empty list raises ValueError (line 56)
    | StillSimplifying     // the simplification loop had not exited after the given number of passes (lines 61-63)
    | NotQuadrilateral     // the simplified contour has fewer than 4 vertices: returns (None, None) (lines 65-67)
    | FilteredOut          // the area filter removed the contour, so contours[0] raises IndexError (lines 70-79)
    | MissingOrthant(orthant: int) // orthants.index(label) raises ValueError (lines 101-112)

  /** The result dict: keys and values in insertion order. */
  type Record = seq<(string, string)>

  /** The annotated copy, the crop and the record (line 161). */
  datatype Detection = Detection(annotated: Grid<Bgr>, cropped: Grid<Bgr>, record: Record)

  /** The four corners, one per quadrant around the centroid. */
  datatype Corners = Corners(rightTop: Point, leftTop: Point, leftBottom: Point, rightBottom: Point)

  function Keys(r: Record): (keys: seq<string>)
    ensures |keys| == |r|
  {
    seq(|r|, i requires 0 <= i < |r| => r[i].0)
  }

  function Values(r: Record): (values: seq<string>)
    ensures |values| == |r|
  {
    seq(|r|, i requires 0 <= i < |r| => r[i].1)
  }

  // ---------------------------------------------------------------------------------------
  // Lines 31-58: mask, binarisation, contours, the longest contour

  /** Otsu's binarisation of the foreground mask, inverted when the background is light (lines 31-48). */
  function BinarizedMask(lib: Library, backgroundIsBlack: bool, image: Grid<Bgr>): Grid<Byte>
  {
    var otsu := lib.otsuThreshold(ForegroundMask(lib.bgrToHsv(image), backgroundIsBlack));
    if backgroundIsBlack then otsu else Invert(otsu)
  }

  /** The contours are found on Otsu's output as it is on a dark background, and on its inverse on a light one. */
  lemma BinarizedMaskPolarity(lib: Library, backgroundIsBlack: bool, image: Grid<Bgr>)
    ensures var otsu := lib.otsuThreshold(ForegroundMask(lib.bgrToHsv(image), backgroundIsBlack));
      var mask := BinarizedMask(lib, backgroundIsBlack, image);
      (backgroundIsBlack ==> mask == otsu) && (!backgroundIsBlack ==> Invert(mask) == otsu)
  {
    InvertInvolutive(lib.otsuThreshold(ForegroundMask(lib.bgrToHsv(image), backgroundIsBlack)));
  }

  /** On a light background, a binary Otsu output comes out with 0 and 255 swapped. */
  lemma LightBackgroundSwapsMask(lib: Library, image: Grid<Bgr>)
    requires IsBinary(lib.otsuThreshold(ForegroundMask(lib.bgrToHsv(image), false)))
    ensures var otsu := lib.otsuThreshold(ForegroundMask(lib.bgrToHsv(image), false));
      var mask := BinarizedMask(lib, false, image);
      IsBinary(mask) && SameShape(otsu, mask)
      && forall i, j :: 0 <= i < |otsu| && 0 <= j < |otsu[i]| ==> (mask[i][j] == 255 <==> otsu[i][j] == 0)
  {
    InvertSwapsBinary(lib.otsuThreshold(ForegroundMask(lib.bgrToHsv(image), false)));
  }

  function ArcLengths(lib: Library, contours: seq<Contour>): (lengths: seq<real>)
    ensures |lengths| == |contours|
  {
    seq(|contours|, i requires 0 <= i < |contours| => lib.arcLength(contours[i]))
  }

  /**
   * `arc_lengths.index(max(arc_lengths))` (lines 55-57): the first index of greatest length;
   * an empty list makes `max` raise.
   */
  function LongestIndex(lengths: seq<real>): (r: Result<nat, Failure>)
    ensures r.Err? <==> |lengths| == 0
    ensures r.Err? ==> r.error == NoContours
    ensures r.Ok? ==> r.value < |lengths|
    ensures r.Ok? ==> forall j :: 0 <= j < |lengths| ==> lengths[j] <= lengths[r.value]
    ensures r.Ok? ==> forall j :: 0 <= j < r.value ==> lengths[j] < lengths[r.value]
  {
    if |lengths| == 0 then Err(NoContours)
    else
      var m := MaxReal(lengths);
      match IndexOf(lengths, m)
      case Some(i) => Ok(i)
      case None => assert false; Err(NoContours)
  }

  /** Lines 31-58: the contour kept for simplification and `max_arc_length`. */
  function LongestContour(lib: Library, backgroundIsBlack: bool, image: Grid<Bgr>): Result<(Contour, real), Failure>
  {
    var contours := lib.findExternalContours(BinarizedMask(lib, backgroundIsBlack, image));
    var lengths := ArcLengths(lib, contours);
    match LongestIndex(lengths)
    case Err(e) => Err(e)
    case Ok(k) => Ok((contours[k], lengths[k]))
  }

  /**
   * The kept contour is one of the external contours, its length is the greatest of all,
   * and no earlier contour is as long; there is none exactly when no contour was found.
   */
  lemma LongestContourIsLongest(lib: Library, backgroundIsBlack: bool, image: Grid<Bgr>)
    ensures var contours := lib.findExternalContours(BinarizedMask(lib, backgroundIsBlack, image));
      var r := LongestContour(lib, backgroundIsBlack, image);
      (r == Err(NoContours) <==> |contours| == 0)
      && (r.Ok? ==> exists k :: (0 <= k < |contours| && r.value == (contours[k], lib.arcLength(contours[k]))
            && (forall j :: 0 <= j < |contours| ==> lib.arcLength(contours[j]) <= lib.arcLength(contours[k]))
            && (forall j :: 0 <= j < k ==> lib.arcLength(contours[j]) < lib.arcLength(contours[k]))))
  {
    var contours := lib.findExternalContours(BinarizedMask(lib, backgroundIsBlack, image));
    var lengths := ArcLengths(lib, contours);
    var r := LongestIndex(lengths);
    if r.Ok? {
      var k := r.value;
      assert forall j :: 0 <= j < |contours| ==> lengths[j] == lib.arcLength(contours[j]);
      assert LongestContour(lib, backgroundIsBlack, image).value == (contours[k], lib.arcLength(contours[k]));
    }
  }

  // ---------------------------------------------------------------------------------------
  // Lines 60-67: simplification

  /** The contour after `n` passes of `approxPolyDP` with one fixed tolerance. */
  function Iterate(approx: (Contour, real) -> Contour, c: Contour, epsilon: real, n: nat): Contour
    decreases n
  {
    if n == 0 then c else Iterate(approx, approx(c, epsilon), epsilon, n - 1)
  }

  /**
   * The outcome of `while len(c) > 4: c = approxPolyDP(c, epsilon)`, looking at most `fuel`
   * passes ahead: the contour the loop exits with, which has at most 4 vertices, or None when
   * the loop is still running after `fuel` passes.
   */
  function Simplified(approx: (Contour, real) -> Contour, c: Contour, epsilon: real, fuel: nat): (r: Option<Contour>)
    ensures r.Some? ==> |r.value| <= 4
    decreases fuel
  {
    if |c| <= 4 then Some(c)
    else if fuel == 0 then None
    else Simplified(approx, approx(c, epsilon), epsilon, fuel - 1)
  }

  lemma IterateStep(approx: (Contour, real) -> Contour, c: Contour, epsilon: real, j: nat)
    ensures Iterate(approx, c, epsilon, j + 1) == Iterate(approx, approx(c, epsilon), epsilon, j)
  {
  }

  /**
   * When the loop exits, it does so after `k` passes at one tolerance, the first pass count
   * whose contour has at most 4 vertices.
   */
  lemma {:induction false} SimplifiedIsFirstExit(approx: (Contour, real) -> Contour, c: Contour, epsilon: real, fuel: nat)
    returns (k: nat)
    requires Simplified(approx, c, epsilon, fuel).Some?
    ensures k <= fuel
    ensures Simplified(approx, c, epsilon, fuel).value == Iterate(approx, c, epsilon, k)
    ensures forall j :: 0 <= j < k ==> |Iterate(approx, c, epsilon, j)| > 4
    decreases fuel
  {
    if |c| <= 4 {
      k := 0;
    } else {
      var next := approx(c, epsilon);
      var k' := SimplifiedIsFirstExit(approx, next, epsilon, fuel - 1);
      k := k' + 1;
      IterateStep(approx, c, epsilon, k');
      forall j | 0 <= j < k ensures |Iterate(approx, c, epsilon, j)| > 4 {
        if j > 0 {
          IterateStep(approx, c, epsilon, j - 1);
        }
      }
    }
  }

  /** When the loop has not exited within `fuel` passes, each of those passes left more than 4 vertices. */
  lemma {:induction false} SimplifiedNoExit(approx: (Contour, real) -> Contour, c: Contour, epsilon: real, fuel: nat)
    requires Simplified(approx, c, epsilon, fuel).None?
    ensures forall j :: 0 <= j <= fuel ==> |Iterate(approx, c, epsilon, j)| > 4
    decreases fuel
  {
    if fuel > 0 {
      var next := approx(c, epsilon);
      SimplifiedNoExit(approx, next, epsilon, fuel - 1);
      forall j | 0 < j <= fuel ensures |Iterate(approx, c, epsilon, j)| > 4 {
        IterateStep(approx, c, epsilon, j - 1);
      }
    }
  }

  /** Looking further ahead never changes an exit the loop has already reached. */
  lemma {:induction false} SimplifiedMoreFuel(approx: (Contour, real) -> Contour, c: Contour, epsilon: real, fuel: nat, more: nat)
    requires Simplified(approx, c, epsilon, fuel).Some?
    requires fuel <= more
    ensures Simplified(approx, c, epsilon, more) == Simplified(approx, c, epsilon, fuel)
    decreases fuel
  {
    if |c| > 4 {
      SimplifiedMoreFuel(approx, approx(c, epsilon), epsilon, fuel - 1, more - 1);
    }
  }

  /** When `approxPolyDP` leaves a contour of more than 4 vertices as it is, the loop never exits. */
  lemma {:induction false} SimplificationStalls(approx: (Contour, real) -> Contour, c: Contour, epsilon: real, fuel: nat)
    requires |c| > 4 && approx(c, epsilon) == c
    ensures Simplified(approx, c, epsilon, fuel) == None
    decreases fuel
  {
    if fuel > 0 {
      SimplificationStalls(approx, c, epsilon, fuel - 1);
    }
  }

  /**
   * The loop of lines 61-63, run for at most `fuel` passes. The tolerance is 10% of the
   * longest contour's length on every pass.
   */
  method SimplifyContour(approx: (Contour, real) -> Contour, contour: Contour, maxArcLength: real, fuel: nat)
    returns (r: Option<Contour>)
    ensures r == Simplified(approx, contour, 0.1 * maxArcLength, fuel)
  {
    var current := contour;
    var passes := 0;
    while |current| > 4 && passes < fuel
      invariant passes <= fuel
      decreases fuel - passes
      invariant Simplified(approx, current, 0.1 * maxArcLength, fuel - passes)
        == Simplified(approx, contour, 0.1 * maxArcLength, fuel)
    {
      var epsilon := 0.1 * maxArcLength;
      current := approx(current, epsilon);
      passes := passes + 1;
    }
    if |current| <= 4 {
      r := Some(current);
    } else {
      r := None;
    }
  }

  // ---------------------------------------------------------------------------------------
  // Lines 69-72: the area filter

  /** `int(sum(image.shape[:2]) / 2)`: half of height plus width, rounded down. */
  function AreaThreshold(image: Grid<Bgr>): nat
  {
    (Height(image) + Width(image)) / 2
  }

  /** `list(filter(lambda x: cv2.contourArea(x) > threshold, [quad]))`. */
  function AreaFilter(lib: Library, image: Grid<Bgr>, quad: Contour): (kept: seq<Contour>)
    ensures |kept| <= 1
    ensures kept == [quad] <==> lib.contourArea(quad) > AreaThreshold(image) as real
    ensures kept == [] <==> lib.contourArea(quad) <= AreaThreshold(image) as real
  {
    if lib.contourArea(quad) > AreaThreshold(image) as real then [quad] else []
  }

  // ---------------------------------------------------------------------------------------
  // Lines 93-112: quadrant labels and corner lookup

  /** `[calcOrthant(x_center, y_center, *pts[i]) for i in range(4)]`; no entry is None. */
  function Orthants(pts: Contour): (labels: seq<Option<int>>)
    requires |pts| == 4
    ensures |labels| == 4
    ensures forall i :: 0 <= i < 4 ==> labels[i].Some? && 1 <= labels[i].value <= 4
  {
    var xc, yc := XCenter(pts), YCenter(pts);
    seq(4, i requires 0 <= i < 4 => CalcOrthant(xc, yc, pts[i].x, pts[i].y))
  }

  /** `pts[orthants.index(label)]`: the first vertex with that label, or the ValueError. */
  function CornerOf(pts: Contour, labels: seq<Option<int>>, orthant: int): (r: Result<Point, Failure>)
    requires |labels| == |pts|
    ensures r.Err? <==> Some(orthant) !in labels
    ensures r.Err? ==> r.error == MissingOrthant(orthant)
    ensures r.Ok? ==> exists i :: (0 <= i < |pts| && labels[i] == Some(orthant) && r.value == pts[i]
      && forall j :: 0 <= j < i ==> labels[j] != Some(orthant))
  {
    match IndexOf(labels, Some(orthant))
    case None => Err(MissingOrthant(orthant))
    case Some(i) => Ok(pts[i])
  }

  /** Lines 101-112: the lookups run for labels 1, 2, 3, 4 in that order; the first missing label raises. */
  function LookupCorners(pts: Contour, labels: seq<Option<int>>): (r: Result<Corners, Failure>)
    requires |pts| == 4 && |labels| == 4
    ensures r.Ok? <==> forall k :: 1 <= k <= 4 ==> Some(k) in labels
    ensures r.Err? ==> exists k :: (1 <= k <= 4 && r.error == MissingOrthant(k) && Some(k) !in labels
      && forall k' :: 1 <= k' < k ==> Some(k') in labels)
  {
    AllFourLabels(labels);
    match CornerOf(pts, labels, 1)
    case Err(e) => Err(e)
    case Ok(rightTop) =>
      match CornerOf(pts, labels, 2)
      case Err(e) => Err(e)
      case Ok(leftTop) =>
        match CornerOf(pts, labels, 3)
        case Err(e) => Err(e)
        case Ok(leftBottom) =>
          match CornerOf(pts, labels, 4)
          case Err(e) => Err(e)
          case Ok(rightBottom) => Ok(Corners(rightTop, leftTop, leftBottom, rightBottom))
  }

  lemma AllFourLabels(labels: seq<Option<int>>)
    ensures (forall k :: 1 <= k <= 4 ==> Some(k) in labels)
      <==> Some(1) in labels && Some(2) in labels && Some(3) in labels && Some(4) in labels
  {
  }

  /** Corner lookup over the labels `calcOrthant` gives the four vertices. */
  function LocateCorners(pts: Contour): Result<Corners, Failure>
    requires |pts| == 4
  {
    LookupCorners(pts, Orthants(pts))
  }

  predicate DistinctLabels(labels: seq<Option<int>>)
  {
    forall i, j :: 0 <= i < j < |labels| ==> labels[i] != labels[j]
  }

  /** Four labels from 1..4 cover all four values exactly when they are pairwise different. */
  lemma CoverIffDistinct(labels: seq<Option<int>>)
    requires |labels| == 4
    requires forall i :: 0 <= i < 4 ==> labels[i].Some? && 1 <= labels[i].value <= 4
    ensures (forall k :: 1 <= k <= 4 ==> Some(k) in labels) <==> DistinctLabels(labels)
  {
    var a, b, c, d := labels[0].value, labels[1].value, labels[2].value, labels[3].value;
    AllFourLabels(labels);
    InFour(labels, 1);
    InFour(labels, 2);
    InFour(labels, 3);
    InFour(labels, 4);
    DistinctFour(labels);
    CoverIffDistinctValues(a, b, c, d);
  }

  /** A label occurs among four exactly when one of the four positions holds it. */
  lemma InFour(labels: seq<Option<int>>, v: int)
    requires |labels| == 4
    ensures Some(v) in labels <==>
      labels[0] == Some(v) || labels[1] == Some(v) || labels[2] == Some(v) || labels[3] == Some(v)
  {
    if Some(v) in labels {
      var i :| 0 <= i < 4 && labels[i] == Some(v);
    }
  }

  /** Four labels are pairwise different exactly when the six pairs of positions differ. */
  lemma DistinctFour(labels: seq<Option<int>>)
    requires |labels| == 4
    ensures DistinctLabels(labels) <==>
      labels[0] != labels[1] && labels[0] != labels[2] && labels[0] != labels[3]
      && labels[1] != labels[2] && labels[1] != labels[3] && labels[2] != labels[3]
  {
    if labels[0] != labels[1] && labels[0] != labels[2] && labels[0] != labels[3]
      && labels[1] != labels[2] && labels[1] != labels[3] && labels[2] != labels[3]
    {
      forall i, j | 0 <= i < j < 4 ensures labels[i] != labels[j] {
      }
    }
  }

  /** The same fact on the four values: each of 1..4 is taken exactly when no two values agree. */
  lemma CoverIffDistinctValues(a: int, b: int, c: int, d: int)
    requires 1 <= a <= 4 && 1 <= b <= 4 && 1 <= c <= 4 && 1 <= d <= 4
    ensures (a == 1 || b == 1 || c == 1 || d == 1) && (a == 2 || b == 2 || c == 2 || d == 2)
      && (a == 3 || b == 3 || c == 3 || d == 3) && (a == 4 || b == 4 || c == 4 || d == 4)
      <==> a != b && a != c && a != d && b != c && b != d && c != d
  {
  }

  /** Four vertices yield corners exactly when no two of them share a quadrant. */
  lemma CornersFoundIffDistinct(pts: Contour)
    requires |pts| == 4
    ensures LocateCorners(pts).Ok? <==> DistinctLabels(Orthants(pts))
  {
    CoverIffDistinct(Orthants(pts));
  }

  /** Two vertices in one quadrant make the lookup fail (lines 101-112). */
  lemma SharedQuadrantFails(pts: Contour, i: nat, j: nat)
    requires |pts| == 4
    requires i < j < 4
    requires Orthants(pts)[i] == Orthants(pts)[j]
    ensures LocateCorners(pts).Err?
    ensures LocateCorners(pts).error.MissingOrthant?
  {
    CornersFoundIffDistinct(pts);
  }

  function CornerList(c: Corners): seq<Point>
  {
    [c.leftTop, c.rightTop, c.rightBottom, c.leftBottom]
  }

  /** The corners relative to their own centroid, in integers: right means 4x > sum of x, top means 4y <= sum of y. */
  predicate CornersAroundCentroid(c: Corners)
  {
    var sx := c.leftTop.x + c.rightTop.x + c.rightBottom.x + c.leftBottom.x;
    var sy := c.leftTop.y + c.rightTop.y + c.rightBottom.y + c.leftBottom.y;
    4 * c.rightTop.x > sx && 4 * c.rightTop.y <= sy
    && 4 * c.leftTop.x <= sx && 4 * c.leftTop.y <= sy
    && 4 * c.leftBottom.x <= sx && 4 * c.leftBottom.y > sy
    && 4 * c.rightBottom.x > sx && 4 * c.rightBottom.y > sy
  }

  lemma SumOfFour(pts: Contour)
    requires |pts| == 4
    ensures Sum(Xs(pts)) == pts[0].x + pts[1].x + pts[2].x + pts[3].x
    ensures Sum(Ys(pts)) == pts[0].y + pts[1].y + pts[2].y + pts[3].y
  {
    var xs, ys := Xs(pts), Ys(pts);
    assert Sum(xs[3..]) == xs[3] + Sum(xs[4..]);
    assert Sum(xs[2..]) == xs[2] + Sum(xs[3..]);
    assert Sum(xs[1..]) == xs[1] + Sum(xs[2..]);
    assert Sum(ys[3..]) == ys[3] + Sum(ys[4..]);
    assert Sum(ys[2..]) == ys[2] + Sum(ys[3..]);
    assert Sum(ys[1..]) == ys[1] + Sum(ys[2..]);
  }

  /** The positions the four corners were taken from: four different vertices, each with its label. */
  lemma CornerIndices(pts: Contour) returns (i1: nat, i2: nat, i3: nat, i4: nat)
    requires |pts| == 4
    requires LocateCorners(pts).Ok?
    ensures i1 < 4 && i2 < 4 && i3 < 4 && i4 < 4
    ensures i1 != i2 && i1 != i3 && i1 != i4 && i2 != i3 && i2 != i4 && i3 != i4
    ensures LocateCorners(pts).value == Corners(pts[i1], pts[i2], pts[i3], pts[i4])
    ensures var labels := Orthants(pts);
      labels[i1] == Some(1) && labels[i2] == Some(2) && labels[i3] == Some(3) && labels[i4] == Some(4)
  {
    var labels := Orthants(pts);
    i1 := IndexOf(labels, Some(1)).value;
    i2 := IndexOf(labels, Some(2)).value;
    i3 := IndexOf(labels, Some(3)).value;
    i4 := IndexOf(labels, Some(4)).value;
  }

  /** A vertex labelled `k` satisfies quadrant `k`'s test against the sums of the four coordinates. */
  lemma LabelledQuadrant(pts: Contour, i: nat, k: int)
    requires |pts| == 4 && i < 4
    requires Orthants(pts)[i] == Some(k)
    ensures var sx, sy, p := Sum(Xs(pts)), Sum(Ys(pts)), pts[i];
      (k == 1 ==> 4 * p.x > sx && 4 * p.y <= sy)
      && (k == 2 ==> 4 * p.x <= sx && 4 * p.y <= sy)
      && (k == 3 ==> 4 * p.x <= sx && 4 * p.y > sy)
      && (k == 4 ==> 4 * p.x > sx && 4 * p.y > sy)
  {
    assert Orthants(pts)[i] == CalcOrthant(XCenter(pts), YCenter(pts), pts[i].x, pts[i].y);
    OrthantByIntegers(pts, pts[i]);
  }

  lemma PermutedSum(a: seq<int>, i1: nat, i2: nat, i3: nat, i4: nat)
    requires |a| == 4
    requires i1 < 4 && i2 < 4 && i3 < 4 && i4 < 4
    requires i1 != i2 && i1 != i3 && i1 != i4 && i2 != i3 && i2 != i4 && i3 != i4
    ensures a[i1] + a[i2] + a[i3] + a[i4] == a[0] + a[1] + a[2] + a[3]
  {
  }

  lemma QuadrantsFromIndices(pts: Contour, i1: nat, i2: nat, i3: nat, i4: nat)
    requires |pts| == 4
    requires i1 < 4 && i2 < 4 && i3 < 4 && i4 < 4
    requires i1 != i2 && i1 != i3 && i1 != i4 && i2 != i3 && i2 != i4 && i3 != i4
    requires var labels := Orthants(pts);
      labels[i1] == Some(1) && labels[i2] == Some(2) && labels[i3] == Some(3) && labels[i4] == Some(4)
    ensures CornersAroundCentroid(Corners(pts[i1], pts[i2], pts[i3], pts[i4]))
  {
    var xs, ys := Xs(pts), Ys(pts);
    SumOfFour(pts);
    PermutedSum(xs, i1, i2, i3, i4);
    PermutedSum(ys, i1, i2, i3, i4);
    assert xs[i1] == pts[i1].x && xs[i2] == pts[i2].x && xs[i3] == pts[i3].x && xs[i4] == pts[i4].x;
    assert ys[i1] == pts[i1].y && ys[i2] == pts[i2].y && ys[i3] == pts[i3].y && ys[i4] == pts[i4].y;
    LabelledQuadrant(pts, i1, 1);
    LabelledQuadrant(pts, i2, 2);
    LabelledQuadrant(pts, i3, 3);
    LabelledQuadrant(pts, i4, 4);
  }

  /**
   * Found corners are the four vertices, each taken once, and each lies in the quadrant its
   * name says, measured from the centroid of the four.
   */
  lemma CornersArePermutedVertices(pts: Contour)
    requires |pts| == 4
    requires LocateCorners(pts).Ok?
    ensures forall i :: 0 <= i < 4 ==> pts[i] in CornerList(LocateCorners(pts).value)
    ensures forall i :: 0 <= i < 4 ==> CornerList(LocateCorners(pts).value)[i] in pts
    ensures CornersAroundCentroid(LocateCorners(pts).value)
  {
    var i1, i2, i3, i4 := CornerIndices(pts);
    var cs := CornerList(LocateCorners(pts).value);
    assert cs == [pts[i2], pts[i1], pts[i4], pts[i3]];
    forall i | 0 <= i < 4 ensures pts[i] in cs {
      assert i == i1 || i == i2 || i == i3 || i == i4;
    }
    QuadrantsFromIndices(pts, i1, i2, i3, i4);
  }

  // ---------------------------------------------------------------------------------------
  // Lines 114-127: the result record

  const RecordKeys: seq<string> := [
    "boundary_x_left_top", "boundary_y_left_top",
    "boundary_x_right_top", "boundary_y_right_top",
    "boundary_x_right_bottom", "boundary_y_right_bottom",
    "boundary_x_left_bottom", "boundary_y_left_bottom",
    "bbox_x_left", "bbox_y_top", "bbox_width", "bbox_height"
  ]

  /** The twelve integers behind the record, in key order. */
  function RecordInts(c: Corners, b: Box): seq<int>
  {
    [c.leftTop.x, c.leftTop.y, c.rightTop.x, c.rightTop.y,
     c.rightBottom.x, c.rightBottom.y, c.leftBottom.x, c.leftBottom.y,
     b.left, b.top, b.Width(), b.Height()]
  }

  /** The `result_data` dict of lines 114-127, every value `str` of an integer. */
  function ResultRecord(c: Corners, b: Box): (r: Record)
    ensures Keys(r) == RecordKeys
  {
    [("boundary_x_left_top", DecimalString(c.leftTop.x)),
     ("boundary_y_left_top", DecimalString(c.leftTop.y)),
     ("boundary_x_right_top", DecimalString(c.rightTop.x)),
     ("boundary_y_right_top", DecimalString(c.rightTop.y)),
     ("boundary_x_right_bottom", DecimalString(c.rightBottom.x)),
     ("boundary_y_right_bottom", DecimalString(c.rightBottom.y)),
     ("boundary_x_left_bottom", DecimalString(c.leftBottom.x)),
     ("boundary_y_left_bottom", DecimalString(c.leftBottom.y)),
     ("bbox_x_left", DecimalString(b.left)),
     ("bbox_y_top", DecimalString(b.top)),
     ("bbox_width", DecimalString(b.Width())),
     ("bbox_height", DecimalString(b.Height()))]
  }

  /** Reads every field as an integer; None when one of them is not a decimal integer. */
  function ReadAll(fields: seq<string>): Option<seq<int>>
  {
    if |fields| == 0 then Some([])
    else
      match (ReadInt(fields[0]), ReadAll(fields[1..]))
      case (Some(v), Some(vs)) => Some([v] + vs)
      case _ => None
  }

  lemma {:induction false} ReadAllDecimals(vs: seq<int>, fields: seq<string>)
    requires |fields| == |vs|
    requires forall i :: 0 <= i < |vs| ==> fields[i] == DecimalString(vs[i])
    ensures ReadAll(fields) == Some(vs)
  {
    if |vs| > 0 {
      DecimalRoundTrip(vs[0]);
      ReadAllDecimals(vs[1..], fields[1..]);
      assert ReadAll(fields) == Some([vs[0]] + vs[1..]);
      assert [vs[0]] + vs[1..] == vs;
    }
  }

  /** Each record value is the decimal string of its integer, so reading the values back gives the integers. */
  lemma RecordReadsBack(c: Corners, b: Box)
    ensures ReadAll(Values(ResultRecord(c, b))) == Some(RecordInts(c, b))
  {
    ReadAllDecimals(RecordInts(c, b), Values(ResultRecord(c, b)));
  }

  /** No key and no value of the record contains a comma. */
  lemma RecordCommaFree(c: Corners, b: Box)
    ensures forall i :: 0 <= i < 12 ==> ',' !in Keys(ResultRecord(c, b))[i] && ',' !in Values(ResultRecord(c, b))[i]
  {
    var r := ResultRecord(c, b);
    RecordKeysCommaFree();
    assert forall i :: 0 <= i < 12 ==> Values(r)[i] == r[i].1;
  }

  /** Every key is made of lower-case letters and underscores. */
  lemma RecordKeysCommaFree()
    ensures forall i :: 0 <= i < |RecordKeys| ==> ',' !in RecordKeys[i]
  {
    forall i | 0 <= i < |RecordKeys|
      ensures ',' !in RecordKeys[i]
    {
      assert forall k :: 0 <= k < |RecordKeys[i]| ==> RecordKeys[i][k] != ',';
    }
  }

  // ---------------------------------------------------------------------------------------
  // The whole detector

  /** Image height and width, `image.shape[:2]`. */
  function Height(image: Grid<Bgr>): nat { |image| }
  function Width(image: Grid<Bgr>): nat { if |image| == 0 then 0 else |image[0]| }

  /**
   * Lines 65-161, given the outcome of the simplification loop: the 4-vertex check, then the
   * area filter and the rest.
   */
  function Finish(lib: Library, image: Grid<Bgr>, simplified: Option<Contour>): Result<Detection, Failure>
  {
    if simplified.None? then Err(StillSimplifying)
    else if |simplified.value| != 4 then Err(NotQuadrilateral)
    else FinishFiltered(lib, image, AreaFilter(lib, image, simplified.value))
  }

  /** Lines 74-161: everything is computed from the FILTERED list's first contour. */
  function FinishFiltered(lib: Library, image: Grid<Bgr>, kept: seq<Contour>): Result<Detection, Failure>
    requires |kept| > 0 ==> |kept[0]| == 4
  {
    if |kept| == 0 then Err(FilteredOut)
    else
      var pts := kept[0];
      var box := BoundingBox(pts);
      var corners := LocateCorners(pts);
      if corners.Err? then Err(corners.error)
      else Ok(Detection(lib.annotate(image, kept, box), Crop(image, box), ResultRecord(corners.value, box)))
  }

  /**
   * `detect_scanned_image_edge_position(image, args)` with `args.background_is_black`,
   * where the simplification loop looks at most `fuel` passes ahead.
   */
  function Detect(lib: Library, backgroundIsBlack: bool, image: Grid<Bgr>, fuel: nat): Result<Detection, Failure>
  {
    var longest := LongestContour(lib, backgroundIsBlack, image);
    if longest.Err? then Err(longest.error)
    else Finish(lib, image, Simplified(lib.approxPolyDP, longest.value.0, 0.1 * longest.value.1, fuel))
  }

  /** The detector as the source runs it: the pure steps around the simplification loop. */
  method DetectScannedImageEdgePosition(lib: Library, backgroundIsBlack: bool, image: Grid<Bgr>, fuel: nat)
    returns (outcome: Result<Detection, Failure>)
    ensures outcome == Detect(lib, backgroundIsBlack, image, fuel)
  {
    var longest := LongestContour(lib, backgroundIsBlack, image);
    if longest.Err? {
      return Err(longest.error);
    }
    var (contour, maxArcLength) := longest.value;
    var simplified := SimplifyContour(lib.approxPolyDP, contour, maxArcLength, fuel);
    FinishOfLoopOutcome(lib, backgroundIsBlack, image, fuel, simplified);
    outcome := Finish(lib, image, simplified);
  }

  /** The box fields bound every corner and each bound is attained by a corner. */
  predicate BoxOfCorners(c: Corners, b: Box)
  {
    var pts := CornerList(c);
    b.Width() >= 0 && b.Height() >= 0
    && (forall i :: 0 <= i < 4 ==> b.left <= pts[i].x <= b.right && b.top <= pts[i].y <= b.bottom)
    && (exists i :: 0 <= i < 4 && pts[i].x == b.left) && (exists i :: 0 <= i < 4 && pts[i].x == b.right)
    && (exists i :: 0 <= i < 4 && pts[i].y == b.top) && (exists i :: 0 <= i < 4 && pts[i].y == b.bottom)
  }

  /** What a record's twelve integers promise: corners around their centroid, a tight box around them. */
  predicate ConsistentRecordInts(v: seq<int>)
  {
    |v| == 12
    && var c := Corners(Point(v[2], v[3]), Point(v[0], v[1]), Point(v[6], v[7]), Point(v[4], v[5]));
       CornersAroundCentroid(c) && BoxOfCorners(c, Box(v[8], v[9], v[8] + v[10], v[9] + v[11]))
  }

  lemma BoxOfPermutedCorners(pts: Contour, c: Corners)
    requires |pts| == 4
    requires forall i :: 0 <= i < 4 ==> pts[i] in CornerList(c)
    requires forall i :: 0 <= i < 4 ==> CornerList(c)[i] in pts
    ensures BoxOfCorners(c, BoundingBox(pts))
  {
  }

  /** The loop's outcome on the longest contour, at 10% of its length. */
  function SimplifiedLongest(lib: Library, backgroundIsBlack: bool, image: Grid<Bgr>, fuel: nat): Option<Contour>
    requires LongestContour(lib, backgroundIsBlack, image).Ok?
  {
    var longest := LongestContour(lib, backgroundIsBlack, image).value;
    Simplified(lib.approxPolyDP, longest.0, 0.1 * longest.1, fuel)
  }

  /** A detection that got past the contour selection is the finish of the simplification loop's outcome. */
  lemma DetectSimplified(lib: Library, backgroundIsBlack: bool, image: Grid<Bgr>, fuel: nat)
    requires LongestContour(lib, backgroundIsBlack, image).Ok?
    ensures Detect(lib, backgroundIsBlack, image, fuel) == Finish(lib, image, SimplifiedLongest(lib, backgroundIsBlack, image, fuel))
  {
  }

  lemma FinishOfLoopOutcome(lib: Library, backgroundIsBlack: bool, image: Grid<Bgr>, fuel: nat, simplified: Option<Contour>)
    requires LongestContour(lib, backgroundIsBlack, image).Ok?
    requires simplified == SimplifiedLongest(lib, backgroundIsBlack, image, fuel)
    ensures Finish(lib, image, simplified) == Detect(lib, backgroundIsBlack, image, fuel)
  {
    DetectSimplified(lib, backgroundIsBlack, image, fuel);
  }

  /** What a successful finish is made of: the 4-vertex contour that passed the area filter, its corners and box. */
  lemma FinishParts(lib: Library, image: Grid<Bgr>, simplified: Option<Contour>) returns (quad: Contour, c: Corners)
    requires Finish(lib, image, simplified).Ok?
    ensures simplified == Some(quad) && |quad| == 4
    ensures lib.contourArea(quad) > AreaThreshold(image) as real
    ensures LocateCorners(quad) == Ok(c)
    ensures var b := BoundingBox(quad);
      Finish(lib, image, simplified).value == Detection(lib.annotate(image, [quad], b), Crop(image, b), ResultRecord(c, b))
  {
    quad := simplified.value;
    c := LocateCorners(quad).value;
  }

  /**
   * A successful detection's record has the twelve keys in order, and its values read back as
   * integers whose corners lie in their quadrants around their centroid and whose box is the
   * tight box around them.
   */
  lemma DetectedRecordConsistent(lib: Library, backgroundIsBlack: bool, image: Grid<Bgr>, fuel: nat)
    requires Detect(lib, backgroundIsBlack, image, fuel).Ok?
    ensures var record := Detect(lib, backgroundIsBlack, image, fuel).value.record;
      Keys(record) == RecordKeys
      && ReadAll(Values(record)).Some? && ConsistentRecordInts(ReadAll(Values(record)).value)
  {
    DetectSimplified(lib, backgroundIsBlack, image, fuel);
    FinishedRecordConsistent(lib, image, SimplifiedLongest(lib, backgroundIsBlack, image, fuel));
  }

  lemma FinishedRecordConsistent(lib: Library, image: Grid<Bgr>, simplified: Option<Contour>)
    requires Finish(lib, image, simplified).Ok?
    ensures var record := Finish(lib, image, simplified).value.record;
      Keys(record) == RecordKeys
      && ReadAll(Values(record)).Some? && ConsistentRecordInts(ReadAll(Values(record)).value)
  {
    var quad, c := FinishParts(lib, image, simplified);
    var b := BoundingBox(quad);
    CornersArePermutedVertices(quad);
    BoxOfPermutedCorners(quad, c);
    RecordReadsBack(c, b);
    RecordIntsConsistent(c, b);
  }

  lemma RecordIntsConsistent(c: Corners, b: Box)
    requires CornersAroundCentroid(c) && BoxOfCorners(c, b)
    ensures ConsistentRecordInts(RecordInts(c, b))
  {
    var v := RecordInts(c, b);
    assert Corners(Point(v[2], v[3]), Point(v[0], v[1]), Point(v[6], v[7]), Point(v[4], v[5])) == c;
    assert Box(v[8], v[9], v[8] + v[10], v[9] + v[11]) == b;
  }

  /**
   * How the detector ends once the loop is over, case by case: still looping, the early
   * (None, None) return for a contour that is not a quadrilateral, the IndexError when the area
   * filter drops the quadrilateral, the ValueError when two vertices share a quadrant, and
   * otherwise a detection.
   */
  lemma FinishOutcomes(lib: Library, image: Grid<Bgr>, simplified: Option<Contour>)
    ensures var r := Finish(lib, image, simplified);
      r != Err(NoContours)
      && (r == Err(StillSimplifying) <==> simplified.None?)
      && (r == Err(NotQuadrilateral) <==> simplified.Some? && |simplified.value| != 4)
      && (r == Err(FilteredOut) <==>
            simplified.Some? && |simplified.value| == 4
            && lib.contourArea(simplified.value) <= AreaThreshold(image) as real)
      && ((r.Err? && r.error.MissingOrthant?) <==>
            simplified.Some? && |simplified.value| == 4
            && lib.contourArea(simplified.value) > AreaThreshold(image) as real
            && !DistinctLabels(Orthants(simplified.value)))
      && (r.Ok? <==>
            simplified.Some? && |simplified.value| == 4
            && lib.contourArea(simplified.value) > AreaThreshold(image) as real
            && DistinctLabels(Orthants(simplified.value)))
  {
    if simplified.Some? && |simplified.value| == 4 {
      CornersFoundIffDistinct(simplified.value);
    }
  }

  /** The detector fails with the `max()` error exactly when the mask has no external contour. */
  lemma DetectWithoutContours(lib: Library, backgroundIsBlack: bool, image: Grid<Bgr>, fuel: nat)
    ensures Detect(lib, backgroundIsBlack, image, fuel) == Err(NoContours)
      <==> |lib.findExternalContours(BinarizedMask(lib, backgroundIsBlack, image))| == 0
  {
    LongestContourIsLongest(lib, backgroundIsBlack, image);
    if LongestContour(lib, backgroundIsBlack, image).Ok? {
      DetectSimplified(lib, backgroundIsBlack, image, fuel);
      FinishOutcomes(lib, image, SimplifiedLongest(lib, backgroundIsBlack, image, fuel));
    }
  }

  /** The crop of a successful finish has bbox_height rows of bbox_width pixels when the vertices lie on the image. */
  lemma FinishedCropMatchesBox(lib: Library, image: Grid<Bgr>, simplified: Option<Contour>)
    requires Finish(lib, image, simplified).Ok?
    requires forall i :: 0 <= i < |image| ==> |image[i]| == Width(image)
    requires WithinImage(simplified.value, Height(image), Width(image))
    ensures var d := Finish(lib, image, simplified).value;
      ReadAll(Values(d.record)).Some? && |ReadAll(Values(d.record)).value| == 12
      && var v := ReadAll(Values(d.record)).value;
      |d.cropped| == v[11] && forall i :: 0 <= i < v[11] ==> |d.cropped[i]| == v[10]
  {
    var quad, c := FinishParts(lib, image, simplified);
    RecordReadsBack(c, BoundingBox(quad));
    CropOfBoundingBox(image, quad);
  }

  /**
   * A successful detection crops the input to exactly the record's bbox_height rows of
   * bbox_width pixels, provided the simplified vertices lie on the (rectangular) image.
   */
  lemma DetectedCropMatchesBox(lib: Library, backgroundIsBlack: bool, image: Grid<Bgr>, fuel: nat)
    requires Detect(lib, backgroundIsBlack, image, fuel).Ok?
    requires forall i :: 0 <= i < |image| ==> |image[i]| == Width(image)
    requires LongestContour(lib, backgroundIsBlack, image).Ok?
    requires SimplifiedLongest(lib, backgroundIsBlack, image, fuel).Some?
    requires WithinImage(SimplifiedLongest(lib, backgroundIsBlack, image, fuel).value, Height(image), Width(image))
    ensures var d := Detect(lib, backgroundIsBlack, image, fuel).value;
      ReadAll(Values(d.record)).Some? && |ReadAll(Values(d.record)).value| == 12
      && var v := ReadAll(Values(d.record)).value;
      |d.cropped| == v[11] && forall i :: 0 <= i < v[11] ==> |d.cropped[i]| == v[10]
  {
    DetectSimplified(lib, backgroundIsBlack, image, fuel);
    FinishedCropMatchesBox(lib, image, SimplifiedLongest(lib, backgroundIsBlack, image, fuel));
  }
}
