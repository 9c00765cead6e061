/** The eye-aspect-ratio (EAR) estimator of utils.py.

    Six ordered eye-contour points p1..p6 (indices 0..5) give three distances:
    two vertical ones, A = |p2 - p6| and B = |p3 - p5|, and the horizontal eye
    width C = |p1 - p4|. The score is (A + B) / (2 C), and exactly 0 when the
    width is zero.

    The Euclidean norm is not computed here: the distance is a parameter, and
    the lemmas state what they need of it (IsDistance, IsHomogeneous). */
module Utils {

  datatype Point = Point(x: real, y: real)

  /** One eye's contour: exactly six points in the fixed landmark order. */
  type EyePoints = s: seq<Point> | |s| == 6
    witness [Point(0.0, 0.0), Point(0.0, 0.0), Point(0.0, 0.0),
             Point(0.0, 0.0), Point(0.0, 0.0), Point(0.0, 0.0)]

  /** A distance between two image points (the Euclidean norm in the source). */
  type Distance = (Point, Point) -> real

  /** What every distance function used by the source satisfies. */
  ghost predicate IsDistance(dist: Distance)
  {
    && (forall p, q :: dist(p, q) >= 0.0)
    && (forall p, q :: dist(p, q) == dist(q, p))
    && (forall p :: dist(p, p) == 0.0)
  }

  function Scale(k: real, p: Point): Point
  {
    Point(k * p.x, k * p.y)
  }

  /** The Euclidean norm scales with its argument: |k p - k q| = k |p - q| for k > 0. */
  ghost predicate IsHomogeneous(dist: Distance)
  {
    forall k, p, q :: k > 0.0 ==> dist(Scale(k, p), Scale(k, q)) == k * dist(p, q)
  }

  /** The upper/lower vertical pair p2, p6. */
  function VerticalA(dist: Distance, eye: EyePoints): real
  {
    dist(eye[1], eye[5])
  }

  /** The upper/lower vertical pair p3, p5. */
  function VerticalB(dist: Distance, eye: EyePoints): real
  {
    dist(eye[2], eye[4])
  }

  /** The horizontal corners p1, p4. */
  function Width(dist: Distance, eye: EyePoints): real
  {
    dist(eye[0], eye[3])
  }

  /** eye_aspect_ratio: defined for every six-point input (there is no error
      path); zero width gives 0, and otherwise the score is the ratio whose
      double-width multiple is the sum of the vertical distances. */
  function EyeAspectRatio(dist: Distance, eye: EyePoints): (r: real)
    ensures Width(dist, eye) == 0.0 ==> r == 0.0
    ensures Width(dist, eye) != 0.0 ==>
              r * (2.0 * Width(dist, eye)) == VerticalA(dist, eye) + VerticalB(dist, eye)
  {
    var a := VerticalA(dist, eye);
    var b := VerticalB(dist, eye);
    var c := Width(dist, eye);
    if c == 0.0 then 0.0 else (a + b) / (2.0 * c)
  }

  /** Coinciding corner points (a degenerate contour) give exactly 0. */
  lemma DegenerateWidthGivesZero(dist: Distance, eye: EyePoints)
    requires IsDistance(dist)
    requires eye[0] == eye[3]
    ensures EyeAspectRatio(dist, eye) == 0.0
  {
  }

  /** The score is never negative, because distances are not. */
  lemma RatioNonNegative(dist: Distance, eye: EyePoints)
    requires IsDistance(dist)
    ensures EyeAspectRatio(dist, eye) >= 0.0
  {
    var a, b, c := VerticalA(dist, eye), VerticalB(dist, eye), Width(dist, eye);
    assert a >= 0.0 && b >= 0.0 && c >= 0.0;
  }

  /** Both vertical pairs coinciding (a fully closed eye) gives 0, whatever the width. */
  lemma ClosedEyeGivesZero(dist: Distance, eye: EyePoints)
    requires IsDistance(dist)
    requires eye[1] == eye[5] && eye[2] == eye[4]
    ensures EyeAspectRatio(dist, eye) == 0.0
  {
  }

  /** The three point pairs the score is computed from: (p2, p6), (p3, p5), (p1, p4). */
  predicate IsMeasuredPair(i: int, j: int)
  {
    (i == 1 && j == 5) || (i == 2 && j == 4) || (i == 0 && j == 3)
  }

  function Swap(eye: EyePoints, i: nat, j: nat): (r: EyePoints)
    requires i < 6 && j < 6
    ensures r[i] == eye[j] && r[j] == eye[i]
    ensures forall k :: 0 <= k < 6 && k != i && k != j ==> r[k] == eye[k]
  {
    eye[i := eye[j]][j := eye[i]]
  }

  /** Swapping the two points of any measured pair leaves the score unchanged. */
  lemma SwapWithinPairInvariant(dist: Distance, eye: EyePoints, i: nat, j: nat)
    requires IsDistance(dist)
    requires IsMeasuredPair(i, j)
    ensures EyeAspectRatio(dist, Swap(eye, i, j)) == EyeAspectRatio(dist, eye)
  {
    var e := Swap(eye, i, j);
    assert VerticalA(dist, e) == VerticalA(dist, eye);
    assert VerticalB(dist, e) == VerticalB(dist, eye);
    assert Width(dist, e) == Width(dist, eye);
  }

  function ScaleEye(k: real, eye: EyePoints): (r: EyePoints)
    ensures forall i :: 0 <= i < 6 ==> r[i] == Scale(k, eye[i])
  {
    [Scale(k, eye[0]), Scale(k, eye[1]), Scale(k, eye[2]),
     Scale(k, eye[3]), Scale(k, eye[4]), Scale(k, eye[5])]
  }

  /** Scaling the whole contour by a positive factor leaves the score unchanged. */
  lemma ScaleInvariant(dist: Distance, eye: EyePoints, k: real)
    requires IsHomogeneous(dist)
    requires k > 0.0
    ensures EyeAspectRatio(dist, ScaleEye(k, eye)) == EyeAspectRatio(dist, eye)
  {
    var e := ScaleEye(k, eye);
    var a, b, c := VerticalA(dist, eye), VerticalB(dist, eye), Width(dist, eye);
    ScaledMeasures(dist, k, eye);
    assert VerticalA(dist, e) == k * a && VerticalB(dist, e) == k * b && Width(dist, e) == k * c;
    if c != 0.0 {
      ScaledRatio(a, b, c, k);
      assert Width(dist, e) != 0.0;
      assert EyeAspectRatio(dist, eye) == (a + b) / (2.0 * c);
      assert EyeAspectRatio(dist, e) == (k * a + k * b) / (2.0 * (k * c));
    }
  }

  lemma ScaledRatio(a: real, b: real, c: real, k: real)
    requires c != 0.0 && k > 0.0
    ensures k * c != 0.0
    ensures (k * a + k * b) / (2.0 * (k * c)) == (a + b) / (2.0 * c)
  {
    assert k * a + k * b == k * (a + b);
    assert 2.0 * (k * c) == k * (2.0 * c);
  }

  /** Each of the three measured distances scales by k. */
  lemma ScaledMeasures(dist: Distance, k: real, eye: EyePoints)
    requires IsHomogeneous(dist)
    requires k > 0.0
    ensures VerticalA(dist, ScaleEye(k, eye)) == k * VerticalA(dist, eye)
    ensures VerticalB(dist, ScaleEye(k, eye)) == k * VerticalB(dist, eye)
    ensures Width(dist, ScaleEye(k, eye)) == k * Width(dist, eye)
  {
    var e := ScaleEye(k, eye);
    assert e[1] == Scale(k, eye[1]) && e[5] == Scale(k, eye[5]);
    assert e[2] == Scale(k, eye[2]) && e[4] == Scale(k, eye[4]);
    assert e[0] == Scale(k, eye[0]) && e[3] == Scale(k, eye[3]);
  }

}
