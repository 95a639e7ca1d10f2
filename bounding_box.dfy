/**
 * The rectangle `get_xml_for_bbx` computes for one region of a labelled image
 * (dataturks_to_voc.py). A region's `points` come in two encodings: four
 * corners as JSON pairs `[x, y]`, reduced with min/max per axis, or any other
 * number of points as JSON objects `{"x": .., "y": ..}`, of which point 0 is
 * taken as the top-left and point 1 as the bottom-right corner. Coordinates are
 * fractions of the image's width and height.
 */
module BoundingBox {
  import opened Wrappers
  import opened Numeric

  /** One entry of `points`: a pair read as `p[0]`, `p[1]`, or an object read as `p['x']`, `p['y']`. */
  datatype Point = Pair(x: real, y: real) | Keyed(x: real, y: real)

  /**
   * A corner coordinate as the source holds it: the unrounded product of the
   * four-corner form, or the truncated int of the other form.
   */
  datatype Coord = Exact(r: real) | Whole(i: int)

  function Value(c: Coord): real
  {
    match c
    case Exact(r) => r
    case Whole(i) => i as real
  }

  datatype Box = Box(xmin: Coord, ymin: Coord, xmax: Coord, ymax: Coord)

  function Min4(a: real, b: real, c: real, d: real): real
  {
    var ab := if a <= b then a else b;
    var cd := if c <= d then c else d;
    if ab <= cd then ab else cd
  }

  function Max4(a: real, b: real, c: real, d: real): real
  {
    var ab := if a >= b then a else b;
    var cd := if c >= d then c else d;
    if ab >= cd then ab else cd
  }

  function Min2(a: real, b: real): real { if a <= b then a else b }

  function Max2(a: real, b: real): real { if a >= b then a else b }

  predicate AllPairs(points: seq<Point>)
  {
    forall k :: 0 <= k < |points| ==> points[k].Pair?
  }

  /**
   * The corners `get_xml_for_bbx` computes, or None where it raises: a keyed
   * point in the four-corner form (`p[0]` on an object), a pair in the other
   * form (`p['x']` on a list), or fewer than two points.
   */
  function Corners(points: seq<Point>, width: nat, height: nat): (r: Option<Box>)
    ensures r.Some? ==> |points| >= 2
    ensures r.Some? && |points| == 4 ==>
      Value(r.value.xmin) <= Value(r.value.xmax) && Value(r.value.ymin) <= Value(r.value.ymax)
  {
    if |points| == 4 then
      if AllPairs(points) then
        var p := points;
        TimesMonotone(width, Min4(p[0].x, p[1].x, p[2].x, p[3].x), Max4(p[0].x, p[1].x, p[2].x, p[3].x));
        TimesMonotone(height, Min4(p[0].y, p[1].y, p[2].y, p[3].y), Max4(p[0].y, p[1].y, p[2].y, p[3].y));
        Some(FourCorners(points, width, height))
      else None
    else if |points| >= 2 && points[0].Keyed? && points[1].Keyed? then
      Some(TwoCorners(points[0], points[1], width, height))
    else None
  }

  /** The four-corner form: width and height times the min and max per axis. */
  function FourCorners(p: seq<Point>, width: nat, height: nat): Box
    requires |p| == 4
  {
    Box(Exact(Times(width, Min4(p[0].x, p[1].x, p[2].x, p[3].x))),
        Exact(Times(height, Min4(p[0].y, p[1].y, p[2].y, p[3].y))),
        Exact(Times(width, Max4(p[0].x, p[1].x, p[2].x, p[3].x))),
        Exact(Times(height, Max4(p[0].y, p[1].y, p[2].y, p[3].y))))
  }

  /** The other form: point 0 as top-left and point 1 as bottom-right, each scaled and truncated. */
  function TwoCorners(topLeft: Point, bottomRight: Point, width: nat, height: nat): Box
  {
    Box(Whole(Trunc(Times(width, topLeft.x))), Whole(Trunc(Times(height, topLeft.y))),
        Whole(Trunc(Times(width, bottomRight.x))), Whole(Trunc(Times(height, bottomRight.y))))
  }

  datatype Axis = X | Y

  function Along(pt: Point, axis: Axis): real
  {
    match axis
    case X => pt.x
    case Y => pt.y
  }

  /** The least coordinate of a non-empty point list on one axis. */
  function Least(points: seq<Point>, axis: Axis): real
    requires points != []
  {
    if |points| == 1 then Along(points[0], axis)
    else
      var rest := Least(points[1..], axis);
      if Along(points[0], axis) <= rest then Along(points[0], axis) else rest
  }

  /** The greatest coordinate of a non-empty point list on one axis. */
  function Greatest(points: seq<Point>, axis: Axis): real
    requires points != []
  {
    if |points| == 1 then Along(points[0], axis)
    else
      var rest := Greatest(points[1..], axis);
      if Along(points[0], axis) >= rest then Along(points[0], axis) else rest
  }

  /** `m` is one of the coordinates on `axis` and no coordinate is below it. */
  ghost predicate IsLeast(m: real, points: seq<Point>, axis: Axis)
  {
    && (exists k :: 0 <= k < |points| && m == Along(points[k], axis))
    && forall k :: 0 <= k < |points| ==> m <= Along(points[k], axis)
  }

  /** `m` is one of the coordinates on `axis` and no coordinate is above it. */
  ghost predicate IsGreatest(m: real, points: seq<Point>, axis: Axis)
  {
    && (exists k :: 0 <= k < |points| && m == Along(points[k], axis))
    && forall k :: 0 <= k < |points| ==> Along(points[k], axis) <= m
  }

  lemma {:induction false} LeastIsLeast(points: seq<Point>, axis: Axis)
    requires points != []
    ensures IsLeast(Least(points, axis), points, axis)
  {
    if |points| > 1 {
      LeastIsLeast(points[1..], axis);
      var k :| 0 <= k < |points[1..]| && Least(points[1..], axis) == Along(points[1..][k], axis);
      assert Along(points[1..][k], axis) == Along(points[k + 1], axis);
      forall j | 1 <= j < |points| ensures Least(points, axis) <= Along(points[j], axis) {
        assert points[j] == points[1..][j - 1];
      }
    }
  }

  lemma {:induction false} GreatestIsGreatest(points: seq<Point>, axis: Axis)
    requires points != []
    ensures IsGreatest(Greatest(points, axis), points, axis)
  {
    if |points| > 1 {
      GreatestIsGreatest(points[1..], axis);
      var k :| 0 <= k < |points[1..]| && Greatest(points[1..], axis) == Along(points[1..][k], axis);
      assert Along(points[1..][k], axis) == Along(points[k + 1], axis);
      forall j | 1 <= j < |points| ensures Along(points[j], axis) <= Greatest(points, axis) {
        assert points[j] == points[1..][j - 1];
      }
    }
  }

  /**
   * Four corners: each side of the box is the width (or height) times the least
   * (or greatest) coordinate on its axis, whatever order the corners come in,
   * so the box is always ordered.
   */
  lemma FourCornerBox(points: seq<Point>, width: nat, height: nat)
    requires |points| == 4 && AllPairs(points)
    ensures Corners(points, width, height).Some?
    ensures var b := Corners(points, width, height).value;
      && b.xmin == Exact(Times(width, Least(points, X))) && b.ymin == Exact(Times(height, Least(points, Y)))
      && b.xmax == Exact(Times(width, Greatest(points, X))) && b.ymax == Exact(Times(height, Greatest(points, Y)))
    ensures Times(width, Least(points, X)) <= Times(width, Greatest(points, X))
    ensures Times(height, Least(points, Y)) <= Times(height, Greatest(points, Y))
  {
    var p := points;
    LeastOfFour(p, X);
    LeastOfFour(p, Y);
    GreatestOfFour(p, X);
    GreatestOfFour(p, Y);
    LeastBelowGreatest(p, X);
    LeastBelowGreatest(p, Y);
    TimesMonotone(width, Least(p, X), Greatest(p, X));
    TimesMonotone(height, Least(p, Y), Greatest(p, Y));
  }

  lemma LeastOfFour(p: seq<Point>, axis: Axis)
    requires |p| == 4
    ensures Least(p, axis) == Min4(Along(p[0], axis), Along(p[1], axis), Along(p[2], axis), Along(p[3], axis))
  {
    assert p[1..][1..] == p[2..] && p[2..][1..] == p[3..] && p[3..] == [p[3]];
    assert Least(p[3..], axis) == Along(p[3], axis);
    assert Least(p[2..], axis) == Min2(Along(p[2], axis), Along(p[3], axis));
  }

  lemma GreatestOfFour(p: seq<Point>, axis: Axis)
    requires |p| == 4
    ensures Greatest(p, axis) == Max4(Along(p[0], axis), Along(p[1], axis), Along(p[2], axis), Along(p[3], axis))
  {
    assert p[1..][1..] == p[2..] && p[2..][1..] == p[3..] && p[3..] == [p[3]];
    assert Greatest(p[3..], axis) == Along(p[3], axis);
    assert Greatest(p[2..], axis) == Max2(Along(p[2], axis), Along(p[3], axis));
  }

  lemma LeastBelowGreatest(p: seq<Point>, axis: Axis)
    requires p != []
    ensures Least(p, axis) <= Greatest(p, axis)
  {
    LeastIsLeast(p, axis);
    GreatestIsGreatest(p, axis);
    assert Least(p, axis) <= Along(p[0], axis) <= Greatest(p, axis);
  }

  lemma LeastUnique(p: seq<Point>, q: seq<Point>, axis: Axis)
    requires p != [] && multiset(p) == multiset(q)
    ensures q != [] && Least(p, axis) == Least(q, axis)
  {
    assert p[0] in multiset(q);
    LeastIsLeast(p, axis);
    LeastIsLeast(q, axis);
    var i :| 0 <= i < |p| && Least(p, axis) == Along(p[i], axis);
    var j :| 0 <= j < |q| && Least(q, axis) == Along(q[j], axis);
    assert p[i] in multiset(q);
    var i' :| 0 <= i' < |q| && q[i'] == p[i];
    assert q[j] in multiset(p);
    var j' :| 0 <= j' < |p| && p[j'] == q[j];
  }

  lemma GreatestUnique(p: seq<Point>, q: seq<Point>, axis: Axis)
    requires p != [] && multiset(p) == multiset(q)
    ensures q != [] && Greatest(p, axis) == Greatest(q, axis)
  {
    assert p[0] in multiset(q);
    GreatestIsGreatest(p, axis);
    GreatestIsGreatest(q, axis);
    var i :| 0 <= i < |p| && Greatest(p, axis) == Along(p[i], axis);
    var j :| 0 <= j < |q| && Greatest(q, axis) == Along(q[j], axis);
    assert p[i] in multiset(q);
    var i' :| 0 <= i' < |q| && q[i'] == p[i];
    assert q[j] in multiset(p);
    var j' :| 0 <= j' < |p| && p[j'] == q[j];
  }

  /** The four-corner box does not depend on the order in which the corners are listed. */
  lemma FourCornerOrderIrrelevant(p: seq<Point>, q: seq<Point>, width: nat, height: nat)
    requires |p| == 4 && AllPairs(p)
    requires multiset(p) == multiset(q)
    ensures Corners(p, width, height) == Corners(q, width, height)
  {
    assert |q| == |multiset(q)| == |multiset(p)| == 4;
    forall k | 0 <= k < 4 ensures q[k].Pair? {
      assert q[k] in multiset(p);
    }
    FourCornerBox(p, width, height);
    FourCornerBox(q, width, height);
    LeastUnique(p, q, X);
    GreatestUnique(p, q, X);
    LeastUnique(p, q, Y);
    GreatestUnique(p, q, Y);
    var bp, bq := Corners(p, width, height).value, Corners(q, width, height).value;
    assert bp.xmin == bq.xmin && bp.ymin == bq.ymin && bp.xmax == bq.xmax && bp.ymax == bq.ymax;
    assert bp == bq;
  }

  /**
   * Any other point list: the corners are points 0 and 1 scaled and truncated
   * toward zero, taken as they are, with no min/max between them.
   */
  lemma TwoPointBox(points: seq<Point>, width: nat, height: nat)
    requires |points| != 4 && |points| >= 2 && points[0].Keyed? && points[1].Keyed?
    ensures Corners(points, width, height).Some?
    ensures var b := Corners(points, width, height).value;
      && b.xmin.Whole? && b.ymin.Whole? && b.xmax.Whole? && b.ymax.Whole?
      && TowardZero(b.xmin.i, Times(width, points[0].x)) && TowardZero(b.ymin.i, Times(height, points[0].y))
      && TowardZero(b.xmax.i, Times(width, points[1].x)) && TowardZero(b.ymax.i, Times(height, points[1].y))
  {
    assert Corners(points, width, height) == Some(TwoCorners(points[0], points[1], width, height));
  }

  /** `i` is `r` with its fraction dropped: Python's `int()` on a float. */
  predicate TowardZero(i: int, r: real)
  {
    && (0.0 <= r ==> 0 <= i && i as real <= r < i as real + 1.0)
    && (r < 0.0 ==> i <= 0 && i as real - 1.0 < r <= i as real)
  }

  /** Because nothing reorders points 0 and 1, the box can come out with xmin > xmax. */
  lemma TwoPointBoxUnordered()
    ensures Corners([Keyed(0.8, 0.9), Keyed(0.1, 0.2)], 10, 10)
         == Some(Box(Whole(8), Whole(9), Whole(1), Whole(2)))
  {
    assert Trunc(8.0) == 8 && Trunc(9.0) == 9 && Trunc(1.0) == 1 && Trunc(2.0) == 2;
  }

  predicate Fractions(points: seq<Point>)
  {
    forall k :: 0 <= k < |points| ==> 0.0 <= points[k].x <= 1.0 && 0.0 <= points[k].y <= 1.0
  }

  predicate Within(b: Box, width: nat, height: nat)
  {
    && 0.0 <= Value(b.xmin) <= width as real && 0.0 <= Value(b.xmax) <= width as real
    && 0.0 <= Value(b.ymin) <= height as real && 0.0 <= Value(b.ymax) <= height as real
  }

  /** Fractions in [0, 1] give corners inside the image, in either form. */
  lemma CornersWithinImage(points: seq<Point>, width: nat, height: nat)
    requires Fractions(points)
    requires Corners(points, width, height).Some?
    ensures Within(Corners(points, width, height).value, width, height)
  {
    if |points| == 4 {
      FourCornerWithin(points, width, height);
    } else {
      TwoPointWithin(points, width, height);
    }
  }

  lemma FourCornerWithin(points: seq<Point>, width: nat, height: nat)
    requires Fractions(points) && |points| == 4 && AllPairs(points)
    ensures Within(Corners(points, width, height).value, width, height)
  {
    FourCornerBox(points, width, height);
    FractionExtremes(points, X);
    FractionExtremes(points, Y);
    TimesFraction(width, Least(points, X));
    TimesFraction(width, Greatest(points, X));
    TimesFraction(height, Least(points, Y));
    TimesFraction(height, Greatest(points, Y));
  }

  lemma FractionExtremes(points: seq<Point>, axis: Axis)
    requires Fractions(points) && points != []
    ensures 0.0 <= Least(points, axis) <= 1.0 && 0.0 <= Greatest(points, axis) <= 1.0
  {
    LeastIsLeast(points, axis);
    GreatestIsGreatest(points, axis);
    var i :| 0 <= i < |points| && Least(points, axis) == Along(points[i], axis);
    var j :| 0 <= j < |points| && Greatest(points, axis) == Along(points[j], axis);
  }

  lemma TwoPointWithin(points: seq<Point>, width: nat, height: nat)
    requires Fractions(points) && |points| != 4
    requires Corners(points, width, height).Some?
    ensures Within(Corners(points, width, height).value, width, height)
  {
    var b := Corners(points, width, height).value;
    assert b == TwoCorners(points[0], points[1], width, height);
    assert 0.0 <= points[0].x <= 1.0 && 0.0 <= points[0].y <= 1.0;
    assert 0.0 <= points[1].x <= 1.0 && 0.0 <= points[1].y <= 1.0;
    TruncWithin(points[0].x, width);
    TruncWithin(points[1].x, width);
    TruncWithin(points[0].y, height);
    TruncWithin(points[1].y, height);
  }

  /** A fraction in [0, 1] of a size, truncated, stays in [0, size]. */
  lemma TruncWithin(f: real, size: nat)
    requires 0.0 <= f <= 1.0
    ensures 0.0 <= Trunc(Times(size, f)) as real <= size as real
  {
    TimesFraction(size, f);
  }
}
