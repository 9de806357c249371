/**
 Clipping a polygon to a rectangle, edge by edge, and flattening cubic curves: `clip_to_rect` and
 `flatten` of flatten_logo.py, over the reals.
 */
module Clipping {
  import opened Arithmetic

  datatype Point = Point(x: real, y: real)

  /** One side of the rectangle. */
  datatype Side = MinX(at: real) | MaxX(at: real) | MinY(at: real) | MaxY(at: real)

  /** How far inside a side a point is. */
  function Depth(side: Side, p: Point): real {
    match side
    case MinX(at) => p.x - at
    case MaxX(at) => at - p.x
    case MinY(at) => p.y - at
    case MaxY(at) => at - p.y
  }

  predicate Inside(side: Side, p: Point) {
    match side
    case MinX(at) => p.x >= at
    case MaxX(at) => p.x <= at
    case MinY(at) => p.y >= at
    case MaxY(at) => p.y <= at
  }

  /** Where the line from a to b meets a vertical line, and a horizontal one. */
  function AtX(x: real, a: Point, b: Point): Point
    requires a.x != b.x
  {
    Point(x, a.y + (b.y - a.y) * (x - a.x) / (b.x - a.x))
  }

  function AtY(y: real, a: Point, b: Point): Point
    requires a.y != b.y
  {
    Point(a.x + (b.x - a.x) * (y - a.y) / (b.y - a.y), y)
  }

  /** Where the edge from a to b crosses a side; nothing is divided by zero, as the ends are on either side of it. */
  function Intersect(side: Side, a: Point, b: Point): Point
    requires Inside(side, a) != Inside(side, b)
  {
    match side
    case MinX(at) => AtX(at, a, b)
    case MaxX(at) => AtX(at, a, b)
    case MinY(at) => AtY(at, a, b)
    case MaxY(at) => AtY(at, a, b)
  }

  // ----- one pass

  /** What one edge of the polygon adds to the output. */
  function Emit(side: Side, prev: Point, cur: Point): seq<Point> {
    if Inside(side, cur) then
      (if Inside(side, prev) then [] else [Intersect(side, prev, cur)]) + [cur]
    else if Inside(side, prev) then [Intersect(side, prev, cur)]
    else []
  }

  function ClipFrom(side: Side, prev: Point, poly: seq<Point>): seq<Point>
    decreases |poly|
  {
    if poly == [] then [] else Emit(side, prev, poly[0]) + ClipFrom(side, poly[0], poly[1..])
  }

  function ClipEdge(side: Side, poly: seq<Point>): seq<Point> {
    if poly == [] then [] else ClipFrom(side, poly[|poly| - 1], poly)
  }

  method ClipToSide(side: Side, poly: seq<Point>) returns (out: seq<Point>)
    ensures out == ClipEdge(side, poly)
  {
    out := [];
    if poly == [] {
      return;
    }
    var prev := poly[|poly| - 1];
    assert poly[0..] == poly;
    for i := 0 to |poly|
      invariant out + ClipFrom(side, prev, poly[i..]) == ClipEdge(side, poly)
    {
      ClipNext(side, prev, poly, i, out);
      out := out + Emit(side, prev, poly[i]);
      prev := poly[i];
    }
    assert poly[|poly|..] == [];
  }

  lemma ClipNext(side: Side, prev: Point, poly: seq<Point>, i: nat, out: seq<Point>)
    requires i < |poly|
    ensures out + ClipFrom(side, prev, poly[i..]) ==
            out + Emit(side, prev, poly[i]) + ClipFrom(side, poly[i], poly[i + 1..])
  {
    assert poly[i..][1..] == poly[i + 1..];
  }

  function ClipRect(poly: seq<Point>, x0: real, y0: real, x1: real, y1: real): seq<Point> {
    ClipEdge(MaxY(y1), ClipEdge(MinY(y0), ClipEdge(MaxX(x1), ClipEdge(MinX(x0), poly))))
  }

  method ClipToRect(polygon: seq<Point>, x0: real, y0: real, x1: real, y1: real) returns (poly: seq<Point>)
    ensures poly == ClipRect(polygon, x0, y0, x1, y1)
  {
    poly := polygon;
    poly := ClipToSide(MinX(x0), poly);
    poly := ClipToSide(MaxX(x1), poly);
    poly := ClipToSide(MinY(y0), poly);
    poly := ClipToSide(MaxY(y1), poly);
  }

  // ----- points on an edge

  function Along(a: Point, b: Point, t: real): Point {
    Point(a.x + t * (b.x - a.x), a.y + t * (b.y - a.y))
  }

  ghost predicate OnEdge(p: Point, a: Point, b: Point) {
    exists t :: 0.0 <= t <= 1.0 && p == Along(a, b, t)
  }

  lemma InsideIsDepth(side: Side, p: Point)
    ensures Inside(side, p) <==> Depth(side, p) >= 0.0
  {
  }

  /** Depth changes evenly along an edge. */
  lemma DepthAlong(side: Side, a: Point, b: Point, t: real)
    ensures Depth(side, Along(a, b, t)) == Depth(side, a) + t * (Depth(side, b) - Depth(side, a))
  {
    Negate(t, b.x - a.x);
    Negate(t, b.y - a.y);
  }

  lemma Negate(t: real, d: real)
    ensures t * (0.0 - d) == 0.0 - t * d
  {
  }

  /** How far along an edge it crosses a side. */
  function Crossing(side: Side, a: Point, b: Point): real
    requires Inside(side, a) != Inside(side, b)
  {
    Depth(side, a) / (Depth(side, a) - Depth(side, b))
  }

  lemma DivBounds(n: real, d: real)
    requires d != 0.0 && (0.0 <= n <= d || d <= n <= 0.0)
    ensures 0.0 <= n / d <= 1.0
  {
    var q := n / d;
    assert q * d == n;
    if d > 0.0 {
      if q < 0.0 { MulSign(0.0 - q, d); }
      if q > 1.0 { MulSign(q - 1.0, d); }
    } else {
      if q < 0.0 { MulSign(0.0 - q, 0.0 - d); }
      if q > 1.0 { MulSign(q - 1.0, 0.0 - d); }
    }
  }

  lemma MulSign(a: real, b: real)
    requires a > 0.0 && b > 0.0
    ensures a * b > 0.0
  {
  }

  lemma MulDiv(a: real, n: real, d: real)
    requires d != 0.0
    ensures a * n / d == (n / d) * a
  {
    var q := n / d;
    assert q * d == n;
    assert a * n == (q * a) * d;
    DivMul(q * a, d);
  }

  lemma DivMul(x: real, d: real)
    requires d != 0.0
    ensures (x * d) / d == x
  {
  }

  lemma DivFlip(n: real, d: real)
    requires d != 0.0
    ensures (0.0 - n) / (0.0 - d) == n / d
  {
    var q := n / d;
    assert q * (0.0 - d) == 0.0 - n;
    DivMul(q, 0.0 - d);
  }

  /** Interpolating one coordinate by another, and both by the distance along. */
  lemma Interpolate(at: real, a: real, b: real, c: real, d: real, t: real)
    requires a != b && t == (at - a) / (b - a)
    ensures c + (d - c) * (at - a) / (b - a) == c + t * (d - c)
    ensures at == a + t * (b - a)
  {
    MulDiv(d - c, at - a, b - a);
  }

  lemma CrossingBounds(side: Side, a: Point, b: Point)
    requires Inside(side, a) != Inside(side, b)
    ensures 0.0 <= Crossing(side, a, b) <= 1.0
  {
    InsideIsDepth(side, a);
    InsideIsDepth(side, b);
    DivBounds(Depth(side, a), Depth(side, a) - Depth(side, b));
  }

  lemma AcrossX(at: real, a: Point, b: Point, t: real)
    requires a.x != b.x && t == (at - a.x) / (b.x - a.x)
    ensures AtX(at, a, b) == Along(a, b, t)
  {
    Interpolate(at, a.x, b.x, a.y, b.y, t);
  }

  lemma AcrossY(at: real, a: Point, b: Point, t: real)
    requires a.y != b.y && t == (at - a.y) / (b.y - a.y)
    ensures AtY(at, a, b) == Along(a, b, t)
  {
    Interpolate(at, a.y, b.y, a.x, b.x, t);
  }

  lemma CrossingIs(side: Side, a: Point, b: Point)
    requires Inside(side, a) != Inside(side, b)
    ensures side.MinX? || side.MaxX? ==> a.x != b.x && Crossing(side, a, b) == (side.at - a.x) / (b.x - a.x)
    ensures side.MinY? || side.MaxY? ==> a.y != b.y && Crossing(side, a, b) == (side.at - a.y) / (b.y - a.y)
  {
    if side.MinX? { DivFlip(a.x - side.at, a.x - b.x); }
    if side.MinY? { DivFlip(a.y - side.at, a.y - b.y); }
  }

  lemma IntersectIsOn(side: Side, a: Point, b: Point)
    requires Inside(side, a) != Inside(side, b)
    ensures Depth(side, Intersect(side, a, b)) == 0.0
  {
  }

  lemma IntersectAt(side: Side, a: Point, b: Point, t: real)
    requires Inside(side, a) != Inside(side, b)
    requires side.MinX? || side.MaxX? ==> a.x != b.x && t == (side.at - a.x) / (b.x - a.x)
    requires side.MinY? || side.MaxY? ==> a.y != b.y && t == (side.at - a.y) / (b.y - a.y)
    ensures Intersect(side, a, b) == Along(a, b, t)
  {
    if side.MinX? || side.MaxX? {
      AcrossX(side.at, a, b, t);
    } else {
      AcrossY(side.at, a, b, t);
    }
  }

  /** The crossing is a point of the edge. */
  lemma IntersectIsAlong(side: Side, a: Point, b: Point)
    requires Inside(side, a) != Inside(side, b)
    ensures Intersect(side, a, b) == Along(a, b, Crossing(side, a, b))
  {
    CrossingIs(side, a, b);
    IntersectAt(side, a, b, Crossing(side, a, b));
  }

  // ----- what a pass keeps

  ghost predicate AllInside(side: Side, poly: seq<Point>) {
    forall i :: 0 <= i < |poly| ==> Inside(side, poly[i])
  }

  /** A side both ends of an edge are inside of holds the whole edge. */
  lemma EdgeInside(side: Side, a: Point, b: Point, t: real)
    requires Inside(side, a) && Inside(side, b) && 0.0 <= t <= 1.0
    ensures Inside(side, Along(a, b, t))
  {
    DepthAlong(side, a, b, t);
    Between(Depth(side, a), Depth(side, b), t);
    InsideIsDepth(side, a);
    InsideIsDepth(side, b);
    InsideIsDepth(side, Along(a, b, t));
  }

  lemma Between(x: real, y: real, t: real)
    requires 0.0 <= t <= 1.0
    ensures x >= 0.0 && y >= 0.0 ==> x + t * (y - x) >= 0.0
    ensures x < 0.0 && y < 0.0 ==> x + t * (y - x) < 0.0
  {
    assert x + t * (y - x) == (1.0 - t) * x + t * y;
    MulNonNeg(1.0 - t, x);
    MulNonNeg(t, y);
    MulNonNeg(1.0 - t, 0.0 - x);
    MulNonNeg(t, 0.0 - y);
    if t > 0.0 && y < 0.0 { MulSign(t, 0.0 - y); }
    if t < 1.0 && x < 0.0 { MulSign(1.0 - t, 0.0 - x); }
  }

  /** A crossing is inside its own side, and inside every side both ends of the edge are inside of. */
  lemma IntersectInside(side: Side, other: Side, a: Point, b: Point)
    requires Inside(side, a) != Inside(side, b)
    ensures Inside(side, Intersect(side, a, b))
    ensures Inside(other, a) && Inside(other, b) ==> Inside(other, Intersect(side, a, b))
  {
    IntersectIsOn(side, a, b);
    InsideIsDepth(side, Intersect(side, a, b));
    if Inside(other, a) && Inside(other, b) {
      IntersectIsAlong(side, a, b);
      CrossingBounds(side, a, b);
      EdgeInside(other, a, b, Crossing(side, a, b));
    }
  }

  lemma {:induction false} ClipFromInside(side: Side, other: Side, prev: Point, poly: seq<Point>)
    ensures AllInside(side, ClipFrom(side, prev, poly))
    ensures Inside(other, prev) && AllInside(other, poly) ==> AllInside(other, ClipFrom(side, prev, poly))
    decreases |poly|
  {
    if poly != [] {
      ClipFromInside(side, other, poly[0], poly[1..]);
      if Inside(side, prev) != Inside(side, poly[0]) {
        IntersectInside(side, other, prev, poly[0]);
      }
    }
  }

  /** After a pass every vertex is inside its side, and what was inside any other side still is. */
  lemma PassInside(side: Side, other: Side, poly: seq<Point>)
    ensures AllInside(side, ClipEdge(side, poly))
    ensures AllInside(other, poly) ==> AllInside(other, ClipEdge(side, poly))
  {
    if poly != [] {
      ClipFromInside(side, other, poly[|poly| - 1], poly);
    }
  }

  ghost predicate InRect(poly: seq<Point>, x0: real, y0: real, x1: real, y1: real) {
    forall i :: 0 <= i < |poly| ==> x0 <= poly[i].x <= x1 && y0 <= poly[i].y <= y1
  }

  lemma InRectBySides(poly: seq<Point>, x0: real, y0: real, x1: real, y1: real)
    ensures InRect(poly, x0, y0, x1, y1) <==>
            && AllInside(MinX(x0), poly) && AllInside(MaxX(x1), poly)
            && AllInside(MinY(y0), poly) && AllInside(MaxY(y1), poly)
  {
    forall i | 0 <= i < |poly|
      ensures x0 <= poly[i].x <= x1 && y0 <= poly[i].y <= y1 <==>
              && Inside(MinX(x0), poly[i]) && Inside(MaxX(x1), poly[i])
              && Inside(MinY(y0), poly[i]) && Inside(MaxY(y1), poly[i])
    {
    }
  }

  /** Every vertex of a clipped polygon lies in the rectangle: later passes keep what earlier ones made. */
  lemma ClippedLiesInRect(poly: seq<Point>, x0: real, y0: real, x1: real, y1: real)
    ensures InRect(ClipRect(poly, x0, y0, x1, y1), x0, y0, x1, y1)
  {
    var p1 := ClipEdge(MinX(x0), poly);
    var p2 := ClipEdge(MaxX(x1), p1);
    var p3 := ClipEdge(MinY(y0), p2);
    PassInside(MinX(x0), MinX(x0), poly);
    PassInside(MaxX(x1), MinX(x0), p1);
    PassInside(MinY(y0), MinX(x0), p2);
    PassInside(MinY(y0), MaxX(x1), p2);
    PassInside(MaxY(y1), MinX(x0), p3);
    PassInside(MaxY(y1), MaxX(x1), p3);
    PassInside(MaxY(y1), MinY(y0), p3);
    InRectBySides(ClipRect(poly, x0, y0, x1, y1), x0, y0, x1, y1);
  }

  lemma {:induction false} ClipFromUnchanged(side: Side, prev: Point, poly: seq<Point>)
    requires Inside(side, prev) && AllInside(side, poly)
    ensures ClipFrom(side, prev, poly) == poly
    decreases |poly|
  {
    if poly != [] {
      ClipFromUnchanged(side, poly[0], poly[1..]);
      assert Inside(side, poly[0]);
      assert poly == [poly[0]] + poly[1..];
    }
  }

  lemma PassUnchanged(side: Side, poly: seq<Point>)
    requires AllInside(side, poly)
    ensures ClipEdge(side, poly) == poly
  {
    if poly != [] {
      ClipFromUnchanged(side, poly[|poly| - 1], poly);
    }
  }

  /** Clipping leaves exactly the polygons already in the rectangle alone. */
  lemma ClipFixpoints(poly: seq<Point>, x0: real, y0: real, x1: real, y1: real)
    ensures ClipRect(poly, x0, y0, x1, y1) == poly <==> InRect(poly, x0, y0, x1, y1)
  {
    ClippedLiesInRect(poly, x0, y0, x1, y1);
    InRectBySides(poly, x0, y0, x1, y1);
    if InRect(poly, x0, y0, x1, y1) {
      PassUnchanged(MinX(x0), poly);
      PassUnchanged(MaxX(x1), poly);
      PassUnchanged(MinY(y0), poly);
      PassUnchanged(MaxY(y1), poly);
    }
  }

  lemma ClipIdempotent(poly: seq<Point>, x0: real, y0: real, x1: real, y1: real)
    ensures ClipRect(ClipRect(poly, x0, y0, x1, y1), x0, y0, x1, y1) == ClipRect(poly, x0, y0, x1, y1)
  {
    ClippedLiesInRect(poly, x0, y0, x1, y1);
    ClipFixpoints(ClipRect(poly, x0, y0, x1, y1), x0, y0, x1, y1);
  }

  // ----- the outline inside the rectangle is kept

  /** A point on one of the edges that begin at `from` and go on through the points of a path. */
  ghost predicate OnPath(p: Point, from: Point, path: seq<Point>)
    decreases |path|
  {
    path != [] && (OnEdge(p, from, path[0]) || OnPath(p, path[0], path[1..]))
  }

  /** A point on the closed outline of a polygon. */
  ghost predicate OnOutline(p: Point, poly: seq<Point>) {
    poly != [] && OnPath(p, poly[|poly| - 1], poly)
  }

  lemma OnEdgeInside(side: Side, p: Point, a: Point, b: Point)
    requires OnEdge(p, a, b) && Inside(side, p)
    ensures Inside(side, a) || Inside(side, b)
  {
    var t :| 0.0 <= t <= 1.0 && p == Along(a, b, t);
    DepthAlong(side, a, b, t);
    InsideIsDepth(side, a);
    InsideIsDepth(side, b);
    InsideIsDepth(side, p);
    Between(Depth(side, a), Depth(side, b), t);
  }

  /** On an edge that goes out, a point inside comes no later than the crossing. */
  lemma BeforeCrossing(side: Side, a: Point, b: Point, t: real)
    requires Inside(side, a) && !Inside(side, b) && 0.0 <= t <= 1.0 && Inside(side, Along(a, b, t))
    ensures t <= Crossing(side, a, b)
  {
    var da, db, c := Depth(side, a), Depth(side, b), Crossing(side, a, b);
    InsideIsDepth(side, a);
    InsideIsDepth(side, b);
    InsideIsDepth(side, Along(a, b, t));
    DepthAlong(side, a, b, t);
    assert c * (da - db) == da;
    NoFurther(da, db, t, c);
  }

  lemma NoFurther(da: real, db: real, t: real, c: real)
    requires da >= 0.0 > db && c * (da - db) == da && da + t * (db - da) >= 0.0
    ensures t <= c
  {
    var d := da - db;
    Negate(t, d);
    assert db - da == 0.0 - d;
    MinusTimes(t, c, d);
    if t > c { MulSign(t - c, d); }
  }

  lemma MinusTimes(a: real, b: real, d: real)
    ensures (a - b) * d == a * d - b * d
  {
  }

  lemma PartOfTheWay(a: Point, b: Point, t: real, c: real)
    requires 0.0 <= t <= c && c > 0.0
    ensures 0.0 <= t / c <= 1.0
    ensures Along(a, Along(a, b, c), t / c) == Along(a, b, t)
  {
    DivBounds(t, c);
    var m := Along(a, b, c);
    Scale(t, c, a.x, b.x, m.x);
    Scale(t, c, a.y, b.y, m.y);
  }

  lemma Scale(t: real, c: real, x: real, y: real, m: real)
    requires c > 0.0 && m == x + c * (y - x)
    ensures x + (t / c) * (m - x) == x + t * (y - x)
  {
    var q, d := t / c, y - x;
    assert q * c == t;
    assert m - x == c * d;
    TimesTimes(q, c, d);
  }

  lemma TimesTimes(q: real, c: real, d: real)
    ensures q * (c * d) == (q * c) * d
  {
  }

  /** The part of an edge inside, when it goes out, is the edge to the crossing. */
  lemma OnEdgeGoingOut(side: Side, p: Point, a: Point, b: Point)
    requires OnEdge(p, a, b) && Inside(side, p) && Inside(side, a) && !Inside(side, b)
    ensures OnEdge(p, a, Intersect(side, a, b))
  {
    var t :| 0.0 <= t <= 1.0 && p == Along(a, b, t);
    var c := Crossing(side, a, b);
    BeforeCrossing(side, a, b, t);
    IntersectIsAlong(side, a, b);
    var end := Intersect(side, a, b);
    if c > 0.0 {
      PartOfTheWay(a, b, t, c);
      assert p == Along(a, end, t / c);
    } else {
      assert p == Along(a, end, 0.0);
    }
  }

  lemma AlongBack(a: Point, b: Point, t: real)
    ensures Along(a, b, t) == Along(b, a, 1.0 - t)
  {
  }

  lemma OnEdgeBack(p: Point, a: Point, b: Point)
    requires OnEdge(p, a, b)
    ensures OnEdge(p, b, a)
  {
    var t :| 0.0 <= t <= 1.0 && p == Along(a, b, t);
    AlongBack(a, b, t);
  }

  /** The crossing is the same from either end. */
  lemma IntersectBack(side: Side, a: Point, b: Point)
    requires Inside(side, a) != Inside(side, b)
    ensures Intersect(side, a, b) == Intersect(side, b, a)
  {
    var da, db := Depth(side, a), Depth(side, b);
    IntersectIsAlong(side, a, b);
    IntersectIsAlong(side, b, a);
    InsideIsDepth(side, a);
    InsideIsDepth(side, b);
    AlongBack(a, b, Crossing(side, a, b));
    DivFlip(db, db - da);
    OneMinus(da, da - db);
    assert da - db - da == 0.0 - db;
  }

  lemma OneMinus(n: real, d: real)
    requires d != 0.0
    ensures 1.0 - n / d == (d - n) / d
  {
    var q := n / d;
    assert q * d == n;
    Distribute(q, d);
    DivIs(d - n, d, 1.0 - q);
  }

  lemma DivIs(n: real, d: real, q: real)
    requires d != 0.0 && n == q * d
    ensures n / d == q
  {
  }

  lemma Distribute(q: real, d: real)
    ensures (1.0 - q) * d == d - q * d
  {
  }

  /** The part of an edge inside, when it comes in, is the edge from the crossing. */
  lemma OnEdgeComingIn(side: Side, p: Point, a: Point, b: Point)
    requires OnEdge(p, a, b) && Inside(side, p) && !Inside(side, a) && Inside(side, b)
    ensures OnEdge(p, Intersect(side, a, b), b)
  {
    OnEdgeBack(p, a, b);
    OnEdgeGoingOut(side, p, b, a);
    IntersectBack(side, a, b);
    OnEdgeBack(p, b, Intersect(side, b, a));
  }

  /** The point the output goes on from: the last one emitted, if any was. */
  function LastOf(before: Point, out: seq<Point>): Point {
    if out == [] then before else out[|out| - 1]
  }

  lemma {:induction false} OnPathAppend(p: Point, from: Point, a: seq<Point>, b: seq<Point>)
    ensures OnPath(p, from, a + b) <==> OnPath(p, from, a) || OnPath(p, LastOf(from, a), b)
    decreases |a|
  {
    if a == [] {
      assert a + b == b;
    } else {
      assert (a + b)[1..] == a[1..] + b;
      OnPathAppend(p, a[0], a[1..], b);
      assert LastOf(from, a) == LastOf(a[0], a[1..]);
    }
  }

  /** The inside part of one edge is on what the edge emits. */
  lemma EdgeKept(side: Side, p: Point, prev: Point, cur: Point, before: Point)
    requires OnEdge(p, prev, cur) && Inside(side, p) && (Inside(side, prev) ==> before == prev)
    ensures OnPath(p, before, Emit(side, prev, cur))
  {
    OnEdgeInside(side, p, prev, cur);
    var out := Emit(side, prev, cur);
    if Inside(side, prev) && !Inside(side, cur) {
      OnEdgeGoingOut(side, p, prev, cur);
    } else if !Inside(side, prev) {
      OnEdgeComingIn(side, p, prev, cur);
      assert out[1..] == [cur] && out[1..][0] == cur;
    }
  }

  lemma EmitEnds(side: Side, prev: Point, cur: Point, before: Point)
    ensures Inside(side, cur) ==> LastOf(before, Emit(side, prev, cur)) == cur
  {
  }

  lemma {:induction false} PathKept(side: Side, p: Point, prev: Point, poly: seq<Point>, before: Point)
    requires OnPath(p, prev, poly) && Inside(side, p) && (Inside(side, prev) ==> before == prev)
    ensures OnPath(p, before, ClipFrom(side, prev, poly))
    decreases |poly|
  {
    var cur, out := poly[0], Emit(side, prev, poly[0]);
    EmitEnds(side, prev, cur, before);
    OnPathAppend(p, before, out, ClipFrom(side, cur, poly[1..]));
    if OnEdge(p, prev, cur) {
      EdgeKept(side, p, prev, cur, before);
    } else {
      PathKept(side, p, cur, poly[1..], LastOf(before, out));
    }
  }

  lemma {:induction false} ClipFromEnds(side: Side, prev: Point, poly: seq<Point>, before: Point)
    requires poly != [] && Inside(side, poly[|poly| - 1])
    ensures ClipFrom(side, prev, poly) != []
    ensures LastOf(before, ClipFrom(side, prev, poly)) == poly[|poly| - 1]
    decreases |poly|
  {
    EmitEnds(side, prev, poly[0], before);
    if |poly| > 1 {
      ClipFromEnds(side, poly[0], poly[1..], LastOf(before, Emit(side, prev, poly[0])));
    }
  }

  /** A pass keeps every point of the outline that is inside its side. */
  lemma PassKeepsOutline(side: Side, p: Point, poly: seq<Point>)
    requires OnOutline(p, poly) && Inside(side, p)
    ensures OnOutline(p, ClipEdge(side, poly))
  {
    var last := poly[|poly| - 1];
    var out := ClipEdge(side, poly);
    if Inside(side, last) {
      ClipFromEnds(side, last, poly, last);
      PathKept(side, p, last, poly, last);
    } else {
      PathKept(side, p, last, poly, last);
      PathKept(side, p, last, poly, LastOf(last, out));
    }
  }

  /** What one edge emits is on that edge. */
  lemma EmittedIsOnEdge(side: Side, prev: Point, cur: Point, i: nat)
    requires i < |Emit(side, prev, cur)|
    ensures OnEdge(Emit(side, prev, cur)[i], prev, cur)
  {
    var q := Emit(side, prev, cur)[i];
    if q == cur {
      assert q == Along(prev, cur, 1.0);
    } else {
      IntersectIsAlong(side, prev, cur);
      CrossingBounds(side, prev, cur);
      assert q == Along(prev, cur, Crossing(side, prev, cur));
    }
  }

  lemma {:induction false} ClipFromStaysOnPath(side: Side, prev: Point, poly: seq<Point>, i: nat)
    requires i < |ClipFrom(side, prev, poly)|
    ensures OnPath(ClipFrom(side, prev, poly)[i], prev, poly)
    decreases |poly|
  {
    var n := |Emit(side, prev, poly[0])|;
    if i < n {
      EmittedIsOnEdge(side, prev, poly[0], i);
    } else {
      ClipFromStaysOnPath(side, poly[0], poly[1..], i - n);
    }
  }

  /** And every vertex a pass emits is a point of the outline it was given. */
  lemma PassStaysOnOutline(side: Side, poly: seq<Point>, i: nat)
    requires i < |ClipEdge(side, poly)|
    ensures OnOutline(ClipEdge(side, poly)[i], poly)
  {
    ClipFromStaysOnPath(side, poly[|poly| - 1], poly, i);
  }

  /** Clipping keeps the whole outline that lies in the rectangle. */
  lemma ClipKeepsOutline(p: Point, poly: seq<Point>, x0: real, y0: real, x1: real, y1: real)
    requires OnOutline(p, poly) && x0 <= p.x <= x1 && y0 <= p.y <= y1
    ensures OnOutline(p, ClipRect(poly, x0, y0, x1, y1))
  {
    var p1 := ClipEdge(MinX(x0), poly);
    var p2 := ClipEdge(MaxX(x1), p1);
    var p3 := ClipEdge(MinY(y0), p2);
    PassKeepsOutline(MinX(x0), p, poly);
    PassKeepsOutline(MaxX(x1), p, p1);
    PassKeepsOutline(MinY(y0), p, p2);
    PassKeepsOutline(MaxY(y1), p, p3);
  }

  // ----- curves

  datatype Segment = Straight(to: Point) | Cubic(p0: Point, p1: Point, p2: Point, p3: Point)

  /** The weights of a cubic's four control points. */
  function W0(t: real): real { (1.0 - t) * (1.0 - t) * (1.0 - t) }

  function W1(t: real): real { 3.0 * ((1.0 - t) * (1.0 - t)) * t }

  function W2(t: real): real { 3.0 * (1.0 - t) * (t * t) }

  function W3(t: real): real { t * t * t }

  function Weighted(t: real, a: real, b: real, c: real, d: real): real {
    W0(t) * a + W1(t) * b + W2(t) * c + W3(t) * d
  }

  function CurvePoint(s: Segment, t: real): Point
    requires s.Cubic?
  {
    Point(Weighted(t, s.p0.x, s.p1.x, s.p2.x, s.p3.x), Weighted(t, s.p0.y, s.p1.y, s.p2.y, s.p3.y))
  }

  /** The first n of a cubic's points. */
  function CurvePoints(s: Segment, steps: nat, n: nat): (pts: seq<Point>)
    requires s.Cubic? && n <= steps
    ensures |pts| == n
  {
    if n == 0 then [] else CurvePoints(s, steps, n - 1) + [CurvePoint(s, n as real / steps as real)]
  }

  function SegmentPoints(s: Segment, steps: nat): seq<Point> {
    if s.Straight? then [s.to] else CurvePoints(s, steps, steps)
  }

  function FlatPoints(segments: seq<Segment>, steps: nat): seq<Point> {
    if segments == [] then []
    else FlatPoints(segments[..|segments| - 1], steps) + SegmentPoints(segments[|segments| - 1], steps)
  }

  method Flatten(segments: seq<Segment>, steps: nat) returns (pts: seq<Point>)
    ensures pts == FlatPoints(segments, steps)
  {
    pts := [];
    for k := 0 to |segments|
      invariant pts == FlatPoints(segments[..k], steps)
    {
      var seg := segments[k];
      ghost var before := pts;
      assert segments[..k + 1][..k] == segments[..k];
      if seg.Straight? {
        pts := pts + [seg.to];
      } else {
        assert before + [] == before;
        for i := 1 to steps + 1
          invariant pts == before + CurvePoints(seg, steps, i - 1)
        {
          pts := pts + [CurvePoint(seg, i as real / steps as real)];
        }
      }
    }
    assert segments[..|segments|] == segments;
  }

  /** The four weights are not negative and add up to one. */
  lemma WeightsAddUp(t: real)
    requires 0.0 <= t <= 1.0
    ensures W0(t) >= 0.0 && W1(t) >= 0.0 && W2(t) >= 0.0 && W3(t) >= 0.0
    ensures W0(t) + W1(t) + W2(t) + W3(t) == 1.0
  {
    var u := 1.0 - t;
    MulNonNeg(u, u);
    MulNonNeg(t, t);
    MulNonNeg(u * u, u);
    MulNonNeg(u * u, t);
    MulNonNeg(t * t, u);
    MulNonNeg(t * t, t);
    assert 3.0 * (u * u) * t == 3.0 * (u * u * t);
    assert 3.0 * u * (t * t) == 3.0 * (t * t * u);
    CubeOfSum(u, t);
  }

  lemma CubeOfSum(u: real, t: real)
    ensures (u + t) * (u + t) * (u + t) == u * u * u + 3.0 * (u * u) * t + 3.0 * u * (t * t) + t * t * t
  {
  }

  /** A weighted coordinate lies between the least and the greatest of the four. */
  lemma WeightedIsBetween(t: real, a: real, b: real, c: real, d: real, lo: real, hi: real)
    requires 0.0 <= t <= 1.0
    requires lo <= a <= hi && lo <= b <= hi && lo <= c <= hi && lo <= d <= hi
    ensures lo <= Weighted(t, a, b, c, d) <= hi
  {
    WeightsAddUp(t);
    WeighedSum(W0(t), W1(t), W2(t), W3(t), a, b, c, d, lo, hi);
  }

  lemma WeighedSum(wa: real, wb: real, wc: real, wd: real, a: real, b: real, c: real, d: real, lo: real, hi: real)
    requires wa >= 0.0 && wb >= 0.0 && wc >= 0.0 && wd >= 0.0 && wa + wb + wc + wd == 1.0
    requires lo <= a <= hi && lo <= b <= hi && lo <= c <= hi && lo <= d <= hi
    ensures lo <= wa * a + wb * b + wc * c + wd * d <= hi
  {
    WeighedAtMost(wa, wb, wc, wd, lo, lo, lo, lo, a, b, c, d);
    WeighedAtMost(wa, wb, wc, wd, a, b, c, d, hi, hi, hi, hi);
    SumOfWeights(wa, wb, wc, wd, lo);
    SumOfWeights(wa, wb, wc, wd, hi);
  }

  lemma WeighedAtMost(wa: real, wb: real, wc: real, wd: real, a: real, b: real, c: real, d: real,
                      a1: real, b1: real, c1: real, d1: real)
    requires wa >= 0.0 && wb >= 0.0 && wc >= 0.0 && wd >= 0.0 && a <= a1 && b <= b1 && c <= c1 && d <= d1
    ensures wa * a + wb * b + wc * c + wd * d <= wa * a1 + wb * b1 + wc * c1 + wd * d1
  {
    MulMono(wa, a, a1);
    MulMono(wb, b, b1);
    MulMono(wc, c, c1);
    MulMono(wd, d, d1);
  }

  lemma SumOfWeights(wa: real, wb: real, wc: real, wd: real, x: real)
    requires wa + wb + wc + wd == 1.0
    ensures wa * x + wb * x + wc * x + wd * x == x
  {
    assert wa * x + wb * x + wc * x + wd * x == (wa + wb + wc + wd) * x;
  }

  // ----- a curve by its control polygon

  /** The point at t between two. */
  function Lerp(t: real, a: real, b: real): real {
    (1.0 - t) * a + t * b
  }

  /** De Casteljau's construction: between the points between the points between the control points. */
  function DeCasteljau(t: real, a: real, b: real, c: real, d: real): real {
    var ab, bc, cd := Lerp(t, a, b), Lerp(t, b, c), Lerp(t, c, d);
    Lerp(t, Lerp(t, ab, bc), Lerp(t, bc, cd))
  }

  lemma LerpTwice(u: real, t: real, a: real, b: real, c: real)
    ensures u * (u * a + t * b) + t * (u * b + t * c) == u * u * a + 2.0 * (u * t) * b + t * t * c
  {
    assert u * (u * a + t * b) == u * u * a + u * t * b;
    assert t * (u * b + t * c) == u * t * b + t * t * c;
  }

  lemma Times(u: real, x: real, y: real, z: real, a: real, b: real, c: real)
    ensures u * (x * a + y * b + z * c) == u * x * a + u * y * b + u * z * c
  {
    assert u * (x * a) == u * x * a && u * (y * b) == u * y * b && u * (z * c) == u * z * c;
  }

  lemma WeightsCollect(u: real, t: real)
    ensures u * (2.0 * (u * t)) + t * (u * u) == 3.0 * (u * u) * t
    ensures u * (t * t) + t * (2.0 * (u * t)) == 3.0 * u * (t * t)
    ensures u * (u * u) == u * u * u && t * (t * t) == t * t * t
  {
  }

  lemma QuadraticTimes(v: real, t: real, a: real, b: real, c: real)
    ensures var u := 1.0 - t;
            v * Lerp(t, Lerp(t, a, b), Lerp(t, b, c)) == v * (u * u) * a + v * (2.0 * (u * t)) * b + v * (t * t) * c
  {
    var u := 1.0 - t;
    LerpTwice(u, t, a, b, c);
    Times(v, u * u, 2.0 * (u * t), t * t, a, b, c);
  }

  lemma WeightedIsDeCasteljau(t: real, a: real, b: real, c: real, d: real)
    ensures Weighted(t, a, b, c, d) == DeCasteljau(t, a, b, c, d)
  {
    var u := 1.0 - t;
    QuadraticTimes(u, t, a, b, c);
    QuadraticTimes(t, t, b, c, d);
    AddUp(u * (u * u), u * (2.0 * (u * t)), t * (u * u), u * (t * t), t * (2.0 * (u * t)), t * (t * t), a, b, c, d);
    WeightsCollect(u, t);
  }

  lemma AddUp(a0: real, b0: real, b1: real, c0: real, c1: real, d0: real, a: real, b: real, c: real, d: real)
    ensures a0 * a + b0 * b + c0 * c + (b1 * b + c1 * c + d0 * d) == a0 * a + (b0 + b1) * b + (c0 + c1) * c + d0 * d
  {
  }

  lemma {:induction false} CurvePointAt(s: Segment, steps: nat, n: nat, i: nat)
    requires s.Cubic? && i < n <= steps
    ensures CurvePoints(s, steps, n)[i] == CurvePoint(s, (i + 1) as real / steps as real)
  {
    if i < n - 1 { CurvePointAt(s, steps, n - 1, i); }
  }

  /** A cubic's points are de Casteljau's, at equal steps up to its end. */
  lemma CurveIsDeCasteljau(s: Segment, steps: nat, i: nat)
    requires s.Cubic? && i < steps
    ensures var t := (i + 1) as real / steps as real;
            SegmentPoints(s, steps)[i] == Point(DeCasteljau(t, s.p0.x, s.p1.x, s.p2.x, s.p3.x),
                                                DeCasteljau(t, s.p0.y, s.p1.y, s.p2.y, s.p3.y))
  {
    var t := (i + 1) as real / steps as real;
    CurvePointAt(s, steps, steps, i);
    WeightedIsDeCasteljau(t, s.p0.x, s.p1.x, s.p2.x, s.p3.x);
    WeightedIsDeCasteljau(t, s.p0.y, s.p1.y, s.p2.y, s.p3.y);
  }

  // ----- where a curve lies

  lemma {:induction false} CurvePointsInBox(s: Segment, steps: nat, n: nat, lo: Point, hi: Point, i: nat)
    requires s.Cubic? && i < n <= steps
    requires forall p :: p in {s.p0, s.p1, s.p2, s.p3} ==> lo.x <= p.x <= hi.x && lo.y <= p.y <= hi.y
    ensures var p := CurvePoints(s, steps, n)[i]; lo.x <= p.x <= hi.x && lo.y <= p.y <= hi.y
  {
    if i < n - 1 {
      CurvePointsInBox(s, steps, n - 1, lo, hi, i);
    } else {
      var t := n as real / steps as real;
      DivBounds(n as real, steps as real);
      WeightedIsBetween(t, s.p0.x, s.p1.x, s.p2.x, s.p3.x, lo.x, hi.x);
      WeightedIsBetween(t, s.p0.y, s.p1.y, s.p2.y, s.p3.y, lo.y, hi.y);
    }
  }

  /** Every point made from a curve lies in any box around its control points; the last is where the curve ends. */
  lemma CurveStaysInBox(s: Segment, steps: nat, lo: Point, hi: Point)
    requires s.Cubic? && steps > 0
    requires forall p :: p in {s.p0, s.p1, s.p2, s.p3} ==> lo.x <= p.x <= hi.x && lo.y <= p.y <= hi.y
    ensures var pts := SegmentPoints(s, steps);
            && |pts| == steps && pts[steps - 1] == s.p3
            && forall i :: 0 <= i < steps ==> lo.x <= pts[i].x <= hi.x && lo.y <= pts[i].y <= hi.y
  {
    forall i | 0 <= i < steps
      ensures var p := SegmentPoints(s, steps)[i]; lo.x <= p.x <= hi.x && lo.y <= p.y <= hi.y
    {
      CurvePointsInBox(s, steps, steps, lo, hi, i);
    }
    assert steps as real / steps as real == 1.0;
  }
}
