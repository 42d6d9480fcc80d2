/** Polygon geometry used by the layout engine: the bounding-box size of a
    polygon (`polygon_size`), translation of its vertex array in place
    (`polygon_move`) and the normalisation that moves the bounding box's
    minimum corner to the origin. */
module Geometry {

  /** One vertex; the source keeps vertices as the rows of a float array. */
  datatype Point = Point(x: real, y: real)

  /** Vertices in annotation order. */
  type Polygon = seq<Point>

  /** The polygon intersection test (shapely's `intersects`). Its behaviour
      is not modelled, so every member that needs it takes it as a parameter. */
  type Intersects = (Polygon, Polygon) -> bool

  /** Column 0 of the vertex array, `polygon[:, 0]`. */
  function Xs(p: Polygon): seq<real>
  {
    seq(|p|, i requires 0 <= i < |p| => p[i].x)
  }

  /** Column 1 of the vertex array, `polygon[:, 1]`. */
  function Ys(p: Polygon): seq<real>
  {
    seq(|p|, i requires 0 <= i < |p| => p[i].y)
  }

  /** numpy's `min` over a non-empty column. */
  function Min(s: seq<real>): (m: real)
    requires |s| > 0
    ensures forall i :: 0 <= i < |s| ==> m <= s[i]
  {
    if |s| == 1 then s[0]
    else
      var rest := Min(s[1..]);
      if s[0] <= rest then s[0] else rest
  }

  /** numpy's `max` over a non-empty column. */
  function Max(s: seq<real>): (m: real)
    requires |s| > 0
    ensures forall i :: 0 <= i < |s| ==> s[i] <= m
  {
    if |s| == 1 then s[0]
    else
      var rest := Max(s[1..]);
      if s[0] >= rest then s[0] else rest
  }

  /** The minimum is one of the entries. */
  lemma {:induction false} MinAttained(s: seq<real>)
    requires |s| > 0
    ensures exists i :: 0 <= i < |s| && s[i] == Min(s)
  {
    if |s| == 1 {
      assert s[0] == Min(s);
    } else {
      MinAttained(s[1..]);
      var i :| 0 <= i < |s[1..]| && s[1..][i] == Min(s[1..]);
      if s[0] <= Min(s[1..]) {
        assert s[0] == Min(s);
      } else {
        assert s[i + 1] == Min(s);
      }
    }
  }

  /** The maximum is one of the entries. */
  lemma {:induction false} MaxAttained(s: seq<real>)
    requires |s| > 0
    ensures exists i :: 0 <= i < |s| && s[i] == Max(s)
  {
    if |s| == 1 {
      assert s[0] == Max(s);
    } else {
      MaxAttained(s[1..]);
      var i :| 0 <= i < |s[1..]| && s[1..][i] == Max(s[1..]);
      if s[0] >= Max(s[1..]) {
        assert s[0] == Max(s);
      } else {
        assert s[i + 1] == Max(s);
      }
    }
  }

  function MinX(p: Polygon): real
    requires |p| > 0
  {
    Min(Xs(p))
  }

  function MinY(p: Polygon): real
    requires |p| > 0
  {
    Min(Ys(p))
  }

  function MaxX(p: Polygon): real
    requires |p| > 0
  {
    Max(Xs(p))
  }

  function MaxY(p: Polygon): real
    requires |p| > 0
  {
    Max(Ys(p))
  }

  /** `polygon_size`: width and height of the bounding box. */
  function PolygonSize(p: Polygon): (size: (real, real))
    requires |p| > 0
    ensures size.0 >= 0.0 && size.1 >= 0.0
  {
    (MaxX(p) - MinX(p), MaxY(p) - MinY(p))
  }

  /** The value `polygon_move` leaves in its array: every vertex shifted
      by (dx, dy), count and order unchanged. */
  function Translate(p: Polygon, dx: real, dy: real): (q: Polygon)
    ensures |q| == |p|
  {
    seq(|p|, i requires 0 <= i < |p| => Point(p[i].x + dx, p[i].y + dy))
  }

  /** The polygon moved so that its bounding box starts at the origin. */
  function Normalize(p: Polygon): (q: Polygon)
    requires |p| > 0
    ensures |q| == |p|
  {
    Translate(p, -MinX(p), -MinY(p))
  }

  /** `polygon_move`: adds moveX to column 0 and then moveY to column 1 of
      the vertex array, in place, and hands back the same array. */
  method PolygonMove(polygon: array<Point>, moveX: real, moveY: real) returns (moved: array<Point>)
    modifies polygon
    ensures moved == polygon
    ensures polygon[..] == Translate(old(polygon[..]), moveX, moveY)
  {
    for i := 0 to polygon.Length
      invariant forall j :: 0 <= j < i ==> polygon[j] == Point(old(polygon[j]).x + moveX, old(polygon[j]).y)
      invariant forall j :: i <= j < polygon.Length ==> polygon[j] == old(polygon[j])
    {
      polygon[i] := polygon[i].(x := polygon[i].x + moveX);
    }
    for i := 0 to polygon.Length
      invariant forall j :: 0 <= j < i ==> polygon[j] == Point(old(polygon[j]).x + moveX, old(polygon[j]).y + moveY)
      invariant forall j :: i <= j < polygon.Length ==> polygon[j] == Point(old(polygon[j]).x + moveX, old(polygon[j]).y)
    {
      polygon[i] := polygon[i].(y := polygon[i].y + moveY);
    }
    moved := polygon;
  }

  /** The width is the largest difference of two x coordinates and the
      height the largest difference of two y coordinates. */
  lemma PolygonSizeIsExtent(p: Polygon)
    requires |p| > 0
    ensures forall i, j :: 0 <= i < |p| && 0 <= j < |p| ==>
      p[i].x - p[j].x <= PolygonSize(p).0 && p[i].y - p[j].y <= PolygonSize(p).1
    ensures exists i, j :: 0 <= i < |p| && 0 <= j < |p| && p[i].x - p[j].x == PolygonSize(p).0
    ensures exists i, j :: 0 <= i < |p| && 0 <= j < |p| && p[i].y - p[j].y == PolygonSize(p).1
  {
    var xs, ys := Xs(p), Ys(p);
    forall i, j | 0 <= i < |p| && 0 <= j < |p|
      ensures p[i].x - p[j].x <= PolygonSize(p).0 && p[i].y - p[j].y <= PolygonSize(p).1
    {
      assert xs[i] <= Max(xs) && Min(xs) <= xs[j];
      assert ys[i] <= Max(ys) && Min(ys) <= ys[j];
    }
    MaxAttained(xs); MinAttained(xs); MaxAttained(ys); MinAttained(ys);
    var ix :| 0 <= ix < |xs| && xs[ix] == Max(xs);
    var jx :| 0 <= jx < |xs| && xs[jx] == Min(xs);
    assert p[ix].x - p[jx].x == PolygonSize(p).0;
    var iy :| 0 <= iy < |ys| && ys[iy] == Max(ys);
    var jy :| 0 <= jy < |ys| && ys[jy] == Min(ys);
    assert p[iy].y - p[jy].y == PolygonSize(p).1;
  }

  /** Shifting every entry of a column by c shifts its minimum and its
      maximum by c. */
  lemma ShiftExtrema(s: seq<real>, t: seq<real>, c: real)
    requires |s| == |t| > 0
    requires forall i :: 0 <= i < |s| ==> t[i] == s[i] + c
    ensures Min(t) == Min(s) + c && Max(t) == Max(s) + c
  {
    MinAttained(t); MinAttained(s); MaxAttained(t); MaxAttained(s);
    var a :| 0 <= a < |t| && t[a] == Min(t);
    var b :| 0 <= b < |s| && s[b] == Min(s);
    assert Min(t) <= t[b] && Min(s) <= s[a];
    var a' :| 0 <= a' < |t| && t[a'] == Max(t);
    var b' :| 0 <= b' < |s| && s[b'] == Max(s);
    assert t[b'] <= Max(t) && s[a'] <= Max(s);
  }

  /** Translation moves the bounding box by exactly the offset. */
  lemma TranslateExtrema(p: Polygon, dx: real, dy: real)
    requires |p| > 0
    ensures |Translate(p, dx, dy)| == |p|
    ensures MinX(Translate(p, dx, dy)) == MinX(p) + dx && MaxX(Translate(p, dx, dy)) == MaxX(p) + dx
    ensures MinY(Translate(p, dx, dy)) == MinY(p) + dy && MaxY(Translate(p, dx, dy)) == MaxY(p) + dy
  {
    var q := Translate(p, dx, dy);
    ShiftExtrema(Xs(p), Xs(q), dx);
    ShiftExtrema(Ys(p), Ys(q), dy);
  }

  /** The size is translation-invariant. */
  lemma TranslateKeepsSize(p: Polygon, dx: real, dy: real)
    requires |p| > 0
    ensures |Translate(p, dx, dy)| == |p|
    ensures PolygonSize(Translate(p, dx, dy)) == PolygonSize(p)
  {
    TranslateExtrema(p, dx, dy);
    var q := Translate(p, dx, dy);
    assert PolygonSize(q).0 == MaxX(q) - MinX(q) == PolygonSize(p).0;
    assert PolygonSize(q).1 == MaxY(q) - MinY(q) == PolygonSize(p).1;
  }

  /** Moving back by the opposite offset restores the polygon. */
  lemma TranslateRoundTrip(p: Polygon, dx: real, dy: real)
    ensures Translate(Translate(p, dx, dy), -dx, -dy) == p
  {
    var q := Translate(Translate(p, dx, dy), -dx, -dy);
    assert |q| == |p|;
    forall i | 0 <= i < |p| ensures q[i] == p[i] {
      assert q[i] == Point(p[i].x + dx + -dx, p[i].y + dy + -dy);
    }
  }

  /** After normalisation the bounding box starts at (0, 0) and has the
      size of the original polygon. */
  lemma NormalizeAtOrigin(p: Polygon)
    requires |p| > 0
    ensures |Normalize(p)| == |p|
    ensures MinX(Normalize(p)) == 0.0 && MinY(Normalize(p)) == 0.0
    ensures PolygonSize(Normalize(p)) == PolygonSize(p)
  {
    var dx, dy := -MinX(p), -MinY(p);
    assert Normalize(p) == Translate(p, dx, dy);
    TranslateKeepsSize(p, dx, dy);
    TranslateExtrema(p, dx, dy);
  }

  /** A normalised polygon moved by (dx, dy) has its bounding box's
      minimum corner exactly at (dx, dy). */
  lemma NormalizedShiftStartsAtOffset(p: Polygon, dx: real, dy: real)
    requires |p| > 0
    ensures |Translate(Normalize(p), dx, dy)| == |p|
    ensures MinX(Translate(Normalize(p), dx, dy)) == dx
    ensures MinY(Translate(Normalize(p), dx, dy)) == dy
  {
    NormalizeAtOrigin(p);
    TranslateExtrema(Normalize(p), dx, dy);
  }

  /** Normalisation forgets any translation applied beforehand. */
  lemma NormalizeForgetsTranslation(p: Polygon, dx: real, dy: real)
    requires |p| > 0
    ensures |Translate(p, dx, dy)| > 0
    ensures Normalize(Translate(p, dx, dy)) == Normalize(p)
  {
    TranslateExtrema(p, dx, dy);
    var q := Normalize(Translate(p, dx, dy));
    var n := Normalize(p);
    assert |q| == |n|;
    forall i | 0 <= i < |p| ensures q[i] == n[i] {
      assert q[i] == Point(p[i].x + dx + -(MinX(p) + dx), p[i].y + dy + -(MinY(p) + dy));
    }
  }
}
