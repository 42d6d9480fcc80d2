/** `gen_polygon`: place one polygon at a random integer offset on a w×h
    canvas so that it meets none of the polygons already placed, giving up
    after fifty collisions. */
module Placement {
  import opened Geometry
  import opened Sampling

  /** `gen_polygon` gives up when this many candidates have collided. */
  const MaxCollisions: nat := 50

  /** What `gen_polygon` returns: the placed polygon, or `False`. */
  datatype Outcome = Placed(polygon: Polygon) | Failed

  /** Room left for the offset along x: `w - poly_w`. */
  function SpanX(polygon: Polygon, w: int): real
    requires |polygon| > 0
  {
    w as real - PolygonSize(Normalize(polygon)).0
  }

  /** Room left for the offset along y: `h - poly_h`. */
  function SpanY(polygon: Polygon, h: int): real
    requires |polygon| > 0
  {
    h as real - PolygonSize(Normalize(polygon)).1
  }

  /** The guard of `gen_polygon`: there is room along both axes. */
  predicate Fits(polygon: Polygon, w: int, h: int)
    requires |polygon| > 0
  {
    SpanX(polygon, w) > 0.0 && SpanY(polygon, h) > 0.0
  }

  /** The candidate of attempt j: the normalised polygon shifted by the two
      draws at start + 2j (x) and start + 2j + 1 (y). */
  function Candidate(base: Polygon, nx: nat, ny: nat, rng: Rng, start: nat, j: nat): (c: Polygon)
    requires nx > 0 && ny > 0
    ensures |c| == |base|
  {
    var k := start + 2 * j;
    Translate(base, Draw(rng, k, nx) as real, Draw(rng, k + 1, ny) as real)
  }

  /** The candidates of attempts 0 to 49, the ones whose collisions
      `gen_polygon` counts. */
  function Candidates(base: Polygon, nx: nat, ny: nat, rng: Rng, start: nat): (cands: seq<Polygon>)
    requires nx > 0 && ny > 0
    ensures |cands| == MaxCollisions
  {
    seq(MaxCollisions, j requires 0 <= j < MaxCollisions => Candidate(base, nx, ny, rng, start, j))
  }

  /** The candidate meets one of the polygons already placed. */
  predicate CollidesAny(candidate: Polygon, placed: seq<Polygon>, intersects: Intersects)
  {
    exists i :: 0 <= i < |placed| && intersects(candidate, placed[i])
  }

  /** The retry loop of `gen_polygon` from attempt j on, as it is written:
      test the candidate; on a collision draw the next one and stop once the
      collision count reaches fifty. Returns the outcome and the next unused
      draw; attempt j has used the draws before start + 2j + 2. */
  function Retry(cands: seq<Polygon>, placed: seq<Polygon>, intersects: Intersects, start: nat, j: nat): (r: (Outcome, nat))
    requires |cands| == MaxCollisions
    requires j < MaxCollisions
    decreases MaxCollisions - j
    ensures start + 2 * j + 2 <= r.1 <= start + 2 * MaxCollisions + 2
  {
    if !CollidesAny(cands[j], placed, intersects) then (Placed(cands[j]), start + 2 * j + 2)
    else if j + 1 == MaxCollisions then (Failed, start + 2 * j + 4)
    else Retry(cands, placed, intersects, start, j + 1)
  }

  /** What `gen_polygon(polygon, placed, w, h)` returns when its draws come
      from the tape at `start`, and the next unused draw. */
  function Place(polygon: Polygon, placed: seq<Polygon>, w: int, h: int,
                 intersects: Intersects, rng: Rng, start: nat): (r: (Outcome, nat))
    requires |polygon| > 0
    ensures r.1 == start || start + 2 <= r.1 <= start + 2 * MaxCollisions + 2
  {
    if !Fits(polygon, w, h) then (Failed, start)
    else Retry(Candidates(Normalize(polygon), Choices(SpanX(polygon, w)), Choices(SpanY(polygon, h)), rng, start), placed, intersects, start, 0)
  }

  /** Reference definition: the first attempt from j on whose candidate is
      free, or MaxCollisions when every remaining one collides. */
  function FirstFree(cands: seq<Polygon>, placed: seq<Polygon>, intersects: Intersects, j: nat): (f: nat)
    requires |cands| == MaxCollisions
    requires j <= MaxCollisions
    decreases MaxCollisions - j
    ensures j <= f <= MaxCollisions
    ensures forall a :: j <= a < f ==> CollidesAny(cands[a], placed, intersects)
    ensures f < MaxCollisions ==> !CollidesAny(cands[f], placed, intersects)
  {
    if j == MaxCollisions then j
    else if !CollidesAny(cands[j], placed, intersects) then j
    else FirstFree(cands, placed, intersects, j + 1)
  }

  /** The lines 91-96 loop: does the candidate meet any placed polygon? */
  method CollidesWithAny(newPolygon: Polygon, newPolygonList: seq<Polygon>, intersects: Intersects)
    returns (intersect: bool)
    ensures intersect <==> CollidesAny(newPolygon, newPolygonList, intersects)
  {
    intersect := false;
    var i := 0;
    while i < |newPolygonList|
      invariant 0 <= i <= |newPolygonList|
      invariant forall j :: 0 <= j < i ==> !intersects(newPolygon, newPolygonList[j])
    {
      if intersects(newPolygon, newPolygonList[i]) {
        intersect := true;
        return;
      }
      i := i + 1;
    }
  }

  /** Lines 73-74: the caller's vertex list copied into a fresh float
      array and moved so that its bounding box starts at the origin. */
  method NormalizedArray(polygon: Polygon) returns (vertices: array<Point>)
    requires |polygon| > 0
    ensures fresh(vertices)
    ensures vertices[..] == Normalize(polygon)
  {
    vertices := new Point[|polygon|](i requires 0 <= i < |polygon| => polygon[i]);
    assert vertices[..] == polygon;
    vertices := PolygonMove(vertices, -MinX(vertices[..]), -MinY(vertices[..]));
  }

  /** Lines 83-84 and 102-103: `polygon.copy()` of the normalised
      vertices, moved by the offset. */
  method ShiftedCopy(base: Polygon, x: int, y: int) returns (newPolygon: array<Point>)
    ensures fresh(newPolygon)
    ensures newPolygon[..] == Translate(base, x as real, y as real)
  {
    var copyPolygon := new Point[|base|](i requires 0 <= i < |base| => base[i]);
    assert copyPolygon[..] == base;
    newPolygon := PolygonMove(copyPolygon, x as real, y as real);
  }

  /** Lines 79-84 and 98-103: draw the offset of attempt j with `randint`
      and move a copy of the normalised vertices there. */
  method DrawCandidate(base: Polygon, spanX: real, spanY: real, rng: Rng, start: nat, j: nat)
    returns (newPolygon: Polygon)
    requires spanX > 0.0 && spanY > 0.0
    ensures newPolygon == Candidate(base, Choices(spanX), Choices(spanY), rng, start, j)
  {
    var polyPos := (RandInt(rng, start + 2 * j, spanX), RandInt(rng, start + 2 * j + 1, spanY));
    var moved := ShiftedCopy(base, polyPos.0, polyPos.1);
    newPolygon := moved[..];
  }

  /** `gen_polygon`. The caller's polygon is copied into a fresh array and
      normalised there; every candidate is built in a fresh copy; neither
      the caller's polygon nor the placed list is changed. */
  method GenPolygon(polygon: Polygon, newPolygonList: seq<Polygon>, w: int, h: int,
                    intersects: Intersects, rng: Rng, start: nat)
    returns (result: Outcome, next: nat)
    requires |polygon| > 0
    ensures (result, next) == Place(polygon, newPolygonList, w, h, intersects, rng, start)
  {
    var vertices := NormalizedArray(polygon);
    var base := vertices[..];
    var size := PolygonSize(base);
    var polyW, polyH := size.0, size.1;
    if w as real - polyW <= 0.0 || h as real - polyH <= 0.0 {
      PlaceGuard(polygon, newPolygonList, w, h, intersects, rng, start);
      return Failed, start;
    }
    var spanX, spanY := w as real - polyW, h as real - polyH;
    PlaceWhenFits(polygon, newPolygonList, w, h, intersects, rng, start, base, spanX, spanY);
    result, next := DrawAndRetry(base, spanX, spanY, newPolygonList, intersects, rng, start);
  }

  /** Lines 79-106, once the polygon fits: draw the first candidate, return
      it at once when nothing is placed yet, and otherwise run the retry
      loop. The result is the retry loop `Retry` over the candidates. */
  method DrawAndRetry(base: Polygon, spanX: real, spanY: real, newPolygonList: seq<Polygon>,
                      intersects: Intersects, rng: Rng, start: nat)
    returns (result: Outcome, next: nat)
    requires spanX > 0.0 && spanY > 0.0
    ensures (result, next)
            == Retry(Candidates(base, Choices(spanX), Choices(spanY), rng, start), newPolygonList, intersects, start, 0)
  {
    var newPolygon := DrawCandidate(base, spanX, spanY, rng, start, 0);
    next := start + 2;
    if |newPolygonList| == 0 {
      return Placed(newPolygon), next;
    }
    ghost var tried: nat;
    result, next, tried := RetryLoop(base, spanX, spanY, newPolygon, newPolygonList, intersects, rng, start);
    ghost var cands := Candidates(base, Choices(spanX), Choices(spanY), rng, start);
    if result.Placed? {
      RetryTakesFirstFree(cands, newPolygonList, intersects, start, 0, tried);
    } else {
      RetryFailsAfterCap(cands, newPolygonList, intersects, start);
    }
  }

  /** Lines 88-106: test the candidate against every placed polygon; on a
      collision count it, draw and build the next candidate, and give up when
      the count reaches fifty. */
  method RetryLoop(base: Polygon, spanX: real, spanY: real, first: Polygon,
                   newPolygonList: seq<Polygon>, intersects: Intersects, rng: Rng, start: nat)
    returns (result: Outcome, next: nat, ghost tried: nat)
    requires spanX > 0.0 && spanY > 0.0
    requires first == Candidate(base, Choices(spanX), Choices(spanY), rng, start, 0)
    ensures var cands := Candidates(base, Choices(spanX), Choices(spanY), rng, start);
      && (result.Failed? ==>
            next == start + 2 * MaxCollisions + 2
            && forall a :: 0 <= a < MaxCollisions ==> CollidesAny(cands[a], newPolygonList, intersects))
      && (result.Placed? ==>
            tried < MaxCollisions && result.polygon == cands[tried] && next == start + 2 * tried + 2
            && !CollidesAny(cands[tried], newPolygonList, intersects)
            && forall a :: 0 <= a < tried ==> CollidesAny(cands[a], newPolygonList, intersects))
  {
    ghost var cands := Candidates(base, Choices(spanX), Choices(spanY), rng, start);
    var newPolygon := first;
    next := start + 2;
    var countLoop := 0;
    var intersect := true;
    while intersect
      invariant countLoop < MaxCollisions
      invariant next == start + 2 * countLoop + 2
      invariant newPolygon == cands[countLoop]
      invariant forall a :: 0 <= a < countLoop ==> CollidesAny(cands[a], newPolygonList, intersects)
      invariant !intersect ==> !CollidesAny(newPolygon, newPolygonList, intersects)
      decreases MaxCollisions - countLoop, intersect
    {
      intersect := CollidesWithAny(newPolygon, newPolygonList, intersects);
      if intersect {
        countLoop := countLoop + 1;
        newPolygon := DrawCandidate(base, spanX, spanY, rng, start, countLoop);
        next := next + 2;
      }
      if countLoop == MaxCollisions {
        return Failed, next, countLoop;
      }
    }
    return Placed(newPolygon), next, countLoop;
  }

  /** When every counted candidate collides the retry loop gives up, having
      drawn one candidate more. */
  lemma RetryFailsAfterCap(cands: seq<Polygon>, placed: seq<Polygon>, intersects: Intersects, start: nat)
    requires |cands| == MaxCollisions
    requires forall a :: 0 <= a < MaxCollisions ==> CollidesAny(cands[a], placed, intersects)
    ensures Retry(cands, placed, intersects, start, 0) == (Failed, start + 2 * MaxCollisions + 2)
  {
    RetryIsFirstFree(cands, placed, intersects, start, 0);
  }

  /** Place on a canvas the polygon fits is the retry loop over the
      candidates built from the normalised polygon and the two spans. */
  lemma PlaceWhenFits(polygon: Polygon, placed: seq<Polygon>, w: int, h: int, intersects: Intersects,
                      rng: Rng, start: nat, base: Polygon, spanX: real, spanY: real)
    requires |polygon| > 0 && base == Normalize(polygon)
    requires spanX == SpanX(polygon, w) && spanY == SpanY(polygon, h)
    requires spanX > 0.0 && spanY > 0.0
    ensures Place(polygon, placed, w, h, intersects, rng, start)
            == Retry(Candidates(base, Choices(spanX), Choices(spanY), rng, start), placed, intersects, start, 0)
  {
  }

  /** When attempts j to c - 1 collide and attempt c is free, the retry
      loop from attempt j takes candidate c, having used the draws of
      attempts j to c. */
  lemma {:induction false} RetryTakesFirstFree(cands: seq<Polygon>, placed: seq<Polygon>, intersects: Intersects,
                                               start: nat, j: nat, c: nat)
    requires |cands| == MaxCollisions && j <= c < MaxCollisions
    requires forall a :: j <= a < c ==> CollidesAny(cands[a], placed, intersects)
    requires !CollidesAny(cands[c], placed, intersects)
    decreases c - j
    ensures Retry(cands, placed, intersects, start, j) == (Placed(cands[c]), start + 2 * c + 2)
  {
    if j < c {
      RetryTakesFirstFree(cands, placed, intersects, start, j + 1, c);
    }
  }

  /** The retry loop yields the first free candidate, or fails after the
      fiftieth collision with the draw after the last candidate consumed. */
  lemma {:induction false} RetryIsFirstFree(cands: seq<Polygon>, placed: seq<Polygon>, intersects: Intersects,
                                            start: nat, j: nat)
    requires |cands| == MaxCollisions
    requires j < MaxCollisions
    decreases MaxCollisions - j
    ensures var f := FirstFree(cands, placed, intersects, j);
      Retry(cands, placed, intersects, start, j)
      == if f < MaxCollisions then (Placed(cands[f]), start + 2 * f + 2)
         else (Failed, start + 2 * MaxCollisions + 2)
  {
    if CollidesAny(cands[j], placed, intersects) && j + 1 < MaxCollisions {
      RetryIsFirstFree(cands, placed, intersects, start, j + 1);
    }
  }

  /** Every candidate of a fitting polygon is an integer shift of its
      normalised form that lies inside the canvas. */
  lemma CandidateInsideCanvas(polygon: Polygon, w: int, h: int, rng: Rng, start: nat, j: nat)
    requires |polygon| > 0
    requires Fits(polygon, w, h)
    ensures var c := Candidate(Normalize(polygon), Choices(SpanX(polygon, w)), Choices(SpanY(polygon, h)), rng, start, j);
      IsPlacementOf(c, polygon) && InCanvas(c, w, h)
      && MinX(c) < SpanX(polygon, w) && MinY(c) < SpanY(polygon, h)
  {
    var base := Normalize(polygon);
    var spanX, spanY := SpanX(polygon, w), SpanY(polygon, h);
    var k := start + 2 * j;
    var dx, dy := RandInt(rng, k, spanX) as real, RandInt(rng, k + 1, spanY) as real;
    var c := Translate(base, dx, dy);
    assert c == Candidate(base, Choices(spanX), Choices(spanY), rng, start, j);
    NormalizeAtOrigin(polygon);
    NormalizedShiftStartsAtOffset(polygon, dx, dy);
    assert MinX(c) == dx && MinY(c) == dy;
    assert dx.Floor as real == dx && dy.Floor as real == dy;
    forall i | 0 <= i < |c|
      ensures 0.0 <= c[i].x < w as real && 0.0 <= c[i].y < h as real
    {
      assert Xs(base)[i] == base[i].x && Ys(base)[i] == base[i].y;
      assert 0.0 <= base[i].x <= MaxX(base) == PolygonSize(base).0;
      assert 0.0 <= base[i].y <= MaxY(base) == PolygonSize(base).1;
    }
  }

  /** The guard: a polygon that cannot fit fails at once, before any draw
      or intersection test; one that fits consumes at least one candidate. */
  lemma PlaceGuard(polygon: Polygon, placed: seq<Polygon>, w: int, h: int,
                   intersects: Intersects, rng: Rng, start: nat)
    requires |polygon| > 0
    ensures !Fits(polygon, w, h) ==> Place(polygon, placed, w, h, intersects, rng, start) == (Failed, start)
    ensures Fits(polygon, w, h) ==> Place(polygon, placed, w, h, intersects, rng, start).1 >= start + 2
  {
    if Fits(polygon, w, h) {
      var cands := Candidates(Normalize(polygon), Choices(SpanX(polygon, w)), Choices(SpanY(polygon, h)), rng, start);
      RetryIsFirstFree(cands, placed, intersects, start, 0);
    }
  }

  /** A placed polygon is the normalised input shifted by an integer offset
      (x, y) with 0 <= x < w - poly_w and 0 <= y < h - poly_h, so each of its
      vertices lies in [0, w) × [0, h). */
  lemma PlacedInsideCanvas(polygon: Polygon, placed: seq<Polygon>, w: int, h: int,
                           intersects: Intersects, rng: Rng, start: nat)
    requires |polygon| > 0
    ensures Place(polygon, placed, w, h, intersects, rng, start).0.Placed? ==>
      var p := Place(polygon, placed, w, h, intersects, rng, start).0.polygon;
      IsPlacementOf(p, polygon) && InCanvas(p, w, h)
      && MinX(p) < SpanX(polygon, w) && MinY(p) < SpanY(polygon, h)
  {
    if Fits(polygon, w, h) {
      var cands := Candidates(Normalize(polygon), Choices(SpanX(polygon, w)), Choices(SpanY(polygon, h)), rng, start);
      RetryIsFirstFree(cands, placed, intersects, start, 0);
      var f := FirstFree(cands, placed, intersects, 0);
      if f < MaxCollisions {
        CandidateInsideCanvas(polygon, w, h, rng, start, f);
      }
    }
  }

  /** A placed polygon meets none of the polygons placed before it. */
  lemma PlacedAvoidsEarlier(polygon: Polygon, placed: seq<Polygon>, w: int, h: int,
                            intersects: Intersects, rng: Rng, start: nat)
    requires |polygon| > 0
    ensures Place(polygon, placed, w, h, intersects, rng, start).0.Placed? ==>
      forall i :: 0 <= i < |placed| ==> !intersects(Place(polygon, placed, w, h, intersects, rng, start).0.polygon, placed[i])
  {
    if Fits(polygon, w, h) {
      var cands := Candidates(Normalize(polygon), Choices(SpanX(polygon, w)), Choices(SpanY(polygon, h)), rng, start);
      RetryIsFirstFree(cands, placed, intersects, start, 0);
    }
  }

  /** The retry cap: once the polygon fits, placement fails exactly when
      all fifty candidates collide (and then 51 candidates have been drawn);
      a placed polygon has at most 49 rejected predecessors. */
  lemma PlaceRetryCap(polygon: Polygon, placed: seq<Polygon>, w: int, h: int,
                      intersects: Intersects, rng: Rng, start: nat)
    requires |polygon| > 0
    requires Fits(polygon, w, h)
    ensures var r := Place(polygon, placed, w, h, intersects, rng, start);
      var cands := Candidates(Normalize(polygon), Choices(SpanX(polygon, w)), Choices(SpanY(polygon, h)), rng, start);
      && (r.0.Failed? <==> forall j :: 0 <= j < MaxCollisions ==> CollidesAny(cands[j], placed, intersects))
      && (r.0.Failed? ==> r.1 == start + 2 * MaxCollisions + 2)
      && (r.0.Placed? ==> start + 2 <= r.1 <= start + 2 * MaxCollisions)
  {
    var cands := Candidates(Normalize(polygon), Choices(SpanX(polygon, w)), Choices(SpanY(polygon, h)), rng, start);
    RetryIsFirstFree(cands, placed, intersects, start, 0);
    var f := FirstFree(cands, placed, intersects, 0);
    if f < MaxCollisions {
      assert !CollidesAny(cands[f], placed, intersects);
    }
  }

  /** With nothing placed yet the first candidate is taken. */
  lemma PlaceFirstWhenEmpty(polygon: Polygon, w: int, h: int, intersects: Intersects, rng: Rng, start: nat)
    requires |polygon| > 0
    requires Fits(polygon, w, h)
    ensures Place(polygon, [], w, h, intersects, rng, start)
            == (Placed(Candidate(Normalize(polygon), Choices(SpanX(polygon, w)), Choices(SpanY(polygon, h)), rng, start, 0)), start + 2)
  {
  }

  /** x is a whole number. */
  predicate IsInteger(x: real)
  {
    x.Floor as real == x
  }

  /** Every vertex lies in [0, w) × [0, h). */
  predicate InCanvas(p: Polygon, w: int, h: int)
  {
    forall i :: 0 <= i < |p| ==> 0.0 <= p[i].x < w as real && 0.0 <= p[i].y < h as real
  }

  /** p is the normalised form of src moved by a whole-number offset: the
      shape, vertex count and vertex order of src are kept. */
  predicate IsPlacementOf(p: Polygon, src: Polygon)
  {
    && |src| > 0
    && |p| == |src|
    && IsInteger(MinX(p)) && IsInteger(MinY(p))
    && p == Translate(Normalize(src), MinX(p), MinY(p))
  }

  /** A polygon inside a canvas stays inside any canvas at least as large. */
  lemma InCanvasWidens(p: Polygon, w: int, h: int, w': int, h': int)
    requires InCanvas(p, w, h)
    requires w <= w' && h <= h'
    ensures InCanvas(p, w', h')
  {
  }
}
