/** The layout part of `multi_image_augment`: bring the batch's polygons to
    one scale, then place them one after another with `gen_polygon`,
    enlarging the canvas by a factor 1.2 whenever a placement fails. */
module Layout {
  import opened Geometry
  import opened Sampling
  import opened Placement

  /** `int(side * 1.2)`: the growth step for a non-negative side. */
  function Grow(side: int): (grown: int)
    requires side >= 0
    ensures side <= grown
  {
    (6 * side) / 5
  }

  /** The growth step is side * 1.2 truncated to an integer, as `int()`
      truncates a non-negative float. */
  lemma GrowTruncates(side: int)
    requires side >= 0
    ensures Grow(side) as real <= side as real * 1.2 < Grow(side) as real + 1.0
    ensures Grow(side) == (side as real * 1.2).Floor
  {
    var g := Grow(side);
    assert 5 * g <= 6 * side < 5 * g + 5;
    assert side as real * 1.2 == (6 * side) as real / 5.0;
  }

  /** The side after `rounds` growth steps. */
  function GrowN(side: int, rounds: nat): (grown: int)
    requires side >= 0
    ensures side <= grown
  {
    if rounds == 0 then side else Grow(GrowN(side, rounds - 1))
  }

  /** Growth is the identity exactly on sides of at most 4 pixels, so a
      canvas that small never grows and the retry loop at lines 152-155
      cannot end for a polygon that does not fit it. */
  lemma GrowStallsBelowFive(side: int)
    requires side >= 0
    ensures Grow(side) == side <==> side <= 4
  {
  }

  /** From a side of 5 on every growth step adds at least one pixel, so
      repeated growth eventually makes room for any polygon. */
  lemma {:induction false} GrowNAtLeast(side: int, rounds: nat)
    requires side >= 5
    ensures GrowN(side, rounds) >= side + rounds
  {
    if rounds > 0 {
      GrowNAtLeast(side, rounds - 1);
      GrowStallsBelowFive(GrowN(side, rounds - 1));
    }
  }

  /** A side of at most 4 stays what it is however often it is grown. */
  lemma {:induction false} GrowNStalls(side: int, rounds: nat)
    requires 0 <= side <= 4
    ensures GrowN(side, rounds) == side
  {
    if rounds > 0 {
      GrowNStalls(side, rounds - 1);
      GrowStallsBelowFive(side);
    }
  }

  /** One annotation as `multi_image_augment` reads it: the points of its
      first shape and the size of its image. */
  datatype Annotation = Annotation(points: Polygon, imageWidth: int, imageHeight: int)

  /** What the layout returns: the placed polygons in input order and the
      final canvas size. */
  datatype Canvas = Canvas(polygons: seq<Polygon>, width: int, height: int)

  /** How a layout run ends without a result. */
  datatype LayoutError =
    | EmptyBatch                  // `max` of an empty size list
    | ZeroSizedImage(index: nat)  // division by a zero image width or height
    | EmptyPolygon(index: nat)    // `polygon[:, 0]` on an empty, one-dimensional array
    | GrowthLimit(index: nat)     // the growth ceiling was reached

  datatype Result = Ok(layout: Canvas) | Err(error: LayoutError)

  /** The first |placed| sources are laid out on a w×h canvas: each placed
      polygon is an integer shift of its normalised source inside the
      canvas, and none meets an earlier one. */
  predicate PartialLayout(sources: seq<Polygon>, placed: seq<Polygon>, w: int, h: int, intersects: Intersects)
  {
    && |placed| <= |sources|
    && (forall j :: 0 <= j < |placed| ==>
          IsPlacementOf(placed[j], sources[j]) && InCanvas(placed[j], w, h))
    && (forall j, k :: 0 <= k < j < |placed| ==> !intersects(placed[j], placed[k]))
  }

  /** The guarantees of a finished layout of `sources` from the initial
      canvas w0×h0: one placed polygon per source, in order, laid out as
      above, on the canvas grown `rounds` times. */
  predicate LaidOut(sources: seq<Polygon>, w0: int, h0: int, layout: Canvas, rounds: nat, intersects: Intersects)
    requires w0 >= 0 && h0 >= 0
  {
    && |layout.polygons| == |sources|
    && PartialLayout(sources, layout.polygons, layout.width, layout.height, intersects)
    && layout.width == GrowN(w0, rounds) && layout.height == GrowN(h0, rounds)
  }

  /** How the growth loop of one polygon ends: the last `gen_polygon`
      result, the canvas it was called on, the next unused draw and the
      number of growth steps taken. */
  datatype Growth = Growth(outcome: Outcome, width: int, height: int, next: nat, steps: nat)

  /** Lines 150-155 for one polygon, from growth step r on: call
      `gen_polygon` on the canvas grown r times; stop when it places the
      polygon or when the ceiling `budget` is reached, else grow once more
      and call it again against the same placed list. */
  function GrowthFrom(polygon: Polygon, placed: seq<Polygon>, w: int, h: int, intersects: Intersects,
                      rng: Rng, cursor: nat, r: nat, budget: nat): (g: Growth)
    requires |polygon| > 0 && w >= 0 && h >= 0
    requires r <= budget
    decreases budget - r
    ensures r <= g.steps <= budget
    ensures g.width == GrowN(w, g.steps) && g.height == GrowN(h, g.steps)
    ensures g.outcome.Failed? ==> g.steps == budget
    ensures cursor <= g.next
  {
    var p := Place(polygon, placed, GrowN(w, r), GrowN(h, r), intersects, rng, cursor);
    if p.0.Placed? || r == budget then Growth(p.0, GrowN(w, r), GrowN(h, r), p.1, r)
    else GrowthFrom(polygon, placed, w, h, intersects, rng, p.1, r + 1, budget)
  }

  /** Lines 149-156 from the |placed|-th polygon on: grow-and-retry each
      polygon in turn on the canvas left by the one before, and append the
      placed result. An empty polygon or a polygon that reaches the growth
      ceiling ends the run with an error naming it. */
  function LayoutFrom(sources: seq<Polygon>, placed: seq<Polygon>, w: int, h: int, intersects: Intersects,
                      rng: Rng, cursor: nat, budget: nat): (res: (Result, nat))
    requires |placed| <= |sources| && w >= 0 && h >= 0
    decreases |sources| - |placed|
    ensures cursor <= res.1
    ensures res.0.Ok? ==>
      |res.0.layout.polygons| == |sources| && w <= res.0.layout.width && h <= res.0.layout.height
  {
    if |placed| == |sources| then (Ok(Canvas(placed, w, h)), cursor)
    else if |sources[|placed|]| == 0 then (Err(EmptyPolygon(|placed|)), cursor)
    else
      var g := GrowthFrom(sources[|placed|], placed, w, h, intersects, rng, cursor, 0, budget);
      if g.outcome.Failed? then (Err(GrowthLimit(|placed|)), g.next)
      else LayoutFrom(sources, placed + [g.outcome.polygon], g.width, g.height, intersects, rng, g.next, budget)
  }

  /** One step of `LayoutFrom`: the next source goes through the growth
      loop, and the run goes on from what that loop leaves. */
  lemma LayoutFromNext(sources: seq<Polygon>, placed: seq<Polygon>, w: int, h: int, intersects: Intersects,
                       rng: Rng, cursor: nat, budget: nat)
    requires |placed| < |sources| && |sources[|placed|]| > 0 && w >= 0 && h >= 0
    ensures var g := GrowthFrom(sources[|placed|], placed, w, h, intersects, rng, cursor, 0, budget);
      LayoutFrom(sources, placed, w, h, intersects, rng, cursor, budget)
      == if g.outcome.Failed? then (Err(GrowthLimit(|placed|)), g.next)
         else LayoutFrom(sources, placed + [g.outcome.polygon], g.width, g.height, intersects, rng, g.next, budget)
  {
  }

  /** How a layout run can fail: with the first empty source named, or
      with the polygon that reached the growth ceiling named; every source
      before the named one is non-empty. */
  lemma {:induction false} LayoutFromOutcomes(sources: seq<Polygon>, placed: seq<Polygon>, w: int, h: int,
                                              intersects: Intersects, rng: Rng, cursor: nat, budget: nat)
    requires |placed| <= |sources| && w >= 0 && h >= 0
    requires forall j :: 0 <= j < |placed| ==> |sources[j]| > 0
    decreases |sources| - |placed|
    ensures var r := LayoutFrom(sources, placed, w, h, intersects, rng, cursor, budget).0;
      && (r.Err? ==> r.error.EmptyPolygon? || r.error.GrowthLimit?)
      && (r.Err? && r.error.EmptyPolygon? ==>
            |placed| <= r.error.index < |sources| && |sources[r.error.index]| == 0
            && forall j :: 0 <= j < r.error.index ==> |sources[j]| > 0)
      && (r.Err? && r.error.GrowthLimit? ==>
            |placed| <= r.error.index < |sources| && forall j :: 0 <= j <= r.error.index ==> |sources[j]| > 0)
  {
    if |placed| < |sources| && |sources[|placed|]| > 0 {
      var g := GrowthFrom(sources[|placed|], placed, w, h, intersects, rng, cursor, 0, budget);
      if g.outcome.Placed? {
        LayoutFromOutcomes(sources, placed + [g.outcome.polygon], g.width, g.height, intersects, rng, g.next, budget);
      }
    }
  }

  /** More growth steps never give a smaller side. */
  lemma {:induction false} GrowNMonotone(side: int, r: nat, s: nat)
    requires side >= 0 && r <= s
    ensures GrowN(side, r) <= GrowN(side, s)
  {
    if r < s {
      GrowNMonotone(side, r, s - 1);
    }
  }

  /** A polygon that does not fit even the canvas grown to the ceiling
      fails on every canvas of the loop, so the loop ends at the ceiling
      with no draw taken. */
  lemma {:induction false} GrowthFromTooLarge(polygon: Polygon, placed: seq<Polygon>, w: int, h: int,
                                              intersects: Intersects, rng: Rng, cursor: nat, r: nat, budget: nat)
    requires |polygon| > 0 && w >= 0 && h >= 0
    requires r <= budget
    requires !Fits(polygon, GrowN(w, budget), GrowN(h, budget))
    decreases budget - r
    ensures var g := GrowthFrom(polygon, placed, w, h, intersects, rng, cursor, r, budget);
      g.outcome.Failed? && g.steps == budget && g.next == cursor
  {
    GrowNMonotone(w, r, budget);
    GrowNMonotone(h, r, budget);
    PlaceGuard(polygon, placed, GrowN(w, r), GrowN(h, r), intersects, rng, cursor);
    if r < budget {
      GrowthFromTooLarge(polygon, placed, w, h, intersects, rng, cursor, r + 1, budget);
    }
  }

  /** With nothing placed yet, the loop grows the canvas exactly until the
      polygon fits, and then places it at once: it stops on the first
      fitting canvas. */
  lemma {:induction false} GrowthFromFirstFit(polygon: Polygon, w: int, h: int, intersects: Intersects,
                                              rng: Rng, cursor: nat, r: nat, k: nat, budget: nat)
    requires |polygon| > 0 && w >= 0 && h >= 0
    requires r <= k <= budget
    requires Fits(polygon, GrowN(w, k), GrowN(h, k))
    decreases budget - r
    ensures var g := GrowthFrom(polygon, [], w, h, intersects, rng, cursor, r, budget);
      && g.outcome.Placed? && g.steps <= k
      && Fits(polygon, g.width, g.height)
      && forall j :: r <= j < g.steps ==> !Fits(polygon, GrowN(w, j), GrowN(h, j))
  {
    PlaceGuard(polygon, [], GrowN(w, r), GrowN(h, r), intersects, rng, cursor);
    if Fits(polygon, GrowN(w, r), GrowN(h, r)) {
      PlaceFirstWhenEmpty(polygon, GrowN(w, r), GrowN(h, r), intersects, rng, cursor);
    } else {
      GrowthFromFirstFit(polygon, w, h, intersects, rng, cursor, r + 1, k, budget);
    }
  }

  /** A polygon the growth loop places is an integer shift of its
      normalised form inside the final canvas and meets no polygon placed
      before it. */
  lemma {:induction false} GrowthFromPlaced(polygon: Polygon, placed: seq<Polygon>, w: int, h: int,
                                            intersects: Intersects, rng: Rng, cursor: nat, r: nat, budget: nat)
    requires |polygon| > 0 && w >= 0 && h >= 0
    requires r <= budget
    decreases budget - r
    ensures var g := GrowthFrom(polygon, placed, w, h, intersects, rng, cursor, r, budget);
      g.outcome.Placed? ==>
        IsPlacementOf(g.outcome.polygon, polygon) && InCanvas(g.outcome.polygon, g.width, g.height)
        && forall k :: 0 <= k < |placed| ==> !intersects(g.outcome.polygon, placed[k])
  {
    var p := Place(polygon, placed, GrowN(w, r), GrowN(h, r), intersects, rng, cursor);
    if p.0.Placed? || r == budget {
      PlacedInsideCanvas(polygon, placed, GrowN(w, r), GrowN(h, r), intersects, rng, cursor);
      PlacedAvoidsEarlier(polygon, placed, GrowN(w, r), GrowN(h, r), intersects, rng, cursor);
    } else {
      GrowthFromPlaced(polygon, placed, w, h, intersects, rng, p.1, r + 1, budget);
    }
  }

  /** Lines 149-156: place the polygons in order; when a placement fails,
      grow the canvas and retry the same polygon against the same placed
      list. The source retries without bound; here at most `maxGrowth`
      growth steps are taken per polygon. */
  method PlaceAll(polygonList: seq<Polygon>, w0: int, h0: int, intersects: Intersects,
                  rng: Rng, start: nat, maxGrowth: nat)
    returns (r: Result, next: nat, ghost rounds: nat)
    requires w0 >= 0 && h0 >= 0
    ensures (r, next) == LayoutFrom(polygonList, [], w0, h0, intersects, rng, start, maxGrowth)
    ensures r.Ok? ==> LaidOut(polygonList, w0, h0, r.layout, rounds, intersects)
    ensures r.Err? ==> r.error.EmptyPolygon? || r.error.GrowthLimit?
    ensures r.Err? && r.error.EmptyPolygon? ==>
      r.error.index < |polygonList| && |polygonList[r.error.index]| == 0
      && forall j :: 0 <= j < r.error.index ==> |polygonList[j]| > 0
    ensures r.Err? && r.error.GrowthLimit? ==>
      r.error.index < |polygonList| && forall j :: 0 <= j <= r.error.index ==> |polygonList[j]| > 0
  {
    ghost var goal := LayoutFrom(polygonList, [], w0, h0, intersects, rng, start, maxGrowth);
    LayoutFromOutcomes(polygonList, [], w0, h0, intersects, rng, start, maxGrowth);
    var newPolygonList: seq<Polygon> := [];
    var newW, newH := w0, h0;
    next, rounds := start, 0;
    for i := 0 to |polygonList|
      invariant |newPolygonList| == i
      invariant newW == GrowN(w0, rounds) && newH == GrowN(h0, rounds)
      invariant PartialLayout(polygonList, newPolygonList, newW, newH, intersects)
      invariant LayoutFrom(polygonList, newPolygonList, newW, newH, intersects, rng, next, maxGrowth) == goal
    {
      var polygon := polygonList[i];
      if |polygon| == 0 {
        return Err(EmptyPolygon(i)), next, rounds;
      }
      LayoutFromNext(polygonList, newPolygonList, newW, newH, intersects, rng, next, maxGrowth);
      var newPolygon: Outcome;
      newPolygon, newW, newH, next, rounds :=
        PlaceGrowing(polygonList, newPolygonList, w0, h0, rounds, newW, newH, intersects, rng, next, maxGrowth);
      if newPolygon.Failed? {
        return Err(GrowthLimit(i)), next, rounds;
      }
      newPolygonList := newPolygonList + [newPolygon.polygon];
    }
    r := Ok(Canvas(newPolygonList, newW, newH));
  }

  /** Lines 150-155 for the next polygon of the list: call `gen_polygon`,
      and while it fails grow both sides of the canvas and call it again, at
      most `maxGrowth` times. The result is the growth loop `GrowthFrom`;
      the polygons placed so far stay inside the grown canvas, and a placed
      result extends the layout. */
  method PlaceGrowing(sources: seq<Polygon>, placed: seq<Polygon>, ghost w0: int, ghost h0: int, ghost rounds: nat,
                      w: int, h: int, intersects: Intersects, rng: Rng, start: nat, maxGrowth: nat)
    returns (result: Outcome, newW: int, newH: int, next: nat, ghost newRounds: nat)
    requires |placed| < |sources| && |sources[|placed|]| > 0
    requires w0 >= 0 && h0 >= 0
    requires w == GrowN(w0, rounds) && h == GrowN(h0, rounds)
    requires PartialLayout(sources, placed, w, h, intersects)
    ensures rounds <= newRounds
    ensures Growth(result, newW, newH, next, newRounds - rounds)
            == GrowthFrom(sources[|placed|], placed, w, h, intersects, rng, start, 0, maxGrowth)
    ensures newW == GrowN(w0, newRounds) && newH == GrowN(h0, newRounds)
    ensures PartialLayout(sources, placed, newW, newH, intersects)
    ensures result.Placed? ==> PartialLayout(sources, placed + [result.polygon], newW, newH, intersects)
  {
    ghost var polygon := sources[|placed|];
    ghost var goal := GrowthFrom(polygon, placed, w, h, intersects, rng, start, 0, maxGrowth);
    ghost var prev := start;
    var growth := 0;
    newW, newH, newRounds := w, h, rounds;
    result, next := PlaceChecked(sources, placed, newW, newH, intersects, rng, start);
    while result.Failed? && growth < maxGrowth
      invariant growth <= maxGrowth
      invariant newW == GrowN(w, growth) && newH == GrowN(h, growth)
      invariant newRounds == rounds + growth
      invariant newW == GrowN(w0, newRounds) && newH == GrowN(h0, newRounds)
      invariant (result, next) == Place(polygon, placed, newW, newH, intersects, rng, prev)
      invariant GrowthFrom(polygon, placed, w, h, intersects, rng, prev, growth, maxGrowth) == goal
      invariant PartialLayout(sources, placed, newW, newH, intersects)
      invariant result.Placed? ==> PartialLayout(sources, placed + [result.polygon], newW, newH, intersects)
      decreases maxGrowth - growth
    {
      LayoutWidens(sources, placed, newW, newH, intersects);
      newW, newH := Grow(newW), Grow(newH);
      growth, newRounds := growth + 1, newRounds + 1;
      prev := next;
      result, next := PlaceChecked(sources, placed, newW, newH, intersects, rng, next);
    }
  }

  /** Growing the canvas keeps every placed polygon inside it. */
  lemma LayoutWidens(sources: seq<Polygon>, placed: seq<Polygon>, w: int, h: int, intersects: Intersects)
    requires w >= 0 && h >= 0
    requires PartialLayout(sources, placed, w, h, intersects)
    ensures PartialLayout(sources, placed, Grow(w), Grow(h), intersects)
  {
    forall j | 0 <= j < |placed|
      ensures InCanvas(placed[j], Grow(w), Grow(h))
    {
      InCanvasWidens(placed[j], w, h, Grow(w), Grow(h));
    }
  }

  /** A placement of the next source that lies in the canvas and meets no
      earlier polygon extends the layout by one. */
  lemma LayoutExtends(sources: seq<Polygon>, placed: seq<Polygon>, p: Polygon, w: int, h: int, intersects: Intersects)
    requires |placed| < |sources|
    requires PartialLayout(sources, placed, w, h, intersects)
    requires IsPlacementOf(p, sources[|placed|]) && InCanvas(p, w, h)
    requires forall k :: 0 <= k < |placed| ==> !intersects(p, placed[k])
    ensures PartialLayout(sources, placed + [p], w, h, intersects)
  {
    var q := placed + [p];
    forall j | 0 <= j < |q|
      ensures IsPlacementOf(q[j], sources[j]) && InCanvas(q[j], w, h)
    {
      if j < |placed| {
        assert q[j] == placed[j];
      }
    }
    forall j, k | 0 <= k < j < |q|
      ensures !intersects(q[j], q[k])
    {
      assert q[k] == placed[k];
      if j < |placed| {
        assert q[j] == placed[j];
      }
    }
  }

  /** One call of `gen_polygon` for the next source, together with what
      the layout loop needs to know of a placed result: it extends the
      layout. */
  method PlaceChecked(sources: seq<Polygon>, placed: seq<Polygon>, w: int, h: int,
                      intersects: Intersects, rng: Rng, start: nat)
    returns (result: Outcome, next: nat)
    requires |placed| < |sources| && |sources[|placed|]| > 0
    requires PartialLayout(sources, placed, w, h, intersects)
    ensures (result, next) == Place(sources[|placed|], placed, w, h, intersects, rng, start)
    ensures result.Placed? ==> PartialLayout(sources, placed + [result.polygon], w, h, intersects)
  {
    result, next := GenPolygon(sources[|placed|], placed, w, h, intersects, rng, start);
    PlacedInsideCanvas(sources[|placed|], placed, w, h, intersects, rng, start);
    PlacedAvoidsEarlier(sources[|placed|], placed, w, h, intersects, rng, start);
    if result.Placed? {
      LayoutExtends(sources, placed, result.polygon, w, h, intersects);
    }
  }

  /** An annotation whose points would be divided by a zero image size. */
  predicate ZeroSized(a: Annotation)
  {
    |a.points| > 0 && (a.imageWidth == 0 || a.imageHeight == 0)
  }

  /** Line 136: the points as fractions of their image's width and height. */
  function UnitPolygon(a: Annotation): (q: Polygon)
    requires !ZeroSized(a)
    ensures |q| == |a.points|
  {
    seq(|a.points|, i requires 0 <= i < |a.points| =>
      Point(a.points[i].x / a.imageWidth as real, a.points[i].y / a.imageHeight as real))
  }

  /** Line 142: the points scaled by the batch's largest image size. */
  function Scale(p: Polygon, maxW: int, maxH: int): (q: Polygon)
    ensures |q| == |p|
  {
    seq(|p|, i requires 0 <= i < |p| => Point(p[i].x * maxW as real, p[i].y * maxH as real))
  }

  /** Python's `max` over a non-empty list of sizes. */
  function MaxOf(s: seq<int>): (m: int)
    requires |s| > 0
    ensures m in s
    ensures forall i :: 0 <= i < |s| ==> s[i] <= m
  {
    if |s| == 1 then s[0]
    else
      var rest := MaxOf(s[1..]);
      if s[0] >= rest then s[0] else rest
  }

  function Widths(batch: seq<Annotation>): seq<int>
  {
    seq(|batch|, j requires 0 <= j < |batch| => batch[j].imageWidth)
  }

  function Heights(batch: seq<Annotation>): seq<int>
  {
    seq(|batch|, j requires 0 <= j < |batch| => batch[j].imageHeight)
  }

  /** The polygons the layout loop receives: each annotation's points
      divided by its own image size and multiplied by the largest one. */
  function BatchPolygons(batch: seq<Annotation>): (ps: seq<Polygon>)
    requires |batch| > 0
    requires forall j :: 0 <= j < |batch| ==> !ZeroSized(batch[j])
    ensures |ps| == |batch|
    ensures forall j :: 0 <= j < |batch| ==> |ps[j]| == |batch[j].points|
  {
    var maxW, maxH := MaxOf(Widths(batch)), MaxOf(Heights(batch));
    seq(|batch|, j requires 0 <= j < |batch| => Scale(UnitPolygon(batch[j]), maxW, maxH))
  }

  /** Rescaling keeps each vertex at the same fraction of the image size:
      a vertex at x in an image of width w ends at x' with x' / maxW == x / w. */
  lemma RescaleKeepsRelativePosition(a: Annotation, maxW: int, maxH: int, i: nat)
    requires !ZeroSized(a)
    requires i < |a.points|
    requires maxW != 0 && maxH != 0
    ensures |Scale(UnitPolygon(a), maxW, maxH)| == |a.points|
    ensures Scale(UnitPolygon(a), maxW, maxH)[i].x / maxW as real == a.points[i].x / a.imageWidth as real
    ensures Scale(UnitPolygon(a), maxW, maxH)[i].y / maxH as real == a.points[i].y / a.imageHeight as real
  {
    UnitPolygonAt(a, i);
  }

  /** The polygon of an image that is the largest in both directions keeps
      its points unchanged. */
  lemma RescaleKeepsLargest(a: Annotation)
    requires !ZeroSized(a)
    requires a.imageWidth != 0 && a.imageHeight != 0
    ensures Scale(UnitPolygon(a), a.imageWidth, a.imageHeight) == a.points
  {
    var w, h := a.imageWidth as real, a.imageHeight as real;
    var q := Scale(UnitPolygon(a), a.imageWidth, a.imageHeight);
    assert |q| == |a.points|;
    forall i | 0 <= i < |a.points| ensures q[i] == a.points[i] {
      assert q[i] == Point(a.points[i].x / w * w, a.points[i].y / h * h) by {
        UnitPolygonAt(a, i);
        ScaleAt(UnitPolygon(a), a.imageWidth, a.imageHeight, i);
      }
    }
  }

  lemma UnitPolygonAt(a: Annotation, i: nat)
    requires !ZeroSized(a)
    requires i < |a.points|
    ensures |UnitPolygon(a)| == |a.points|
    ensures UnitPolygon(a)[i] == Point(a.points[i].x / a.imageWidth as real, a.points[i].y / a.imageHeight as real)
  {
  }

  lemma ScaleAt(p: Polygon, maxW: int, maxH: int, i: nat)
    requires i < |p|
    ensures |Scale(p, maxW, maxH)| == |p|
    ensures Scale(p, maxW, maxH)[i] == Point(p[i].x * maxW as real, p[i].y * maxH as real)
  {
  }

  /** Lines 141-143: every polygon of the list replaced, in place, by its
      rescaled form. */
  method RescaleInPlace(polygonList: array<Polygon>, maxW: int, maxH: int)
    modifies polygonList
    ensures forall i :: 0 <= i < polygonList.Length ==>
      polygonList[i] == Scale(old(polygonList[i]), maxW, maxH)
  {
    for i := 0 to polygonList.Length
      invariant forall j :: 0 <= j < i ==> polygonList[j] == Scale(old(polygonList[j]), maxW, maxH)
      invariant forall j :: i <= j < polygonList.Length ==> polygonList[j] == old(polygonList[j])
    {
      var polygon := polygonList[i];
      polygonList[i] := Scale(polygon, maxW, maxH);
    }
  }

  /** `multi_image_augment` after the annotation files are read: collect
      the image sizes and the points as fractions of them (lines 124-137),
      take the largest size (139-140), rescale (141-143) and lay out
      (149-156) from the given initial canvas. */
  method MultiImageAugment(batch: seq<Annotation>, w0: int, h0: int, intersects: Intersects,
                           rng: Rng, start: nat, maxGrowth: nat)
    returns (r: Result, next: nat, ghost rounds: nat)
    requires w0 >= 0 && h0 >= 0
    ensures r == Err(EmptyBatch) <==> |batch| == 0
    ensures (r.Err? && r.error.ZeroSizedImage?) <==> exists i :: 0 <= i < |batch| && ZeroSized(batch[i])
    ensures r.Err? && r.error.ZeroSizedImage? ==>
      r.error.index < |batch| && ZeroSized(batch[r.error.index])
      && forall i :: 0 <= i < r.error.index ==> !ZeroSized(batch[i])
    ensures |batch| > 0 && (forall i :: 0 <= i < |batch| ==> !ZeroSized(batch[i])) ==>
      (r, next) == LayoutFrom(BatchPolygons(batch), [], w0, h0, intersects, rng, start, maxGrowth)
    ensures r.Ok? ==>
      && |batch| > 0
      && (forall i :: 0 <= i < |batch| ==> !ZeroSized(batch[i]))
      && LaidOut(BatchPolygons(batch), w0, h0, r.layout, rounds, intersects)
  {
    next, rounds := start, 0;
    var wList: seq<int> := [];
    var hList: seq<int> := [];
    var polygonList: seq<Polygon> := [];
    for i := 0 to |batch|
      invariant wList == Widths(batch[..i]) && hList == Heights(batch[..i])
      invariant |polygonList| == i
      invariant forall j :: 0 <= j < i ==> !ZeroSized(batch[j]) && polygonList[j] == UnitPolygon(batch[j])
    {
      var a := batch[i];
      if ZeroSized(a) {
        return Err(ZeroSizedImage(i)), next, rounds;
      }
      wList := wList + [a.imageWidth];
      hList := hList + [a.imageHeight];
      polygonList := polygonList + [UnitPolygon(a)];
      assert batch[..i + 1] == batch[..i] + [a];
    }
    assert batch[..|batch|] == batch;
    if |batch| == 0 {
      return Err(EmptyBatch), next, rounds;
    }
    var maxW, maxH := MaxOf(wList), MaxOf(hList);
    var scaled := new Polygon[|polygonList|](i requires 0 <= i < |polygonList| => polygonList[i]);
    RescaleInPlace(scaled, maxW, maxH);
    assert scaled[..] == BatchPolygons(batch);
    r, next, rounds := PlaceAll(scaled[..], w0, h0, intersects, rng, next, maxGrowth);
  }
}
