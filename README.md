# Random non-overlapping polygon layout (`gen_polygon.py`)

This project models the layout engine of the multi-image label augmenter. It
takes one labelled polygon from each of several annotated images, brings them
to a common scale, and places them one after another at random integer
offsets on a blank canvas, so that no polygon meets one placed before it.
When a polygon cannot be placed, the canvas grows by a factor of 1.2.

The model has four modules:

- `Geometry` covers three operations:
  - `polygon_size`, the width and height of the bounding box;
  - `polygon_move`, which translates the vertex array in place;
  - normalisation, which moves a polygon's bounding box to the origin.
- `Sampling` models `np.random.randint(0, high)` as reads from an explicit
  tape of raw draws, so a run is a function of its inputs. Draw `k` is
  `rng(k)`, reduced to one of the integers in `[0, high)`.
- `Placement` models `gen_polygon` in three layers:
  - the imperative method `GenPolygon`, which works on fresh arrays and runs
    the source's `while` loop (`RetryLoop`);
  - the specification function `Place`, whose `Retry` follows the loop as
    written;
  - the independent reference `FirstFree`, the first attempt whose candidate
    meets nothing.

  Lemmas connect the layers. They also prove the guard, the canvas bounds,
  that a placed polygon avoids earlier ones, and the cap of fifty collisions.
- `Layout` models the end of `multi_image_augment`:
  - dividing each polygon by its own image size and multiplying by the
    largest size, in place;
  - the layout loop, which places the polygons in order and grows the canvas
    with `int(side * 1.2)` while a placement fails.

  The recursive functions `GrowthFrom` (one polygon, grown canvas after
  grown canvas) and `LayoutFrom` (all polygons in turn) follow the loop as
  written, and the imperative methods are proved equal to them. On top of
  that it proves four things: every source gets one output, in order; each
  output lies inside the final canvas; no output meets an earlier one; and
  the canvas only grows. It also proves when a run fails, and which polygon
  it names.

The intersection test `poly_intersect` (shapely) is the parameter
`intersects`, an arbitrary predicate.

`int(side * 1.2)` is the identity on sides of at most 4 (`GrowStallsBelowFive`,
`GrowNStalls`). So the source's layout loop never ends when a polygon does not
fit such a canvas. From 5 on, every step adds at least one pixel
(`GrowNAtLeast`).

## Model

| member | source | states |
|---|---|---|
| `Geometry.Min` | src/gen_polygon.py:22-23 | `np.min` of a non-empty column is at most every entry |
| `Geometry.MinAttained` | src/gen_polygon.py:22-23 | the minimum is one of the entries |
| `Geometry.Max` | src/gen_polygon.py:22-23 | `np.max` of a non-empty column is at least every entry |
| `Geometry.MaxAttained` | src/gen_polygon.py:22-23 | the maximum is one of the entries |
| `Geometry.PolygonSize` | src/gen_polygon.py:8-25 | width and height of the bounding box are both non-negative |
| `Geometry.PolygonSizeIsExtent` | src/gen_polygon.py:18-25 | the width is the largest difference of two x coordinates (bounds every difference and is attained); likewise the height for y |
| `Geometry.PolygonMove` | src/gen_polygon.py:45-58 | the array is changed in place so that every vertex is shifted by (move_x, move_y); count and order are kept; the same array is returned |
| `Geometry.ShiftExtrema` | src/gen_polygon.py:56-57 | adding c to every entry of a column adds c to its minimum and its maximum |
| `Geometry.Translate` | src/gen_polygon.py:56-57 | moving a polygon keeps its number of vertices |
| `Geometry.TranslateExtrema` | src/gen_polygon.py:56-57 | moving a polygon moves its bounding box by exactly the offset |
| `Geometry.TranslateKeepsSize` | src/gen_polygon.py:73-76 | the size is translation-invariant |
| `Geometry.TranslateRoundTrip` | src/gen_polygon.py:56-57 | moving by (-dx, -dy) undoes moving by (dx, dy) |
| `Geometry.Normalize` | src/gen_polygon.py:73-74 | moving the bounding box to the origin keeps the number of vertices |
| `Geometry.NormalizeAtOrigin` | src/gen_polygon.py:73-76 | after normalisation min x and min y are 0, and the size is that of the input |
| `Geometry.NormalizedShiftStartsAtOffset` | src/gen_polygon.py:83-84 | the normalised polygon moved by (x, y) has its bounding box's minimum corner at (x, y) |
| `Geometry.NormalizeForgetsTranslation` | src/gen_polygon.py:73-74 | normalising a translated polygon gives the normalised original |
| `Sampling.Choices` | src/gen_polygon.py:79-82 | the number of integers in [0, high) is positive, and high lies in (n-1, n] |
| `Sampling.Draw` | src/gen_polygon.py:79-82 | a draw reduced to n choices lies in [0, n) |
| `Sampling.RandInt` | src/gen_polygon.py:79-82 | `randint(0, high)` lies in [0, high) |
| `Sampling.RandIntReachesEveryOffset` | src/gen_polygon.py:79-82 | every integer in [0, high) is returned by some tape |
| `Placement.Candidate` | src/gen_polygon.py:79-84 | a candidate has as many vertices as the polygon it is built from |
| `Placement.Candidates` | src/gen_polygon.py:88-103 | at most fifty candidates are counted in one call |
| `Placement.Retry` | src/gen_polygon.py:88-105 | the loop from attempt j has used the draws of attempts up to j and at most those of 51 candidates |
| `Placement.Place` | src/gen_polygon.py:60-106 | either no draw is taken (the guard fails), or the draws of one to 51 candidates are |
| `Placement.FirstFree` | src/gen_polygon.py:88-105 | reference definition: every attempt before the result collides, and the attempt at the result is free unless all fifty collide |
| `Placement.CollidesWithAny` | src/gen_polygon.py:91-96 | the inner `for` loop reports a collision exactly when some placed polygon meets the candidate |
| `Placement.NormalizedArray` | src/gen_polygon.py:73-74 | a fresh array holding the caller's polygon moved to the origin; the caller's polygon is not changed |
| `Placement.ShiftedCopy` | src/gen_polygon.py:83-84 | a fresh copy of the normalised vertices moved by the drawn offset |
| `Placement.DrawCandidate` | src/gen_polygon.py:79-84 | the candidate of attempt j is built from draws start+2j and start+2j+1 |
| `Placement.GenPolygon` | src/gen_polygon.py:60-106 | `gen_polygon` returns what the specification `Place` gives, and the tape position after its draws |
| `Placement.DrawAndRetry` | src/gen_polygon.py:79-106 | once the polygon fits, drawing the first candidate, the early return for an empty list and the retry loop give exactly `Retry` over the candidates |
| `Placement.RetryLoop` | src/gen_polygon.py:88-105 | gives up only when candidates 0 to 49 all collide, after 51 candidates have been drawn; otherwise returns the first free candidate, every earlier one having collided |
| `Placement.RetryFailsAfterCap` | src/gen_polygon.py:104-105 | when all fifty counted candidates collide, the retry loop returns `False` after 51 candidates have been drawn |
| `Placement.RetryTakesFirstFree` | src/gen_polygon.py:89-106 | when every candidate from j to c - 1 collides and candidate c is free, the retry loop from j returns candidate c with the draws up to c used |
| `Placement.RetryIsFirstFree` | src/gen_polygon.py:88-106 | the loop as written (`Retry`) agrees with the reference `FirstFree`: the first free candidate, or failure after fifty collisions |
| `Placement.CandidateInsideCanvas` | src/gen_polygon.py:79-84 | every candidate is the normalised polygon at an integer offset (x, y) with 0 <= x < w - poly_w and 0 <= y < h - poly_h, so it lies inside [0, w) x [0, h) |
| `Placement.PlaceGuard` | src/gen_polygon.py:76-78 | when w - poly_w <= 0 or h - poly_h <= 0 the result is `False` and no draw is taken; otherwise at least one candidate is drawn |
| `Placement.PlacedInsideCanvas` | src/gen_polygon.py:79-103 | a returned polygon is an integer shift of the normalised input that lies inside [0, w) x [0, h) |
| `Placement.PlacedAvoidsEarlier` | src/gen_polygon.py:86-96 | a returned polygon meets no polygon of `new_polygon_list` |
| `Placement.PlaceRetryCap` | src/gen_polygon.py:95-105 | for a fitting polygon, `False` comes back exactly when all fifty counted candidates collide, after 102 draws; a returned polygon follows at most 49 rejected ones |
| `Placement.PlaceFirstWhenEmpty` | src/gen_polygon.py:86-87 | with nothing placed yet, the first candidate is returned without any intersection test |
| `Placement.InCanvasWidens` | src/gen_polygon.py:153-154 | a polygon inside a canvas stays inside any larger canvas |
| `Layout.Grow` | src/gen_polygon.py:153-154 | a growth step never shrinks a side |
| `Layout.GrowTruncates` | src/gen_polygon.py:153-154 | the growth step `(6 * side) / 5` is `int(side * 1.2)`, the truncation of side * 1.2 |
| `Layout.GrowN` | src/gen_polygon.py:152-154 | repeated growth never shrinks a side |
| `Layout.GrowStallsBelowFive` | src/gen_polygon.py:152-154 | a growth step leaves a side unchanged exactly when the side is at most 4 |
| `Layout.GrowNAtLeast` | src/gen_polygon.py:152-155 | from a side of 5 on, r growth steps add at least r pixels |
| `Layout.GrowNStalls` | src/gen_polygon.py:152-155 | a side of at most 4 never grows |
| `Layout.GrowNMonotone` | src/gen_polygon.py:152-154 | more growth steps never give a smaller side |
| `Layout.GrowthFrom` | src/gen_polygon.py:150-155 | the grow-and-retry loop of one polygon stops within the ceiling, on the start canvas grown `steps` times; it fails only at the ceiling; it never moves the tape back |
| `Layout.GrowthFromPlaced` | src/gen_polygon.py:150-155 | a polygon the loop places is an integer shift of its normalised form, inside the final canvas, meeting no earlier polygon |
| `Layout.GrowthFromTooLarge` | src/gen_polygon.py:76-78 | a polygon that does not fit the canvas grown to the ceiling fails on every canvas, without taking a draw |
| `Layout.GrowthFromFirstFit` | src/gen_polygon.py:150-155 | with nothing placed yet, the loop stops on the first canvas the polygon fits and places it there |
| `Layout.LayoutFrom` | src/gen_polygon.py:149-156 | a successful run gives one polygon per source on a canvas no smaller than the initial one, and never moves the tape back |
| `Layout.LayoutFromOutcomes` | src/gen_polygon.py:149-156 | a failed run names the first empty source or the polygon that reached the growth ceiling, and every source before it is non-empty |
| `Layout.PlaceAll` | src/gen_polygon.py:149-156 | the result and the tape position are exactly those of `LayoutFrom`, the loop as written. So `GrowthLimit(i)` comes only after polygon i failed on `maxGrowth + 1` successively grown canvases against the same placed list. On success there is one placed polygon per input, in order; each is an integer shift of its normalised input inside the final canvas; none meets an earlier one; the canvas is the initial one grown `rounds` times |
| `Layout.PlaceGrowing` | src/gen_polygon.py:150-155 | ends exactly as `GrowthFrom`: after each failure the canvas is grown once and the same polygon is retried against the same placed list, up to the ceiling; the earlier polygons stay inside the grown canvas; a placed result extends the layout |
| `Layout.LayoutWidens` | src/gen_polygon.py:153-155 | growing the canvas keeps a partial layout valid |
| `Layout.LayoutExtends` | src/gen_polygon.py:150-156 | appending a placement that lies in the canvas and meets no earlier polygon extends the layout |
| `Layout.PlaceChecked` | src/gen_polygon.py:150-151 | one call of `gen_polygon` in the layout loop agrees with `Place`, and a placed result extends the layout |
| `Layout.UnitPolygon` | src/gen_polygon.py:136 | dividing by the image size keeps the number of vertices |
| `Layout.Scale` | src/gen_polygon.py:142 | multiplying by the largest size keeps the number of vertices |
| `Layout.BatchPolygons` | src/gen_polygon.py:136-143 | one rescaled polygon per annotation, in order, each with as many vertices as the annotation's points |
| `Layout.MaxOf` | src/gen_polygon.py:139-140 | `max` of a non-empty list is one of its entries and at least every entry |
| `Layout.RescaleKeepsRelativePosition` | src/gen_polygon.py:136-142 | after rescaling, each vertex sits at the same fraction of the canvas as it did of its own image |
| `Layout.RescaleKeepsLargest` | src/gen_polygon.py:136-142 | the polygon of an image that is largest in both directions comes back unchanged |
| `Layout.RescaleInPlace` | src/gen_polygon.py:141-143 | every entry of the list is replaced, in place, by its polygon scaled by (max_w, max_h) |
| `Layout.MultiImageAugment` | src/gen_polygon.py:128-156 | an empty batch is an error, and so is an image of size zero that carries points (the first one is named); otherwise the result and tape position are those of `LayoutFrom` on the rescaled polygons, with the guarantees of `PlaceAll` |

## Left out

- Reading the annotation files, `random.choices` of the files, and the
  returned `json_paths`. The model takes the selected annotations as a list
  of (points, image width, image height).
- The initial canvas from `math.sqrt(max_w * max_h * num_img)` (lines
  145-147). It is taken as the parameters `w0` and `h0`.
- Floating point. Coordinates are exact reals, with no float32 rounding.
- numpy's conversion of a float `high` in `randint`. The bound is modelled
  as an exclusive real bound, so a draw may be any integer below it. Two
  consequences:
  - numpy's legacy `int()` conversion gives `floor(high)` choices, while
    `Choices` counts `ceil(high)`. For a fractional span the model can draw
    one offset more.
  - For `0 < high < 1` numpy raises `ValueError` (an empty range), while
    the model places the polygon at offset 0.
- Which value a draw takes. The tape `rng` is an arbitrary function, so
  nothing about the distribution is claimed.
- The behaviour of shapely's `intersects`. It is an arbitrary parameter
  and total. Shapely's `Polygon()` raises `ValueError` on fewer than 3
  vertices. So in the source such a polygon crashes at line 93 once the
  placed list is non-empty. The model tests it like any other.
- `insert_bg` and `translate_image` in `src/img_convert.py`, and the CLI in
  `augment_multi_img.py`. Both are image I/O and OpenCV calls outside this
  model.
- PlaceAll: the source's layout loop has no bound and never ends when a
  polygon cannot fit a canvas side of at most 4 (see `GrowNStalls`). The
  model takes at most `maxGrowth` growth steps per polygon and then reports
  `GrowthLimit`.
- PlaceGrowing and GrowthFrom: bounded by `maxGrowth` for the same reason.
- MultiImageAugment: reports the source's crashes as error values:
  - `EmptyBatch` for `max` of an empty list;
  - `ZeroSizedImage` for a division by a zero image size;
  - `EmptyPolygon` for an empty point list. `np.array([])` is
    one-dimensional, so `polygon[:, 0]` at line 74 raises `IndexError`.

  It also inherits the growth ceiling of `PlaceAll`.
- GenPolygon: requires a non-empty polygon, because the source raises on an
  empty one. The layout loop checks this first and reports `EmptyPolygon`.
- Aliasing of the returned polygon. `gen_polygon` returns a fresh numpy
  array, and the model returns its contents as a value.
