# Flower map sketch: a verified model of its engine

`sketch.js` is a p5.js animation. It fills a map of Denmark with flowers
and shows headlines from a news feed around the map. Under the drawing sits
a small sequential engine. This project models that engine in Dafny and
proves properties of it. It has six parts:

- **pixel classifier**: the mask image is walked row by row. A pixel whose
  mean RGB is below 50 is land. One above 200 is water. Any other pixel is
  dropped.
- **exclusion circle**: it is built from the bounding box of the land
  cells. Its radius is half the larger side × 1.05. The water cells at
  distance ≥ radius form the pool of headline anchors.
- **flower spawner**: it removes one random land cell per birth interval
  (60,000,000 ms ÷ 57079). It stops after 57079 births or when the land
  runs out.
- **headline rotation**: every 30 s it takes the next headline off the
  queue (consume-once) and tries to place it.
- **placement**: at most 200 random anchors are tried. Each attempt gets a
  width budget from the distance to the circle, with a floor of 50 and a
  cap at the right canvas edge. An attempt needs 20 px of vertical room
  and must clear every shown headline's rectangle by more than 6 px.
- **fade-in and projection**: each frame, alpha goes up by 2 until it
  reaches 255. Screen positions are recomputed from the stored cell as
  `x * scale + (width - mapW * scale) / 2`, where
  `scale = min(windowW / mapW, windowH / mapH)`.

Modules:

- `Geometry`: cells, the projection and the fit scale.
- `Headlines`: the shown-headline record, the overlap test, reprojection
  and fade.
- `Classifier`: the mask and its classification.
- `Exclusion`: the bounding box, the circle and the allowed-cell filter.
- `Placement`: one attempt of `addHeadline`, and `FirstAccepted`, the
  first acceptable draw, as a reference definition.
- `Engine`: the class `Sketch`, holding the sketch's global variables as
  fields, with one method per step of `setup` and `draw`.

How the source's environment enters the model:

- Each read of the clock (`millis()`) is its own parameter. `Setup` takes
  the reading after the classifier (line 77) and the one at its end (line
  103). `Frame` takes the spawn guard's reading (line 126), the spawn
  reset's (line 133) and the one in `handleHeadlines` (line 156). The
  readings need not be ordered.
- Each random choice is a parameter: the spawn index, and one `Draw` per
  placement attempt (a pool index and a font index).
- The line height `textAscent() * 1.2` is a parameter.
- The window size is a parameter of `Setup` and `WindowResized`.
- `sqrt` is a function parameter. None of the proved properties depends on
  what it returns. The circle filter compares squared distances, and
  `OutsideIffFar` proves this equals the source's `d >= circleRadius` for
  the true distance `d`.
- Coordinates and times are exact reals. The source uses floating point.

Two facts about `sketch.js` are easy to miss:

- It has no fade-out and never removes a shown headline. The shown list
  only grows, and each entry's alpha stops at 255.
- `headlinesOverlap` counts rectangles that touch, or are within 6 px, as
  overlapping. A box starting at x = 300 is rejected next to one spanning
  200–300 (`TouchingCountsAsOverlap`).

## Model

| member | source | states |
|---|---|---|
| Geometry.Project | sketch.js:173-174 | definition: one axis of the map-to-screen projection `p * scale + (canvas - extent * scale) / 2`; its properties are ProjectRoundTrip, ProjectMonotone, ProjectCentres and MapOnCanvas |
| Geometry.ScreenX | sketch.js:173 | definition: Project on the x axis, with the canvas width and map width of the view |
| Geometry.ScreenY | sketch.js:174 | definition: Project on the y axis, with the canvas height and map height of the view |
| Geometry.FitScale | sketch.js:307-309 | the scale is min(windowW/mapW, windowH/mapH): the map fits the window on both axes and fills it on at least one |
| Geometry.ProjectRoundTrip | sketch.js:248-249 | the screen projection can be inverted for a non-zero scale: the stored map coordinate is recovered from the screen coordinate |
| Geometry.ProjectMonotone | sketch.js:248-249 | the projection keeps the order of coordinates for a non-negative scale |
| Geometry.ProjectCentres | sketch.js:115-116 | the map's left and right (top and bottom) edges are projected symmetrically about the canvas centre |
| Geometry.MapOnCanvas | sketch.js:115-117 | at the fitted scale the projected map lies entirely inside the canvas |
| Headlines.HeadlinesOverlap | sketch.js:222-238 | definition: `headlinesOverlap` as written; its properties are OverlapSymmetric, OverlapReflexive, OverlapIffGrownRectanglesMeet and TouchingCountsAsOverlap |
| Headlines.OverlapSymmetric | sketch.js:222-238 | headlinesOverlap(a, b) == headlinesOverlap(b, a) |
| Headlines.OverlapReflexive | sketch.js:222-238 | a headline with non-negative width and height overlaps itself |
| Headlines.OverlapIffGrownRectanglesMeet | sketch.js:222-238 | the test is true exactly when the two rectangles, each grown by 3 px on every side, share a point (both directions) |
| Headlines.TouchingCountsAsOverlap | sketch.js:222-238 | x = 300 against a box spanning 200..300 overlaps, (50,0,100,20) against (0,0,100,20) overlaps, and a box 7 px past the edge is clear |
| Headlines.Reproject | sketch.js:208-209 | reprojection changes only screenX and screenY |
| Headlines.Reprojected | sketch.js:207-209 | definition: the loop that recomputes every shown headline's screen position; its properties are ReprojectedIdempotent and ReprojectedKeepsTexts, and CheckOverlaps is proved equal to it |
| Headlines.ReprojectedIdempotent | sketch.js:207-209 | recomputing screen positions a second time at the same view changes nothing |
| Headlines.ReprojectedKeepsTexts | sketch.js:207-209 | reprojection keeps each headline's text, alpha and width |
| Headlines.FadeStep | sketch.js:251 | alpha stays in [0, 255], never decreases, rises strictly below 255 and stays at 255 |
| Headlines.Advance | sketch.js:248-251 | definition: one frame of the renderer on one headline, Reproject followed by FadeStep on the alpha |
| Headlines.Advanced | sketch.js:247-251 | definition: Advance on every shown headline; DrawHeadlines is proved equal to it |
| Headlines.AdvancedAfterReprojected | sketch.js:207-209 | rendering a list whose prefix the overlap check already reprojected gives the same result as rendering the list as it was, whatever was appended |
| Headlines.FadeFromTransparent | sketch.js:251 | after n frames from alpha 0 the alpha is min(2n, 255) |
| Headlines.OpaqueAfter128Frames | sketch.js:251 | a new headline is at 255 after exactly 128 frames and below 255 before |
| Headlines.FadeMonotone | sketch.js:251 | from any alpha in [0, 255] the alpha is non-decreasing over frames and stays at most 255 |
| Classifier.KindOf | sketch.js:70-72 | land iff r+g+b < 150 (mean below 50), water iff r+g+b > 600 (mean above 200), otherwise neither |
| Classifier.PixelStart | sketch.js:66-69 | the index (y*width+x)*4 and its next three channels lie inside the pixel buffer |
| Classifier.ClassifyPixels | sketch.js:63-74 | the nested loops produce exactly the row-major land and water lists |
| Classifier.InCells | sketch.js:64-73 | a cell is in the list of kind k after `rows` rows iff it lies in those rows and its pixel has kind k |
| Classifier.Classification | sketch.js:64-73 | land is exactly the in-image cells with mean below 50, water those above 200; no cell is in both and mid-tones are in neither |
| Classifier.ClassifiedInRowMajorOrder | sketch.js:64-65 | both lists are strictly increasing in row-major order (hence without repeats) |
| Exclusion.BoundingBox | sketch.js:80-87 | the loop yields min(mapW, all land x), max(0, all land x) and likewise for y: every land cell lies within, and each bound is its initial value or attained by a cell |
| Exclusion.CircleOf | sketch.js:88-90 | the radius is non-negative for a proper box and negative exactly when both sides are negative |
| Exclusion.LandCircle | sketch.js:80-90 | for non-empty land every land cell is within the box and the radius is ≥ 0 |
| Exclusion.BoxOfNoLand | sketch.js:80-90 | with no land the box is (mapW, 0, mapH, 0) and the radius is negative |
| Exclusion.AllAllowedWhenRadiusNegative | sketch.js:93-96 | with a negative radius every water cell is allowed, in order |
| Exclusion.Outside | sketch.js:94-95 | definition: the filter's test `d >= circleRadius`, written on squared distances; OutsideIffFar proves the two forms agree |
| Exclusion.OutsideIffFar | sketch.js:94-95 | the squared-distance test agrees with dist >= circleRadius for the true distance |
| Exclusion.Allowed | sketch.js:93-96 | the allowed cells are water cells outside the circle and no more numerous than the water cells |
| Exclusion.FilterAllowed | sketch.js:93-96 | the loop produces exactly the order-preserving filter of the water cells |
| Exclusion.AllowedMembers | sketch.js:93-96 | a cell is allowed iff it is a water cell at distance ≥ radius |
| Exclusion.AllowedAppend | sketch.js:93-96 | filtering a concatenation is concatenating the filtered parts, so relative order is kept |
| Exclusion.AllowedKeepsOrder | sketch.js:93-96 | any order the water list has, the allowed list has too |
| Placement.CentreDistance | sketch.js:177-179 | definition: `sqrt(dx*dx + dy*dy)` from the screen anchor to the projected circle centre, with the square root a parameter |
| Placement.WidthBudget | sketch.js:177-184 | the budget never passes the right canvas edge less 10, and is at least 50 unless the edge cap set it |
| Placement.NarrowOnlyAtRightEdge | sketch.js:180-188 | a width below 50 can only come from the right-edge cap at line 184; the floor at line 181 otherwise keeps it ≥ 50 |
| Placement.Tentative | sketch.js:193-203 | definition: the `temp` object an attempt builds from its draw; AcceptedHeadline states its properties when accepted |
| Placement.Fits | sketch.js:187-188 | definition: the size test, width budget at least 50 and at least 20 px of vertical room; NarrowOnlyAtRightEdge says when the width part fails |
| Placement.Accepts | sketch.js:188-213 | definition: an attempt pushes its headline, that is Fits and no overlap with the reprojected shown list |
| Placement.FirstAccepted | sketch.js:168-219 | the result is the first draw whose headline fits and clears all shown headlines, or none when no draw does |
| Placement.AcceptedHeadline | sketch.js:193-216 | an accepted headline has the text, alpha 0, a pool cell, 50 ≤ w ≤ width − screenX − 10, at least 20 px of room below, and overlaps no reprojected shown headline in either argument order |
| Placement.OutcomeProperties | sketch.js:165-220 | after addHeadline the list grows by one iff placed, older entries keep text, alpha and width, and the new entry obeys the bounds and overlaps none of the others |
| Placement.Pushed | sketch.js:213-215 | what addHeadline appends: one headline exactly when some draw is accepted, none otherwise |
| Placement.RenderedOutcome | sketch.js:165-220 | after the next rendering pass, the shown list that addHeadline left equals the old list with Pushed appended; only the recomputed screen positions differed |
| Engine.RemoveAt | sketch.js:131 | splice removes exactly the element at idx; the rest keep their relative order; the multiset loses only that element |
| Engine.Sketch.Setup | sketch.js:47-105 | the initial state: classified land and water, the bounding box and circle, the allowed filter in row-major order, zero births, lastFlowerTime and lastHeadlineTime at their own clock readings, the fitted scale |
| Engine.Sketch.SpawnDue | sketch.js:126 | definition: the spawn guard; PoolOutlastsBirths says when it holds |
| Engine.Sketch.SimulationComplete | sketch.js:144 | definition: the completion test; BirthAccounting shows it means exactly 57079 births |
| Engine.Sketch.RotationDue | sketch.js:158 | definition: the rotation guard, a non-empty queue and 30 s passed |
| Engine.Sketch.SpawnFlower | sketch.js:126-134 | when the guard holds at the first clock reading, landPixels loses exactly the cell at idx, birthsSoFar rises by 1 and lastFlowerTime becomes the second reading; otherwise nothing changes |
| Engine.Sketch.AddHeadline | sketch.js:165-220 | at most 200 attempts; pushes the headline of the first acceptable draw after reprojecting the shown ones, else pushes nothing |
| Engine.Sketch.TryPlacement | sketch.js:169-216 | one attempt pushes iff its draw is accepted (fits and clears the reprojected shown list); a rejected attempt leaves the list untouched if the size checks failed and reprojected if only the overlap check failed |
| Engine.Sketch.CheckOverlaps | sketch.js:206-211 | every shown headline is reprojected and ok is true iff the candidate overlaps none of them |
| Engine.Sketch.HandleHeadlines | sketch.js:155-162 | fires iff the queue is non-empty and the interval has passed; then removes exactly the head, places it and sets lastHeadlineTime to now whether or not placement succeeds; otherwise queue, timer and shown list are untouched |
| Engine.Sketch.DrawHeadlines | sketch.js:247-251 | the loop leaves exactly Advanced of the old list: every shown headline is reprojected and its alpha advanced by one fade step; none are removed |
| Engine.Sketch.WindowResized | sketch.js:302-309 | the canvas takes the window size and the scale is refitted |
| Engine.Sketch.ReceiveFeed | sketch.js:294-296 | the titles become the queue and the first one is placed at once |
| Engine.Sketch.Frame | sketch.js:107-150 | the whole new state after one draw call. A birth happens iff the spawn guard holds, and then landPixels, birthsSoFar, lastFlowerTime and births change exactly as in SpawnFlower; otherwise they are unchanged. The queue loses its head and lastHeadlineTime takes the rotation's clock reading iff rotation is due. The shown list becomes Advanced of the old list plus Pushed. The completion notice is shown iff birthsSoFar ≥ totalBirths. Canvas and scale are unchanged |
| Engine.Sketch.PoolOutlastsBirths | sketch.js:126 | with at least 57079 land cells the pool is non-empty until completion, so a flower is born whenever the interval has passed |
| Engine.Sketch.BirthAccounting | sketch.js:126-144 | birthsSoFar + landPixels.length equals the classified land count; every birth is a land cell no longer in the pool; no cell is born twice; completion means exactly 57079 births |

## Left out

- Asset loading and canvas setup (`preload`, `createCanvas`, `createGraphics`, `loadPixels`) are p5 calls. The model takes the mask's RGBA buffer and the image sizes as inputs, and requires positive image sizes (an empty image would make the scale a division by zero).
- The network part of `loadRSS` (`fetch` and JSON parsing) is left out as asynchronous I/O. `ReceiveFeed` models only its success branch, given the titles. A failed fetch changes nothing.
- All drawing is left out as rendering primitives: `image`, `ellipse`, `text`, `fill`, the completion banner, and `drawFlowerOnLayer` with its float trigonometry. The births are returned as the cells the flowers would be drawn at.
- Word wrapping inside p5's `text(..., w)` and the font metrics are left out. The line height is a parameter, and fonts are indices into the six loaded fonts.
- `random`, `millis`, `windowWidth`/`windowHeight` and `sqrt` are parameters. IEEE floating-point rounding is not modelled; arithmetic is exact.
- Each shown headline is a value record in a sequence field, not a mutable object. The source never aliases these objects, so nothing is lost.
- AddHeadline: when no attempt succeeds, the contract says only that the shown list is either unchanged or reprojected. It does not say which; reprojection happens iff some attempt passed the size checks. Texts, alphas and widths are kept either way.
- AddHeadline: an empty `allowedHeadlinePixels` makes `random([])` return `undefined`, and `p.x` then throws. This crash is not modelled as an outcome. Instead a valid run of 200 draws is required, and none exists for an empty pool, so `HandleHeadlines`, `ReceiveFeed` and `Frame` require such draws whenever they call `addHeadline`: when rotation is due, or when the feed brought at least one title. This holds whether or not the headline is then placed.
- Pixel channel values are not restricted to 0–255. The classifier is correct for any integers.
