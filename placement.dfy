/**
  What one attempt of `addHeadline` computes from a random draw: the screen
  anchor, the width budget and the acceptance test; and, as an independent
  reference, the first acceptable draw of a run of attempts.
*/
module Placement {
  import opened Options
  import opened Geometry
  import opened Headlines
  import opened Exclusion

  const MaxAttempts: nat := 200
  /** The number of fonts loaded in `preload`. */
  const FontCount: nat := 6
  const MinWidth: real := 50.0
  const MinHeight: real := 20.0
  const EdgeMargin: real := 10.0
  const CircleGap: real := 2.0

  /**
    The random choices of one attempt: an index into `allowedHeadlinePixels`
    (`random(allowedHeadlinePixels)`) and an index into the fonts (`random(fonts)`).
  */
  datatype Draw = Draw(cell: nat, font: nat)

  /**
    What an attempt reads from the sketch: the view, the circle, the
    candidate pool, the line height `textAscent() * 1.2`, and the square
    root used for the distance to the circle centre.
  */
  datatype Context = Context(view: View, circle: Circle, pool: seq<Cell>, lineHeight: real, sqrt: real -> real)

  /** A run of attempts: 200 draws, each a valid index. None exist for an empty pool. */
  predicate ValidDraws(draws: seq<Draw>, poolSize: nat)
  {
    && |draws| == MaxAttempts
    && forall i :: 0 <= i < |draws| ==> draws[i].cell < poolSize && draws[i].font < FontCount
  }

  predicate InPool(draws: seq<Draw>, ctx: Context)
  {
    forall i :: 0 <= i < |draws| ==> draws[i].cell < |ctx.pool|
  }

  /** `sqrt(dx*dx + dy*dy)`: the distance from screen point (sx, sy) to the projected circle centre. */
  function CentreDistance(ctx: Context, sx: real, sy: real): real
  {
    var dx := sx - ScreenX(ctx.view, ctx.circle.cx);
    var dy := sy - ScreenY(ctx.view, ctx.circle.cy);
    ctx.sqrt(dx * dx + dy * dy)
  }

  /**
    The width budget at screen anchor (sx, sy): distance to the projected
    circle centre, minus the scaled radius, minus 2; at least 50; at most
    the room left before the right canvas edge less 10.
  */
  function WidthBudget(ctx: Context, sx: real, sy: real): (w: real)
    ensures w <= ctx.view.width as real - sx - EdgeMargin
    ensures w >= MinWidth || w == ctx.view.width as real - sx - EdgeMargin
  {
    var distanceToCenter := CentreDistance(ctx, sx, sy);
    var maxWidth := Max(distanceToCenter - ctx.circle.r * ctx.view.scale - CircleGap, MinWidth);
    Min(maxWidth, ctx.view.width as real - sx - EdgeMargin)
  }

  /** The `temp` headline an attempt builds from draw `d`. */
  function Tentative(ctx: Context, text: string, d: Draw): Headline
    requires d.cell < |ctx.pool|
  {
    var p := ctx.pool[d.cell];
    var sx := ScreenX(ctx.view, p.x as real);
    var sy := ScreenY(ctx.view, p.y as real);
    Headline(text, p.x, p.y, sx, sy, Transparent, WidthBudget(ctx, sx, sy), ctx.lineHeight, d.font)
  }

  /** The in-canvas test: width budget at least 50 and at least 20 pixels of vertical room. */
  predicate Fits(ctx: Context, t: Headline)
  {
    !(t.w < MinWidth || ctx.view.height as real - t.screenY - EdgeMargin < MinHeight)
  }

  predicate ClearOf(t: Headline, shown: seq<Headline>)
  {
    forall i :: 0 <= i < |shown| ==> !HeadlinesOverlap(t, shown[i])
  }

  /** The attempt with draw `d` pushes its headline. */
  predicate Accepts(ctx: Context, shown: seq<Headline>, text: string, d: Draw)
    requires d.cell < |ctx.pool|
  {
    var t := Tentative(ctx, text, d);
    Fits(ctx, t) && ClearOf(t, Reprojected(shown, ctx.view))
  }

  /** The index of the first acceptable draw at or after `from`, if there is one. */
  function FirstAccepted(ctx: Context, shown: seq<Headline>, text: string, draws: seq<Draw>, from: nat): (r: Option<nat>)
    requires InPool(draws, ctx)
    decreases |draws| - from
    ensures r.Some? ==>
      && from <= r.value < |draws|
      && Accepts(ctx, shown, text, draws[r.value])
      && forall j :: from <= j < r.value ==> !Accepts(ctx, shown, text, draws[j])
    ensures r.None? ==> forall j :: from <= j < |draws| ==> !Accepts(ctx, shown, text, draws[j])
  {
    if from >= |draws| then None
    else if Accepts(ctx, shown, text, draws[from]) then Some(from)
    else FirstAccepted(ctx, shown, text, draws, from + 1)
  }

  /** What `addHeadline` appends: the headline of the first acceptable draw, or nothing. */
  function Pushed(ctx: Context, shown: seq<Headline>, text: string, draws: seq<Draw>): (r: seq<Headline>)
    requires InPool(draws, ctx)
    ensures |r| == if FirstAccepted(ctx, shown, text, draws, 0).Some? then 1 else 0
  {
    match FirstAccepted(ctx, shown, text, draws, 0)
    case None => []
    case Some(k) => [Tentative(ctx, text, draws[k])]
  }

  /**
    The effect of `addHeadline` on `shownHeadlines`: it pushes the headline
    of the first acceptable draw, after the screen positions of the shown
    ones were recomputed; with no acceptable draw it pushes nothing (the
    shown positions may or may not have been recomputed).
  */
  ghost predicate PlacementOutcome(ctx: Context, before: seq<Headline>, text: string, draws: seq<Draw>,
                                   placed: bool, after: seq<Headline>)
    requires InPool(draws, ctx)
  {
    var first := FirstAccepted(ctx, before, text, draws, 0);
    && placed == first.Some?
    && (placed ==> after == Reprojected(before, ctx.view) + [Tentative(ctx, text, draws[first.value])])
    && (!placed ==> after == before || after == Reprojected(before, ctx.view))
  }

  /**
    Rejection for lack of width happens only at the right canvas edge: the
    floor makes the budget at least 50 until the edge cap cuts it.
  */
  lemma NarrowOnlyAtRightEdge(ctx: Context, sx: real, sy: real)
    ensures WidthBudget(ctx, sx, sy) < MinWidth ==> ctx.view.width as real - sx - EdgeMargin < MinWidth
    ensures ctx.view.width as real - sx - EdgeMargin >= MinWidth ==> WidthBudget(ctx, sx, sy) >= MinWidth
  {
  }

  /**
    An accepted headline is transparent, carries the text, sits on a pool
    cell, is at least 50 wide, ends 10 pixels before the right edge, has 20
    pixels of vertical room, and overlaps no shown headline at its current
    screen position.
  */
  lemma AcceptedHeadline(ctx: Context, shown: seq<Headline>, text: string, d: Draw)
    requires d.cell < |ctx.pool|
    ensures Accepts(ctx, shown, text, d) ==>
      var t := Tentative(ctx, text, d);
      && t.text == text && t.alpha == Transparent && t.h == ctx.lineHeight
      && Cell(t.x, t.y) == ctx.pool[d.cell]
      && t.screenX == ScreenX(ctx.view, t.x as real) && t.screenY == ScreenY(ctx.view, t.y as real)
      && MinWidth <= t.w <= ctx.view.width as real - t.screenX - EdgeMargin
      && ctx.view.height as real - t.screenY - EdgeMargin >= MinHeight
      && forall i :: 0 <= i < |shown| ==>
           !HeadlinesOverlap(t, Reproject(shown[i], ctx.view)) && !HeadlinesOverlap(Reproject(shown[i], ctx.view), t)
  {
    var t := Tentative(ctx, text, d);
    forall i | 0 <= i < |shown|
      ensures HeadlinesOverlap(Reproject(shown[i], ctx.view), t) == HeadlinesOverlap(t, Reproject(shown[i], ctx.view))
    {
      OverlapSymmetric(t, Reproject(shown[i], ctx.view));
    }
  }

  /**
    What `addHeadline` promises about the shown list: it grows by one
    exactly when a draw was accepted, the older entries keep text, alpha and
    width, and a new entry is an accepted headline clear of all the others.
  */
  lemma OutcomeProperties(ctx: Context, before: seq<Headline>, text: string, draws: seq<Draw>,
                          placed: bool, after: seq<Headline>)
    requires InPool(draws, ctx)
    ensures PlacementOutcome(ctx, before, text, draws, placed, after) ==>
      && |after| == |before| + (if placed then 1 else 0)
      && (forall i :: 0 <= i < |before| ==>
            after[i].text == before[i].text && after[i].alpha == before[i].alpha && after[i].w == before[i].w)
    ensures PlacementOutcome(ctx, before, text, draws, placed, after) && placed ==>
      && after[|before|].text == text && after[|before|].alpha == Transparent
      && MinWidth <= after[|before|].w <= ctx.view.width as real - after[|before|].screenX - EdgeMargin
      && ctx.view.height as real - after[|before|].screenY - EdgeMargin >= MinHeight
      && forall i :: 0 <= i < |before| ==> !HeadlinesOverlap(after[|before|], after[i])
  {
    if PlacementOutcome(ctx, before, text, draws, placed, after) && placed {
      var k := FirstAccepted(ctx, before, text, draws, 0).value;
      AcceptedHeadline(ctx, before, text, draws[k]);
    }
  }

  /**
    Once the next frame has re-rendered the list, the outcome of
    `addHeadline` is exactly the old list with `Pushed` appended: whether
    the shown positions were recomputed during the attempts no longer shows.
  */
  lemma RenderedOutcome(ctx: Context, before: seq<Headline>, text: string, draws: seq<Draw>,
                        placed: bool, after: seq<Headline>)
    requires InPool(draws, ctx)
    ensures PlacementOutcome(ctx, before, text, draws, placed, after) ==>
      Advanced(after, ctx.view) == Advanced(before + Pushed(ctx, before, text, draws), ctx.view)
  {
    var pushed := Pushed(ctx, before, text, draws);
    AdvancedAfterReprojected(before, pushed, ctx.view);
    if PlacementOutcome(ctx, before, text, draws, placed, after) {
      assert after == before + pushed || after == Reprojected(before, ctx.view) + pushed;
    }
  }
}
