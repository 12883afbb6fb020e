/**
  A shown headline, the padded rectangle test `headlinesOverlap`, the
  per-frame recomputation of screen positions and the fade-in of the alpha.
*/
module Headlines {
  import opened Geometry

  /** Padding in pixels of the overlap test. */
  const Pad: real := 6.0
  /** Alpha a headline starts at, gains per frame, and stops at. */
  const Transparent: int := 0
  const FadeRate: int := 2
  const Opaque: int := 255

  /**
    The object pushed into `shownHeadlines`: its text, its map cell, its
    screen position (rewritten every frame), alpha, width budget, line
    height and the index of its font.
  */
  datatype Headline = Headline(
    text: string,
    x: int, y: int,
    screenX: real, screenY: real,
    alpha: int,
    w: real, h: real,
    font: nat)

  /**
    `headlinesOverlap`: false only when the two rectangles are more than
    `Pad` apart on some axis.
  */
  predicate HeadlinesOverlap(h1: Headline, h2: Headline)
  {
    var x1 := h1.screenX;
    var y1 := h1.screenY;
    var x2 := x1 + h1.w;
    var y2 := y1 + h1.h;
    var x3 := h2.screenX;
    var y3 := h2.screenY;
    var x4 := x3 + h2.w;
    var y4 := y3 + h2.h;
    !(x2 + Pad < x3 || x1 > x4 + Pad || y2 + Pad < y3 || y1 > y4 + Pad)
  }

  /** A headline's rectangle grown by half the padding on every side contains (px, py). */
  predicate InGrown(h: Headline, px: real, py: real)
  {
    && h.screenX - Pad / 2.0 <= px <= h.screenX + h.w + Pad / 2.0
    && h.screenY - Pad / 2.0 <= py <= h.screenY + h.h + Pad / 2.0
  }

  lemma OverlapSymmetric(h1: Headline, h2: Headline)
    ensures HeadlinesOverlap(h1, h2) == HeadlinesOverlap(h2, h1)
  {
  }

  lemma OverlapReflexive(h: Headline)
    requires h.w >= 0.0 && h.h >= 0.0
    ensures HeadlinesOverlap(h, h)
  {
  }

  /**
    The overlap test is the intersection test of the two rectangles, each
    grown by `Pad / 2` on every side: they overlap exactly when some point
    lies in both grown rectangles.
  */
  lemma OverlapIffGrownRectanglesMeet(h1: Headline, h2: Headline)
    requires h1.w >= 0.0 && h1.h >= 0.0 && h2.w >= 0.0 && h2.h >= 0.0
    ensures HeadlinesOverlap(h1, h2) <==> exists px, py :: InGrown(h1, px, py) && InGrown(h2, px, py)
  {
    if HeadlinesOverlap(h1, h2) {
      var px := Max(h1.screenX, h2.screenX) - Pad / 2.0;
      var py := Max(h1.screenY, h2.screenY) - Pad / 2.0;
      assert InGrown(h1, px, py) && InGrown(h2, px, py);
    }
  }

  /**
    Rectangles that touch count as overlapping: a box starting at x = 300
    against one spanning 200..300 on the same row, while one starting 7
    pixels past the edge is clear.
  */
  lemma TouchingCountsAsOverlap()
    ensures HeadlinesOverlap(Headline("a", 0, 0, 300.0, 0.0, 0, 100.0, 20.0, 0),
                             Headline("b", 0, 0, 200.0, 0.0, 0, 100.0, 20.0, 0))
    ensures HeadlinesOverlap(Headline("a", 0, 0, 50.0, 0.0, 0, 100.0, 20.0, 0),
                             Headline("b", 0, 0, 0.0, 0.0, 0, 100.0, 20.0, 0))
    ensures !HeadlinesOverlap(Headline("a", 0, 0, 307.0, 0.0, 0, 100.0, 20.0, 0),
                              Headline("b", 0, 0, 200.0, 0.0, 0, 100.0, 20.0, 0))
  {
  }

  /** `h.screenX/screenY` recomputed from the stored cell at the current view. */
  function Reproject(h: Headline, v: View): (r: Headline)
    ensures r.(screenX := h.screenX, screenY := h.screenY) == h
  {
    h.(screenX := ScreenX(v, h.x as real), screenY := ScreenY(v, h.y as real))
  }

  /** Every shown headline reprojected, as the loops at the overlap check and in the renderer do. */
  function Reprojected(s: seq<Headline>, v: View): (r: seq<Headline>)
    ensures |r| == |s|
    ensures forall i :: 0 <= i < |s| ==> r[i] == Reproject(s[i], v)
  {
    seq(|s|, i requires 0 <= i < |s| => Reproject(s[i], v))
  }

  /** Reprojecting depends only on the stored cell: doing it twice changes nothing more. */
  lemma ReprojectedIdempotent(s: seq<Headline>, v: View)
    ensures Reprojected(Reprojected(s, v), v) == Reprojected(s, v)
  {
  }

  /** Reprojection keeps everything but the screen position: texts, cells, alphas, sizes. */
  lemma ReprojectedKeepsTexts(s: seq<Headline>, v: View)
    ensures |Reprojected(s, v)| == |s|
    ensures forall i :: 0 <= i < |s| ==>
      && Reprojected(s, v)[i].text == s[i].text
      && Reprojected(s, v)[i].alpha == s[i].alpha
      && Reprojected(s, v)[i].w == s[i].w
  {
  }

  /** The per-frame alpha update `min(alpha + 2, 255)`. */
  function FadeStep(a: int): (r: int)
    ensures Transparent <= a <= Opaque ==> a <= r <= Opaque
    ensures Transparent <= a < Opaque ==> r > a
    ensures a == Opaque ==> r == Opaque
  {
    if a + FadeRate <= Opaque then a + FadeRate else Opaque
  }

  /** The alpha after `n` frames. */
  function FadeAfter(a: int, n: nat): int
  {
    if n == 0 then a else FadeStep(FadeAfter(a, n - 1))
  }

  /** What one frame of the renderer does to a shown headline. */
  function Advance(h: Headline, v: View): Headline
  {
    Reproject(h, v).(alpha := FadeStep(h.alpha))
  }

  /** The renderer's loop over a whole list of shown headlines. */
  function Advanced(s: seq<Headline>, v: View): seq<Headline>
  {
    seq(|s|, i requires 0 <= i < |s| => Advance(s[i], v))
  }

  /**
    A frame's rendering does not depend on whether the overlap check
    already recomputed the screen positions at the same view, whatever was
    appended after them.
  */
  lemma AdvancedAfterReprojected(s: seq<Headline>, t: seq<Headline>, v: View)
    ensures Advanced(Reprojected(s, v) + t, v) == Advanced(s + t, v)
  {
    assert forall i :: 0 <= i < |s| ==> (Reprojected(s, v) + t)[i] == Reproject((s + t)[i], v);
    assert forall i :: |s| <= i < |s| + |t| ==> (Reprojected(s, v) + t)[i] == (s + t)[i];
  }

  /** From a fresh headline the alpha climbs by 2 per frame until it is capped at 255. */
  lemma {:induction false} FadeFromTransparent(n: nat)
    ensures FadeAfter(Transparent, n) == if FadeRate * n <= Opaque then FadeRate * n else Opaque
  {
    if n > 0 {
      FadeFromTransparent(n - 1);
    }
  }

  /** A fresh headline is fully opaque after exactly 128 frames and not before. */
  lemma OpaqueAfter128Frames()
    ensures FadeAfter(Transparent, 128) == Opaque
    ensures forall n: nat :: n < 128 ==> FadeAfter(Transparent, n) < Opaque
  {
    FadeFromTransparent(128);
    forall n: nat | n < 128
      ensures FadeAfter(Transparent, n) < Opaque
    {
      FadeFromTransparent(n);
    }
  }

  /** The alpha stays in [0, 255] and never decreases from frame to frame. */
  lemma {:induction false} FadeMonotone(a: int, m: nat, n: nat)
    requires Transparent <= a <= Opaque && m <= n
    ensures a <= FadeAfter(a, m) <= FadeAfter(a, n) <= Opaque
  {
    if m < n {
      FadeMonotone(a, m, n - 1);
    } else if m > 0 {
      FadeMonotone(a, m - 1, m - 1);
    }
  }
}
