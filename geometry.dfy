/**
  Grid cells, the map-to-screen projection and the fit-to-window scale of the
  sketch. Map coordinates are pixel coordinates of the mask image; screen
  coordinates are exact reals (the source computes them in floating point).
*/
module Geometry {

  /** A pixel of the mask image, `{ x, y }` in the source. */
  datatype Cell = Cell(x: int, y: int)

  /** What the projection needs: the canvas size, the map image size and the current scale. */
  datatype View = View(width: int, height: int, mapW: int, mapH: int, scale: real)

  function Min(a: real, b: real): real { if a <= b then a else b }

  function Max(a: real, b: real): real { if a >= b then a else b }

  /**
    One axis of the projection used throughout the sketch:
    `p * scaleFactor + (canvas - map * scaleFactor) / 2`.
  */
  function Project(p: real, scale: real, canvas: int, extent: int): real
  {
    p * scale + (canvas as real - extent as real * scale) / 2.0
  }

  /** The inverse of `Project` for a non-zero scale. */
  function Unproject(q: real, scale: real, canvas: int, extent: int): real
    requires scale != 0.0
  {
    (q - (canvas as real - extent as real * scale) / 2.0) / scale
  }

  function ScreenX(v: View, x: real): real { Project(x, v.scale, v.width, v.mapW) }

  function ScreenY(v: View, y: real): real { Project(y, v.scale, v.height, v.mapH) }

  /**
    `updateScale`: the scale `min(windowWidth / mapW, windowHeight / mapH)`.
    It is the largest scale at which the whole map fits the window.
  */
  function FitScale(windowW: nat, windowH: nat, mapW: int, mapH: int): (s: real)
    requires mapW > 0 && mapH > 0
    ensures s >= 0.0
    ensures s * mapW as real <= windowW as real && s * mapH as real <= windowH as real
    ensures s * mapW as real == windowW as real || s * mapH as real == windowH as real
  {
    var sx := windowW as real / mapW as real;
    var sy := windowH as real / mapH as real;
    assert sx * mapW as real == windowW as real;
    assert sy * mapH as real == windowH as real;
    if sx <= sy then
      assert sx * mapH as real <= sy * mapH as real;
      Min(sx, sy)
    else
      assert sy * mapW as real <= sx * mapW as real;
      Min(sx, sy)
  }

  /** Projecting and then unprojecting gives the stored map coordinate back. */
  lemma ProjectRoundTrip(p: real, scale: real, canvas: int, extent: int)
    requires scale != 0.0
    ensures Unproject(Project(p, scale, canvas, extent), scale, canvas, extent) == p
  {
    var off := (canvas as real - extent as real * scale) / 2.0;
    assert Project(p, scale, canvas, extent) - off == p * scale;
  }

  /** The projection keeps the order of coordinates. */
  lemma ProjectMonotone(p: real, q: real, scale: real, canvas: int, extent: int)
    requires scale >= 0.0 && p <= q
    ensures Project(p, scale, canvas, extent) <= Project(q, scale, canvas, extent)
  {
    assert (q - p) * scale >= 0.0;
    assert q * scale - p * scale == (q - p) * scale;
  }

  /** The map's two edges land symmetrically about the canvas centre. */
  lemma ProjectCentres(scale: real, canvas: int, extent: int)
    ensures Project(0.0, scale, canvas, extent) + Project(extent as real, scale, canvas, extent) == canvas as real
  {
  }

  /** At the fitted scale the whole map lies within the canvas on both axes. */
  lemma MapOnCanvas(windowW: nat, windowH: nat, mapW: int, mapH: int)
    requires mapW > 0 && mapH > 0
    ensures var v := View(windowW, windowH, mapW, mapH, FitScale(windowW, windowH, mapW, mapH));
      && 0.0 <= ScreenX(v, 0.0) && ScreenX(v, mapW as real) <= windowW as real
      && 0.0 <= ScreenY(v, 0.0) && ScreenY(v, mapH as real) <= windowH as real
  {
    var s := FitScale(windowW, windowH, mapW, mapH);
    ProjectCentres(s, windowW, mapW);
    ProjectCentres(s, windowH, mapH);
  }
}
