/**
  The pixel classifier of `setup`: it walks the mask image row by row and
  sorts each pixel by its mean RGB into land (dark), water (light) or
  neither (the anti-aliased coast).
*/
module Classifier {
  import opened Geometry

  const LandThreshold: real := 50.0
  const WaterThreshold: real := 200.0

  /** The mask image as p5 exposes it: `pixels` holds R, G, B, A per pixel, row by row. */
  datatype Mask = Mask(width: nat, height: nat, pixels: seq<int>)

  predicate WellFormed(m: Mask)
  {
    |m.pixels| == m.width * m.height * 4
  }

  datatype Kind = Land | Water | Coast

  /** The bucket of one pixel, from its mean channel intensity `(r + g + b) / 3`. */
  function KindOf(r: int, g: int, b: int): (k: Kind)
    ensures k == Land <==> r + g + b < 150
    ensures k == Water <==> r + g + b > 600
    ensures k == Coast <==> 150 <= r + g + b <= 600
  {
    var brightness := (r + g + b) as real / 3.0;
    if brightness < LandThreshold then Land
    else if brightness > WaterThreshold then Water
    else Coast
  }

  lemma PixelStartBound(m: Mask, x: nat, y: nat)
    requires WellFormed(m) && x < m.width && y < m.height
    ensures (y * m.width + x) * 4 + 3 < |m.pixels|
  {
    assert y * m.width + x < (y + 1) * m.width;
    assert (y + 1) * m.width <= m.height * m.width by {
      assert y + 1 <= m.height;
    }
  }

  /** The index of the red channel of pixel (x, y): `(y * width + x) * 4`. */
  function PixelStart(m: Mask, x: nat, y: nat): (i: nat)
    requires WellFormed(m) && x < m.width && y < m.height
    ensures i + 3 < |m.pixels|
  {
    PixelStartBound(m, x, y);
    (y * m.width + x) * 4
  }

  function KindAt(m: Mask, x: nat, y: nat): Kind
    requires WellFormed(m) && x < m.width && y < m.height
  {
    var i := PixelStart(m, x, y);
    KindOf(m.pixels[i], m.pixels[i + 1], m.pixels[i + 2])
  }

  /** The cells of kind `k` among the first `n` pixels of row `y`, left to right. */
  function RowCells(m: Mask, k: Kind, y: nat, n: nat): seq<Cell>
    requires WellFormed(m) && y < m.height && n <= m.width
  {
    if n == 0 then []
    else RowCells(m, k, y, n - 1) + (if KindAt(m, n - 1, y) == k then [Cell(n - 1, y)] else [])
  }

  /** The cells of kind `k` in the first `rows` rows, in row-major order. */
  function CellsUpTo(m: Mask, k: Kind, rows: nat): seq<Cell>
    requires WellFormed(m) && rows <= m.height
  {
    if rows == 0 then []
    else CellsUpTo(m, k, rows - 1) + RowCells(m, k, rows - 1, m.width)
  }

  /** `landPixels` after the classifier. */
  function LandCells(m: Mask): seq<Cell>
    requires WellFormed(m)
  {
    CellsUpTo(m, Land, m.height)
  }

  /** `waterPixels` after the classifier. */
  function WaterCells(m: Mask): seq<Cell>
    requires WellFormed(m)
  {
    CellsUpTo(m, Water, m.height)
  }

  /** Row-major order: by row, then by column. */
  predicate Before(a: Cell, b: Cell)
  {
    a.y < b.y || (a.y == b.y && a.x < b.x)
  }

  predicate RowMajor(s: seq<Cell>)
  {
    forall i, j :: 0 <= i < j < |s| ==> Before(s[i], s[j])
  }

  /** The classifier loops of `setup`; `land` and `water` are the arrays they push into. */
  method ClassifyPixels(m: Mask) returns (land: seq<Cell>, water: seq<Cell>)
    requires WellFormed(m)
    ensures land == LandCells(m) && water == WaterCells(m)
  {
    land, water := [], [];
    var y := 0;
    while y < m.height
      invariant 0 <= y <= m.height
      invariant land == CellsUpTo(m, Land, y) && water == CellsUpTo(m, Water, y)
    {
      var x := 0;
      while x < m.width
        invariant 0 <= x <= m.width
        invariant land == CellsUpTo(m, Land, y) + RowCells(m, Land, y, x)
        invariant water == CellsUpTo(m, Water, y) + RowCells(m, Water, y, x)
      {
        var idx := PixelStart(m, x, y);
        var r := m.pixels[idx];
        var g := m.pixels[idx + 1];
        var b := m.pixels[idx + 2];
        var brightnessValue := (r + g + b) as real / 3.0;
        if brightnessValue < LandThreshold {
          land := land + [Cell(x, y)];
        } else if brightnessValue > WaterThreshold {
          water := water + [Cell(x, y)];
        }
        x := x + 1;
      }
      y := y + 1;
    }
  }

  lemma {:induction false} InRowCells(m: Mask, k: Kind, y: nat, n: nat, c: Cell)
    requires WellFormed(m) && y < m.height && n <= m.width
    ensures c in RowCells(m, k, y, n) <==> c.y == y && 0 <= c.x < n && KindAt(m, c.x, y) == k
  {
    if n > 0 {
      InRowCells(m, k, y, n - 1, c);
    }
  }

  /**
    A cell is in the `k` list exactly when it lies in the image and its
    pixel is of kind `k`.
  */
  lemma {:induction false} InCells(m: Mask, k: Kind, rows: nat, c: Cell)
    requires WellFormed(m) && rows <= m.height
    ensures c in CellsUpTo(m, k, rows) <==>
      0 <= c.y < rows && 0 <= c.x < m.width && KindAt(m, c.x, c.y) == k
  {
    if rows > 0 {
      InCells(m, k, rows - 1, c);
      InRowCells(m, k, rows - 1, m.width, c);
    }
  }

  /**
    The classifier's promise: land is exactly the pixels with mean below 50,
    water exactly those with mean above 200, so no cell is in both and a
    mid-tone pixel is in neither.
  */
  lemma Classification(m: Mask, c: Cell)
    requires WellFormed(m)
    ensures c in LandCells(m) <==>
      0 <= c.x < m.width && 0 <= c.y < m.height && KindAt(m, c.x, c.y) == Land
    ensures c in WaterCells(m) <==>
      0 <= c.x < m.width && 0 <= c.y < m.height && KindAt(m, c.x, c.y) == Water
    ensures !(c in LandCells(m) && c in WaterCells(m))
  {
    InCells(m, Land, m.height, c);
    InCells(m, Water, m.height, c);
  }

  lemma RowMajorConcat(a: seq<Cell>, b: seq<Cell>)
    requires RowMajor(a) && RowMajor(b)
    requires forall i, j :: 0 <= i < |a| && 0 <= j < |b| ==> Before(a[i], b[j])
    ensures RowMajor(a + b)
  {
    forall i, j | 0 <= i < j < |a + b|
      ensures Before((a + b)[i], (a + b)[j])
    {
      if j < |a| {
      } else if i >= |a| {
        assert (a + b)[i] == b[i - |a|] && (a + b)[j] == b[j - |a|];
      } else {
        assert (a + b)[j] == b[j - |a|];
      }
    }
  }

  lemma {:induction false} RowCellsOrdered(m: Mask, k: Kind, y: nat, n: nat)
    requires WellFormed(m) && y < m.height && n <= m.width
    ensures RowMajor(RowCells(m, k, y, n))
    ensures forall i :: 0 <= i < |RowCells(m, k, y, n)| ==>
      RowCells(m, k, y, n)[i].y == y && RowCells(m, k, y, n)[i].x < n
  {
    if n > 0 {
      RowCellsOrdered(m, k, y, n - 1);
      var tail := if KindAt(m, n - 1, y) == k then [Cell(n - 1, y)] else [];
      RowMajorConcat(RowCells(m, k, y, n - 1), tail);
    }
  }

  lemma {:induction false} CellsOrdered(m: Mask, k: Kind, rows: nat)
    requires WellFormed(m) && rows <= m.height
    ensures RowMajor(CellsUpTo(m, k, rows))
    ensures forall i :: 0 <= i < |CellsUpTo(m, k, rows)| ==> CellsUpTo(m, k, rows)[i].y < rows
  {
    if rows > 0 {
      CellsOrdered(m, k, rows - 1);
      RowCellsOrdered(m, k, rows - 1, m.width);
      RowMajorConcat(CellsUpTo(m, k, rows - 1), RowCells(m, k, rows - 1, m.width));
    }
  }

  /** Both lists come out in row-major order, hence without repetitions. */
  lemma ClassifiedInRowMajorOrder(m: Mask)
    requires WellFormed(m)
    ensures RowMajor(LandCells(m)) && RowMajor(WaterCells(m))
  {
    CellsOrdered(m, Land, m.height);
    CellsOrdered(m, Water, m.height);
  }
}
