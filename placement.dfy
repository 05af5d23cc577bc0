/** Serpentine placement of grid positions into the flat raster.

    The raster has `ImgW() == w` columns and `ImgH() == h + shift` rows and is stored
    row-major, so cell (row, col) is element `row * w + col`. The scanner sweeps right
    to left, down the even columns and up the odd ones; the odd columns sit `shift` rows
    lower than the even ones. Where one parity has no partner (the top `shift` rows of an
    even column, the bottom `shift` rows of an odd one) the value is copied into the
    neighbouring flat cell as well. */
module Placement {

  /** The scan grid (`w` by `h` positions) and the row shift between column parities. */
  datatype Geometry = Geometry(w: int, h: int, shift: int)
  {
    predicate Valid()
    {
      w >= 0 && h >= 0 && shift >= 0
    }

    function ImgW(): int
    {
      w
    }

    function ImgH(): int
    {
      h + shift
    }

    function Size(): int
    {
      ImgW() * ImgH()
    }

    predicate InGrid(x: int, y: int)
    {
      0 <= x < w && 0 <= y < h
    }
  }

  /** Image column of scan column `x`: the scan runs right to left, so the mirror maps
      the scan columns onto the image columns and nothing else. */
  function XPos(g: Geometry, x: int): (c: int)
    ensures 0 <= x < g.w <==> 0 <= c < g.ImgW()
  {
    g.ImgW() - x - 1
  }

  /** Image row of position (x, y): even columns run down from row 0 and fill rows
      [0, h); odd columns run up from the last row and fill rows [shift, h + shift). */
  function YPos(g: Geometry, x: int, y: int): (r: int)
    ensures g.Valid() && 0 <= y < g.h && x % 2 == 0 ==> 0 <= r < g.h
    ensures g.Valid() && 0 <= y < g.h && x % 2 == 1 ==> g.shift <= r < g.ImgH()
  {
    if x % 2 == 0 then y else g.ImgH() - y - 1
  }

  /** The flat index of a position's own cell, row-major: it lies inside the raster and
      decodes back to the image row and column it was built from. */
  function Index(g: Geometry, x: int, y: int): (i: int)
    requires g.Valid() && g.InGrid(x, y)
    ensures 0 <= i < g.Size()
    ensures i / g.w == YPos(g, x, y) && i % g.w == XPos(g, x)
  {
    RowMajor(YPos(g, x, y), XPos(g, x), g.ImgH(), g.ImgW());
    YPos(g, x, y) * g.w + XPos(g, x)
  }

  /** Even column in the top band: the cell one to the right is filled too. */
  predicate FillsNext(g: Geometry, x: int, y: int)
  {
    x % 2 == 0 && y < g.shift
  }

  /** Odd column below row h: the cell one to the left is filled too. */
  predicate FillsPrevious(g: Geometry, x: int, y: int)
  {
    x % 2 == 1 && YPos(g, x, y) >= g.h
  }

  /** The flat cells a position writes: its own cell first, then the edge-fill neighbour. */
  function Targets(g: Geometry, x: int, y: int): (t: seq<int>)
    requires g.Valid() && g.InGrid(x, y)
    ensures 1 <= |t| <= 2 && t[0] == Index(g, x, y)
    ensures |t| == 2 <==> y < g.shift
    ensures forall i :: 0 <= i < |t| ==> 0 <= t[i] < g.Size()
    ensures |t| == 2 ==> t[1] == if x % 2 == 0 then t[0] + 1 else t[0] - 1
  {
    OddEdgeIsShiftBand(g, x, y);
    NeighbourInRaster(g, x, y);
    var idx := Index(g, x, y);
    if FillsNext(g, x, y) then [idx, idx + 1]
    else if FillsPrevious(g, x, y) then [idx, idx - 1]
    else [idx]
  }

  /** The edge-fill neighbour stays inside the raster array, border columns included. */
  lemma NeighbourInRaster(g: Geometry, x: int, y: int)
    requires g.Valid() && g.InGrid(x, y)
    ensures FillsNext(g, x, y) ==> Index(g, x, y) + 1 < g.Size()
    ensures FillsPrevious(g, x, y) ==> Index(g, x, y) - 1 >= 0
  {
    var row, col := YPos(g, x, y), XPos(g, x);
    if FillsNext(g, x, y) {
      MulMonotone(row + 1, g.h, g.w);
      MulMonotone(g.h, g.ImgH() - 1, g.w);
      assert (g.ImgH() - 1) * g.w + g.w == g.Size();
    }
    if FillsPrevious(g, x, y) {
      MulMonotone(1, row, g.w);
    }
  }

  /** A copy of `raster` with every cell named in `targets` set to `v`. */
  function Write<T>(raster: seq<T>, targets: seq<int>, v: T): (r: seq<T>)
    requires forall i :: 0 <= i < |targets| ==> 0 <= targets[i] < |raster|
    ensures |r| == |raster|
    ensures forall i :: 0 <= i < |r| ==> r[i] == if i in targets then v else raster[i]
    decreases |targets|
  {
    if targets == [] then raster
    else Write(raster[targets[0] := v], targets[1..], v)
  }

  lemma MulMonotone(a: int, b: int, c: int)
    requires a <= b && c >= 0
    ensures a * c <= b * c
  {
    assert b * c - a * c == (b - a) * c;
  }

  /** Row-major cells: in range, and the flat index gives back its row and column. */
  lemma RowMajor(row: int, col: int, rows: int, cols: int)
    requires 0 <= row < rows && 0 <= col < cols
    ensures 0 <= row * cols + col < rows * cols
    ensures (row * cols + col) / cols == row && (row * cols + col) % cols == col
  {
    MulMonotone(0, row, cols);
    MulMonotone(row + 1, rows, cols);
    var n := row * cols + col;
    var q, m := n / cols, n % cols;
    assert n == q * cols + m;
    assert (q - row) * cols == col - m;
    if q > row {
      MulMonotone(1, q - row, cols);
    } else if q < row {
      MulMonotone(1, row - q, cols);
    }
  }

  /** Two row-major cells with the same flat index have the same row and column. */
  lemma RowMajorUnique(r1: int, c1: int, r2: int, c2: int, cols: int)
    requires 0 <= r1 && 0 <= r2 && 0 <= c1 < cols && 0 <= c2 < cols
    requires r1 * cols + c1 == r2 * cols + c2
    ensures r1 == r2 && c1 == c2
  {
    RowMajor(r1, c1, r1 + 1, cols);
    RowMajor(r2, c2, r2 + 1, cols);
  }

  /** For an odd column the "below row h" edge test is exactly the shift band y < shift. */
  lemma OddEdgeIsShiftBand(g: Geometry, x: int, y: int)
    requires g.Valid() && g.InGrid(x, y)
    ensures x % 2 == 1 ==> (YPos(g, x, y) >= g.h <==> y < g.shift)
  {
  }

  /** Different grid positions never share their own cell. */
  lemma OwnCellsDistinct(g: Geometry, x1: int, y1: int, x2: int, y2: int)
    requires g.Valid() && g.InGrid(x1, y1) && g.InGrid(x2, y2)
    requires Index(g, x1, y1) == Index(g, x2, y2)
    ensures x1 == x2 && y1 == y2
  {
    RowMajorUnique(YPos(g, x1, y1), XPos(g, x1), YPos(g, x2, y2), XPos(g, x2), g.w);
  }

  /** Away from the border columns the edge-fill neighbour is the same row, one image
      column over (the column of scan column x-1 or x+1), in a row that column never
      samples: it fills a gap and overwrites no position's own cell. */
  lemma InteriorNeighbourFillsGap(g: Geometry, x: int, y: int)
    requires g.Valid() && g.InGrid(x, y) && y < g.shift
    requires if x % 2 == 0 then x >= 1 else x + 1 < g.w
    ensures Targets(g, x, y)[1] == YPos(g, x, y) * g.w + XPos(g, if x % 2 == 0 then x - 1 else x + 1)
    ensures forall x2, y2 :: g.InGrid(x2, y2) ==> Targets(g, x, y)[1] != Index(g, x2, y2)
  {
    var x1 := if x % 2 == 0 then x - 1 else x + 1;
    forall x2, y2 | g.InGrid(x2, y2) ensures Targets(g, x, y)[1] != Index(g, x2, y2) {
      if Targets(g, x, y)[1] == Index(g, x2, y2) {
        RowMajorUnique(YPos(g, x, y), XPos(g, x1), YPos(g, x2, y2), XPos(g, x2), g.w);
      }
    }
  }

  /** At the border columns the neighbour leaves the image row and wraps: from scan
      column 0 into the first cell of the next row, from an odd last column into the
      last cell of the previous row. */
  lemma BorderNeighbourWraps(g: Geometry, x: int, y: int)
    requires g.Valid() && g.InGrid(x, y) && y < g.shift
    ensures x == 0 ==> Targets(g, x, y)[1] == (YPos(g, x, y) + 1) * g.w
    ensures x % 2 == 1 && x == g.w - 1 ==>
      Targets(g, x, y)[1] == (YPos(g, x, y) - 1) * g.w + (g.w - 1)
  {
  }

  /** The wrap can land on a real position's own cell: on a 2 x 2 grid with shift 1,
      position (1, 0) fills the own cell of (0, 1), which was written before it. */
  lemma BorderWrapOverwritesOwnCell()
    ensures Targets(Geometry(2, 2, 1), 1, 0) == [4, 3]
    ensures Index(Geometry(2, 2, 1), 0, 1) == 3
  {
  }
}
