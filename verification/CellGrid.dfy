/**
 The low-plane and sample cells of the macroblocks of a window: every cell belongs to one block of one
 macroblock.
 */
module CellGrid {
  import opened Overlap
  import opened Regions
  import opened Passes
  import opened Window
  import opened Kernels
  import ExactTiling

  /** `outer * width + inner` names its two parts. */
  lemma SamePair(width: nat, outer: nat, inner: nat, outer2: nat, inner2: nat)
    requires inner < width && inner2 < width
    ensures outer * width + inner == outer2 * width + inner2 <==> outer == outer2 && inner == inner2
  {
    SameCell(width, inner, outer, inner2, outer2);
  }

  lemma PairBelow(width: nat, outer: nat, inner: nat, extent: nat)
    requires inner < width && outer < extent
    ensures outer * width + inner < extent * width
  {
    assert (outer + 1) * width <= extent * width;
  }

  lemma ProductOrder(a: nat, b: nat, width: nat)
    requires a >= b
    ensures a * width >= b * width
  {}

  lemma SplitPair(width: nat, extent: nat, value: nat) returns (outer: nat, inner: nat)
    requires width > 0 && value < extent * width
    ensures outer < extent && inner < width && value == outer * width + inner
  {
    outer, inner := value / width, value % width;
    assert value == width * outer + inner;
    if outer >= extent {
      ProductOrder(outer, extent, width);
    }
  }

  /** Cells of blocks in a grid of macroblocks: equal numbers mean equal macroblocks and equal blocks. */
  lemma GridUnique(at: Layout, c: nat, r: nat, width: nat, mx: nat, my: nat, jx: nat, jy: nat,
                   nx: nat, ny: nat, kx: nat, ky: nat)
    requires at.stride == width * c && mx < width && nx < width && jx < c && kx < c && jy < r && ky < r
    requires Index(at, mx * c + jx, my * r + jy) == Index(at, nx * c + kx, ny * r + ky)
    ensures mx == nx && my == ny && jx == kx && jy == ky
  {
    PairBelow(c, mx, jx, width);
    PairBelow(c, nx, kx, width);
    SameCell(at.stride, mx * c + jx, my * r + jy, nx * c + kx, ny * r + ky);
    SamePair(c, mx, jx, nx, kx);
    SamePair(r, my, jy, ny, ky);
  }

  /** The block number is its row and column. */
  lemma BlockParts(p: Plane, k: nat)
    requires ValidPlane(p) && k < BlockCount(p)
    ensures k / p.blockColumns < p.blockRows && k % p.blockColumns < p.blockColumns
    ensures k == k / p.blockColumns * p.blockColumns + k % p.blockColumns
  {}

  // ---- Low plane ----

  lemma LowCellInside(p: Plane, m: Macroblock, k: nat)
    requires ValidPlane(p) && InWindow(m, p) && k < BlockCount(p)
    ensures p.lowOffset <= LowCell(p, m, k) < LowEnd(p)
  {
    BlockParts(p, k);
    var x, y := (m.codedX - p.originX) * p.blockColumns + k % p.blockColumns, (m.codedY - p.originY) * p.blockRows + k / p.blockColumns;
    PairBelow(p.blockColumns, m.codedX - p.originX, k % p.blockColumns, p.macroblocksX);
    PairBelow(p.blockRows, m.codedY - p.originY, k / p.blockColumns, p.macroblocksY);
    LowSize(p);
    hide LowEnd;
    ExactTiling.IndexInPlane(LowLayout(p), x, y, p.macroblocksY * p.blockRows);
  }

  lemma LowCellUnique(p: Plane, m: Macroblock, n: Macroblock, j: nat, k: nat)
    requires ValidPlane(p) && InWindow(m, p) && InWindow(n, p) && j < BlockCount(p) && k < BlockCount(p)
    requires LowCell(p, m, j) == LowCell(p, n, k)
    ensures m.codedX == n.codedX && m.codedY == n.codedY && j == k
  {
    BlockParts(p, j);
    BlockParts(p, k);
    var c := p.blockColumns;
    hide Index;
    GridUnique(LowLayout(p), c, p.blockRows, p.macroblocksX, m.codedX - p.originX, m.codedY - p.originY, j % c, j / c,
               n.codedX - p.originX, n.codedY - p.originY, k % c, k / c);
  }

  /** Every low-plane cell belongs to a block of some window cell. */
  lemma LowCellReached(p: Plane, i: nat) returns (x: nat, y: nat, k: nat)
    requires ValidPlane(p) && p.lowOffset <= i < LowEnd(p)
    ensures x < p.macroblocksX && y < p.macroblocksY && k < BlockCount(p)
    ensures forall m: Macroblock :: m.codedX == p.originX + x && m.codedY == p.originY + y ==> LowCell(p, m, k) == i
  {
    LowSize(p);
    hide LowEnd;
    var at := LowLayout(p);
    var cx, cy := CellOf(at, i);
    ExactTiling.IndexInPlane(at, cx, cy, p.macroblocksY * p.blockRows);
    var column, row;
    x, column := SplitPair(p.blockColumns, p.macroblocksX, cx);
    y, row := SplitPair(p.blockRows, p.macroblocksY, cy);
    k := row * p.blockColumns + column;
    BlockInGrid(p, row, column);
  }

  // ---- Sample plane ----

  lemma SampleCellInside(p: Plane, m: Macroblock, block: nat, k: nat)
    requires ValidPlane(p) && InWindow(m, p) && block < BlockCount(p) && k < 16
    ensures p.sampleOffset <= SampleCell(p, m, block, k) < SampleEnd(p)
  {
    BlockParts(p, block);
    var c, r := p.blockColumns, p.blockRows;
    var lx, ly := (m.codedX - p.originX) * c + block % c, (m.codedY - p.originY) * r + block / c;
    PairBelow(c, m.codedX - p.originX, block % c, p.macroblocksX);
    PairBelow(r, m.codedY - p.originY, block / c, p.macroblocksY);
    PairBelow(4, lx, k % 4, p.macroblocksX * c);
    PairBelow(4, ly, k / 4, p.macroblocksY * r);
    SampleSides(p);
    hide Index;
    ExactTiling.IndexInPlane(SampleLayout(p), lx * 4 + k % 4, ly * 4 + k / 4, p.sampleHeight);
  }

  lemma SampleSides(p: Plane)
    requires ValidPlane(p)
    ensures p.sampleWidth == p.macroblocksX * p.blockColumns * 4 && p.sampleHeight == p.macroblocksY * p.blockRows * 4
  {}

  lemma SampleCellUnique(p: Plane, m: Macroblock, n: Macroblock, a: nat, b: nat, j: nat, k: nat)
    requires ValidPlane(p) && InWindow(m, p) && InWindow(n, p)
    requires a < BlockCount(p) && b < BlockCount(p) && j < 16 && k < 16
    requires SampleCell(p, m, a, j) == SampleCell(p, n, b, k)
    ensures m.codedX == n.codedX && m.codedY == n.codedY && a == b && j == k
  {
    var jx, jy, px, py := SampleParts(p, m, a, j);
    var kx, ky, qx, qy := SampleParts(p, n, b, k);
    SampleSides(p);
    hide Index, SampleCell, ValidPlane, BlockCount;
    NestedUnique(SampleLayout(p), p.blockColumns, p.blockRows, p.macroblocksX,
                 m.codedX - p.originX, m.codedY - p.originY, jx, jy, px, py,
                 n.codedX - p.originX, n.codedY - p.originY, kx, ky, qx, qy);
  }

  /** The block and position a sample cell comes from, as columns and rows. */
  lemma SampleParts(p: Plane, m: Macroblock, block: nat, k: nat) returns (jx: nat, jy: nat, px: nat, py: nat)
    requires ValidPlane(p) && InWindow(m, p) && block < BlockCount(p) && k < 16
    ensures SampleCell(p, m, block, k) ==
      Index(SampleLayout(p), ((m.codedX - p.originX) * p.blockColumns + jx) * 4 + px,
            ((m.codedY - p.originY) * p.blockRows + jy) * 4 + py)
    ensures jx < p.blockColumns && jy < p.blockRows && block == jy * p.blockColumns + jx
    ensures px < 4 && py < 4 && k == py * 4 + px
  {
    BlockParts(p, block);
    jx, jy, px, py := block % p.blockColumns, block / p.blockColumns, k % 4, k / 4;
  }

  /** Positions in blocks in a grid of macroblocks: equal numbers mean equal blocks and equal positions. */
  lemma NestedBlocks(at: Layout, c: nat, r: nat, width: nat, mx: nat, my: nat, jx: nat, jy: nat, px: nat, py: nat,
                     nx: nat, ny: nat, kx: nat, ky: nat, qx: nat, qy: nat)
    requires at.stride == width * c * 4 && mx < width && nx < width && jx < c && kx < c
    requires px < 4 && py < 4 && qx < 4 && qy < 4
    requires Index(at, (mx * c + jx) * 4 + px, (my * r + jy) * 4 + py) == Index(at, (nx * c + kx) * 4 + qx, (ny * r + ky) * 4 + qy)
    ensures mx * c + jx == nx * c + kx && my * r + jy == ny * r + ky && px == qx && py == qy
  {
    hide Index;
    PairBelow(c, mx, jx, width);
    PairBelow(c, nx, kx, width);
    var w, a, b, d, e := width * c, mx * c + jx, my * r + jy, nx * c + kx, ny * r + ky;
    GridUnique(at, 4, 4, w, a, b, px, py, d, e, qx, qy);
  }

  lemma NestedUnique(at: Layout, c: nat, r: nat, width: nat, mx: nat, my: nat, jx: nat, jy: nat, px: nat, py: nat,
                     nx: nat, ny: nat, kx: nat, ky: nat, qx: nat, qy: nat)
    requires at.stride == width * c * 4 && mx < width && nx < width && jx < c && kx < c && jy < r && ky < r
    requires px < 4 && py < 4 && qx < 4 && qy < 4
    requires Index(at, (mx * c + jx) * 4 + px, (my * r + jy) * 4 + py) == Index(at, (nx * c + kx) * 4 + qx, (ny * r + ky) * 4 + qy)
    ensures mx == nx && my == ny && jx == kx && jy == ky && px == qx && py == qy
  {
    hide Index;
    NestedBlocks(at, c, r, width, mx, my, jx, jy, px, py, nx, ny, kx, ky, qx, qy);
    SamePair(c, mx, jx, nx, kx);
    SamePair(r, my, jy, ny, ky);
  }

  /** Every sample belongs to a position of a block of some window cell. */
  lemma SampleCellReached(p: Plane, i: nat) returns (x: nat, y: nat, block: nat, k: nat)
    requires ValidPlane(p) && p.sampleOffset <= i < SampleEnd(p)
    ensures x < p.macroblocksX && y < p.macroblocksY && block < BlockCount(p) && k < 16
    ensures forall m: Macroblock :: m.codedX == p.originX + x && m.codedY == p.originY + y ==> SampleCell(p, m, block, k) == i
  {
    SampleSides(p);
    var at := SampleLayout(p);
    var sx, sy := CellOf(at, i);
    ExactTiling.IndexInPlane(at, sx, sy, p.sampleHeight);
    var lx, kx := SplitPair(4, p.macroblocksX * p.blockColumns, sx);
    var ly, ky := SplitPair(4, p.macroblocksY * p.blockRows, sy);
    var column, row;
    x, column := SplitPair(p.blockColumns, p.macroblocksX, lx);
    y, row := SplitPair(p.blockRows, p.macroblocksY, ly);
    block, k := row * p.blockColumns + column, ky * 4 + kx;
    BlockInGrid(p, row, column);
  }
}
