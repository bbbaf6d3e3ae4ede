/**
 What the records of a schedule stand for: which cells each loads, in which order, which filter it runs on them, and
 where in its region every tile lies.
 */
module TileMeaning {
  import opened Arithmetic
  import opened Wrappers
  import opened Memory
  import opened Operators
  import opened Blocks
  import opened Overlap
  import opened Tiling
  import opened Passes

  datatype Cell = Cell(x: nat, y: nat)

  /** The cells of a tile; a corner record takes the corner and its neighbour. */
  function TileCells(t: Tile): seq<Cell> {
    match t
    case Block(x, y) => Rectangle(x, y, 4, 4)
    case Column(x, y) => Rectangle(x, y, 1, 4)
    case Row(x, y) => Rectangle(x, y, 4, 1)
    case Corner(x, y) => Rectangle(x, y, 2, 2)
    case Square(x, y) => Rectangle(x, y, 2, 2)
    case Upright(x, y) => Rectangle(x, y, 1, 2)
    case Level(x, y) => Rectangle(x, y, 2, 1)
    case Residual(x, y, source) => [Cell(x, y), Cell(source, y)]
    case Restore(x, y, source) => [Cell(x, y), Cell(source, y)]
  }

  /** The cells of a rectangle, row by row and each row from left to right. */
  function Rectangle(x: nat, y: nat, width: nat, height: nat): (cells: seq<Cell>)
    requires width > 0
    ensures |cells| == width * height
    ensures forall j :: 0 <= j < |cells| ==> cells[j] == Cell(x + j % width, y + j / width)
  {
    seq(width * height, j requires 0 <= j < width * height => Cell(x + j % width, y + j / width))
  }

  /** Cells read row by row, each row from left to right. */
  ghost predicate Reading(cells: seq<Cell>) {
    forall i, j :: 0 <= i < j < |cells| ==> cells[i].y < cells[j].y || (cells[i].y == cells[j].y && cells[i].x < cells[j].x)
  }

  lemma RectangleMembers(x: nat, y: nat, width: nat, height: nat, cell: Cell)
    requires 0 < width <= 4
    ensures cell in Rectangle(x, y, width, height) <==> x <= cell.x < x + width && y <= cell.y < y + height
  {
    if x <= cell.x < x + width && y <= cell.y < y + height {
      var row, column := cell.y - y, cell.x - x;
      var j := row * width + column;
      assert (row + 1) * width <= height * width;
      DivisionUnique(j, width, row, column);
      assert Rectangle(x, y, width, height)[j] == cell;
    }
    if cell in Rectangle(x, y, width, height) {
      var j :| 0 <= j < width * height && Rectangle(x, y, width, height)[j] == cell;
      assert j / width < height;
    }
  }

  lemma LaterReads(i: nat, j: nat, width: nat)
    requires 0 < width && i < j
    ensures i / width < j / width || (i / width == j / width && i % width < j % width)
  {
    var a, b := i / width, j / width;
    assert i == width * a + i % width && j == width * b + j % width;
    assert b < a ==> width * (b + 1) <= width * a;
  }

  lemma RectangleReads(x: nat, y: nat, width: nat, height: nat)
    requires 0 < width
    ensures Reading(Rectangle(x, y, width, height))
  {
    var cells := Rectangle(x, y, width, height);
    forall i, j | 0 <= i < j < |cells|
      ensures cells[i].y < cells[j].y || (cells[i].y == cells[j].y && cells[i].x < cells[j].x)
    {
      LaterReads(i, j, width);
    }
  }

  /** They are exactly the cells a tile covers, and those of a filter come in reading order. */
  lemma CellsCovered(t: Tile, x: nat, y: nat)
    ensures Cell(x, y) in TileCells(t) <==> Covers(t, x, y)
    ensures !t.Residual? && !t.Restore? ==> Reading(TileCells(t))
  {
    hide Rectangle, Reading;
    if !t.Residual? && !t.Restore? {
      var width := if t.Block? || t.Row? then 4 else if t.Column? || t.Upright? then 1 else 2;
      var height := if t.Block? || t.Column? then 4 else if t.Row? || t.Level? then 1 else 2;
      RectangleMembers(t.x, t.y, width, height, Cell(x, y));
      RectangleReads(t.x, t.y, width, height);
    }
  }

  lemma BlockInOrder(at: Layout, x: nat, y: nat, j: nat)
    requires j < 16
    ensures Addresses(Work(Index(at, x, y), at.stride, 0))[j] == Index(at, x + j % 4, y + j / 4)
  {
    BlockAddress(Index(at, x, y), at.stride, j);
    hide Addresses;
    assert (y + j / 4) * at.stride == y * at.stride + at.stride * (j / 4);
  }

  lemma ColumnInOrder(at: Layout, x: nat, y: nat, j: nat)
    requires j < 4
    ensures Addresses(Work(Index(at, x, y), at.stride, 1))[j] == Index(at, x, y + j)
  {
    assert (y + j) * at.stride == y * at.stride + at.stride * j;
  }

  lemma SquareInOrder(at: Layout, x: nat, y: nat, kind: nat, j: nat)
    requires j < 4 && 2 <= kind <= 3
    ensures Addresses(Work(Index(at, x, y), at.stride, kind))[j] == Index(at, x + j % 2, y + j / 2)
  {
    assert (y + 1) * at.stride == y * at.stride + at.stride;
  }

  /** Address for address, the record of a tile loads the tile's cells, in their order. */
  lemma AddressesInOrder(at: Layout, t: Tile, w: Work, j: nat)
    requires Encode(at, t) == Some(w)
    ensures |Addresses(w)| == |TileCells(t)|
    ensures j < |TileCells(t)| ==> Addresses(w)[j] == at.offset + TileCells(t)[j].y * at.stride + TileCells(t)[j].x
  {
    assert j < |TileCells(t)| ==> Addresses(w)[j] == Index(at, TileCells(t)[j].x, TileCells(t)[j].y) by {
      if j < |TileCells(t)| {
        CellAddressed(at, t, w, j);
      }
    }
  }

  lemma RowInOrder(at: Layout, x: nat, y: nat, j: nat)
    requires j < 4
    ensures Addresses(Work(Index(at, x, y), 1, 1))[j] == Index(at, x + j, y)
  {}

  lemma PairInOrder(w: Work)
    requires 4 <= w.kind <= 6
    ensures Addresses(w) == [w.first, w.second]
  {}

  ghost predicate Addressed(at: Layout, t: Tile, w: Work, j: nat) {
    j < |TileCells(t)| && |Addresses(w)| == |TileCells(t)| &&
    Addresses(w)[j] == Index(at, TileCells(t)[j].x, TileCells(t)[j].y)
  }

  lemma SquareAddressed(at: Layout, t: Tile, w: Work, j: nat)
    requires t.Corner? || t.Square?
    requires Encode(at, t) == Some(w) && j < 4
    ensures Addressed(at, t, w, j)
  {
    hide Index;
    SquareInOrder(at, t.x, t.y, w.kind, j);
  }

  lemma LineAddressed(at: Layout, t: Tile, w: Work, j: nat)
    requires t.Block? || t.Column? || t.Row?
    requires Encode(at, t) == Some(w) && j < |TileCells(t)|
    ensures Addressed(at, t, w, j)
  {
    hide Index;
    if t.Block? {
      BlockInOrder(at, t.x, t.y, j);
    } else if t.Column? {
      ColumnInOrder(at, t.x, t.y, j);
    } else {
      RowInOrder(at, t.x, t.y, j);
    }
  }

  lemma PairAddressed(at: Layout, t: Tile, w: Work, j: nat)
    requires t.Upright? || t.Level? || t.Residual? || t.Restore?
    requires Encode(at, t) == Some(w) && j < 2
    ensures Addressed(at, t, w, j)
  {
    hide Index;
    PairInOrder(w);
  }

  lemma CellAddressed(at: Layout, t: Tile, w: Work, j: nat)
    requires Encode(at, t) == Some(w) && j < |TileCells(t)|
    ensures Addressed(at, t, w, j)
  {
    hide Addressed, Encode, Index, Rectangle;
    if t.Block? || t.Column? || t.Row? {
      LineAddressed(at, t, w, j);
    } else if t.Corner? || t.Square? {
      SquareAddressed(at, t, w, j);
    } else {
      PairAddressed(at, t, w, j);
    }
  }

  lemma RecordShape(at: Layout, t: Tile, w: Work)
    requires Encode(at, t) == Some(w)
    ensures |Addresses(w)| == |Addresses(Work(0, 0, w.kind))| == |TileCells(t)| > 0
    ensures Destinations(w) == if t.Residual? || t.Restore? then [Addresses(w)[0]] else Addresses(w)
  {}

  /** A tile has a record exactly when its first cell, and for a pair both cells, have 32-bit indices. */
  lemma EncodedExactly(at: Layout, t: Tile)
    ensures Encode(at, t).Some? <==> (
      && at.offset + TileCells(t)[0].y * at.stride + TileCells(t)[0].x <= 0xFFFF_FFFF
      && (|TileCells(t)| == 2 ==> at.offset + TileCells(t)[1].y * at.stride + TileCells(t)[1].x <= 0xFFFF_FFFF))
  {}

  /** And a list of tiles is encoded exactly when all of them have records. */
  lemma AllEncodedExactly(at: Layout, tiles: seq<Tile>)
    ensures EncodeAll(at, tiles).Some? <==> forall t :: t in tiles ==> Encode(at, t).Some?
    ensures EncodeAll(at, tiles).Some? ==>
      forall k :: 0 <= k < |tiles| ==> Encode(at, tiles[k]) == Some(EncodeAll(at, tiles).value[k])
  {
    hide Encode;
    if forall t :: t in tiles ==> Encode(at, t).Some? {
      forall k | 0 <= k < |tiles|
        ensures Encode(at, tiles[k]).Some?
      {
        assert tiles[k] in tiles;
      }
    }
  }

  /** What a tile's filter makes of the samples of its cells. */
  ghost function TileFilter(t: Tile, v: seq<int>): (r: seq<int>)
    requires |v| == |TileCells(t)|
    ensures |r| == if t.Residual? || t.Restore? then 1 else |v|
  {
    match t
    case Block(_, _) => Overlap4x4(v)
    case Column(_, _) => InverseOverlap4(v)
    case Row(_, _) => InverseOverlap4(v)
    case Corner(_, _) => InverseOverlap4(v)
    case Square(_, _) => InverseOverlap2x2(v)
    case Upright(_, _) => InverseOverlap2(v)
    case Level(_, _) => InverseOverlap2(v)
    case Residual(_, _, _) => [v[0] - v[1]]
    case Restore(_, _, _) => [v[0] + v[1]]
  }

  /** The addresses of a tile's cells. */
  function CellIndices(at: Layout, t: Tile): (indices: seq<nat>)
    ensures |indices| == |TileCells(t)|
    ensures forall j :: 0 <= j < |indices| ==> indices[j] == Index(at, TileCells(t)[j].x, TileCells(t)[j].y)
  {
    seq(|TileCells(t)|, j requires 0 <= j < |TileCells(t)| => Index(at, TileCells(t)[j].x, TileCells(t)[j].y))
  }

  lemma KindFilters(at: Layout, t: Tile, w: Work, v: seq<int>)
    requires Encode(at, t) == Some(w) && |v| == |TileCells(t)|
    ensures |Addresses(Work(0, 0, w.kind))| == |v|
    ensures Filter(w.kind, v) == TileFilter(t, v)
  {
    hide Overlap4x4, InverseOverlap4, InverseOverlap2x2, InverseOverlap2;
  }

  /**
   Running the record of a tile replaces the samples of the tile's cells, in reading order, by what the tile's filter
   makes of them, and touches nothing else; a corner record changes the corner alone.
   */
  lemma TileFiltered(at: Layout, t: Tile, w: Work, memory: seq<int>)
    requires Encode(at, t) == Some(w) && ValidWork(w) && Within(Addresses(w), |memory|)
    ensures Within(CellIndices(at, t), |memory|)
    ensures var cells, after := CellIndices(at, t), Filtered(w, memory);
      var made := TileFilter(t, Gather(memory, cells));
      && (forall j :: 0 <= j < |made| ==> after[cells[j]] == made[j])
      && (forall i :: 0 <= i < |memory| && i !in cells[..|made|] ==> after[i] == memory[i])
  {
    hide Addresses, Destinations, Filter, TileFilter, Scatter, Index, Encode;
    var cells := CellIndices(at, t);
    forall j | 0 <= j < |cells|
      ensures |cells| == |Addresses(w)| && Addresses(w)[j] == cells[j]
    {
      CellAddressed(at, t, w, j);
    }
    RecordShape(at, t, w);
    assert Addresses(w) == cells;
    var v := Gather(memory, cells);
    KindFilters(at, t, w, v);
    AddressesDistinct(w);
    var made := TileFilter(t, v);
    assert cells[..|made|] == Destinations(w);
    ScatterStores(memory, Destinations(w), made);
  }

  // ---- Where the tiles of a region lie ----

  /** One of the positions `from`, `from + step`, `from + 2 * step` and so on. */
  predicate Stepped(v: nat, from: nat, step: nat)
    requires step > 0
  {
    from <= v && (v - from) % step == 0
  }

  /** The tiles of a full schedule: blocks inside, four-sample edges along the sides, squares at the corners. */
  predicate FullTile(r: Region, t: Tile)
    requires r.right >= 2 && r.bottom >= 2
  {
    match t
    case Block(x, y) =>
      Stepped(x, r.left + 2, 4) && x + 2 < r.right && Stepped(y, r.top + 2, 4) && y + 2 < r.bottom
    case Column(x, y) =>
      (x == r.left || x == r.left + 1 || x == r.right - 2 || x == r.right - 1) && Stepped(y, r.top + 2, 4) && y + 2 < r.bottom
    case Row(x, y) =>
      Stepped(x, r.left + 2, 4) && x + 2 < r.right && (y == r.top || y == r.top + 1 || y == r.bottom - 2 || y == r.bottom - 1)
    case Corner(x, y) =>
      (x == r.left || x == r.right - 2) && (y == r.top || y == r.bottom - 2)
    case _ => false
  }

  lemma InEither(a: seq<Tile>, b: seq<Tile>, t: Tile)
    ensures t in a + b <==> t in a || t in b
  {}

  lemma InOne(head: Tile, t: Tile)
    ensures t in [head] <==> t == head
  {}

  lemma InFourLists(a: seq<Tile>, b: seq<Tile>, c: seq<Tile>, d: seq<Tile>, t: Tile)
    ensures t in a + b + c + d <==> t in a || t in b || t in c || t in d
  {
    InEither(a + b + c, d, t);
    InEither(a + b, c, t);
    InEither(a, b, t);
  }

  lemma {:induction false} InteriorMembers(r: Region, x: nat, y: nat, t: Tile)
    ensures t in Interior(r, x, y) <==> (
      t.Block? &&
      ((t.y == y && Stepped(t.x, x, 4) && t.x + 2 < r.right && y + 2 < r.bottom)
       || (Stepped(t.x, r.left + 2, 4) && t.x + 2 < r.right && Stepped(t.y, y + 4, 4) && t.y + 2 < r.bottom)))
    decreases r.bottom - y, r.right - x
  {
    if y + 2 < r.bottom {
      if x + 2 < r.right {
        InteriorMembers(r, x + 4, y, t);
        InEither([Block(x, y)], Interior(r, x + 4, y), t);
        InOne(Block(x, y), t);
      } else {
        InteriorMembers(r, r.left + 2, y + 4, t);
      }
    }
  }

  lemma {:induction false} SideColumnsMembers(r: Region, y: nat, t: Tile)
    requires r.right >= 2
    ensures t in SideColumns(r, y) <==> (
      t.Column? && Stepped(t.y, y, 4) && t.y + 2 < r.bottom
      && (t.x == r.left || t.x == r.left + 1 || t.x == r.right - 2 || t.x == r.right - 1))
    decreases r.bottom - y
  {
    if y + 2 < r.bottom {
      SideColumnsMembers(r, y + 4, t);
    }
  }

  lemma {:induction false} SideRowsMembers(r: Region, x: nat, t: Tile)
    requires r.bottom >= 2
    ensures t in SideRows(r, x) <==> (
      t.Row? && Stepped(t.x, x, 4) && t.x + 2 < r.right
      && (t.y == r.top || t.y == r.top + 1 || t.y == r.bottom - 2 || t.y == r.bottom - 1))
    decreases r.right - x
  {
    if x + 2 < r.right {
      SideRowsMembers(r, x + 4, t);
    }
  }

  lemma CornersMembers(r: Region, t: Tile)
    requires r.right >= 2 && r.bottom >= 2
    ensures t in Corners(r) <==>
      t.Corner? && (t.x == r.left || t.x == r.right - 2) && (t.y == r.top || t.y == r.bottom - 2)
  {
    var corners := Corners(r);
    assert t in corners <==> t == corners[0] || t == corners[1] || t == corners[2] || t == corners[3];
  }

  lemma FullTilesListed(r: Region, t: Tile)
    requires r.right >= 2 && r.bottom >= 2
    ensures t in FullTiles(r) <==> (
      t in Interior(r, r.left + 2, r.top + 2) || t in SideColumns(r, r.top + 2) || t in SideRows(r, r.left + 2) || t in Corners(r))
  {
    hide Interior, SideColumns, SideRows, Corners;
    InFourLists(Interior(r, r.left + 2, r.top + 2), SideColumns(r, r.top + 2), SideRows(r, r.left + 2), Corners(r), t);
  }

  /** One step further is a step. */
  lemma StepOn(v: nat, from: nat, step: nat)
    requires step == 2 || step == 4
    ensures Stepped(v, from, step) <==> v == from || Stepped(v, from + step, step)
  {
    if step == 2 {
      assert Stepped(v, from, 2) <==> v == from || Stepped(v, from + 2, 2);
    } else {
      assert Stepped(v, from, 4) <==> v == from || Stepped(v, from + 4, 4);
    }
  }

  lemma BlocksListed(r: Region, t: Tile)
    ensures t in Interior(r, r.left + 2, r.top + 2) <==> (
      t.Block? && Stepped(t.x, r.left + 2, 4) && t.x + 2 < r.right && Stepped(t.y, r.top + 2, 4) && t.y + 2 < r.bottom)
  {
    InteriorMembers(r, r.left + 2, r.top + 2, t);
    StepOn(t.y, r.top + 2, 4);
    hide Interior, Stepped;
  }

  lemma SquaresListed(r: Region, t: Tile)
    ensures t in Squares(r, r.left + 2, r.top + 2) <==> (
      t.Square? && Stepped(t.x, r.left + 1, 2) && t.x + 1 < r.right && Stepped(t.y, r.top + 1, 2) && t.y + 1 < r.bottom)
  {
    SquaresMembers(r, r.left + 2, r.top + 2, t);
    StepOn(t.y, r.top + 1, 2);
    hide Squares, Stepped;
  }

  lemma FullTilesAre(r: Region, t: Tile)
    requires r.right >= 2 && r.bottom >= 2
    ensures t in FullTiles(r) <==> FullTile(r, t)
  {
    FullTilesListed(r, t);
    BlocksListed(r, t);
    SideColumnsMembers(r, r.top + 2, t);
    SideRowsMembers(r, r.left + 2, t);
    CornersMembers(r, t);
    hide FullTiles, Interior, SideColumns, SideRows, Corners, Stepped;
  }

  /** The tiles of a subsampled schedule: 2-by-2 squares over inner corners, pairs across the edges between them. */
  predicate SubsampledTile(r: Region, t: Tile)
    requires r.right >= 1 && r.bottom >= 1
  {
    match t
    case Square(x, y) =>
      Stepped(x, r.left + 1, 2) && x + 1 < r.right && Stepped(y, r.top + 1, 2) && y + 1 < r.bottom
    case Upright(x, y) =>
      (x == r.left || x == r.right - 1) && Stepped(y, r.top + 1, 2) && y + 1 < r.bottom
    case Level(x, y) =>
      Stepped(x, r.left + 1, 2) && x + 1 < r.right && (y == r.top || y == r.bottom - 1)
    case _ => false
  }

  lemma {:induction false} SquaresMembers(r: Region, x: nat, y: nat, t: Tile)
    requires x >= 1 && y >= 1
    ensures t in Squares(r, x, y) <==> (
      t.Square? &&
      ((t.y == y - 1 && Stepped(t.x, x - 1, 2) && t.x + 1 < r.right && y < r.bottom)
       || (Stepped(t.x, r.left + 1, 2) && t.x + 1 < r.right && Stepped(t.y, y + 1, 2) && t.y + 1 < r.bottom)))
    decreases r.bottom - y, r.right - x
  {
    if y < r.bottom {
      if x < r.right {
        SquaresMembers(r, x + 2, y, t);
        InEither([Square(x - 1, y - 1)], Squares(r, x + 2, y), t);
        InOne(Square(x - 1, y - 1), t);
      } else {
        SquaresMembers(r, r.left + 2, y + 2, t);
      }
    }
  }

  lemma {:induction false} UprightsMembers(r: Region, y: nat, t: Tile)
    requires y >= 1 && r.right >= 1
    ensures t in Uprights(r, y) <==>
      t.Upright? && Stepped(t.y, y - 1, 2) && t.y + 1 < r.bottom && (t.x == r.left || t.x == r.right - 1)
    decreases r.bottom - y
  {
    if y < r.bottom {
      UprightsMembers(r, y + 2, t);
    }
  }

  lemma {:induction false} LevelsMembers(r: Region, x: nat, t: Tile)
    requires x >= 1 && r.bottom >= 1
    ensures t in Levels(r, x) <==>
      t.Level? && Stepped(t.x, x - 1, 2) && t.x + 1 < r.right && (t.y == r.top || t.y == r.bottom - 1)
    decreases r.right - x
  {
    if x < r.right {
      LevelsMembers(r, x + 2, t);
    }
  }

  lemma SubsampledTilesListed(r: Region, t: Tile)
    requires r.right >= 1 && r.bottom >= 1
    ensures t in SubsampledTiles(r) <==> (
      t in Squares(r, r.left + 2, r.top + 2) || t in Uprights(r, r.top + 2) || t in Levels(r, r.left + 2))
  {
    hide Squares, Uprights, Levels;
    var squares, uprights, levels := Squares(r, r.left + 2, r.top + 2), Uprights(r, r.top + 2), Levels(r, r.left + 2);
    InEither(squares + uprights, levels, t);
    InEither(squares, uprights, t);
  }

  lemma SubsampledTilesAre(r: Region, t: Tile)
    requires r.right >= 1 && r.bottom >= 1
    ensures t in SubsampledTiles(r) <==> SubsampledTile(r, t)
  {
    SubsampledTilesListed(r, t);
    SquaresListed(r, t);
    UprightsMembers(r, r.top + 2, t);
    LevelsMembers(r, r.left + 2, t);
    hide SubsampledTiles, Squares, Uprights, Levels, Stepped;
  }

  /** The corner records: each corner sample beside its neighbour in the same row. */
  lemma CornerTilesAre(r: Region, x: nat, y: nat, source: nat)
    requires r.right >= 2 && r.bottom >= 1
    ensures Residual(x, y, source) in Residuals(r) <==> (
      ((x == r.left && source == r.left + 1) || (x == r.right - 1 && source == r.right - 2)) && (y == r.top || y == r.bottom - 1))
    ensures Restore(x, y, source) in Restores(r) <==> (
      ((x == r.left && source == r.left + 1) || (x == r.right - 1 && source == r.right - 2)) && (y == r.top || y == r.bottom - 1))
  {
    var a, b := Residuals(r), Restores(r);
    var t, u := Residual(x, y, source), Restore(x, y, source);
    assert t in a <==> t == a[0] || t == a[1] || t == a[2] || t == a[3];
    assert u in b <==> u == b[0] || u == b[1] || u == b[2] || u == b[3];
  }
}
