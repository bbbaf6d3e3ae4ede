/**
 Tile geometry of a coded image: the completed tile grid, the part of the image each tile shows, and the
 tiles a requested region needs.
 */
module TileGeometry {
  import opened Wrappers
  import opened Words
  import opened Arithmetic
  import opened Packets

  datatype Rect = Rect(x: nat, y: nat, w: nat, h: nat)

  function SaturatingSub(a: nat, b: nat): nat {
    if a >= b then a - b else 0
  }

  function Saturated(value: nat): nat {
    if value <= U32_MAX then value else U32_MAX
  }

  function Min(a: nat, b: nat): nat {
    if a <= b then a else b
  }

  function DivCeil(a: nat, b: nat): nat
    requires b > 0
  {
    (a + (b - 1)) / b
  }

  // ---- Completed tile grids ----

  /** Where tile `k` begins: the sizes of the tiles before it. */
  function Prefix(sizes: seq<nat>, k: nat): nat
    requires k <= |sizes|
  {
    if k == 0 then 0 else Prefix(sizes, k - 1) + sizes[k - 1]
  }

  function Total(sizes: seq<nat>): nat {
    Prefix(sizes, |sizes|)
  }

  lemma {:induction false} PrefixAppend(sizes: seq<nat>, size: nat, k: nat)
    requires k <= |sizes|
    ensures Prefix(sizes + [size], k) == Prefix(sizes, k)
  {
    if k > 0 {
      PrefixAppend(sizes, size, k - 1);
    }
  }

  ghost predicate AllPositive(sizes: seq<nat>) {
    forall k :: 0 <= k < |sizes| ==> sizes[k] > 0
  }

  /** An image side with its margins, which must fill whole macroblocks. */
  function ExtendedDimension(dimension: nat, first: nat, second: nat): Option<nat> {
    var extended := dimension + first + second;
    if extended > U32_MAX || extended % 16 != 0 then None else Some(extended)
  }

  /** The explicit tile sizes followed by what is left; refused when a tile would be empty. */
  ghost function Completed(explicit: seq<nat>, total: nat): Option<seq<nat>> {
    if AllPositive(explicit) && Total(explicit) < total then Some(explicit + [total - Total(explicit)]) else None
  }

  method CompleteTiles(explicit: seq<nat>, total: nat) returns (r: Option<seq<nat>>)
    requires total <= U32_MAX
    ensures r == Completed(explicit, total)
  {
    var result: seq<nat> := [];
    var used := 0;
    for k := 0 to |explicit|
      invariant used == Prefix(explicit, k) <= U32_MAX && result == explicit[..k]
      invariant forall j :: 0 <= j < k ==> explicit[j] > 0
    {
      var size := explicit[k];
      if size == 0 {
        return None;
      }
      used := used + size;
      if used > U32_MAX {
        PrefixMonotone(explicit, k + 1, |explicit|);
        return None;
      }
      result := result + [size];
    }
    assert explicit[..|explicit|] == explicit;
    if total < used {
      return None;
    }
    var last := total - used;
    if last == 0 {
      return None;
    }
    return Some(result + [last]);
  }

  lemma {:induction false} PrefixMonotone(sizes: seq<nat>, j: nat, k: nat)
    requires j <= k <= |sizes|
    ensures Prefix(sizes, j) <= Prefix(sizes, k)
  {
    if j < k {
      PrefixMonotone(sizes, j, k - 1);
    }
  }

  /** The completed tiles are never empty and together fill the extended side. */
  lemma CompletedFills(explicit: seq<nat>, total: nat)
    requires Completed(explicit, total).Some?
    ensures AllPositive(Completed(explicit, total).value) && Total(Completed(explicit, total).value) == total
    ensures |Completed(explicit, total).value| == |explicit| + 1
  {
    PrefixAppend(explicit, total - Total(explicit), |explicit|);
  }

  /** Every macroblock column lies in exactly one tile column. */
  lemma {:induction false} TileOfMacroblock(sizes: seq<nat>, m: nat) returns (k: nat)
    requires m < Total(sizes)
    ensures k < |sizes| && Prefix(sizes, k) <= m < Prefix(sizes, k + 1)
    decreases |sizes|
  {
    var last := |sizes| - 1;
    if m >= Prefix(sizes, last) {
      k := last;
    } else {
      PrefixTake(sizes, last, last);
      k := TileOfMacroblock(sizes[..last], m);
      PrefixTake(sizes, last, k);
      PrefixTake(sizes, last, k + 1);
    }
  }

  lemma {:induction false} PrefixTake(sizes: seq<nat>, n: nat, k: nat)
    requires k <= n <= |sizes|
    ensures Prefix(sizes[..n], k) == Prefix(sizes, k)
  {
    if k > 0 {
      PrefixTake(sizes, n, k - 1);
    }
  }

  lemma OneTile(sizes: seq<nat>, m: nat, j: nat, k: nat)
    requires j < |sizes| && k < |sizes|
    requires Prefix(sizes, j) <= m < Prefix(sizes, j + 1) && Prefix(sizes, k) <= m < Prefix(sizes, k + 1)
    ensures j == k
  {
    if j < k {
      PrefixMonotone(sizes, j + 1, k);
    } else if k < j {
      PrefixMonotone(sizes, k + 1, j);
    }
  }

  // ---- What a tile shows ----

  /** One side of the clipped output region of a tile: position and extent. */
  function ClippedSide(start: nat, size: nat, margin: nat, side: nat): (nat, nat) {
    var left := Saturated(start * 16);
    var right := Saturated(left + Saturated(size * 16));
    var x := Min(SaturatingSub(left, margin), side);
    var end := Min(SaturatingSub(right, margin), side);
    (x, SaturatingSub(end, x))
  }

  datatype Image = Image(width: nat, height: nat, marginLeft: nat, marginTop: nat)

  function TileOutputRegion(image: Image, x: nat, y: nat, width: nat, height: nat): Rect {
    var (left, w) := ClippedSide(x, width, image.marginLeft, image.width);
    var (top, h) := ClippedSide(y, height, image.marginTop, image.height);
    Rect(left, top, w, h)
  }

  /** A tile shows exactly the pixels of its macroblocks, as far as 32 bits reach. */
  lemma SideMeaning(start: nat, size: nat, margin: nat, side: nat, pixel: nat)
    requires pixel < side
    ensures var (x, w) := ClippedSide(start, size, margin, side);
      x <= pixel < x + w <==> start * 16 <= pixel + margin < (start + size) * 16 && pixel + margin < 0xFFFF_FFFF
  {}

  lemma MacroblockOfPixel(start: nat, size: nat, position: nat)
    ensures start * 16 <= position < (start + size) * 16 <==> start <= position / 16 < start + size
  {}

  predicate InRect(r: Rect, x: nat, y: nat) {
    r.x <= x < r.x + r.w && r.y <= y < r.y + r.h
  }

  /** A grid whose tiles fill an extended image of at most 32-bit sides. */
  ghost predicate GridOf(image: Image, columns: seq<nat>, rows: seq<nat>) {
    && image.width + image.marginLeft <= Total(columns) * 16 <= U32_MAX
    && image.height + image.marginTop <= Total(rows) * 16 <= U32_MAX
  }

  /** The tile grid of an image with its margins, from the explicit tile sizes of its header. */
  ghost function GridFor(image: Image, marginRight: nat, marginBottom: nat, explicitColumns: seq<nat>, explicitRows: seq<nat>):
      Option<(seq<nat>, seq<nat>)> {
    var width :- ExtendedDimension(image.width, image.marginLeft, marginRight);
    var height :- ExtendedDimension(image.height, image.marginTop, marginBottom);
    var columns :- Completed(explicitColumns, width / 16);
    var rows :- Completed(explicitRows, height / 16);
    Some((columns, rows))
  }

  /** The completed tiles fill the extended image: macroblock for macroblock, no tile empty. */
  lemma GridFills(image: Image, marginRight: nat, marginBottom: nat, explicitColumns: seq<nat>, explicitRows: seq<nat>)
    requires GridFor(image, marginRight, marginBottom, explicitColumns, explicitRows).Some?
    ensures var (columns, rows) := GridFor(image, marginRight, marginBottom, explicitColumns, explicitRows).value;
      && GridOf(image, columns, rows) && AllPositive(columns) && AllPositive(rows)
      && Total(columns) * 16 == image.width + image.marginLeft + marginRight
      && Total(rows) * 16 == image.height + image.marginTop + marginBottom
  {
    CompletedFills(explicitColumns, ExtendedDimension(image.width, image.marginLeft, marginRight).value / 16);
    CompletedFills(explicitRows, ExtendedDimension(image.height, image.marginTop, marginBottom).value / 16);
    hide Completed, AllPositive, Total;
  }

  /** The tiles of one side: those of the header and one more, none empty, together as long as the extended side. */
  ghost predicate Extends(explicit: seq<nat>, sizes: seq<nat>, pixels: nat) {
    && |sizes| == |explicit| + 1 && sizes[..|explicit|] == explicit && AllPositive(sizes)
    && Total(sizes) * 16 == pixels <= 0xFFFF_FFFF
  }

  lemma SideExactly(explicit: seq<nat>, dimension: nat, first: nat, second: nat, sizes: seq<nat>)
    ensures var extended := ExtendedDimension(dimension, first, second);
      (extended.Some? && Completed(explicit, extended.value / 16) == Some(sizes)) <==> Extends(explicit, sizes, dimension + first + second)
  {
    var pixels, total := dimension + first + second, (dimension + first + second) / 16;
    if Completed(explicit, total) == Some(sizes) {
      CompletedFills(explicit, total);
    }
    if Extends(explicit, sizes, pixels) {
      var last := sizes[|explicit|];
      assert sizes == explicit + [last];
      PrefixAppend(explicit, last, |explicit|);
      assert forall k :: 0 <= k < |explicit| ==> explicit[k] == sizes[k];
    }
  }

  /** The grid of a header exists, and is this one, exactly when these tiles fill the extended image. */
  lemma GridExactly(image: Image, marginRight: nat, marginBottom: nat, explicitColumns: seq<nat>, explicitRows: seq<nat>,
                    columns: seq<nat>, rows: seq<nat>)
    ensures GridFor(image, marginRight, marginBottom, explicitColumns, explicitRows) == Some((columns, rows)) <==>
      && Extends(explicitColumns, columns, image.width + image.marginLeft + marginRight)
      && Extends(explicitRows, rows, image.height + image.marginTop + marginBottom)
  {
    SideExactly(explicitColumns, image.width, image.marginLeft, marginRight, columns);
    SideExactly(explicitRows, image.height, image.marginTop, marginBottom, rows);
    hide Completed, ExtendedDimension, Extends;
  }

  function RegionOf(image: Image, columns: seq<nat>, rows: seq<nat>, row: nat, column: nat): Rect
    requires row < |rows| && column < |columns|
  {
    TileOutputRegion(image, Prefix(columns, column), Prefix(rows, row), columns[column], rows[row])
  }

  lemma SideInTile(sizes: seq<nat>, k: nat, margin: nat, side: nat, pixel: nat)
    requires k < |sizes| && Total(sizes) * 16 <= U32_MAX && pixel < side
    ensures var (x, w) := ClippedSide(Prefix(sizes, k), sizes[k], margin, side);
      x <= pixel < x + w <==> Prefix(sizes, k) <= (pixel + margin) / 16 < Prefix(sizes, k + 1)
  {
    PrefixMonotone(sizes, k + 1, |sizes|);
    SideMeaning(Prefix(sizes, k), sizes[k], margin, side, pixel);
    MacroblockOfPixel(Prefix(sizes, k), sizes[k], pixel + margin);
  }

  /** Every pixel of the image is shown by exactly one tile. */
  lemma RegionsPartitionImage(image: Image, columns: seq<nat>, rows: seq<nat>, x: nat, y: nat) returns (row: nat, column: nat)
    requires GridOf(image, columns, rows) && x < image.width && y < image.height
    ensures row < |rows| && column < |columns| && InRect(RegionOf(image, columns, rows, row, column), x, y)
    ensures forall r, c :: 0 <= r < |rows| && 0 <= c < |columns| ==>
      (InRect(RegionOf(image, columns, rows, r, c), x, y) <==> r == row && c == column)
  {
    hide ClippedSide;
    var mx, my := (x + image.marginLeft) / 16, (y + image.marginTop) / 16;
    column := TileOfMacroblock(columns, mx);
    row := TileOfMacroblock(rows, my);
    forall r, c | 0 <= r < |rows| && 0 <= c < |columns|
      ensures InRect(RegionOf(image, columns, rows, r, c), x, y) <==> r == row && c == column
    {
      SideInTile(columns, c, image.marginLeft, image.width, x);
      SideInTile(rows, r, image.marginTop, image.height, y);
      if InRect(RegionOf(image, columns, rows, r, c), x, y) {
        OneTile(columns, mx, c, column);
        OneTile(rows, my, r, row);
      }
    }
  }

  /** And no tile shows anything beyond the image. */
  lemma RegionInsideImage(image: Image, columns: seq<nat>, rows: seq<nat>, row: nat, column: nat)
    requires row < |rows| && column < |columns|
    ensures var r := RegionOf(image, columns, rows, row, column); r.x + r.w <= image.width && r.y + r.h <= image.height
  {}

  // ---- Tile plans ----

  /** The macroblock bounds of a requested region: left, top, right and bottom, the last two excluded. */
  datatype Bounds = Bounds(left: nat, top: nat, right: nat, bottom: nat)

  datatype TilePlan = TilePlan(packetRange: ByteRange, outputRegion: Rect, macroblockStart: nat, macroblockCount: nat,
                               hardBoundaries: bool, required: bool)

  predicate Required(bounds: Bounds, x: nat, y: nat, width: nat, height: nat) {
    x < bounds.right && Saturated(x + width) > bounds.left && y < bounds.bottom && Saturated(y + height) > bounds.top
  }

  /** The macroblocks of all tiles before the tile at (row, column), in row-major tile order. */
  function MacroblocksBefore(columns: seq<nat>, rows: seq<nat>, row: nat, column: nat): nat
    requires row < |rows| && column <= |columns|
  {
    Prefix(rows, row) * Total(columns) + Prefix(columns, column) * rows[row]
  }

  /** Tiles are numbered row by row. */
  function TileNumber(width: nat, row: nat, column: nat): nat {
    row * width + column
  }

  lemma NumberBelow(width: nat, height: nat, row: nat, column: nat)
    requires row < height && column < width
    ensures TileNumber(width, row, column) < height * width
  {
    assert (row + 1) * width <= height * width;
  }

  lemma SameNumber(width: nat, a: nat, b: nat, c: nat, d: nat)
    requires b < width && d < width && TileNumber(width, a, b) == TileNumber(width, c, d)
    ensures a == c && b == d
  {
    DivisionUnique(a * width + b, width, a, b);
    DivisionUnique(c * width + d, width, c, d);
  }

  datatype Grid = Grid(image: Image, columns: seq<nat>, rows: seq<nat>, bounds: Bounds, hard: bool, ranges: seq<ByteRange>)

  /** What the plan of one tile holds. */
  ghost predicate PlanOf(plan: TilePlan, g: Grid, row: nat, column: nat)
    requires row < |g.rows| && column < |g.columns| && TileNumber(|g.columns|, row, column) < |g.ranges|
  {
    && plan.packetRange == g.ranges[TileNumber(|g.columns|, row, column)]
    && plan.outputRegion == RegionOf(g.image, g.columns, g.rows, row, column)
    && plan.macroblockStart == MacroblocksBefore(g.columns, g.rows, row, column)
    && plan.macroblockCount == g.columns[column] * g.rows[row]
    && plan.hardBoundaries == g.hard
    && (plan.required <==> Required(g.bounds, Prefix(g.columns, column), Prefix(g.rows, row), g.columns[column], g.rows[row]))
  }

  /** Plans of the tiles numbered below `next`. */
  ghost predicate Planned(plans: seq<TilePlan>, g: Grid, next: nat) {
    && |plans| == next <= |g.ranges|
    && forall r: nat, c: nat :: r < |g.rows| && c < |g.columns| && TileNumber(|g.columns|, r, c) < next ==>
         PlanOf(plans[TileNumber(|g.columns|, r, c)], g, r, c)
  }

  lemma PlannedNext(plans: seq<TilePlan>, plan: TilePlan, g: Grid, row: nat, column: nat)
    requires row < |g.rows| && column < |g.columns| && TileNumber(|g.columns|, row, column) < |g.ranges|
    requires Planned(plans, g, TileNumber(|g.columns|, row, column)) && PlanOf(plan, g, row, column)
    ensures Planned(plans + [plan], g, TileNumber(|g.columns|, row, column) + 1)
  {
    hide PlanOf, TileNumber;
    var t := TileNumber(|g.columns|, row, column);
    forall r: nat, c: nat | r < |g.rows| && c < |g.columns| && TileNumber(|g.columns|, r, c) < t + 1
      ensures PlanOf((plans + [plan])[TileNumber(|g.columns|, r, c)], g, r, c)
    {
      if TileNumber(|g.columns|, r, c) == t {
        SameNumber(|g.columns|, r, c, row, column);
      }
    }
  }

  lemma ProductLess(a: nat, b: nat, c: nat)
    requires a <= b
    ensures a * c <= b * c
  {}

  lemma Spread(a: nat, b: nat, c: nat)
    ensures (a + b) * c == a * c + b * c
  {}

  /** One tile more. */
  lemma BeforeNext(columns: seq<nat>, rows: seq<nat>, row: nat, column: nat)
    requires row < |rows| && column < |columns|
    ensures MacroblocksBefore(columns, rows, row, column + 1) ==
      MacroblocksBefore(columns, rows, row, column) + columns[column] * rows[row]
  {
    hide Total;
    Spread(Prefix(columns, column), columns[column], rows[row]);
  }

  /** One row of tiles more. */
  lemma RowNext(columns: seq<nat>, rows: seq<nat>, row: nat)
    requires row < |rows|
    ensures MacroblocksBefore(columns, rows, row, |columns|) == Prefix(rows, row + 1) * Total(columns)
  {
    Spread(Prefix(rows, row), rows[row], Total(columns));
  }

  lemma BeforeBounded(columns: seq<nat>, rows: seq<nat>, row: nat, column: nat)
    requires row < |rows| && column <= |columns|
    ensures MacroblocksBefore(columns, rows, row, column) <= Total(rows) * Total(columns)
  {
    RowNext(columns, rows, row);
    PrefixMonotone(columns, column, |columns|);
    PrefixMonotone(rows, row + 1, |rows|);
    ProductLess(Prefix(columns, column), Total(columns), rows[row]);
    ProductLess(Prefix(rows, row + 1), Total(rows), Total(columns));
  }

  /** The plan of one tile, and where the next one starts; refused when that exceeds 32 bits. */
  method PlanTile(g: Grid, row: nat, column: nat, x: nat, y: nat, start: nat) returns (r: Option<TilePlan>)
    requires row < |g.rows| && column < |g.columns| && TileNumber(|g.columns|, row, column) < |g.ranges|
    requires x == Prefix(g.columns, column) && y == Prefix(g.rows, row)
    requires start == MacroblocksBefore(g.columns, g.rows, row, column)
    ensures r.Some? ==> PlanOf(r.value, g, row, column) && start + r.value.macroblockCount <= U32_MAX
    ensures r.None? ==> Total(g.rows) * Total(g.columns) > U32_MAX
  {
    hide MacroblocksBefore, Prefix, TileOutputRegion, Required;
    var width, height := g.columns[column], g.rows[row];
    var count := width * height;
    BeforeNext(g.columns, g.rows, row, column);
    BeforeBounded(g.columns, g.rows, row, column + 1);
    if count > U32_MAX || start + count > U32_MAX {
      return None;
    }
    return Some(TilePlan(g.ranges[TileNumber(|g.columns|, row, column)], TileOutputRegion(g.image, x, y, width, height),
                         start, count, g.hard, Required(g.bounds, x, y, width, height)));
  }

  /**
   The plans of all tiles, in row-major order. Each starts where the macroblocks of the tiles before it end,
   and planning fails exactly when the image has more macroblocks than 32 bits can count.
   */
  method TilePlans(g: Grid) returns (r: Option<seq<TilePlan>>)
    requires |g.ranges| == |g.rows| * |g.columns| && g.rows != [] && g.columns != []
    requires Total(g.columns) <= U32_MAX && Total(g.rows) <= U32_MAX
    ensures r.Some? <==> Total(g.rows) * Total(g.columns) <= U32_MAX
    ensures r.Some? ==> Planned(r.value, g, |g.rows| * |g.columns|)
  {
    hide MacroblocksBefore, Prefix, Planned, PlanOf, TileNumber;
    var plans: seq<TilePlan> := [];
    var start, y := 0, 0;
    Nothing(g);
    for row := 0 to |g.rows|
      invariant y == Prefix(g.rows, row)
      invariant start == Prefix(g.rows, row) * Total(g.columns) <= U32_MAX
      invariant Planned(plans, g, TileNumber(|g.columns|, row, 0))
    {
      var x := 0;
      RowStart(g, row);
      for column := 0 to |g.columns|
        invariant x == Prefix(g.columns, column)
        invariant start == MacroblocksBefore(g.columns, g.rows, row, column) <= U32_MAX
        invariant Planned(plans, g, TileNumber(|g.columns|, row, column))
      {
        NumberBelow(|g.columns|, |g.rows|, row, column);
        BeforeNext(g.columns, g.rows, row, column);
        NextPosition(g.columns, column);
        NextNumber(|g.columns|, row, column);
        var plan :- PlanTile(g, row, column, x, y, start);
        PlannedNext(plans, plan, g, row, column);
        PlanCount(plan, g, row, column);
        plans := plans + [plan];
        start := start + plan.macroblockCount;
        x := Saturated(x + g.columns[column]);
      }
      RowNext(g.columns, g.rows, row);
      NextPosition(g.rows, row);
      RowNumber(|g.columns|, row);
      y := Saturated(y + g.rows[row]);
    }
    LastNumber(|g.columns|, |g.rows|);
    return Some(plans);
  }

  lemma PlanCount(plan: TilePlan, g: Grid, row: nat, column: nat)
    requires row < |g.rows| && column < |g.columns| && TileNumber(|g.columns|, row, column) < |g.ranges|
    requires PlanOf(plan, g, row, column)
    ensures plan.macroblockCount == g.columns[column] * g.rows[row]
  {}

  lemma Nothing(g: Grid)
    ensures Planned([], g, TileNumber(|g.columns|, 0, 0)) && Prefix(g.rows, 0) == 0
  {}

  lemma RowStart(g: Grid, row: nat)
    requires row < |g.rows|
    ensures MacroblocksBefore(g.columns, g.rows, row, 0) == Prefix(g.rows, row) * Total(g.columns)
    ensures Prefix(g.columns, 0) == 0
  {}

  lemma NextPosition(sizes: seq<nat>, k: nat)
    requires k < |sizes| && Total(sizes) <= U32_MAX
    ensures Prefix(sizes, k + 1) == Prefix(sizes, k) + sizes[k] <= U32_MAX
  {
    PrefixMonotone(sizes, k + 1, |sizes|);
  }

  lemma NextNumber(width: nat, row: nat, column: nat)
    ensures TileNumber(width, row, column + 1) == TileNumber(width, row, column) + 1
  {}

  lemma RowNumber(width: nat, row: nat)
    ensures TileNumber(width, row + 1, 0) == TileNumber(width, row, width)
  {}

  lemma LastNumber(width: nat, height: nat)
    ensures TileNumber(width, height, 0) == height * width
  {}

  // ---- Bounds of a requested region ----

  function ReconstructionBounds(image: Image, columns: nat, rows: nat, overlaps: bool, upsamples: bool, region: Rect): Option<Bounds> {
    var startX, startY := image.marginLeft + region.x, image.marginTop + region.y;
    var endX, endY := startX + region.w, startY + region.h;
    if endX > U32_MAX || endY > U32_MAX then None
    else
      var halo := if overlaps || upsamples then 1 else 0;
      Some(Bounds(SaturatingSub(startX / 16, halo), SaturatingSub(startY / 16, halo),
                  Min(Saturated(DivCeil(endX, 16) + halo), columns), Min(Saturated(DivCeil(endY, 16) + halo), rows)))
  }

  /** Whether a macroblock lies within `halo` macroblocks of one that holds a requested position. */
  ghost predicate Near(start: nat, extent: nat, halo: nat, m: nat) {
    exists touched: nat :: touched * 16 < start + extent && start < (touched + 1) * 16 && m <= touched + halo && touched <= m + halo
  }

  /** The bounds of one side hold exactly the macroblocks near the requested extent. */
  lemma SideBounds(start: nat, extent: nat, halo: nat, side: nat, m: nat)
    requires extent > 0 && start + extent <= U32_MAX && halo <= 1 && m < side
    ensures SaturatingSub(start / 16, halo) <= m < Min(Saturated(DivCeil(start + extent, 16) + halo), side)
      <==> Near(start, extent, halo, m)
  {
    var first, end := start / 16, DivCeil(start + extent, 16);
    if SaturatingSub(first, halo) <= m < end + halo {
      var touched := if m < first then first else if m >= end then end - 1 else m;
      assert touched * 16 < start + extent && start < (touched + 1) * 16;
      assert Near(start, extent, halo, m);
    }
    if Near(start, extent, halo, m) {
      var touched: nat :| touched * 16 < start + extent && start < (touched + 1) * 16 && m <= touched + halo && touched <= m + halo;
      assert first <= touched < end;
    }
  }

  /**
   The bounds of a region are refused exactly when it ends beyond 32 bits, and hold exactly the macroblocks that lie
   within the halo of a requested pixel; the halo is one macroblock where filters or upsampling reach over.
   */
  lemma BoundsExactly(image: Image, columns: nat, rows: nat, overlaps: bool, upsamples: bool, region: Rect, x: nat, y: nat)
    requires region.w > 0 && region.h > 0
    ensures ReconstructionBounds(image, columns, rows, overlaps, upsamples, region).Some? <==>
      image.marginLeft + region.x + region.w <= 0xFFFF_FFFF && image.marginTop + region.y + region.h <= 0xFFFF_FFFF
    ensures ReconstructionBounds(image, columns, rows, overlaps, upsamples, region).Some? && x < columns && y < rows ==>
      (InBounds(ReconstructionBounds(image, columns, rows, overlaps, upsamples, region).value, x, y) <==>
        && Near(image.marginLeft + region.x, region.w, if overlaps || upsamples then 1 else 0, x)
        && Near(image.marginTop + region.y, region.h, if overlaps || upsamples then 1 else 0, y))
  {
    if ReconstructionBounds(image, columns, rows, overlaps, upsamples, region).Some? && x < columns && y < rows {
      hide Near, DivCeil, SaturatingSub, Saturated, Min;
      SideBounds(image.marginLeft + region.x, region.w, if overlaps || upsamples then 1 else 0, columns, x);
      SideBounds(image.marginTop + region.y, region.h, if overlaps || upsamples then 1 else 0, rows, y);
    }
  }

  /** A tile is required exactly when some macroblock of it lies within the bounds. */
  lemma RequiredMeaning(columns: seq<nat>, rows: seq<nat>, bounds: Bounds, row: nat, column: nat)
    requires row < |rows| && column < |columns| && columns[column] > 0 && rows[row] > 0
    requires Total(columns) <= U32_MAX && Total(rows) <= U32_MAX
    requires bounds.left < bounds.right && bounds.top < bounds.bottom
    ensures Required(bounds, Prefix(columns, column), Prefix(rows, row), columns[column], rows[row]) <==>
      exists x: nat, y: nat :: HoldsMacroblock(columns, rows, row, column, x, y) && InBounds(bounds, x, y)
  {
    PrefixMonotone(columns, column + 1, |columns|);
    PrefixMonotone(rows, row + 1, |rows|);
    var left, top := Prefix(columns, column), Prefix(rows, row);
    if Required(bounds, left, top, columns[column], rows[row]) {
      var x, y := if left < bounds.left then bounds.left else left, if top < bounds.top then bounds.top else top;
      assert HoldsMacroblock(columns, rows, row, column, x, y) && InBounds(bounds, x, y);
    }
  }

  predicate HoldsMacroblock(columns: seq<nat>, rows: seq<nat>, row: nat, column: nat, x: nat, y: nat)
    requires row < |rows| && column < |columns|
  {
    Prefix(columns, column) <= x < Prefix(columns, column + 1) && Prefix(rows, row) <= y < Prefix(rows, row + 1)
  }

  predicate InBounds(bounds: Bounds, x: nat, y: nat) {
    bounds.left <= x < bounds.right && bounds.top <= y < bounds.bottom
  }

  /**
   Every macroblock within the halo of a requested region lies in a tile that is marked required.
   */
  lemma NearIsRequired(image: Image, columns: seq<nat>, rows: seq<nat>, overlaps: bool, upsamples: bool, region: Rect,
                       bounds: Bounds, x: nat, y: nat) returns (row: nat, column: nat)
    requires Total(columns) <= U32_MAX && Total(rows) <= U32_MAX && region.w > 0 && region.h > 0
    requires ReconstructionBounds(image, Total(columns), Total(rows), overlaps, upsamples, region) == Some(bounds)
    requires x < Total(columns) && y < Total(rows)
    requires Near(image.marginLeft + region.x, region.w, if overlaps || upsamples then 1 else 0, x)
    requires Near(image.marginTop + region.y, region.h, if overlaps || upsamples then 1 else 0, y)
    ensures row < |rows| && column < |columns| && HoldsMacroblock(columns, rows, row, column, x, y)
    ensures Required(bounds, Prefix(columns, column), Prefix(rows, row), columns[column], rows[row])
  {
    hide Near;
    var halo := if overlaps || upsamples then 1 else 0;
    SideBounds(image.marginLeft + region.x, region.w, halo, Total(columns), x);
    SideBounds(image.marginTop + region.y, region.h, halo, Total(rows), y);
    column := TileOfMacroblock(columns, x);
    row := TileOfMacroblock(rows, y);
    PrefixMonotone(columns, column + 1, |columns|);
    PrefixMonotone(rows, row + 1, |rows|);
  }
}
