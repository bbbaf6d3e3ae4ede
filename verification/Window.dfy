/**
 The reconstruction window of a coefficient plane, and the plan constructors that place every plane in
 the two scratch arenas.
 */
module Window {
  import opened Wrappers
  import opened Words
  import opened Memory
  import opened Blocks
  import opened Overlap
  import opened Regions
  import P = Passes

  const ALIGNMENT: nat := 64

  datatype PlaneWindow = PlaneWindow(originX: nat, originY: nat, macroblocksX: nat, macroblocksY: nat,
                                     sampleWidth: nat, sampleHeight: nat)

  /** One plane of the entropy decoder: its macroblocks are the range [offset, offset + count). */
  datatype Source = Source(codedX: seq<nat>, codedY: seq<nat>, offset: nat, count: nat,
                           blockColumns: nat, blockRows: nat, scaled: bool)

  function Minimum(s: seq<nat>): (m: nat)
    requires s != []
    ensures m in s && forall k :: 0 <= k < |s| ==> m <= s[k]
  {
    if |s| == 1 then s[0]
    else
      var rest := Minimum(s[1..]);
      if s[0] < rest then s[0] else rest
  }

  function Maximum(s: seq<nat>): (m: nat)
    requires s != []
    ensures m in s && forall k :: 0 <= k < |s| ==> s[k] <= m
  {
    if |s| == 1 then s[0]
    else
      var rest := Maximum(s[1..]);
      if s[0] > rest then s[0] else rest
  }

  /** The window both device plans compute: the bounding rectangle, if it holds as many cells as macroblocks. */
  function BoundingWindow(xs: seq<nat>, ys: seq<nat>, blockColumns: nat, blockRows: nat): (r: Option<PlaneWindow>)
    requires |xs| == |ys|
  {
    if xs == [] || Maximum(xs) + 1 > U32_MAX || Maximum(ys) + 1 > U32_MAX then None
    else
      var width, height := Maximum(xs) + 1 - Minimum(xs), Maximum(ys) + 1 - Minimum(ys);
      if width * height != |xs| || width * blockColumns * 4 > U32_MAX || height * blockRows * 4 > U32_MAX then None
      else Some(PlaneWindow(Minimum(xs), Minimum(ys), width, height, width * blockColumns * 4, height * blockRows * 4))
  }

  /** The row-major number of a macroblock's cell. */
  function Cell(w: PlaneWindow, x: nat, y: nat): nat
    requires x >= w.originX && y >= w.originY
  {
    (y - w.originY) * w.macroblocksX + (x - w.originX)
  }

  function Cells(xs: seq<nat>, ys: seq<nat>, w: PlaneWindow): (cells: seq<nat>)
    requires |xs| == |ys|
    requires forall k :: 0 <= k < |xs| ==> xs[k] >= w.originX && ys[k] >= w.originY
    ensures |cells| == |xs|
  {
    seq(|xs|, k requires 0 <= k < |xs| => Cell(w, xs[k], ys[k]))
  }

  lemma WindowFacts(xs: seq<nat>, ys: seq<nat>, blockColumns: nat, blockRows: nat, w: PlaneWindow)
    requires |xs| == |ys| && BoundingWindow(xs, ys, blockColumns, blockRows) == Some(w)
    ensures w.macroblocksX >= 1 && w.macroblocksY >= 1 && w.macroblocksX * w.macroblocksY == |xs|
    ensures forall k :: 0 <= k < |xs| ==> w.originX <= xs[k] < w.originX + w.macroblocksX
    ensures forall k :: 0 <= k < |xs| ==> w.originY <= ys[k] < w.originY + w.macroblocksY
    ensures Within(Cells(xs, ys, w), |xs|)
  {
    assert Minimum(xs) in xs && Minimum(ys) in ys;
    var cells := Cells(xs, ys, w);
    forall k | 0 <= k < |xs|
      ensures cells[k] < |xs|
    {
      CellBound(w, xs[k] - w.originX, ys[k] - w.originY);
    }
  }

  lemma CellBound(w: PlaneWindow, x: nat, y: nat)
    requires x < w.macroblocksX && y < w.macroblocksY
    ensures y * w.macroblocksX + x < w.macroblocksX * w.macroblocksY
  {
    assert (y + 1) * w.macroblocksX <= w.macroblocksY * w.macroblocksX;
  }

  lemma RowBound(w: PlaneWindow, x: nat, y: nat)
    requires y >= w.macroblocksY
    ensures y * w.macroblocksX + x >= w.macroblocksX * w.macroblocksY
  {
    assert (y - w.macroblocksY) * w.macroblocksX >= 0;
  }

  lemma MacroblockInside(xs: seq<nat>, ys: seq<nat>, w: PlaneWindow, k: nat)
    requires |xs| == |ys| == w.macroblocksX * w.macroblocksY && k < |xs|
    requires w.originX <= xs[k] < w.originX + w.macroblocksX && w.originY <= ys[k] < w.originY + w.macroblocksY
    ensures Cell(w, xs[k], ys[k]) < |xs|
  {
    CellBound(w, xs[k] - w.originX, ys[k] - w.originY);
  }

  /** No two macroblocks have the same coordinates. */
  ghost predicate NoRepeat(xs: seq<nat>, ys: seq<nat>)
    requires |xs| == |ys|
  {
    forall j, k :: 0 <= j < k < |xs| ==> xs[j] != xs[k] || ys[j] != ys[k]
  }

  lemma SameCells(xs: seq<nat>, ys: seq<nat>, w: PlaneWindow, j: nat, k: nat)
    requires |xs| == |ys| && j < |xs| && k < |xs|
    requires w.originX <= xs[j] < w.originX + w.macroblocksX && w.originY <= ys[j]
    requires w.originX <= xs[k] < w.originX + w.macroblocksX && w.originY <= ys[k]
    ensures Cell(w, xs[j], ys[j]) == Cell(w, xs[k], ys[k]) <==> xs[j] == xs[k] && ys[j] == ys[k]
  {
    P.SameCell(w.macroblocksX, xs[j] - w.originX, ys[j] - w.originY, xs[k] - w.originX, ys[k] - w.originY);
  }

  lemma NoRepeatIsDistinct(xs: seq<nat>, ys: seq<nat>, w: PlaneWindow)
    requires |xs| == |ys|
    requires forall k :: 0 <= k < |xs| ==> w.originX <= xs[k] < w.originX + w.macroblocksX && w.originY <= ys[k]
    ensures NoRepeat(xs, ys) <==> Distinct(Cells(xs, ys, w))
  {
    hide Cell;
    forall j, k | 0 <= j < k < |xs|
      ensures xs[j] == xs[k] && ys[j] == ys[k] <==> Cells(xs, ys, w)[j] == Cells(xs, ys, w)[k]
    {
      SameCells(xs, ys, w, j, k);
    }
  }

  /** Some macroblock lies in the cell. */
  ghost predicate Occupied(xs: seq<nat>, ys: seq<nat>, w: PlaneWindow, x: nat, y: nat)
    requires |xs| == |ys|
  {
    exists k :: 0 <= k < |xs| && xs[k] == w.originX + x && ys[k] == w.originY + y
  }

  ghost predicate AllOccupied(xs: seq<nat>, ys: seq<nat>, w: PlaneWindow)
    requires |xs| == |ys|
  {
    forall x: nat, y: nat :: x < w.macroblocksX && y < w.macroblocksY ==> Occupied(xs, ys, w, x, y)
  }

  /** A list that reaches every number below `n` has at least `n` entries. */
  lemma {:induction false} ReachingNeedsEntries(table: seq<nat>, n: nat)
    requires forall i: nat :: i < n ==> i in table
    ensures |table| >= n
    decreases n
  {
    if n > 0 {
      assert n - 1 in table;
      var p :| 0 <= p < |table| && table[p] == n - 1;
      var rest := table[..p] + table[p + 1..];
      forall i: nat | i < n - 1
        ensures i in rest
      {
        assert i in table;
        var q :| 0 <= q < |table| && table[q] == i;
        assert rest[if q < p then q else q - 1] == i;
      }
      ReachingNeedsEntries(rest, n - 1);
    }
  }

  /**
   In a window with as many cells as macroblocks, the macroblocks reach every cell exactly when no two of
   them share one: the coordinates are then in bijection with the cells.
   */
  lemma WindowBijection(xs: seq<nat>, ys: seq<nat>, blockColumns: nat, blockRows: nat, w: PlaneWindow)
    requires |xs| == |ys| && BoundingWindow(xs, ys, blockColumns, blockRows) == Some(w)
    ensures NoRepeat(xs, ys) <==> AllOccupied(xs, ys, w)
  {
    hide BoundingWindow, NoRepeat, AllOccupied;
    WindowFacts(xs, ys, blockColumns, blockRows, w);
    NoRepeatIsDistinct(xs, ys, w);
    if NoRepeat(xs, ys) {
      DistinctFills(xs, ys, w);
    }
    if AllOccupied(xs, ys, w) {
      FilledIsDistinct(xs, ys, w);
    }
  }

  lemma DistinctFills(xs: seq<nat>, ys: seq<nat>, w: PlaneWindow)
    requires |xs| == |ys| == w.macroblocksX * w.macroblocksY
    requires forall k :: 0 <= k < |xs| ==> w.originX <= xs[k] < w.originX + w.macroblocksX && w.originY <= ys[k]
    requires Distinct(Cells(xs, ys, w)) && Within(Cells(xs, ys, w), |xs|)
    ensures AllOccupied(xs, ys, w)
  {
    forall x: nat, y: nat | x < w.macroblocksX && y < w.macroblocksY
      ensures Occupied(xs, ys, w, x, y)
    {
      CellBound(w, x, y);
      var cells := Cells(xs, ys, w);
      AllReached(cells, |xs|, y * w.macroblocksX + x);
      var k :| 0 <= k < |cells| && cells[k] == y * w.macroblocksX + x;
      P.SameCell(w.macroblocksX, x, y, xs[k] - w.originX, ys[k] - w.originY);
    }
  }

  lemma FilledIsDistinct(xs: seq<nat>, ys: seq<nat>, w: PlaneWindow)
    requires |xs| == |ys| == w.macroblocksX * w.macroblocksY
    requires forall k :: 0 <= k < |xs| ==> w.originX <= xs[k] < w.originX + w.macroblocksX && w.originY <= ys[k]
    requires AllOccupied(xs, ys, w)
    ensures Distinct(Cells(xs, ys, w))
  {
    var cells := Cells(xs, ys, w);
    forall i: nat | i < |xs|
      ensures i in cells
    {
      CellOfNumber(xs, ys, w, i);
    }
    ReachingAllIsDistinct(cells);
  }

  lemma CellOfNumber(xs: seq<nat>, ys: seq<nat>, w: PlaneWindow, i: nat)
    requires |xs| == |ys| == w.macroblocksX * w.macroblocksY && i < |xs| && AllOccupied(xs, ys, w)
    requires forall k :: 0 <= k < |xs| ==> w.originX <= xs[k] < w.originX + w.macroblocksX && w.originY <= ys[k]
    ensures i in Cells(xs, ys, w)
  {
    var x, y := P.CellOf(Layout(0, w.macroblocksX), i);
    assert i == y * w.macroblocksX + x;
    if y >= w.macroblocksY {
      RowBound(w, x, y);
    }
    assert Occupied(xs, ys, w, x, y);
    var k :| 0 <= k < |xs| && xs[k] == w.originX + x && ys[k] == w.originY + y;
    assert Cells(xs, ys, w)[k] == i;
  }

  lemma ReachingAllIsDistinct(table: seq<nat>)
    requires forall i: nat :: i < |table| ==> i in table
    ensures Distinct(table)
  {
    if !Distinct(table) {
      var j, k :| 0 <= j < k < |table| && table[j] == table[k];
      var rest := table[..k] + table[k + 1..];
      forall i: nat | i < |table|
        ensures i in rest
      {
        assert i in table;
        var q :| 0 <= q < |table| && table[q] == i;
        assert rest[if q == k then j else if q < k then q else q - 1] == i;
      }
      ReachingNeedsEntries(rest, |table|);
    }
  }

  // ---- The occupancy bitmap ----

  /** The window the CUDA plan accepts: no coordinate repeats. */
  ghost function AcceptedWindow(xs: seq<nat>, ys: seq<nat>, blockColumns: nat, blockRows: nat): (r: Option<PlaneWindow>)
    requires |xs| == |ys|
    ensures r.Some? ==> r == BoundingWindow(xs, ys, blockColumns, blockRows) && NoRepeat(xs, ys)
  {
    if NoRepeat(xs, ys) then BoundingWindow(xs, ys, blockColumns, blockRows) else None
  }

  /** The Metal plan keeps no bitmap: three macroblocks, two in the same place, pass for a row of three. */
  lemma BoundingWindowRepeats()
    ensures var xs, ys := [0, 0, 2], [0, 0, 0];
      exists w :: BoundingWindow(xs, ys, 4, 4) == Some(w) && !Occupied(xs, ys, w, 1, 0) && !NoRepeat(xs, ys)
  {
    var xs, ys: seq<nat> := [0, 0, 2], [0, 0, 0];
    hide Minimum, Maximum;
    assert Maximum(xs) >= xs[2] && Minimum(xs) <= xs[0];
    assert Maximum(xs) == 2 && Minimum(xs) == 0 && Maximum(ys) == 0 && Minimum(ys) == 0;
    var w := PlaneWindow(0, 0, 3, 1, 48, 16);
    assert BoundingWindow(xs, ys, 4, 4) == Some(w);
    assert !Occupied(xs, ys, w, 1, 0);
    assert xs[0] == xs[1];
  }

  /**
   The plan's check, cell by cell. Every macroblock of a bounding window lies inside it, so the source's
   error for a coordinate beyond the window is never returned.
   */
  method BuildPlaneWindow(xs: seq<nat>, ys: seq<nat>, blockColumns: nat, blockRows: nat)
    returns (r: Option<PlaneWindow>)
    requires |xs| == |ys|
    ensures r == AcceptedWindow(xs, ys, blockColumns, blockRows)
  {
    hide Minimum, Maximum, NoRepeat, Distinct;
    if xs == [] {
      return None;
    }
    var originX, originY := Minimum(xs), Minimum(ys);
    var right, bottom := Maximum(xs) + 1, Maximum(ys) + 1;
    if right > U32_MAX || bottom > U32_MAX {
      return None;
    }
    var width, height := right - originX, bottom - originY;
    var expected := width * height;
    if expected != |xs| {
      return None;
    }
    var w := PlaneWindow(originX, originY, width, height, width * blockColumns * 4, height * blockRows * 4);
    var repeats := FindRepeat(xs, ys, w);
    if repeats || w.sampleWidth > U32_MAX || w.sampleHeight > U32_MAX {
      return None;
    }
    return Some(w);
  }

  lemma CellsAt(xs: seq<nat>, ys: seq<nat>, w: PlaneWindow, i: nat)
    requires |xs| == |ys| && i < |xs|
    requires forall k :: 0 <= k < |xs| ==> xs[k] >= w.originX && ys[k] >= w.originY
    ensures Cells(xs, ys, w)[i] == Cell(w, xs[i], ys[i])
  {}

  lemma RepeatFound(cells: seq<nat>, i: nat)
    requires i < |cells| && cells[i] in cells[..i]
    ensures !Distinct(cells)
  {}

  method FindRepeat(xs: seq<nat>, ys: seq<nat>, w: PlaneWindow) returns (repeats: bool)
    requires |xs| == |ys| == w.macroblocksX * w.macroblocksY
    requires forall k :: 0 <= k < |xs| ==> w.originX <= xs[k] < w.originX + w.macroblocksX
    requires forall k :: 0 <= k < |xs| ==> w.originY <= ys[k] < w.originY + w.macroblocksY
    ensures repeats <==> !NoRepeat(xs, ys)
  {
    var occupied := new bool[|xs|](_ => false);
    NoRepeatIsDistinct(xs, ys, w);
    ghost var cells := Cells(xs, ys, w);
    for i := 0 to |xs|
      invariant forall c: nat :: c < |xs| ==> (occupied[c] <==> c in cells[..i])
      invariant Distinct(cells[..i])
    {
      hide NoRepeat, Cell, Cells;
      assert cells[i] == Cell(w, xs[i], ys[i]) by { CellsAt(xs, ys, w, i); }
      var index := Cell(w, xs[i], ys[i]);
      MacroblockInside(xs, ys, w, i);
      assert cells[..i + 1] == cells[..i] + [index];
      if occupied[index] {
        RepeatFound(cells, i);
        return true;
      }
      occupied[index] := true;
    }
    return false;
  }

  // ---- Placing the planes in the arenas ----

  function Align(value: nat): (r: Option<nat>)
    ensures r.Some? ==> value <= r.value < value + 64 && r.value % 64 == 0
    ensures r.None? <==> value + 63 > 0xFFFF_FFFF_FFFF_FFFF
  {
    var raised := value + (ALIGNMENT - 1);
    if raised > USIZE_MAX then None else Some(raised - raised % ALIGNMENT)
  }

  function LowCount(p: Plane): nat {
    p.macroblocksX * p.macroblocksY * (p.blockColumns * p.blockRows)
  }

  function SampleCount(p: Plane): nat {
    p.sampleWidth * p.sampleHeight
  }

  function LowEnd(p: Plane): nat {
    p.lowOffset + LowCount(p)
  }

  function SampleEnd(p: Plane): nat {
    p.sampleOffset + SampleCount(p)
  }

  /** The low plane is as long as its rows together. */
  lemma LowSize(p: Plane)
    ensures p.lowOffset + LowLayout(p).stride * (p.macroblocksY * p.blockRows) == LowEnd(p)
  {
    var a, b, c, d := p.macroblocksX, p.blockColumns, p.macroblocksY, p.blockRows;
    assert (a * b) * (c * d) == (a * c) * (b * d);
  }

  predicate SupportedGeometry(blockColumns: nat, blockRows: nat) {
    ((blockColumns == 4 || blockColumns == 2) && blockRows == 4) || (blockColumns == 2 && blockRows == 2)
  }

  predicate RangeInside(s: Source) {
    s.offset + s.count <= USIZE_MAX && s.offset + s.count <= |s.codedX| && s.offset + s.count <= |s.codedY|
  }

  function PlaneAt(s: Source, w: PlaneWindow, lowOffset: nat, sampleOffset: nat): Plane {
    Plane(s.offset, s.count, s.blockColumns, s.blockRows, w.originX, w.originY, w.macroblocksX, w.macroblocksY,
          w.sampleWidth, w.sampleHeight, lowOffset, sampleOffset, s.scaled)
  }

  /** Both ranges of the plane end within the address space. */
  predicate RegionsFit(s: Source, w: PlaneWindow, lowLen: nat, sampleLen: nat) {
    && Align(lowLen).Some? && Align(sampleLen).Some?
    && var p := PlaneAt(s, w, Align(lowLen).value, Align(sampleLen).value);
       LowEnd(p) <= USIZE_MAX && SampleEnd(p) <= USIZE_MAX
  }

  /** The window's first sample has 32-bit coordinates. */
  predicate OriginFits(s: Source, w: PlaneWindow) {
    w.originX * (s.blockColumns * 4) <= U32_MAX && w.originY * (s.blockRows * 4) <= U32_MAX
  }

  /** The plane of a source, placed at the first aligned positions past what is already reserved. */
  ghost function PlaneOf(s: Source, lowLen: nat, sampleLen: nat): Option<Plane> {
    if !SupportedGeometry(s.blockColumns, s.blockRows) || !RangeInside(s) then None
    else
      var w :- AcceptedWindow(s.codedX[s.offset..s.offset + s.count], s.codedY[s.offset..s.offset + s.count],
                              s.blockColumns, s.blockRows);
      if RegionsFit(s, w, lowLen, sampleLen) && OriginFits(s, w) then
        Some(PlaneAt(s, w, Align(lowLen).value, Align(sampleLen).value))
      else None
  }

  /** Reserves the low-pass and the sample range of one plane; the lengths are the arenas' new lengths. */
  method ReservePlaneRegions(s: Source, w: PlaneWindow, lowLen: nat, sampleLen: nat)
    returns (r: Option<(nat, nat)>, newLowLen: nat, newSampleLen: nat)
    ensures r.Some? <==> RegionsFit(s, w, lowLen, sampleLen)
    ensures r.Some? ==> r.value == (Align(lowLen).value, Align(sampleLen).value)
    ensures r.Some? ==> newLowLen == LowEnd(PlaneAt(s, w, r.value.0, r.value.1))
    ensures r.Some? ==> newSampleLen == SampleEnd(PlaneAt(s, w, r.value.0, r.value.1))
  {
    newLowLen, newSampleLen := lowLen, sampleLen;
    var low := Align(lowLen);
    if low.None? {
      return None, newLowLen, newSampleLen;
    }
    newLowLen := low.value + w.macroblocksX * w.macroblocksY * (s.blockColumns * s.blockRows);
    if newLowLen > USIZE_MAX {
      return None, newLowLen, newSampleLen;
    }
    var sample := Align(sampleLen);
    if sample.None? {
      return None, newLowLen, newSampleLen;
    }
    newSampleLen := sample.value + w.sampleWidth * w.sampleHeight;
    if newSampleLen > USIZE_MAX {
      return None, newLowLen, newSampleLen;
    }
    return Some((low.value, sample.value)), newLowLen, newSampleLen;
  }

  method BuildPlane(s: Source, lowLen: nat, sampleLen: nat)
    returns (r: Option<Plane>, newLowLen: nat, newSampleLen: nat)
    ensures r == PlaneOf(s, lowLen, sampleLen)
    ensures r.Some? ==> newLowLen == LowEnd(r.value) && newSampleLen == SampleEnd(r.value)
  {
    hide AcceptedWindow, RegionsFit, Align, LowEnd, SampleEnd;
    newLowLen, newSampleLen := lowLen, sampleLen;
    if !SupportedGeometry(s.blockColumns, s.blockRows) || !RangeInside(s) {
      return None, newLowLen, newSampleLen;
    }
    var window := BuildPlaneWindow(s.codedX[s.offset..s.offset + s.count], s.codedY[s.offset..s.offset + s.count],
                                   s.blockColumns, s.blockRows);
    if window.None? {
      return None, newLowLen, newSampleLen;
    }
    var w := window.value;
    var offsets;
    offsets, newLowLen, newSampleLen := ReservePlaneRegions(s, w, lowLen, sampleLen);
    if offsets.None? || w.originX * (s.blockColumns * 4) > U32_MAX || w.originY * (s.blockRows * 4) > U32_MAX {
      return None, newLowLen, newSampleLen;
    }
    return Some(PlaneAt(s, w, offsets.value.0, offsets.value.1)), newLowLen, newSampleLen;
  }

  ghost function PlanesOf(sources: seq<Source>, lowLen: nat, sampleLen: nat): Option<seq<Plane>> {
    if sources == [] then Some([])
    else
      var p :- PlaneOf(sources[0], lowLen, sampleLen);
      var rest :- PlanesOf(sources[1..], LowEnd(p), SampleEnd(p));
      Some([p] + rest)
  }

  ghost function Followed(planes: seq<Plane>, rest: Option<seq<Plane>>): (r: Option<seq<Plane>>)
    ensures planes == [] ==> r == rest
  {
    if rest.None? then None
    else
      assert [] + rest.value == rest.value;
      Some(planes + rest.value)
  }

  lemma FollowedNext(planes: seq<Plane>, p: Plane, rest: Option<seq<Plane>>)
    ensures Followed(planes, if rest.None? then None else Some([p] + rest.value)) == Followed(planes + [p], rest)
  {
    if rest.Some? {
      assert planes + ([p] + rest.value) == planes + [p] + rest.value;
    }
  }

  /** All planes of an image, primary components first, then a separate alpha plane if there is one. */
  method BuildPlanes(sources: seq<Source>) returns (r: Option<seq<Plane>>, lowLen: nat, sampleLen: nat)
    ensures r == PlanesOf(sources, 0, 0)
    ensures r.Some? ==> lowLen == ArenaEnd(r.value, 0, true) && sampleLen == ArenaEnd(r.value, 0, false)
  {
    hide PlaneOf, LowEnd, SampleEnd;
    var planes: seq<Plane> := [];
    lowLen, sampleLen := 0, 0;
    assert sources[0..] == sources;
    for k := 0 to |sources|
      invariant PlanesOf(sources, 0, 0) == Followed(planes, PlanesOf(sources[k..], lowLen, sampleLen))
      invariant lowLen == ArenaEnd(planes, 0, true) && sampleLen == ArenaEnd(planes, 0, false)
    {
      assert sources[k..][1..] == sources[k + 1..];
      var plane, low, sample := BuildPlane(sources[k], lowLen, sampleLen);
      if plane.None? {
        return None, lowLen, sampleLen;
      }
      FollowedNext(planes, plane.value, PlanesOf(sources[k + 1..], low, sample));
      planes, lowLen, sampleLen := planes + [plane.value], low, sample;
    }
    assert planes + [] == planes;
    return Some(planes), lowLen, sampleLen;
  }

  function ArenaEnd(planes: seq<Plane>, start: nat, low: bool): nat {
    if planes == [] then start
    else if low then LowEnd(planes[|planes| - 1])
    else SampleEnd(planes[|planes| - 1])
  }

  /** Planes in order, each starting at an aligned position past the end of the one before. */
  ghost predicate Placed(planes: seq<Plane>, lowLen: nat, sampleLen: nat) {
    forall k :: 0 <= k < |planes| ==>
      && ValidPlane(planes[k])
      && planes[k].lowOffset % ALIGNMENT == 0 && planes[k].sampleOffset % ALIGNMENT == 0
      && planes[k].lowOffset >= ArenaEnd(planes[..k], lowLen, true)
      && planes[k].sampleOffset >= ArenaEnd(planes[..k], sampleLen, false)
  }

  lemma PlaneOfShape(s: Source, lowLen: nat, sampleLen: nat) returns (w: PlaneWindow)
    requires PlaneOf(s, lowLen, sampleLen).Some?
    ensures SupportedGeometry(s.blockColumns, s.blockRows) && RangeInside(s)
    ensures var xs, ys := s.codedX[s.offset..s.offset + s.count], s.codedY[s.offset..s.offset + s.count];
      NoRepeat(xs, ys) && BoundingWindow(xs, ys, s.blockColumns, s.blockRows) == Some(w)
    ensures Align(lowLen).Some? && Align(sampleLen).Some?
    ensures PlaneOf(s, lowLen, sampleLen).value == PlaneAt(s, w, Align(lowLen).value, Align(sampleLen).value)
  {
    hide LowEnd, SampleEnd, NoRepeat, BoundingWindow, Align;
    var xs, ys := s.codedX[s.offset..s.offset + s.count], s.codedY[s.offset..s.offset + s.count];
    w := BoundingWindow(xs, ys, s.blockColumns, s.blockRows).value;
  }

  lemma PlaneOfValid(s: Source, lowLen: nat, sampleLen: nat)
    requires PlaneOf(s, lowLen, sampleLen).Some?
    ensures var p := PlaneOf(s, lowLen, sampleLen).value;
      && ValidPlane(p) && p.lowOffset >= lowLen && p.sampleOffset >= sampleLen
      && p.lowOffset % ALIGNMENT == 0 && p.sampleOffset % ALIGNMENT == 0
  {
    hide PlaneOf, BoundingWindow, NoRepeat, Cells;
    var w := PlaneOfShape(s, lowLen, sampleLen);
    var xs, ys := s.codedX[s.offset..s.offset + s.count], s.codedY[s.offset..s.offset + s.count];
    WindowFacts(xs, ys, s.blockColumns, s.blockRows, w);
    WindowSides(xs, ys, s.blockColumns, s.blockRows, w);
  }

  lemma WindowSides(xs: seq<nat>, ys: seq<nat>, blockColumns: nat, blockRows: nat, w: PlaneWindow)
    requires |xs| == |ys| && BoundingWindow(xs, ys, blockColumns, blockRows) == Some(w)
    ensures w.sampleWidth == w.macroblocksX * (blockColumns * 4) <= U32_MAX
    ensures w.sampleHeight == w.macroblocksY * (blockRows * 4) <= U32_MAX
  {
    hide Minimum, Maximum;
    Regroup(w.macroblocksX, blockColumns);
    Regroup(w.macroblocksY, blockRows);
  }

  lemma Regroup(a: nat, b: nat)
    ensures a * b * 4 == a * (b * 4)
  {}

  lemma {:induction false} PlanesPlaced(sources: seq<Source>, lowLen: nat, sampleLen: nat)
    ensures var r := PlanesOf(sources, lowLen, sampleLen); r.Some? ==>
      |r.value| == |sources| && Placed(r.value, lowLen, sampleLen)
  {
    hide LowEnd, SampleEnd, PlaneOf, ValidPlane;
    if sources != [] && PlanesOf(sources, lowLen, sampleLen).Some? {
      PlaneOfValid(sources[0], lowLen, sampleLen);
      var p := PlaneOf(sources[0], lowLen, sampleLen).value;
      PlanesPlaced(sources[1..], LowEnd(p), SampleEnd(p));
      var rest := PlanesOf(sources[1..], LowEnd(p), SampleEnd(p)).value;
      forall k | 1 <= k < |sources|
        ensures ArenaEnd(([p] + rest)[..k], lowLen, true) == ArenaEnd(rest[..k - 1], LowEnd(p), true)
        ensures ArenaEnd(([p] + rest)[..k], sampleLen, false) == ArenaEnd(rest[..k - 1], SampleEnd(p), false)
      {
        assert ([p] + rest)[..k] == [p] + rest[..k - 1];
      }
    }
  }

  /** No two planes of a plan share a cell of either arena, and every plane ends within the lengths reserved. */
  lemma {:induction false} PlanesDisjoint(planes: seq<Plane>, lowLen: nat, sampleLen: nat, j: nat, k: nat)
    requires Placed(planes, lowLen, sampleLen) && j < k < |planes|
    ensures LowEnd(planes[j]) <= planes[k].lowOffset
    ensures SampleEnd(planes[j]) <= planes[k].sampleOffset
    decreases k
  {
    hide ValidPlane;
    assert planes[..k][|planes[..k]| - 1] == planes[k - 1];
    if j < k - 1 {
      PlanesDisjoint(planes, lowLen, sampleLen, j, k - 1);
      assert LowEnd(planes[k - 1]) >= planes[k - 1].lowOffset;
    }
  }

  lemma PlanesInside(planes: seq<Plane>, lowLen: nat, sampleLen: nat, k: nat)
    requires Placed(planes, lowLen, sampleLen) && k < |planes|
    ensures LowEnd(planes[k]) <= ArenaEnd(planes, lowLen, true)
    ensures SampleEnd(planes[k]) <= ArenaEnd(planes, sampleLen, false)
  {
    if k < |planes| - 1 {
      PlanesDisjoint(planes, lowLen, sampleLen, k, |planes| - 1);
    }
  }
}
