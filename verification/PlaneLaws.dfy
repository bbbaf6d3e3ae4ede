/**
 Which windows and planes the plan constructors accept, without their bounding rectangle, and how many coefficients a
 macroblock has to bring.
 */
module PlaneLaws {
  import opened Wrappers
  import opened Words
  import opened Memory
  import opened Blocks
  import opened Regions
  import opened Window
  import opened Kernels

  // ---- Windows ----

  /** Every coordinate lies in the rectangle, and every cell of it holds exactly one. */
  ghost predicate FillsExactly(xs: seq<nat>, ys: seq<nat>, w: PlaneWindow)
    requires |xs| == |ys|
  {
    && w.macroblocksX >= 1 && w.macroblocksY >= 1
    && (forall k :: 0 <= k < |xs| ==> w.originX <= xs[k] < w.originX + w.macroblocksX)
    && (forall k :: 0 <= k < |xs| ==> w.originY <= ys[k] < w.originY + w.macroblocksY)
    && AllOccupied(xs, ys, w) && NoRepeat(xs, ys)
  }

  /** The rectangle and its samples have 32-bit sides. */
  predicate WordSized(w: PlaneWindow, blockColumns: nat, blockRows: nat) {
    && w.originX + w.macroblocksX <= 0xFFFF_FFFF && w.originY + w.macroblocksY <= 0xFFFF_FFFF
    && w.sampleWidth == w.macroblocksX * blockColumns * 4 <= 0xFFFF_FFFF
    && w.sampleHeight == w.macroblocksY * blockRows * 4 <= 0xFFFF_FFFF
  }

  lemma DistinctAtMost(table: seq<nat>, n: nat)
    requires Within(table, n) && Distinct(table)
    ensures |table| <= n
  {
    if |table| > n {
      AllReached(table[..n], n, table[n]);
    }
  }

  lemma FilledCount(xs: seq<nat>, ys: seq<nat>, w: PlaneWindow)
    requires |xs| == |ys| && FillsExactly(xs, ys, w)
    ensures |xs| == w.macroblocksX * w.macroblocksY
  {
    var cells, n := Cells(xs, ys, w), w.macroblocksX * w.macroblocksY;
    NoRepeatIsDistinct(xs, ys, w);
    forall k | 0 <= k < |xs|
      ensures cells[k] < n
    {
      CellBound(w, xs[k] - w.originX, ys[k] - w.originY);
    }
    DistinctAtMost(cells, n);
    forall i: nat | i < n
      ensures i in cells
    {
      CellHeld(xs, ys, w, i);
    }
    ReachingNeedsEntries(cells, n);
  }

  lemma CellHeld(xs: seq<nat>, ys: seq<nat>, w: PlaneWindow, i: nat)
    requires |xs| == |ys| && FillsExactly(xs, ys, w) && i < w.macroblocksX * w.macroblocksY
    ensures i in Cells(xs, ys, w)
  {
    var x, y := i % w.macroblocksX, i / w.macroblocksX;
    assert i == y * w.macroblocksX + x;
    if y >= w.macroblocksY {
      RowBound(w, x, y);
    }
    assert Occupied(xs, ys, w, x, y);
    var k :| 0 <= k < |xs| && xs[k] == w.originX + x && ys[k] == w.originY + y;
    assert Cells(xs, ys, w)[k] == i;
  }

  lemma FilledBounds(xs: seq<nat>, ys: seq<nat>, w: PlaneWindow)
    requires |xs| == |ys| && FillsExactly(xs, ys, w)
    ensures xs != [] && Minimum(xs) == w.originX && Minimum(ys) == w.originY
    ensures Maximum(xs) + 1 == w.originX + w.macroblocksX && Maximum(ys) + 1 == w.originY + w.macroblocksY
  {
    hide Minimum, Maximum, NoRepeat;
    assert Occupied(xs, ys, w, 0, 0);
    assert Occupied(xs, ys, w, w.macroblocksX - 1, w.macroblocksY - 1);
  }

  /** The plan accepts exactly the coordinates that fill a rectangle of 32-bit sides, one macroblock to a cell. */
  lemma WindowExactly(xs: seq<nat>, ys: seq<nat>, blockColumns: nat, blockRows: nat, w: PlaneWindow)
    requires |xs| == |ys|
    ensures AcceptedWindow(xs, ys, blockColumns, blockRows) == Some(w) <==>
      FillsExactly(xs, ys, w) && WordSized(w, blockColumns, blockRows)
  {
    hide Minimum, Maximum, NoRepeat, AllOccupied;
    if AcceptedWindow(xs, ys, blockColumns, blockRows) == Some(w) {
      WindowFacts(xs, ys, blockColumns, blockRows, w);
      WindowBijection(xs, ys, blockColumns, blockRows, w);
    }
    if FillsExactly(xs, ys, w) && WordSized(w, blockColumns, blockRows) {
      FilledCount(xs, ys, w);
      FilledBounds(xs, ys, w);
    }
  }

  // ---- Planes ----

  function WindowOfPlane(p: Plane): PlaneWindow {
    PlaneWindow(p.originX, p.originY, p.macroblocksX, p.macroblocksY, p.sampleWidth, p.sampleHeight)
  }

  /** The first multiple of 64 from a position on. */
  predicate FirstAligned(v: nat, from: nat) {
    from <= v < from + 64 && v % 64 == 0
  }

  /** The plane of a source past what is reserved already: what the plan promises of it. */
  ghost predicate PlaneFor(s: Source, lowLen: nat, sampleLen: nat, p: Plane) {
    && ((p.blockColumns == 4 && p.blockRows == 4) || (p.blockColumns == 2 && (p.blockRows == 4 || p.blockRows == 2)))
    && p.blockColumns == s.blockColumns && p.blockRows == s.blockRows && p.scaled == s.scaled
    && p.macroblockOffset == s.offset && p.macroblockCount == s.count
    && s.offset + s.count <= |s.codedX| && s.offset + s.count <= |s.codedY| && s.offset + s.count <= 0xFFFF_FFFF_FFFF_FFFF
    && FillsExactly(s.codedX[s.offset..s.offset + s.count], s.codedY[s.offset..s.offset + s.count], WindowOfPlane(p))
    && WordSized(WindowOfPlane(p), p.blockColumns, p.blockRows)
    && p.originX * (p.blockColumns * 4) <= 0xFFFF_FFFF && p.originY * (p.blockRows * 4) <= 0xFFFF_FFFF
    && FirstAligned(p.lowOffset, lowLen) && FirstAligned(p.sampleOffset, sampleLen)
    && p.lowOffset + p.macroblocksX * p.macroblocksY * (p.blockColumns * p.blockRows) <= 0xFFFF_FFFF_FFFF_FFFF
    && p.sampleOffset + p.sampleWidth * p.sampleHeight <= 0xFFFF_FFFF_FFFF_FFFF
  }

  lemma AlignedExactly(value: nat, v: nat)
    requires v <= 0xFFFF_FFFF_FFFF_FFFF
    ensures Align(value) == Some(v) <==> FirstAligned(v, value)
  {}

  lemma EndsAre(p: Plane)
    ensures LowEnd(p) == p.lowOffset + p.macroblocksX * p.macroblocksY * (p.blockColumns * p.blockRows)
    ensures SampleEnd(p) == p.sampleOffset + p.sampleWidth * p.sampleHeight
  {}

  /** The window of a source that is the plane's. */
  ghost predicate OwnWindow(s: Source, p: Plane) {
    && RangeInside(s)
    && AcceptedWindow(s.codedX[s.offset..s.offset + s.count], s.codedY[s.offset..s.offset + s.count],
                      s.blockColumns, s.blockRows) == Some(WindowOfPlane(p))
  }

  lemma OwnWindowExactly(s: Source, p: Plane)
    ensures OwnWindow(s, p) <==> (
      && RangeInside(s)
      && FillsExactly(s.codedX[s.offset..s.offset + s.count], s.codedY[s.offset..s.offset + s.count], WindowOfPlane(p))
      && WordSized(WindowOfPlane(p), s.blockColumns, s.blockRows))
  {
    hide AcceptedWindow, FillsExactly, WordSized;
    if RangeInside(s) {
      WindowExactly(s.codedX[s.offset..s.offset + s.count], s.codedY[s.offset..s.offset + s.count],
                    s.blockColumns, s.blockRows, WindowOfPlane(p));
    }
  }

  /** The plane the constructor would hand out for a window and places. */
  ghost predicate Fitting(p: Plane) {
    && LowEnd(p) <= USIZE_MAX && SampleEnd(p) <= USIZE_MAX
    && p.originX * (p.blockColumns * 4) <= U32_MAX && p.originY * (p.blockRows * 4) <= U32_MAX
  }

  lemma WindowFits(s: Source, w: PlaneWindow, lowLen: nat, sampleLen: nat)
    requires Align(lowLen).Some? && Align(sampleLen).Some?
    ensures Fitting(PlaneAt(s, w, Align(lowLen).value, Align(sampleLen).value)) <==> (
      RegionsFit(s, w, lowLen, sampleLen) && OriginFits(s, w))
  {
    hide Align, LowEnd, SampleEnd;
  }

  lemma PlaneOfWindow(s: Source, lowLen: nat, sampleLen: nat, w: PlaneWindow)
    requires SupportedGeometry(s.blockColumns, s.blockRows) && RangeInside(s)
    requires AcceptedWindow(s.codedX[s.offset..s.offset + s.count], s.codedY[s.offset..s.offset + s.count],
                            s.blockColumns, s.blockRows) == Some(w)
    ensures RegionsFit(s, w, lowLen, sampleLen) ==> Align(lowLen).Some? && Align(sampleLen).Some?
    ensures PlaneOf(s, lowLen, sampleLen) ==
      if RegionsFit(s, w, lowLen, sampleLen) && OriginFits(s, w) then Some(PlaneAt(s, w, Align(lowLen).value, Align(sampleLen).value)) else None
  {
    RegionsAligned(s, w, lowLen, sampleLen);
    hide AcceptedWindow, BoundingWindow, NoRepeat, Align, SupportedGeometry, RegionsFit, OriginFits, PlaneAt;
  }

  lemma RegionsAligned(s: Source, w: PlaneWindow, lowLen: nat, sampleLen: nat)
    ensures RegionsFit(s, w, lowLen, sampleLen) ==> Align(lowLen).Some? && Align(sampleLen).Some?
  {}

  lemma PlaneBuilt(s: Source, lowLen: nat, sampleLen: nat, p: Plane)
    ensures PlaneOf(s, lowLen, sampleLen) == Some(p) <==>
      && SupportedGeometry(s.blockColumns, s.blockRows) && OwnWindow(s, p)
      && Align(lowLen) == Some(p.lowOffset) && Align(sampleLen) == Some(p.sampleOffset)
      && p == PlaneAt(s, WindowOfPlane(p), p.lowOffset, p.sampleOffset) && Fitting(p)
  {
    hide AcceptedWindow, BoundingWindow, NoRepeat, Align, SupportedGeometry, Fitting;
    if SupportedGeometry(s.blockColumns, s.blockRows) && RangeInside(s) {
      var w := AcceptedWindow(s.codedX[s.offset..s.offset + s.count], s.codedY[s.offset..s.offset + s.count], s.blockColumns, s.blockRows);
      if w.Some? {
        PlaneOfWindow(s, lowLen, sampleLen, w.value);
        if Align(lowLen).Some? && Align(sampleLen).Some? {
          WindowFits(s, w.value, lowLen, sampleLen);
        } else {
          assert !RegionsFit(s, w.value, lowLen, sampleLen);
        }
        hide PlaneOf, RangeInside, RegionsFit, OriginFits;
      }
    }
  }

  /** A plane is accepted exactly when all of this holds, and then it is that plane. */
  lemma PlaneExactly(s: Source, lowLen: nat, sampleLen: nat, p: Plane)
    ensures PlaneOf(s, lowLen, sampleLen) == Some(p) <==> PlaneFor(s, lowLen, sampleLen, p)
  {
    PlaneBuilt(s, lowLen, sampleLen, p);
    OwnWindowExactly(s, p);
    EndsAre(p);
    hide PlaneOf, OwnWindow, FillsExactly, WordSized, Align, FirstAligned, LowEnd, SampleEnd;
    if p.lowOffset <= 0xFFFF_FFFF_FFFF_FFFF && p.sampleOffset <= 0xFFFF_FFFF_FFFF_FFFF {
      AlignedExactly(lowLen, p.lowOffset);
      AlignedExactly(sampleLen, p.sampleOffset);
    }
  }

  // ---- Coefficients ----

  /** The kernels load coefficient `i` of the arena for a macroblock of `count` blocks. */
  predicate Loads(m: Macroblock, count: nat, i: nat) {
    || i == m.offset
    || (m.bands == 1 && m.offset < i < m.offset + count)
    || (m.bands >= 2 && m.offset < i < m.offset + 16 * count)
  }

  /** The span the plan checks ends inside the arena exactly when every coefficient the kernels load is in it. */
  lemma SpanExactly(m: Macroblock, count: nat, size: nat)
    requires count >= 1
    ensures m.offset + Span(m.bands, count) <= size <==> forall i: nat :: Loads(m, count, i) ==> i < size
  {
    if forall i: nat :: Loads(m, count, i) ==> i < size {
      assert Loads(m, count, m.offset);
      assert m.bands == 1 ==> Loads(m, count, m.offset + count - 1);
      assert m.bands >= 2 ==> Loads(m, count, m.offset + 16 * count - 1);
    }
  }
}
