/** Planes without content: from zero coefficients the first transform of a plane leaves an empty low plane empty. */
module EmptyPlanes {
  import opened Wrappers
  import opened Memory
  import opened Operators
  import opened Blocks
  import opened Bounds
  import opened Uniform
  import opened Phases
  import opened Regions
  import opened ExactTiling
  import opened Window
  import opened Kernels
  import opened CellGrid
  import opened Reconstruction
  import opened SmallPlanes
  import opened Batch
  import L = Locality

  /** A geometry whose passes, those its mode runs, can be planned. */
  ghost predicate ValidGeometry(geo: Job) {
    && ValidPlane(geo.plane) && TileGrid(geo.tileColumns, geo.tileRows)
    && (geo.overlap.Two? ==> FirstSchedule(geo.plane, geo.hard, geo.tileColumns, geo.tileRows).Some?)
    && (!geo.overlap.NoOverlap? ==> SecondSchedule(geo.plane, geo.hard, geo.tileColumns, geo.tileRows).Some?)
  }

  /** The plane's window filled in raster order with macroblocks that share one DC coefficient. */
  function EmptyRecords(p: Plane, at: nat): (ms: seq<Macroblock>)
    requires ValidPlane(p)
    ensures |ms| == |GridRecords(p)|
    ensures forall g :: 0 <= g < |ms| ==> ms[g] == GridRecords(p)[g].(offset := at, bands := 0)
  {
    seq(|GridRecords(p)|, g requires 0 <= g < |GridRecords(p)| => GridRecords(p)[g].(offset := at, bands := 0))
  }

  function EmptyJob(geo: Job, at: nat): Job
    requires ValidPlane(geo.plane)
  {
    geo.(macroblocks := EmptyRecords(geo.plane, at), table := INVERSE_PERMUTATION)
  }

  lemma EmptyFills(p: Plane, at: nat)
    requires ValidPlane(p)
    ensures FillsWindow(EmptyRecords(p, at), p)
  {
    GridFills(p);
    var ms, grid := EmptyRecords(p, at), GridRecords(p);
    hide GridRecords, EmptyRecords;
    assert CodedX(ms) == CodedX(grid) && CodedY(ms) == CodedY(grid);
    forall x: nat, y: nat | x < p.macroblocksX && y < p.macroblocksY
      ensures HasMacroblock(ms, p, x, y)
    {
      assert HasMacroblock(grid, p, x, y);
      var g :| 0 <= g < |grid| && grid[g].codedX == p.originX + x && grid[g].codedY == p.originY + y;
      assert ms[g].codedX == p.originX + x;
    }
  }

  lemma EmptyJobValid(geo: Job, at: nat, packed: nat, low: nat, samples: nat)
    requires ValidGeometry(geo) && at < packed && LowEnd(geo.plane) <= low && SampleEnd(geo.plane) <= samples
    ensures ValidJob(EmptyJob(geo, at), packed, low, samples)
  {
    hide FirstSchedule, SecondSchedule, TileGrid, FillsWindow, LowEnd, SampleEnd;
    var p := geo.plane;
    EmptyFills(p, at);
    InversePermutationValid();
    var ms := EmptyRecords(p, at);
    forall g | 0 <= g < |ms|
      ensures Ready(ms[g], p, packed)
    {
      GridParts(p, g);
    }
  }

  lemma ZeroBlock(table: seq<nat>, v: seq<int>)
    requires IsPermutation(table) && table[0] == 0 && v == Zeros(16)
    ensures CoreFits(table, v) && CoreTransform(table, v) == v
  {
    hide CoreFits, CoreTransform, IsPermutation;
    CoreNeverOverflows(table, v);
    DcUniform(table, v);
  }

  lemma ZeroPieces(four: seq<int>, two: seq<int>)
    requires four == Zeros(4) && two == Zeros(2)
    ensures T2x2h(four, 0) == four && FitsT2x2h(four, 0) && InverseT2pt(two) == two && FitsT2pt(two)
  {
    ZeroKept(Hadamard(0), four);
    ZeroKept(HalfSum, two);
    hide T2x2h, FitsT2x2h, InverseT2pt, FitsT2pt;
  }

  lemma ZeroChroma420(four: seq<int>, two: seq<int>)
    requires four == Zeros(4) && two == Zeros(2)
    ensures FitsT2x2h(four, 0) && Chroma420(four) == four
  {
    hide T2x2h, FitsT2x2h, InverseT2pt, FitsT2pt, Zeros;
    ZeroPieces(four, two);
    assert [four[0], four[2], four[1], four[3]] == four;
  }

  lemma ZeroChroma422(four: seq<int>, two: seq<int>, eight: seq<int>)
    requires four == Zeros(4) && two == Zeros(2) && eight == Zeros(8)
    ensures Chroma422Fits(eight) && Chroma422(eight) == eight
  {
    hide T2x2h, FitsT2x2h, InverseT2pt, FitsT2pt, Zeros;
    ZeroPieces(four, two);
    assert [eight[0], eight[4]] == two;
    assert [two[0], eight[1], eight[2], eight[3]] == four && [two[1], eight[6], eight[5], eight[7]] == four;
    assert [four[0], four[2], four[1], four[3], four[0], four[1], four[2], four[3]] == eight;
  }

  /** Every first transform keeps zeros. */
  lemma ZeroTransformed(table: seq<nat>, p: Plane, v: seq<int>)
    requires ValidPlane(p) && IsPermutation(table) && table[0] == 0 && v == Zeros(16)
    ensures FirstTransformFits(table, p, v) && FirstTransformed(table, p, v) == Zeros(BlockCount(p))
  {
    hide CoreFits, CoreTransform, IsPermutation, Chroma420, Chroma422, Chroma422Fits, FitsT2x2h;
    ZeroBlock(table, v);
    assert v[..4] == Zeros(4) && v[..8] == Zeros(8);
    ZeroChroma420(v[..4], Zeros(2));
    ZeroChroma422(Zeros(4), Zeros(2), v[..8]);
  }

  lemma EmptyInput(packed: seq<int>, m: Macroblock, p: Plane)
    requires Ready(m, p, |packed|) && m.bands == 0 && packed[m.offset] == 0
    ensures LowInput(packed, m, p) == Zeros(16)
  {
    forall k | 0 <= k < 16
      ensures LowInput(packed, m, p)[k] == 0
    {}
  }

  lemma ZeroDoubled(p: Plane, n: nat)
    ensures Doubled(p, Zeros(n)) == Zeros(n)
  {}

  /** The first transform of a macroblock of one zero coefficient leaves cells that are empty as they are. */
  lemma EmptyItemIdle(job: Job, packed: seq<int>, low: seq<int>, m: Macroblock)
    requires Ready(m, job.plane, |packed|) && IsPermutation(job.table) && job.table[0] == 0
    requires m.bands == 0 && packed[m.offset] == 0 && ValidItem(FirstItem(job, packed, m), |low|)
    requires forall k: nat :: k < BlockCount(job.plane) && LowCell(job.plane, m, k) < |low| ==> low[LowCell(job.plane, m, k)] == 0
    ensures Idle(FirstItem(job, packed, m), low)
  {
    var cells := LowCells(job.plane, m);
    hide LowCell, LowInput, IsPermutation, FirstTransformed, FirstTransformFits, FirstItem, Doubled;
    EmptyInput(packed, m, job.plane);
    ZeroTransformed(job.table, job.plane, LowInput(packed, m, job.plane));
    ZeroDoubled(job.plane, BlockCount(job.plane));
    FirstItemShape(job, packed, m);
    FirstItemComputes(job, packed, m, low);
    hide Ready;
    assert FirstFits(job.table, packed, m, job.plane) && FirstExact(job.table, packed, m, job.plane) == Zeros(|cells|);
    hide FirstFits, FirstExact;
    assert Gather(low, cells) == Zeros(|cells|);
    GatherScatter(low, cells, Zeros(|cells|));
  }

  /** All first transforms of an empty plane leave a low buffer that is empty there as it is. */
  lemma EmptyListIdle(job: Job, geo: Job, at: nat, packed: seq<int>, low: seq<int>, samples: nat)
    requires ValidJob(job, |packed|, |low|, samples)
    requires ValidPlane(geo.plane) && job == EmptyJob(geo, at) && at < |packed| && packed[at] == 0
    requires forall i :: job.plane.lowOffset <= i < LowEnd(job.plane) && i < |low| ==> low[i] == 0
    ensures AllIdle(FirstItems(job, packed), low)
  {
    hide FirstSchedule, SecondSchedule, TileGrid, FillsWindow, FirstItem, LowEnd, SampleEnd, LowCell, Idle, Ready, ValidItem,
         Independent, IsPermutation;
    FirstItemsSound(job, packed, |low|, samples);
    forall g | 0 <= g < |job.macroblocks|
      ensures Idle(FirstItems(job, packed)[g], low)
    {
      EmptyCells(job, |packed|, low, samples, g);
      EmptyItemIdle(job, packed, low, job.macroblocks[g]);
    }
  }

  lemma EmptyCells(job: Job, packed: nat, low: seq<int>, samples: nat, g: nat)
    requires ValidJob(job, packed, |low|, samples) && g < |job.macroblocks|
    requires forall i :: job.plane.lowOffset <= i < LowEnd(job.plane) && i < |low| ==> low[i] == 0
    ensures Ready(job.macroblocks[g], job.plane, packed) && IsPermutation(job.table)
    ensures var m := job.macroblocks[g];
      forall k: nat :: k < BlockCount(job.plane) && LowCell(job.plane, m, k) < |low| ==> low[LowCell(job.plane, m, k)] == 0
  {
    RecordReady(job, packed, |low|, samples, g);
    hide ValidJob, LowEnd, LowCell, IsPermutation;
    var m := job.macroblocks[g];
    forall k: nat | k < BlockCount(job.plane)
      ensures job.plane.lowOffset <= LowCell(job.plane, m, k) < LowEnd(job.plane)
    {
      LowCellInside(job.plane, m, k);
    }
  }

  // ---- Lists that change nothing ----

  ghost predicate AllIdle(items: seq<Item>, memory: seq<int>) {
    forall i :: 0 <= i < |items| ==> Idle(items[i], memory)
  }

  /** When only one plane's list changes the memory, the lists of all planes together do what it does. */
  lemma {:induction false} DispatchOnly(lists: seq<seq<Item>>, order: seq<nat>, k: nat, before: seq<int>, after: seq<int>)
    requires Within(order, |lists|) && Distinct(order) && k < |lists| && |before| == |after|
    requires forall j :: 0 <= j < |lists| && j != k ==> AllIdle(lists[j], before) && AllIdle(lists[j], after)
    requires ValidItems(lists[k], |before|) && Run(lists[k], before) == Some(after)
    ensures ValidItems(Dispatch(lists, order), |before|)
    ensures Run(Dispatch(lists, order), before) == Some(if k in order then after else before)
  {
    hide Idle, ValidItem;
    if order != [] {
      hide Run, AllIdle;
      var init, last := order[..|order| - 1], order[|order| - 1];
      DispatchOnly(lists, init, k, before, after);
      assert k in order <==> k == last || k in init;
      var middle := if k in init then after else before;
      if last == k {
        assert k !in init;
      } else {
        IdleList(lists[last], middle);
      }
      L.RunConcat(Dispatch(lists, init), lists[last], before);
    }
  }

  lemma IdleList(items: seq<Item>, memory: seq<int>)
    requires AllIdle(items, memory)
    ensures ValidItems(items, |memory|) && Run(items, memory) == Some(memory)
  {
    IdleRun(items, memory);
  }
}
