/**
 Planes of small values. Every low plane of small values is what the first transform makes of some coefficients,
 and the second half of a reconstruction completes on such a plane.
 */
module SmallPlanes {
  import opened Wrappers
  import opened Arithmetic
  import opened Memory
  import opened Operators
  import opened Blocks
  import opened Bounds
  import opened Uniform
  import opened Phases
  import opened Prediction
  import opened Overlap
  import opened Regions
  import opened Passes
  import opened ExactTiling
  import opened OverlapPass
  import opened PlanePasses
  import opened Window
  import opened Kernels
  import opened CellGrid
  import opened Reconstruction
  import opened Lossless
  import L = Locality

  // ---- A plane's window filled in raster order ----

  /** The `g`-th macroblock: DC and low-pass coefficients only, no prediction, quantizers of one. */
  function GridRecord(p: Plane, g: nat): Macroblock
    requires ValidPlane(p)
  {
    Macroblock(p.originX + g % p.macroblocksX, p.originY + g / p.macroblocksX, g * BlockCount(p), 1, 0, 1, 1, 1)
  }

  function GridRecords(p: Plane): (ms: seq<Macroblock>)
    requires ValidPlane(p)
    ensures |ms| == p.macroblocksX * p.macroblocksY && forall g :: 0 <= g < |ms| ==> ms[g] == GridRecord(p, g)
  {
    seq(p.macroblocksX * p.macroblocksY, g requires 0 <= g < p.macroblocksX * p.macroblocksY => GridRecord(p, g))
  }

  lemma GridParts(p: Plane, g: nat)
    requires ValidPlane(p) && g < p.macroblocksX * p.macroblocksY
    ensures g % p.macroblocksX < p.macroblocksX && g / p.macroblocksX < p.macroblocksY
    ensures g == g / p.macroblocksX * p.macroblocksX + g % p.macroblocksX
    ensures InWindow(GridRecord(p, g), p)
  {
    var y, x := SplitPair(p.macroblocksX, p.macroblocksY, g);
    DivisionUnique(g, p.macroblocksX, y, x);
  }

  lemma GridFills(p: Plane)
    requires ValidPlane(p)
    ensures FillsWindow(GridRecords(p), p)
  {
    var ms := GridRecords(p);
    forall g | 0 <= g < |ms|
      ensures InWindow(ms[g], p) && g == g / p.macroblocksX * p.macroblocksX + g % p.macroblocksX
    {
      GridParts(p, g);
    }
    forall x: nat, y: nat | x < p.macroblocksX && y < p.macroblocksY
      ensures HasMacroblock(ms, p, x, y)
    {
      PairBelow(p.macroblocksX, y, x, p.macroblocksY);
      var g := y * p.macroblocksX + x;
      DivisionUnique(g, p.macroblocksX, y, x);
      assert ms[g].codedX == p.originX + x && ms[g].codedY == p.originY + y;
    }
  }

  // ---- Coefficients for a wanted low plane ----

  /** Small values, even where the first transform doubles, in the plane's range and nothing outside. */
  ghost predicate SmallLow(w: seq<int>, p: Plane)
    requires ValidPlane(p)
  {
    && LowEnd(p) <= |w| && (forall i :: 0 <= i < |w| ==> -16 <= w[i] <= 16 && w[i] % 2 == 0)
    && forall i :: 0 <= i < |w| && (i < p.lowOffset || LowEnd(p) <= i) ==> w[i] == 0
  }

  /** What a macroblock's transform must leave before doubling. */
  ghost function Wanted(p: Plane, w: seq<int>, g: nat): (e: seq<int>)
    requires ValidPlane(p) && SmallLow(w, p) && g < p.macroblocksX * p.macroblocksY
    ensures |e| == BlockCount(p)
    ensures forall k :: 0 <= k < |e| ==> Small(e[k], 16)
    ensures Doubled(p, e) == seq(BlockCount(p), k requires 0 <= k < BlockCount(p) => LowValue(p, w, g, k))
  {
    var e := seq(BlockCount(p), k requires 0 <= k < BlockCount(p) =>
      if p.scaled then LowValue(p, w, g, k) / 2 else LowValue(p, w, g, k));
    assert forall k :: 0 <= k < BlockCount(p) ==> LowValue(p, w, g, k) % 2 == 0;
    e
  }

  ghost function LowValue(p: Plane, w: seq<int>, g: nat, k: nat): (v: int)
    requires ValidPlane(p) && SmallLow(w, p) && g < p.macroblocksX * p.macroblocksY && k < BlockCount(p)
    ensures -16 <= v <= 16 && v % 2 == 0
  {
    GridParts(p, g);
    LowCellInside(p, GridRecord(p, g), k);
    w[LowCell(p, GridRecord(p, g), k)]
  }

  /** The encoder's transform of a subsampled macroblock. */
  ghost function Transformed(p: Plane, e: seq<int>): (c: seq<int>)
    requires ValidPlane(p) && p.blockColumns == 2 && |e| == BlockCount(p)
    ensures |c| == BlockCount(p)
  {
    if p.blockRows == 2 then ForwardChroma420(e) else ForwardChroma422(e)
  }

  ghost function Coefficients(p: Plane, w: seq<int>): (packed: seq<int>)
    requires ValidPlane(p) && p.blockColumns == 2 && SmallLow(w, p)
    ensures |packed| == p.macroblocksX * p.macroblocksY * BlockCount(p)
  {
    var cells := p.macroblocksX * p.macroblocksY;
    seq(cells * BlockCount(p), i requires 0 <= i < cells * BlockCount(p) =>
      CoefficientParts(cells, BlockCount(p), i);
      Transformed(p, Wanted(p, w, i / BlockCount(p)))[i % BlockCount(p)])
  }

  lemma CoefficientParts(cells: nat, count: nat, i: nat)
    requires count > 0 && i < cells * count
    ensures i / count < cells && i % count < count
  {
    var g, k := SplitPair(count, cells, i);
    DivisionUnique(i, count, g, k);
  }

  lemma CoefficientAt(p: Plane, w: seq<int>, g: nat, k: nat)
    requires ValidPlane(p) && p.blockColumns == 2 && SmallLow(w, p) && g < p.macroblocksX * p.macroblocksY && k < BlockCount(p)
    ensures g * BlockCount(p) + k < |Coefficients(p, w)|
    ensures Coefficients(p, w)[g * BlockCount(p) + k] == Transformed(p, Wanted(p, w, g))[k]
  {
    PartsAt(BlockCount(p), g, k, p.macroblocksX * p.macroblocksY);
    hide Transformed, Wanted, SmallLow, BlockCount, ValidPlane;
    var i := g * BlockCount(p) + k;
    assert i / BlockCount(p) == g && i % BlockCount(p) == k;
  }

  lemma PartsAt(count: nat, g: nat, k: nat, cells: nat)
    requires k < count && g < cells
    ensures g * count + k < cells * count && (g * count + k) / count == g && (g * count + k) % count == k
  {
    PairBelow(count, g, k, cells);
    DivisionUnique(g * count + k, count, g, k);
  }

  /** The plane's job with those macroblocks and both overlap passes. */
  function GridJob(p: Plane, hard: bool, tileColumns: seq<nat>, tileRows: seq<nat>): Job
    requires ValidPlane(p)
  {
    Job(p, GridRecords(p), Two, hard, tileColumns, tileRows, INVERSE_PERMUTATION)
  }

  /** A geometry whose passes can both be planned. */
  ghost predicate Schedulable(p: Plane, hard: bool, tileColumns: seq<nat>, tileRows: seq<nat>) {
    && ValidPlane(p) && TileGrid(tileColumns, tileRows)
    && FirstSchedule(p, hard, tileColumns, tileRows).Some? && SecondSchedule(p, hard, tileColumns, tileRows).Some?
  }

  /** The job's coefficients are the arena's first. */
  lemma GridJobValid(p: Plane, hard: bool, tileColumns: seq<nat>, tileRows: seq<nat>, packed: nat, low: nat, samples: nat)
    requires Schedulable(p, hard, tileColumns, tileRows) && LowEnd(p) <= low && SampleEnd(p) <= samples
    requires p.blockColumns == 2 && p.macroblocksX * p.macroblocksY * BlockCount(p) <= packed
    ensures ValidJob(GridJob(p, hard, tileColumns, tileRows), packed, low, samples)
  {
    hide FirstSchedule, SecondSchedule, TileGrid, FillsWindow, LowEnd, SampleEnd;
    GridFills(p);
    InversePermutationValid();
    var ms := GridRecords(p);
    forall g | 0 <= g < |ms|
      ensures Ready(ms[g], p, packed)
    {
      GridParts(p, g);
      PairBelow(BlockCount(p), g, BlockCount(p) - 1, p.macroblocksX * p.macroblocksY);
    }
  }

  /** What the first transform of a macroblock reads: the encoder's coefficients, and zeros beyond. */
  lemma InputIs(p: Plane, w: seq<int>, packed: seq<int>, g: nat)
    requires ValidPlane(p) && p.blockColumns == 2 && SmallLow(w, p) && g < p.macroblocksX * p.macroblocksY
    requires Coefficients(p, w) <= packed && Ready(GridRecord(p, g), p, |packed|)
    ensures LowInput(packed, GridRecord(p, g), p)[..BlockCount(p)] == Transformed(p, Wanted(p, w, g))
    ensures AllFit(LowInput(packed, GridRecord(p, g), p))
  {
    var m := GridRecord(p, g);
    var c := Transformed(p, Wanted(p, w, g));
    TransformedFits(p, Wanted(p, w, g));
    CountSmall(p);
    hide Coefficients, SmallLow, Wanted, Transformed, ValidPlane, BlockCount, LowInputAt, GridRecord;
    forall k: nat | k < 16
      ensures LowInputAt(packed, m, p, k) == if k < BlockCount(p) then c[k] else 0
    {
      InputAt(p, w, packed, g, k);
    }
    var v := LowInput(packed, m, p);
    assert v[..BlockCount(p)] == c;
  }

  lemma InputAt(p: Plane, w: seq<int>, packed: seq<int>, g: nat, k: nat)
    requires ValidPlane(p) && p.blockColumns == 2 && SmallLow(w, p) && g < p.macroblocksX * p.macroblocksY && k < 16
    requires Coefficients(p, w) <= packed && Ready(GridRecord(p, g), p, |packed|)
    ensures LowInputAt(packed, GridRecord(p, g), p, k) == if k < BlockCount(p) then Transformed(p, Wanted(p, w, g))[k] else 0
  {
    hide Coefficients, SmallLow, Wanted, Transformed;
    if k < BlockCount(p) {
      CoefficientAt(p, w, g, k);
    }
  }

  lemma CountSmall(p: Plane)
    requires ValidPlane(p) && p.blockColumns == 2
    ensures BlockCount(p) == if p.blockRows == 2 then 4 else 8
  {}

  lemma TransformedFits(p: Plane, e: seq<int>)
    requires ValidPlane(p) && p.blockColumns == 2 && |e| == BlockCount(p) && forall k :: 0 <= k < |e| ==> Small(e[k], 16)
    ensures forall k :: 0 <= k < |e| ==> FitsI32(Transformed(p, e)[k])
  {
    hide ForwardChroma420, ForwardChroma422, Chroma422Fits, FitsT2x2h;
    CountSmall(p);
    if p.blockRows == 2 {
      Chroma420Bound(e);
    } else {
      Chroma422Bound(e);
    }
  }

  /** The decoder's transform takes the coefficients back to the wanted values. */
  lemma TransformBack(table: seq<nat>, p: Plane, e: seq<int>, v: seq<int>)
    requires ValidPlane(p) && p.blockColumns == 2 && |e| == BlockCount(p) && forall k :: 0 <= k < |e| ==> Small(e[k], 16)
    requires IsPermutation(table) && |v| == 16 && v[..BlockCount(p)] == Transformed(p, e)
    ensures FirstTransformed(table, p, v) == e && FirstTransformFits(table, p, v)
  {
    hide ForwardChroma420, ForwardChroma422, Chroma420, Chroma422, Chroma422Fits, FitsT2x2h, CoreFits, CoreTransform;
    CountSmall(p);
    if p.blockRows == 2 {
      Chroma420Bound(e);
      Chroma420Reversible(e);
    } else {
      Chroma422Bound(e);
      Chroma422Redone(e);
    }
  }

  /** A macroblock's first transform completes and leaves the wanted values. */
  lemma FirstLeaves(p: Plane, w: seq<int>, packed: seq<int>, g: nat)
    requires ValidPlane(p) && p.blockColumns == 2 && SmallLow(w, p) && g < p.macroblocksX * p.macroblocksY
    requires Coefficients(p, w) <= packed && Ready(GridRecord(p, g), p, |packed|) && IsPermutation(INVERSE_PERMUTATION)
    ensures FirstFits(INVERSE_PERMUTATION, packed, GridRecord(p, g), p)
    ensures forall k: nat :: k < BlockCount(p) ==>
      FirstExact(INVERSE_PERMUTATION, packed, GridRecord(p, g), p)[k] == LowValue(p, w, g, k)
  {
    var m, e := GridRecord(p, g), Wanted(p, w, g);
    hide Coefficients, SmallLow, Wanted, LowInput, FirstTransformed, FirstTransformFits, Transformed, LowValue;
    InputIs(p, w, packed, g);
    TransformBack(INVERSE_PERMUTATION, p, e, LowInput(packed, m, p));
    forall k: nat | k < BlockCount(p)
      ensures FirstExact(INVERSE_PERMUTATION, packed, m, p)[k] == LowValue(p, w, g, k)
    {
      assert Doubled(p, e)[k] == LowValue(p, w, g, k);
    }
  }

  lemma RecordFits(p: Plane, w: seq<int>, packed: seq<int>, samples: nat, job: Job, g: nat)
    requires ValidPlane(p) && p.blockColumns == 2 && SmallLow(w, p) && Coefficients(p, w) <= packed
    requires job.plane == p && job.macroblocks == GridRecords(p) && job.table == INVERSE_PERMUTATION
    requires ValidJob(job, |packed|, |w|, samples) && g < |job.macroblocks|
    ensures Ready(job.macroblocks[g], p, |packed|) && IsPermutation(job.table)
    ensures FirstFits(job.table, packed, job.macroblocks[g], p)
  {
    hide Coefficients, FirstFits, FirstExact, ValidJob, SmallLow, INVERSE_PERMUTATION, IsPermutation;
    RecordReady(job, |packed|, |w|, samples, g);
    FirstLeaves(p, w, packed, g);
  }

  lemma FirstStageRuns(p: Plane, w: seq<int>, packed: seq<int>, samples: nat, job: Job)
    requires ValidPlane(p) && p.blockColumns == 2 && SmallLow(w, p) && Coefficients(p, w) <= packed
    requires job.plane == p && job.macroblocks == GridRecords(p) && job.table == INVERSE_PERMUTATION
    requires ValidJob(job, |packed|, |w|, samples)
    ensures FirstStage(job, packed, Zeros(|w|), samples).Some?
  {
    hide Coefficients, FirstStage, FirstFits, FirstExact, ValidJob, SmallLow, INVERSE_PERMUTATION, Zeros;
    forall m: Macroblock | m in job.macroblocks
      ensures Ready(m, p, |packed|) && IsPermutation(job.table) && FirstFits(job.table, packed, m, p)
    {
      var g: nat :| g < |job.macroblocks| && job.macroblocks[g] == m;
      RecordFits(p, w, packed, samples, job, g);
    }
    FirstStageCompletes(job, packed, Zeros(|w|), samples);
  }

  /** From an empty buffer the first stage leaves the wanted low plane. */
  lemma FirstStageLeaves(p: Plane, w: seq<int>, packed: seq<int>, samples: nat, job: Job)
    requires ValidPlane(p) && p.blockColumns == 2 && SmallLow(w, p) && Coefficients(p, w) <= packed
    requires job.plane == p && job.macroblocks == GridRecords(p) && job.table == INVERSE_PERMUTATION
    requires ValidJob(job, |packed|, |w|, samples)
    ensures FirstStage(job, packed, Zeros(|w|), samples) == Some(w)
  {
    FirstStageRuns(p, w, packed, samples, job);
    var after := FirstStage(job, packed, Zeros(|w|), samples).value;
    forall i | 0 <= i < |w|
      ensures after[i] == w[i]
    {
      hide ValidJob, Coefficients, FirstStage, FirstFits, FirstExact, LowEnd, SampleEnd, LowCell, Ready;
      if p.lowOffset <= i < LowEnd(p) {
        hide SmallLow;
        var g, k := LowReached(job, |packed|, |w|, samples, i);
        RecordReady(job, |packed|, |w|, samples, g);
        FirstStageAt(job, packed, Zeros(|w|), samples, g, k);
        FirstLeaves(p, w, packed, g);
        LowValueIs(p, w, g, k, i);
      } else {
        FirstOutside(job, packed, Zeros(|w|), samples, i);
      }
    }
    assert after == w;
  }

  lemma RecordReady(job: Job, packed: nat, low: nat, samples: nat, g: nat)
    requires ValidJob(job, packed, low, samples) && g < |job.macroblocks|
    ensures Ready(job.macroblocks[g], job.plane, packed) && IsPermutation(job.table)
  {
    hide FillsWindow, TileGrid, LowEnd, SampleEnd, FirstSchedule, SecondSchedule;
  }

  lemma LowValueIs(p: Plane, w: seq<int>, g: nat, k: nat, i: nat)
    requires ValidPlane(p) && SmallLow(w, p) && g < p.macroblocksX * p.macroblocksY && k < BlockCount(p)
    requires InWindow(GridRecord(p, g), p) && LowCell(p, GridRecord(p, g), k) == i < |w|
    ensures LowValue(p, w, g, k) == w[i]
  {
    hide SmallLow, LowCell;
  }

  lemma FirstOutside(job: Job, packed: seq<int>, low: seq<int>, samples: nat, i: nat)
    requires ValidJob(job, |packed|, |low|, samples) && FirstStage(job, packed, low, samples).Some?
    requires (i < job.plane.lowOffset || LowEnd(job.plane) <= i) && i < |low|
    ensures FirstStage(job, packed, low, samples).value[i] == low[i]
  {
    var part: L.Part := cell => cell == i;
    FirstItemsSound(job, packed, |low|, samples);
    FirstItemsWrite(job, packed, low := |low|, samples := samples);
    var items := FirstItems(job, packed);
    hide ValidJob, FirstItems, ValidItem, Independent, LowEnd;
    forall k | 0 <= k < |items|
      ensures L.Avoids(items[k], part)
    {}
    L.RunFrame(items, low, part);
  }

  // ---- The second half ----

  /** Low values of which each block makes a uniform square of samples between minus one and one. */
  ghost predicate Quarters(low: seq<int>, p: Plane) {
    LowEnd(p) <= |low| && forall i :: p.lowOffset <= i < LowEnd(p) ==> -4 <= low[i] <= 4 && low[i] % 4 == 0
  }

  /** Without high-pass coefficients there is nothing to predict. */
  lemma NothingHigh(packed: seq<int>, m: Macroblock, p: Plane)
    requires Ready(m, p, |packed|) && m.bands < 2
    ensures HighFits(packed, m, p) && forall i :: 0 <= i < BlockCount(p) * 16 ==> HighPredicted(packed, m, p)[i] == 0
  {
    var h := HighInput(packed, m, p);
    hide PredictedAt;
    forall i | 0 <= i < |h|
      ensures PredictedAt(NoPrediction, p.blockColumns, BlockCount(p), h, i) == 0
    {
      PredictedStays(NoPrediction, p.blockColumns, BlockCount(p), h, i);
    }
  }

  lemma DcBlock(table: seq<nat>, v: seq<int>)
    requires IsPermutation(table) && table[0] == 0 && |v| == 16 && -4 <= v[0] <= 4 && v[0] % 4 == 0
    requires forall k :: 0 < k < 16 ==> v[k] == 0
    ensures CoreFits(table, v) && forall i :: 0 <= i < 16 ==> -1 <= CoreTransform(table, v)[i] <= 1
  {
    hide CoreFits, CoreTransform, IsPermutation;
    CoreNeverOverflows(table, v);
    DcUniform(table, v);
  }

  /** A block with only a DC value of which every sample is a quarter. */
  lemma QuarterBlock(table: seq<nat>, high: seq<int>, low: int, m: Macroblock, block: nat)
    requires IsPermutation(table) && table[0] == 0 && block * 16 + 16 <= |high| && -4 <= low <= 4 && low % 4 == 0
    requires forall i :: 0 <= i < |high| ==> high[i] == 0
    ensures SecondFits(table, high, low, m, block)
    ensures forall i :: 0 <= i < 16 ==> -1 <= SecondExact(table, high, low, m, block)[i] <= 1
  {
    hide CoreFits, CoreTransform, IsPermutation;
    DcBlock(table, SecondInput(high, low, m, block));
  }

  lemma QuarterGroup(table: seq<nat>, p: Plane, packed: seq<int>, low: seq<int>, m: Macroblock)
    requires Ready(m, p, |packed|) && m.bands < 2 && IsPermutation(table) && table[0] == 0 && Quarters(low, p)
    requires LowPlaneHolds(p, m, |low|)
    ensures GroupFits(table, packed, low, m, p)
    ensures forall i :: 0 <= i < BlockCount(p) * 16 ==> -1 <= GroupExact(table, packed, low, m, p)[i] <= 1
  {
    hide SecondFits, SecondExact, LowCell, HighFits, HighPredicted, IsPermutation, LowEnd;
    NothingHigh(packed, m, p);
    forall block: nat | block < BlockCount(p)
      ensures SecondFits(table, HighPredicted(packed, m, p), low[LowCell(p, m, block)], m, block)
      ensures forall i :: 0 <= i < 16 ==>
        -1 <= SecondExact(table, HighPredicted(packed, m, p), low[LowCell(p, m, block)], m, block)[i] <= 1
    {
      LowCellInside(p, m, block);
      QuarterBlock(table, HighPredicted(packed, m, p), low[LowCell(p, m, block)], m, block);
    }
  }

  /** The second stage completes and leaves samples between minus one and one. */
  lemma SecondStageSmall(job: Job, packed: seq<int>, low: seq<int>, samples: nat)
    requires ValidJob(job, |packed|, |low|, samples) && Quarters(low, job.plane)
    requires |job.table| == 16 && job.table[0] == 0 && forall g :: 0 <= g < |job.macroblocks| ==> job.macroblocks[g].bands < 2
    ensures SecondStage(job, packed, low, Zeros(samples)).Some?
    ensures forall i :: 0 <= i < samples ==> -1 <= SecondStage(job, packed, low, Zeros(samples)).value[i] <= 1
  {
    var p := job.plane;
    hide SecondStage, GroupFits, GroupExact, SecondSchedule, FirstSchedule, TileGrid, LowEnd, SampleEnd, FillsWindow,
         AllReady, SampleCell, Quarters, LowPlaneHolds;
    forall m: Macroblock | m in job.macroblocks
      ensures MacroblockFits(job, packed, low, m)
    {
      var g: nat :| g < |job.macroblocks| && job.macroblocks[g] == m;
      RecordReady(job, |packed|, |low|, samples, g);
      LowHeld(p, m, |low|);
      QuarterGroup(job.table, p, packed, low, m);
    }
    SecondStageCompletes(job, packed, low, Zeros(samples));
    var after := SecondStage(job, packed, low, Zeros(samples)).value;
    forall i | 0 <= i < samples
      ensures -1 <= after[i] <= 1
    {
      if p.sampleOffset <= i < SampleEnd(p) {
        var g, j := SampleReached(job, |packed|, |low|, samples, i);
        RecordReady(job, |packed|, |low|, samples, g);
        SecondStageAt(job, packed, low, Zeros(samples), g, j);
        QuarterGroup(job.table, p, packed, low, job.macroblocks[g]);
      } else {
        SecondOutside(job, packed, low, Zeros(samples), i);
      }
    }
  }

  lemma SecondOutside(job: Job, packed: seq<int>, low: seq<int>, samples: seq<int>, i: nat)
    requires ValidJob(job, |packed|, |low|, |samples|) && SecondStage(job, packed, low, samples).Some?
    requires (i < job.plane.sampleOffset || SampleEnd(job.plane) <= i) && i < |samples|
    ensures SecondStage(job, packed, low, samples).value[i] == samples[i]
  {
    var part: L.Part := cell => cell == i;
    SecondItemsSound(job, packed, low, |samples|);
    SecondItemsWrite(job, packed, low, |samples|);
    var items := SecondItems(job, packed, low);
    hide ValidJob, SecondItems, ValidItem, Independent, LowEnd, SampleEnd;
    forall k | 0 <= k < |items|
      ensures L.Avoids(items[k], part)
    {}
    L.RunFrame(items, samples, part);
  }

  // ---- The second pass ----

  /** No overlap filter overflows on such samples. */
  lemma FilterSmall(kind: nat, v: seq<int>)
    requires |v| == |Addresses(Work(0, 0, kind))| && forall i :: 0 <= i < |v| ==> -1 <= v[i] <= 1
    ensures FilterFits(kind, v)
  {
    hide Overlap4x4Fits, FitsOverlap4, FitsOverlap2x2, FitsOverlap2;
    if kind == 0 {
      OverlapNeverOverflows(v);
    } else if kind <= 2 {
      Overlap4NeverOverflows(v);
    } else if kind == 3 {
      ChromaFiltersNeverOverflow([0, 0], v);
    } else if kind == 4 {
      ChromaFiltersNeverOverflow(v, [0, 0, 0, 0]);
    }
  }

  /** A phase of filters that never meet completes on small samples. */
  lemma PhaseSmall(works: seq<Work>, memory: seq<int>, low: nat, high: nat)
    requires SoundPass(works, low, high) && high <= |memory| && ValidWorks(works, |memory|)
    requires forall i :: 0 <= i < |memory| ==> -1 <= memory[i] <= 1
    ensures PhaseRun(works, FilterFits, memory).Some?
  {
    SoundIndependent(works, FilterFits, low, high, |memory|);
    var items := WorkItems(works, FilterFits);
    hide SoundPass, FilterFits, Filter, Independent, Run, PhaseResult;
    forall k | 0 <= k < |items|
      ensures Computed(items[k], memory).Some?
    {
      var v := Gather(memory, Addresses(works[k]));
      SameShape(works[k]);
      FilterSmall(works[k].kind, v);
    }
    RunIsPhaseResult(items, memory);
  }

  lemma SecondPassSmall(job: Job, samples: seq<int>, packed: nat, low: nat)
    requires ValidJob(job, packed, low, |samples|) && !job.overlap.NoOverlap?
    requires forall i :: 0 <= i < |samples| ==> -1 <= samples[i] <= 1
    ensures SecondOverlap(job, samples, packed, low).Some?
  {
    var p := job.plane;
    SecondPassInside(p, job.hard, job.tileColumns, job.tileRows);
    var s := SecondSchedule(p, job.hard, job.tileColumns, job.tileRows).value;
    InsideValid(s, p.sampleOffset, SampleEnd(p), |samples|);
    SecondPassTiling(p, job.hard, job.tileColumns, job.tileRows);
    hide SecondSchedule, FirstSchedule, SoundPass, TileGrid, FillsWindow, AllReady, PassInside, LowEnd, ValidWorks;
    PhaseNothing(samples);
    PhaseSmall(s.filters, samples, p.sampleOffset, SampleEnd(p));
    PhaseNothing(PhaseRun(s.filters, FilterFits, samples).value);
  }

  lemma PhaseNothing(memory: seq<int>)
    ensures ValidWorks([], |memory|) && PhaseRun([], FilterFits, memory) == Some(memory)
  {
    WorkItemsValid([], FilterFits, |memory|);
  }
}
