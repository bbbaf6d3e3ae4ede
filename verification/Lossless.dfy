/**
 The whole chain from coefficients to samples loses nothing, writes every cell once, and sees nothing of
 what its recycled buffers held.
 */
module Lossless {
  import opened Blocks
  import opened Phases
  import opened Prediction
  import opened Regions
  import opened OverlapPass
  import opened PlanePasses
  import opened Window
  import opened Kernels
  import opened CellGrid
  import opened Reconstruction

  // ---- Every cell is written, once ----

  lemma LowReached(job: Job, packed: nat, low: nat, samples: nat, i: nat) returns (g: nat, k: nat)
    requires ValidJob(job, packed, low, samples) && job.plane.lowOffset <= i < LowEnd(job.plane)
    ensures g < |job.macroblocks| && k < BlockCount(job.plane) && LowCell(job.plane, job.macroblocks[g], k) == i
  {
    hide LowEnd, LowCell;
    var p, ms := job.plane, job.macroblocks;
    var x, y;
    x, y, k := LowCellReached(p, i);
    assert HasMacroblock(ms, p, x, y);
    g :| 0 <= g < |ms| && ms[g].codedX == p.originX + x && ms[g].codedY == p.originY + y;
  }

  lemma SampleReached(job: Job, packed: nat, low: nat, samples: nat, i: nat) returns (g: nat, j: nat)
    requires ValidJob(job, packed, low, samples) && job.plane.sampleOffset <= i < SampleEnd(job.plane)
    ensures g < |job.macroblocks| && j < BlockCount(job.plane) * 16
    ensures SampleCell(job.plane, job.macroblocks[g], j / 16, j % 16) == i
  {
    hide SampleEnd, SampleCell;
    var p, ms := job.plane, job.macroblocks;
    var x, y, block, k := SampleCellReached(p, i);
    assert HasMacroblock(ms, p, x, y);
    g :| 0 <= g < |ms| && ms[g].codedX == p.originX + x && ms[g].codedY == p.originY + y;
    j := block * 16 + k;
  }

  /** How many items store to a cell. */
  ghost function StoreCount(items: seq<Item>, cell: nat): nat {
    if items == [] then 0 else (if cell in items[0].stores then 1 else 0) + StoreCount(items[1..], cell)
  }

  lemma {:induction false} StoredOnce(items: seq<Item>, cell: nat, g: nat)
    requires g < |items| && cell in items[g].stores
    requires forall j, k :: 0 <= j < k < |items| && cell in items[j].stores ==> cell !in items[k].stores
    ensures StoreCount(items, cell) == 1
  {
    var rest := items[1..];
    forall k | 0 <= k < |rest|
      ensures rest[k] == items[k + 1]
    {}
    if g == 0 {
      NeverStored(rest, cell);
    } else {
      StoredOnce(rest, cell, g - 1);
    }
  }

  lemma {:induction false} NeverStored(items: seq<Item>, cell: nat)
    requires forall k :: 0 <= k < |items| ==> cell !in items[k].stores
    ensures StoreCount(items, cell) == 0
  {
    if items != [] {
      NeverStored(items[1..], cell);
    }
  }

  /** The first transforms store to each cell of the low plane exactly once, and nowhere else. */
  lemma LowWrittenOnce(job: Job, packed: seq<int>, low: nat, samples: nat, cell: nat)
    requires ValidJob(job, |packed|, low, samples)
    ensures StoreCount(FirstItems(job, packed), cell) ==
      if job.plane.lowOffset <= cell < LowEnd(job.plane) then 1 else 0
  {
    hide LowEnd, LowCell, FirstItem, ValidJob, AllReady;
    ItemsReady(job, |packed|, low, samples);
    FirstItemsWrite(job, packed, low, samples);
    var items := FirstItems(job, packed);
    if job.plane.lowOffset <= cell < LowEnd(job.plane) {
      var g, k := LowReached(job, |packed|, low, samples, cell);
      FirstItemShape(job, packed, job.macroblocks[g]);
      assert LowCells(job.plane, job.macroblocks[g])[k] == cell;
      StoredOnce(items, cell, g);
    } else {
      NeverStored(items, cell);
    }
  }

  lemma ItemsReady(job: Job, packed: nat, low: nat, samples: nat)
    requires ValidJob(job, packed, low, samples)
    ensures AllReady(job, packed) && IsPermutation(job.table) && ValidPlane(job.plane)
    ensures forall g :: 0 <= g < |job.macroblocks| ==> Ready(job.macroblocks[g], job.plane, packed)
    ensures forall g :: 0 <= g < |job.macroblocks| ==> InWindow(job.macroblocks[g], job.plane)
    ensures LowEnd(job.plane) <= low && SampleEnd(job.plane) <= samples
  {}

  /** The second transforms store to each sample of the plane exactly once, and nowhere else. */
  lemma SamplesWrittenOnce(job: Job, packed: seq<int>, low: seq<int>, samples: nat, cell: nat)
    requires ValidJob(job, |packed|, |low|, samples)
    ensures StoreCount(SecondItems(job, packed, low), cell) ==
      if job.plane.sampleOffset <= cell < SampleEnd(job.plane) then 1 else 0
  {
    hide LowEnd, SampleEnd, SampleCell, SecondItem, ValidJob, AllReady;
    ItemsReady(job, |packed|, |low|, samples);
    SecondItemsWrite(job, packed, low, samples);
    var items := SecondItems(job, packed, low);
    if job.plane.sampleOffset <= cell < SampleEnd(job.plane) {
      var g, j := SampleReached(job, |packed|, |low|, samples, cell);
      SecondItemShape(job, packed, low, job.macroblocks[g]);
      assert GroupCells(job.plane, job.macroblocks[g])[j] == cell;
      StoredOnce(items, cell, g);
    } else {
      NeverStored(items, cell);
    }
  }

  // ---- No stale scratch ----

  lemma FirstStageCompletes(job: Job, packed: seq<int>, low: seq<int>, samples: nat)
    requires ValidJob(job, |packed|, |low|, samples)
    ensures FirstStage(job, packed, low, samples).Some? <==>
      forall m: Macroblock :: m in job.macroblocks ==> FirstFits(job.table, packed, m, job.plane)
  {
    hide FirstFits, FirstExact, FirstItem, LowCells, ValidJob, PhaseResult, Independent, ValidItem;
    ItemsReady(job, |packed|, |low|, samples);
    var items := FirstItems(job, packed);
    FirstItemsSound(job, packed, |low|, samples);
    RunIsPhaseResult(items, low);
    forall g | 0 <= g < |items|
      ensures Computed(items[g], low).Some? <==> FirstFits(job.table, packed, job.macroblocks[g], job.plane)
    {
      FirstItemComputes(job, packed, job.macroblocks[g], low);
    }
  }

  ghost predicate MacroblockFits(job: Job, packed: seq<int>, low: seq<int>, m: Macroblock) {
    && Ready(m, job.plane, |packed|) && IsPermutation(job.table) && LowPlaneHolds(job.plane, m, |low|)
    && GroupFits(job.table, packed, low, m, job.plane)
  }

  lemma SecondStageCompletes(job: Job, packed: seq<int>, low: seq<int>, samples: seq<int>)
    requires ValidJob(job, |packed|, |low|, |samples|)
    ensures SecondStage(job, packed, low, samples).Some? <==>
      forall m :: m in job.macroblocks ==> MacroblockFits(job, packed, low, m)
  {
    hide GroupFits, GroupExact, SecondItem, GroupCells, ValidJob, PhaseResult, Independent, ValidItem, LowPlaneHolds;
    ItemsReady(job, |packed|, |low|, |samples|);
    var items := SecondItems(job, packed, low);
    SecondItemsSound(job, packed, low, |samples|);
    RunIsPhaseResult(items, samples);
    forall g | 0 <= g < |items|
      ensures Computed(items[g], samples).Some? <==> MacroblockFits(job, packed, low, job.macroblocks[g])
    {
      LowHeld(job.plane, job.macroblocks[g], |low|);
      SecondItemComputes(job, packed, low, job.macroblocks[g], samples);
    }
  }

  lemma FirstStageSame(job: Job, packed: seq<int>, one: seq<int>, two: seq<int>, samples: nat)
    requires ValidJob(job, |packed|, |one|, samples) && |two| == |one|
    requires FirstStage(job, packed, one, samples).Some?
    ensures FirstStage(job, packed, two, samples).Some?
    ensures SameRange(FirstStage(job, packed, one, samples).value, FirstStage(job, packed, two, samples).value,
                      job.plane.lowOffset, LowEnd(job.plane))
  {
    hide FirstFits, FirstExact, FirstStage, LowEnd, LowCell, ValidJob;
    ItemsReady(job, |packed|, |one|, samples);
    FirstStageCompletes(job, packed, one, samples);
    FirstStageCompletes(job, packed, two, samples);
    var a, b := FirstStage(job, packed, one, samples).value, FirstStage(job, packed, two, samples).value;
    forall i: nat | job.plane.lowOffset <= i < LowEnd(job.plane) && i < |a|
      ensures a[i] == b[i]
    {
      var g, k := LowReached(job, |packed|, |one|, samples, i);
      FirstStageAt(job, packed, one, samples, g, k);
      FirstStageAt(job, packed, two, samples, g, k);
    }
  }

  /** The second transform of a macroblock sees only its own cells of the low plane. */
  lemma GroupSame(table: seq<nat>, packed: seq<int>, one: seq<int>, two: seq<int>, m: Macroblock, p: Plane)
    requires Ready(m, p, |packed|) && IsPermutation(table) && LowPlaneHolds(p, m, |one|) && LowPlaneHolds(p, m, |two|)
    requires forall k: nat :: k < BlockCount(p) ==> one[LowCell(p, m, k)] == two[LowCell(p, m, k)]
    ensures GroupFits(table, packed, one, m, p) <==> GroupFits(table, packed, two, m, p)
    ensures GroupExact(table, packed, one, m, p) == GroupExact(table, packed, two, m, p)
  {
    hide SecondFits, SecondExact, LowCell, HighPredicted, HighFits;
  }

  lemma GroupSameRange(job: Job, packed: seq<int>, one: seq<int>, two: seq<int>, m: Macroblock)
    requires Ready(m, job.plane, |packed|) && IsPermutation(job.table) && LowEnd(job.plane) <= |one|
    requires LowPlaneHolds(job.plane, m, |one|) && LowPlaneHolds(job.plane, m, |two|)
    requires SameRange(one, two, job.plane.lowOffset, LowEnd(job.plane))
    ensures GroupFits(job.table, packed, one, m, job.plane) <==> GroupFits(job.table, packed, two, m, job.plane)
    ensures GroupExact(job.table, packed, one, m, job.plane) == GroupExact(job.table, packed, two, m, job.plane)
  {
    forall k: nat | k < BlockCount(job.plane)
      ensures one[LowCell(job.plane, m, k)] == two[LowCell(job.plane, m, k)]
    {
      LowCellInside(job.plane, m, k);
    }
    hide GroupFits, GroupExact, LowCell;
    GroupSame(job.table, packed, one, two, m, job.plane);
  }

  lemma SecondStageSame(job: Job, packed: seq<int>, lowOne: seq<int>, lowTwo: seq<int>, one: seq<int>, two: seq<int>)
    requires ValidJob(job, |packed|, |lowOne|, |one|) && |lowTwo| == |lowOne| && |two| == |one|
    requires SameRange(lowOne, lowTwo, job.plane.lowOffset, LowEnd(job.plane))
    requires SecondStage(job, packed, lowOne, one).Some?
    ensures SecondStage(job, packed, lowTwo, two).Some?
    ensures SameRange(SecondStage(job, packed, lowOne, one).value, SecondStage(job, packed, lowTwo, two).value,
                      job.plane.sampleOffset, SampleEnd(job.plane))
  {
    hide GroupFits, GroupExact, SecondStage, LowEnd, SampleEnd, SampleCell, ValidJob, LowPlaneHolds, SameRange;
    ItemsReady(job, |packed|, |lowOne|, |one|);
    SecondStageCompletes(job, packed, lowOne, one);
    SecondStageCompletes(job, packed, lowTwo, two);
    forall m | m in job.macroblocks
      ensures MacroblockFits(job, packed, lowTwo, m)
    {
      assert MacroblockFits(job, packed, lowOne, m);
      LowHeld(job.plane, m, |lowTwo|);
      GroupSameRange(job, packed, lowOne, lowTwo, m);
    }
    var a, b := SecondStage(job, packed, lowOne, one).value, SecondStage(job, packed, lowTwo, two).value;
    forall i: nat | job.plane.sampleOffset <= i < SampleEnd(job.plane) && i < |a|
      ensures a[i] == b[i]
    {
      var g, j := SampleReached(job, |packed|, |lowOne|, |one|, i);
      SecondStageAt(job, packed, lowOne, one, g, j);
      SecondStageAt(job, packed, lowTwo, two, g, j);
      GroupSameRange(job, packed, lowOne, lowTwo, job.macroblocks[g]);
    }
    SameFrom(a, b, job.plane.sampleOffset, SampleEnd(job.plane));
  }

  lemma SameFrom(a: seq<int>, b: seq<int>, low: nat, high: nat)
    requires |a| == |b| && forall i: nat :: low <= i < high && i < |a| ==> a[i] == b[i]
    ensures SameRange(a, b, low, high)
  {}

  lemma FirstOverlapSame(job: Job, one: seq<int>, two: seq<int>, packed: nat, samples: nat)
    requires ValidJob(job, packed, |one|, samples)
    requires SameRange(one, two, job.plane.lowOffset, LowEnd(job.plane))
    requires FirstOverlap(job, one, packed, samples).Some?
    ensures |one| == |two| && FirstOverlap(job, two, packed, samples).Some?
    ensures SameRange(FirstOverlap(job, one, packed, samples).value, FirstOverlap(job, two, packed, samples).value,
                      job.plane.lowOffset, LowEnd(job.plane))
  {
    SameLength(one, two, job.plane.lowOffset, LowEnd(job.plane));
    if job.overlap.Two? {
      hide RunPass, PassInside, LowEnd, SampleEnd, SameRange, FirstSchedule;
      var p := job.plane;
      FirstPassInside(p, job.hard, job.tileColumns, job.tileRows);
      var s := FirstSchedule(p, job.hard, job.tileColumns, job.tileRows).value;
      InsideValid(s, p.lowOffset, LowEnd(p), |one|);
      RunPassLocal(s, FilterFits, one, two, p.lowOffset, LowEnd(p));
    }
  }

  lemma SecondOverlapSame(job: Job, one: seq<int>, two: seq<int>, packed: nat, low: nat)
    requires ValidJob(job, packed, low, |one|)
    requires SameRange(one, two, job.plane.sampleOffset, SampleEnd(job.plane))
    requires SecondOverlap(job, one, packed, low).Some?
    ensures |one| == |two| && SecondOverlap(job, two, packed, low).Some?
    ensures SameRange(SecondOverlap(job, one, packed, low).value, SecondOverlap(job, two, packed, low).value,
                      job.plane.sampleOffset, SampleEnd(job.plane))
  {
    SameLength(one, two, job.plane.sampleOffset, SampleEnd(job.plane));
    if !job.overlap.NoOverlap? {
      hide RunPass, PassInside, LowEnd, SampleEnd, SameRange, SecondSchedule;
      var p := job.plane;
      SecondPassInside(p, job.hard, job.tileColumns, job.tileRows);
      var s := SecondSchedule(p, job.hard, job.tileColumns, job.tileRows).value;
      InsideValid(s, p.sampleOffset, SampleEnd(p), |one|);
      RunPassLocal(s, FilterFits, one, two, p.sampleOffset, SampleEnd(p));
    }
  }

  /** Whatever the recycled buffers held, a reconstruction completes alike and leaves the same samples. */
  lemma NoStaleScratch(job: Job, packed: seq<int>, lowOne: seq<int>, lowTwo: seq<int>, one: seq<int>, two: seq<int>)
    requires ValidJob(job, |packed|, |lowOne|, |one|) && |lowTwo| == |lowOne| && |two| == |one|
    requires Reconstruct(job, packed, lowOne, one).Some?
    ensures Reconstruct(job, packed, lowTwo, two).Some?
    ensures SameRange(Reconstruct(job, packed, lowOne, one).value, Reconstruct(job, packed, lowTwo, two).value,
                      job.plane.sampleOffset, SampleEnd(job.plane))
  {
    hide FirstStage, FirstOverlap, SecondStage, SecondOverlap, ValidJob, SameRange, LowEnd, SampleEnd;
    FirstStageSame(job, packed, lowOne, lowTwo, |one|);
    var a1, b1 := FirstStage(job, packed, lowOne, |one|).value, FirstStage(job, packed, lowTwo, |one|).value;
    FirstOverlapSame(job, a1, b1, |packed|, |one|);
    var a2, b2 := FirstOverlap(job, a1, |packed|, |one|).value, FirstOverlap(job, b1, |packed|, |one|).value;
    SecondStageSame(job, packed, a2, b2, one, two);
    SecondOverlapSame(job, SecondStage(job, packed, a2, one).value, SecondStage(job, packed, b2, two).value, |packed|, |lowOne|);
  }

  // ---- Lossless ----

  /** Every quantizer a macroblock uses is at least one. */
  predicate Quantized(m: Macroblock) {
    m.quantizerDc >= 1 && (m.bands >= 1 ==> m.quantizerLowPass >= 1) && (m.bands >= 2 ==> m.quantizerHighPass >= 1)
  }

  lemma Factor(a: int, b: int, q: nat)
    requires q >= 1 && a * q == b * q
    ensures a == b
  {
    assert (a - b) * q == 0;
  }

  /** One block of the second transform gives back its low value and its dequantized coefficients. */
  lemma BlockInjective(table: seq<nat>, highOne: seq<int>, highTwo: seq<int>, one: int, two: int, m: Macroblock, block: nat)
    requires IsPermutation(table) && block * 16 + 16 <= |highOne| && |highTwo| == |highOne|
    requires SecondExact(table, highOne, one, m, block) == SecondExact(table, highTwo, two, m, block)
    ensures one == two
    ensures m.quantizerHighPass >= 1 ==> forall i :: block * 16 < i < block * 16 + 16 ==> highOne[i] == highTwo[i]
  {
    hide CoreTransform, ForwardCore;
    var a, b := SecondInput(highOne, one, m, block), SecondInput(highTwo, two, m, block);
    CoreReversible(table, a);
    CoreReversible(table, b);
    assert a[0] == b[0];
    if m.quantizerHighPass >= 1 {
      forall i | block * 16 < i < block * 16 + 16
        ensures highOne[i] == highTwo[i]
      {
        assert a[i - block * 16] == b[i - block * 16];
        Factor(highOne[i], highTwo[i], m.quantizerHighPass);
      }
    }
  }

  /** The same for all blocks of a macroblock. */
  lemma GroupInjective(job: Job, packedOne: seq<int>, packedTwo: seq<int>, one: seq<int>, two: seq<int>, m: Macroblock)
    requires Ready(m, job.plane, |packedOne|) && |packedTwo| == |packedOne| && IsPermutation(job.table)
    requires LowPlaneHolds(job.plane, m, |one|) && LowPlaneHolds(job.plane, m, |two|)
    requires GroupExact(job.table, packedOne, one, m, job.plane) == GroupExact(job.table, packedTwo, two, m, job.plane)
    ensures forall k: nat :: k < BlockCount(job.plane) ==> one[LowCell(job.plane, m, k)] == two[LowCell(job.plane, m, k)]
    ensures m.quantizerHighPass >= 1 ==> forall i: nat :: i < BlockCount(job.plane) * 16 && i % 16 != 0 ==>
      HighPredicted(packedOne, m, job.plane)[i] == HighPredicted(packedTwo, m, job.plane)[i]
  {
    hide SecondExact, LowCell, HighPredicted;
    var p := job.plane;
    var h1, h2 := HighPredicted(packedOne, m, p), HighPredicted(packedTwo, m, p);
    forall b: nat | b < BlockCount(p)
      ensures one[LowCell(p, m, b)] == two[LowCell(p, m, b)]
      ensures m.quantizerHighPass >= 1 ==> forall i :: b * 16 < i < b * 16 + 16 ==> h1[i] == h2[i]
    {
      BlockOfGroup(job.table, packedOne, one, m, p, b);
      BlockOfGroup(job.table, packedTwo, two, m, p, b);
      BlockInjective(job.table, h1, h2, one[LowCell(p, m, b)], two[LowCell(p, m, b)], m, b);
    }
    if m.quantizerHighPass >= 1 {
      forall i: nat | i < BlockCount(p) * 16 && i % 16 != 0
        ensures h1[i] == h2[i]
      {
        var b := i / 16;
        assert one[LowCell(p, m, b)] == two[LowCell(p, m, b)];
        assert b * 16 < i < b * 16 + 16;
      }
    }
  }

  lemma BlockOfGroup(table: seq<nat>, packed: seq<int>, low: seq<int>, m: Macroblock, p: Plane, block: nat)
    requires Ready(m, p, |packed|) && IsPermutation(table) && LowPlaneHolds(p, m, |low|) && block < BlockCount(p)
    ensures SecondExact(table, HighPredicted(packed, m, p), low[LowCell(p, m, block)], m, block)
      == GroupExact(table, packed, low, m, p)[block * 16..block * 16 + 16]
  {
    hide SecondExact, LowCell, HighPredicted;
    var out := GroupExact(table, packed, low, m, p);
    forall k | 0 <= k < 16
      ensures out[block * 16 + k] == SecondExact(table, HighPredicted(packed, m, p), low[LowCell(p, m, block)], m, block)[k]
    {
      assert (block * 16 + k) / 16 == block && (block * 16 + k) % 16 == k;
    }
  }

  /** Equal predicted coefficients come from equal transmitted ones. */
  lemma HighInjective(packedOne: seq<int>, packedTwo: seq<int>, m: Macroblock, p: Plane)
    requires Ready(m, p, |packedOne|) && |packedTwo| == |packedOne| && m.bands >= 2
    requires forall i: nat :: i < BlockCount(p) * 16 && i % 16 != 0 ==>
      HighPredicted(packedOne, m, p)[i] == HighPredicted(packedTwo, m, p)[i]
    ensures forall j: nat :: m.offset <= j < m.offset + BlockCount(p) * 16 && (j - m.offset) % 16 != 0 ==>
      packedOne[j] == packedTwo[j]
  {
    hide PredictedAt, DifferenceAt, Differenced;
    var direction, c, count := DirectionOf(m), p.blockColumns, BlockCount(p);
    var a, b := HighInput(packedOne, m, p), HighInput(packedTwo, m, p);
    forall i: nat | i < count * 16
      ensures HighPredicted(packedOne, m, p)[i] == HighPredicted(packedTwo, m, p)[i]
    {
      if i % 16 == 0 {
        PredictedStays(direction, c, count, a, i);
        PredictedStays(direction, c, count, b, i);
      }
    }
    assert HighPredicted(packedOne, m, p) == HighPredicted(packedTwo, m, p);
    PredictionUndone(direction, c, count, a);
    PredictionUndone(direction, c, count, b);
    hide Predicted;
    assert a == b;
    forall j: nat | m.offset <= j < m.offset + count * 16 && (j - m.offset) % 16 != 0
      ensures packedOne[j] == packedTwo[j]
    {
      assert a[j - m.offset] == b[j - m.offset];
    }
  }

  /** The first transform of a macroblock gives back the coefficients it dequantized. */
  lemma LowInjective(table: seq<nat>, packedOne: seq<int>, packedTwo: seq<int>, m: Macroblock, p: Plane)
    requires Ready(m, p, |packedOne|) && |packedTwo| == |packedOne| && IsPermutation(table)
    requires FirstExact(table, packedOne, m, p) == FirstExact(table, packedTwo, m, p)
    ensures forall k: nat :: k < BlockCount(p) ==> LowInputAt(packedOne, m, p, k) == LowInputAt(packedTwo, m, p, k)
  {
    hide LowInputAt, FirstTransformed;
    var a, b := LowInput(packedOne, m, p), LowInput(packedTwo, m, p);
    var s, t := FirstTransformed(table, p, a), FirstTransformed(table, p, b);
    forall k | 0 <= k < BlockCount(p)
      ensures s[k] == t[k]
    {
      assert Doubled(p, s)[k] == Doubled(p, t)[k];
    }
    assert s == t;
    FirstTransformInjective(table, p, a, b);
    forall k: nat | k < BlockCount(p)
      ensures LowInputAt(packedOne, m, p, k) == LowInputAt(packedTwo, m, p, k)
    {
      assert a[..BlockCount(p)][k] == b[..BlockCount(p)][k];
      assert a[k] == LowInputAt(packedOne, m, p, k) && b[k] == LowInputAt(packedTwo, m, p, k);
    }
  }

  lemma FirstTransformInjective(table: seq<nat>, p: Plane, a: seq<int>, b: seq<int>)
    requires ValidPlane(p) && IsPermutation(table) && |a| == |b| == 16
    requires FirstTransformed(table, p, a) == FirstTransformed(table, p, b)
    ensures a[..BlockCount(p)] == b[..BlockCount(p)]
  {
    hide CoreTransform, ForwardCore, Chroma420, ForwardChroma420, Chroma422, ForwardChroma422;
    if p.blockColumns == 4 {
      CoreReversible(table, a);
      CoreReversible(table, b);
    } else if p.blockRows == 2 {
      Chroma420Reversible(a[..4]);
      Chroma420Reversible(b[..4]);
    } else {
      Chroma422Undone(a[..8]);
      Chroma422Undone(b[..8]);
    }
  }

  /** Every transmitted coefficient of the macroblock is the same in both coefficient sets. */
  ghost predicate SameCoefficients(packedOne: seq<int>, packedTwo: seq<int>, m: Macroblock, p: Plane)
    requires Ready(m, p, |packedOne|) && |packedTwo| == |packedOne|
  {
    var end := m.offset + Span(m.bands, BlockCount(p));
    packedOne[m.offset..end] == packedTwo[m.offset..end]
  }

  lemma CoefficientsRecovered(packedOne: seq<int>, packedTwo: seq<int>, m: Macroblock, p: Plane)
    requires Ready(m, p, |packedOne|) && |packedTwo| == |packedOne| && Quantized(m)
    requires forall k: nat :: k < BlockCount(p) ==> LowInputAt(packedOne, m, p, k) == LowInputAt(packedTwo, m, p, k)
    requires m.bands >= 2 ==> forall j: nat :: m.offset <= j < m.offset + BlockCount(p) * 16 && (j - m.offset) % 16 != 0 ==>
      packedOne[j] == packedTwo[j]
    ensures SameCoefficients(packedOne, packedTwo, m, p)
  {
    forall j: nat | m.offset <= j < m.offset + Span(m.bands, BlockCount(p))
      ensures packedOne[j] == packedTwo[j]
    {
      var i := j - m.offset;
      if m.bands < 2 || i % 16 == 0 {
        var k := if m.bands < 2 then i else i / 16;
        assert LowSource(m, k) == j;
        assert LowInputAt(packedOne, m, p, k) == LowInputAt(packedTwo, m, p, k);
        Factor(packedOne[j], packedTwo[j], if k == 0 then m.quantizerDc else m.quantizerLowPass);
      }
    }
  }

  lemma SecondStageInjective(job: Job, packedOne: seq<int>, packedTwo: seq<int>, lowOne: seq<int>, lowTwo: seq<int>,
                             one: seq<int>, two: seq<int>)
    requires ValidJob(job, |packedOne|, |lowOne|, |one|) && |packedTwo| == |packedOne|
    requires |lowTwo| == |lowOne| && |two| == |one|
    requires SecondStage(job, packedOne, lowOne, one).Some? && SecondStage(job, packedTwo, lowTwo, two).Some?
    requires SameRange(SecondStage(job, packedOne, lowOne, one).value, SecondStage(job, packedTwo, lowTwo, two).value,
                       job.plane.sampleOffset, SampleEnd(job.plane))
    ensures forall m :: m in job.macroblocks ==> SameSecondInputs(job, packedOne, packedTwo, lowOne, lowTwo, m)
  {
    hide SecondStage, GroupExact, GroupFits, LowEnd, SampleEnd, SampleCell, ValidJob, HighPredicted, LowCell,
         LowPlaneHolds;
    ItemsReady(job, |packedOne|, |lowOne|, |one|);
    var p := job.plane;
    forall m | m in job.macroblocks
      ensures SameSecondInputs(job, packedOne, packedTwo, lowOne, lowTwo, m)
    {
      var g :| 0 <= g < |job.macroblocks| && job.macroblocks[g] == m;
      LowHeld(p, m, |lowOne|);
      forall i | 0 <= i < BlockCount(p) * 16
        ensures GroupExact(job.table, packedOne, lowOne, m, p)[i] == GroupExact(job.table, packedTwo, lowTwo, m, p)[i]
      {
        SecondStageAt(job, packedOne, lowOne, one, g, i);
        SecondStageAt(job, packedTwo, lowTwo, two, g, i);
        SampleCellInside(p, m, i / 16, i % 16);
      }
      assert GroupExact(job.table, packedOne, lowOne, m, p) == GroupExact(job.table, packedTwo, lowTwo, m, p);
      GroupInjective(job, packedOne, packedTwo, lowOne, lowTwo, m);
    }
  }

  /** The second transform of a macroblock had the same inputs in both reconstructions. */
  ghost predicate SameSecondInputs(job: Job, packedOne: seq<int>, packedTwo: seq<int>, lowOne: seq<int>, lowTwo: seq<int>, m: Macroblock) {
    var p := job.plane;
    && Ready(m, p, |packedOne|) && |packedTwo| == |packedOne|
    && LowPlaneHolds(p, m, |lowOne|) && LowPlaneHolds(p, m, |lowTwo|)
    && (forall k: nat :: k < BlockCount(p) ==> lowOne[LowCell(p, m, k)] == lowTwo[LowCell(p, m, k)])
    && (m.quantizerHighPass >= 1 ==> forall i: nat :: i < BlockCount(p) * 16 && i % 16 != 0 ==>
          HighPredicted(packedOne, m, p)[i] == HighPredicted(packedTwo, m, p)[i])
  }

  lemma LowPlaneRecovered(job: Job, packedOne: seq<int>, packedTwo: seq<int>, lowOne: seq<int>, lowTwo: seq<int>, samples: nat)
    requires ValidJob(job, |packedOne|, |lowOne|, samples) && |lowTwo| == |lowOne|
    requires forall m :: m in job.macroblocks ==> SameSecondInputs(job, packedOne, packedTwo, lowOne, lowTwo, m)
    ensures SameRange(lowOne, lowTwo, job.plane.lowOffset, LowEnd(job.plane))
  {
    hide LowEnd, ValidJob, LowCell, HighPredicted;
    forall i: nat | job.plane.lowOffset <= i < LowEnd(job.plane) && i < |lowOne|
      ensures lowOne[i] == lowTwo[i]
    {
      var g, k := LowReached(job, |packedOne|, |lowOne|, samples, i);
      assert SameSecondInputs(job, packedOne, packedTwo, lowOne, lowTwo, job.macroblocks[g]);
    }
  }

  lemma FirstStageInjective(job: Job, packedOne: seq<int>, packedTwo: seq<int>, one: seq<int>, two: seq<int>, samples: nat, g: nat)
    requires ValidJob(job, |packedOne|, |one|, samples) && |packedTwo| == |packedOne| && |two| == |one|
    requires FirstStage(job, packedOne, one, samples).Some? && FirstStage(job, packedTwo, two, samples).Some?
    requires SameRange(FirstStage(job, packedOne, one, samples).value, FirstStage(job, packedTwo, two, samples).value,
                       job.plane.lowOffset, LowEnd(job.plane))
    requires g < |job.macroblocks|
    ensures Ready(job.macroblocks[g], job.plane, |packedOne|)
    ensures forall k: nat :: k < BlockCount(job.plane) ==>
      LowInputAt(packedOne, job.macroblocks[g], job.plane, k) == LowInputAt(packedTwo, job.macroblocks[g], job.plane, k)
  {
    hide FirstStage, FirstExact, FirstFits, LowEnd, LowCell, ValidJob, LowInputAt;
    ItemsReady(job, |packedOne|, |one|, samples);
    var m, p := job.macroblocks[g], job.plane;
    forall k | 0 <= k < BlockCount(p)
      ensures FirstExact(job.table, packedOne, m, p)[k] == FirstExact(job.table, packedTwo, m, p)[k]
    {
      FirstStageAt(job, packedOne, one, samples, g, k);
      FirstStageAt(job, packedTwo, two, samples, g, k);
      LowCellInside(p, m, k);
    }
    assert FirstExact(job.table, packedOne, m, p) == FirstExact(job.table, packedTwo, m, p);
    LowInjective(job.table, packedOne, packedTwo, m, p);
  }

  lemma FirstOverlapInjective(job: Job, one: seq<int>, two: seq<int>, packed: nat, samples: nat)
    requires ValidJob(job, packed, |one|, samples) && |one| == |two|
    requires FirstOverlap(job, one, packed, samples).Some? && FirstOverlap(job, two, packed, samples).Some?
    requires SameRange(FirstOverlap(job, one, packed, samples).value, FirstOverlap(job, two, packed, samples).value,
                       job.plane.lowOffset, LowEnd(job.plane))
    ensures SameRange(one, two, job.plane.lowOffset, LowEnd(job.plane))
  {
    if job.overlap.Two? {
      hide RunPass, PassInside, LowEnd, SampleEnd, SameRange, FirstSchedule;
      var p := job.plane;
      FirstPassInside(p, job.hard, job.tileColumns, job.tileRows);
      var s := FirstSchedule(p, job.hard, job.tileColumns, job.tileRows).value;
      InsideValid(s, p.lowOffset, LowEnd(p), |one|);
      RunPassInjective(s, FilterFits, one, two, p.lowOffset, LowEnd(p));
    }
  }

  lemma SecondOverlapInjective(job: Job, one: seq<int>, two: seq<int>, packed: nat, low: nat)
    requires ValidJob(job, packed, low, |one|) && |one| == |two|
    requires SecondOverlap(job, one, packed, low).Some? && SecondOverlap(job, two, packed, low).Some?
    requires SameRange(SecondOverlap(job, one, packed, low).value, SecondOverlap(job, two, packed, low).value,
                       job.plane.sampleOffset, SampleEnd(job.plane))
    ensures SameRange(one, two, job.plane.sampleOffset, SampleEnd(job.plane))
  {
    if !job.overlap.NoOverlap? {
      hide RunPass, PassInside, LowEnd, SampleEnd, SameRange, SecondSchedule;
      var p := job.plane;
      SecondPassInside(p, job.hard, job.tileColumns, job.tileRows);
      var s := SecondSchedule(p, job.hard, job.tileColumns, job.tileRows).value;
      InsideValid(s, p.sampleOffset, SampleEnd(p), |one|);
      RunPassInjective(s, FilterFits, one, two, p.sampleOffset, SampleEnd(p));
    }
  }

  /**
   Reconstruction loses nothing: two coefficient sets with the same metadata, reconstructed without
   overflow on buffers of any content to the same samples, transmit the same coefficients. This holds for
   every plane geometry, window, tile partition, overlap mode, band set and prediction mode.
   */
  lemma Lossless(job: Job, packedOne: seq<int>, packedTwo: seq<int>, lowOne: seq<int>, lowTwo: seq<int>,
                 one: seq<int>, two: seq<int>, g: nat)
    requires ValidJob(job, |packedOne|, |lowOne|, |one|) && |packedTwo| == |packedOne|
    requires |lowTwo| == |lowOne| && |two| == |one|
    requires g < |job.macroblocks| && Quantized(job.macroblocks[g])
    requires Reconstruct(job, packedOne, lowOne, one).Some? && Reconstruct(job, packedTwo, lowTwo, two).Some?
    requires SameRange(Reconstruct(job, packedOne, lowOne, one).value, Reconstruct(job, packedTwo, lowTwo, two).value,
                       job.plane.sampleOffset, SampleEnd(job.plane))
    ensures Ready(job.macroblocks[g], job.plane, |packedOne|)
    ensures SameCoefficients(packedOne, packedTwo, job.macroblocks[g], job.plane)
  {
    hide FirstStage, FirstOverlap, SecondStage, SecondOverlap, ValidJob, SameRange, LowEnd, SampleEnd, LowInputAt;
    hide SameSecondInputs, SameCoefficients;
    ItemsReady(job, |packedOne|, |lowOne|, |one|);
    var a1, b1 := FirstStage(job, packedOne, lowOne, |one|).value, FirstStage(job, packedTwo, lowTwo, |one|).value;
    var a2, b2 := FirstOverlap(job, a1, |packedOne|, |one|).value, FirstOverlap(job, b1, |packedOne|, |one|).value;
    var a3, b3 := SecondStage(job, packedOne, a2, one).value, SecondStage(job, packedTwo, b2, two).value;
    SecondOverlapInjective(job, a3, b3, |packedOne|, |lowOne|);
    SecondStageInjective(job, packedOne, packedTwo, a2, b2, one, two);
    LowPlaneRecovered(job, packedOne, packedTwo, a2, b2, |one|);
    FirstOverlapInjective(job, a1, b1, |packedOne|, |one|);
    FirstStageInjective(job, packedOne, packedTwo, lowOne, lowTwo, |one|, g);
    HighRecovered(job, packedOne, packedTwo, a2, b2, job.macroblocks[g]);
    CoefficientsRecovered(packedOne, packedTwo, job.macroblocks[g], job.plane);
  }

  lemma HighRecovered(job: Job, packedOne: seq<int>, packedTwo: seq<int>, lowOne: seq<int>, lowTwo: seq<int>, m: Macroblock)
    requires SameSecondInputs(job, packedOne, packedTwo, lowOne, lowTwo, m) && Quantized(m)
    ensures m.bands >= 2 ==> forall j: nat ::
      m.offset <= j < m.offset + BlockCount(job.plane) * 16 && (j - m.offset) % 16 != 0 ==> packedOne[j] == packedTwo[j]
  {
    hide HighPredicted, LowCell;
    if m.bands >= 2 {
      HighInjective(packedOne, packedTwo, m, job.plane);
    }
  }
}
