/**
 Reconstruction does not depend on where a plane lies. A job moved to other places in larger buffers, with its
 coefficients, overflows alike and leaves the same samples in its new place.
 */
module Relocation {
  import opened Wrappers
  import opened Memory
  import opened Blocks
  import opened Phases
  import opened Overlap
  import opened Regions
  import opened Passes
  import opened ExactTiling
  import opened OverlapPass
  import opened PlanePasses
  import opened Window
  import opened Rebasing
  import opened Prediction
  import opened Kernels
  import opened Reconstruction
  import opened Lossless

  // ---- Runs in a larger memory ----

  /** A memory lies in a larger one, from a cell on. */
  ghost predicate Embedded(small: seq<int>, big: seq<int>, from: nat) {
    from + |small| <= |big| && forall i :: 0 <= i < |small| ==> big[from + i] == small[i]
  }

  ghost predicate MovedCells(one: seq<nat>, two: seq<nat>, shift: nat) {
    |one| == |two| && forall k :: 0 <= k < |one| ==> two[k] == one[k] + shift
  }

  /** The same item on cells further on. */
  ghost predicate MovedItem(one: Item, two: Item, shift: nat) {
    MovedCells(one.loads, two.loads, shift) && MovedCells(one.stores, two.stores, shift) && forall v: seq<int> :: one.op(v) == two.op(v)
  }

  ghost predicate MovedItems(one: seq<Item>, two: seq<Item>, shift: nat) {
    |one| == |two| && forall k :: 0 <= k < |one| ==> MovedItem(one[k], two[k], shift)
  }

  lemma MovedWithin(at: seq<nat>, moved: seq<nat>, shift: nat, small: nat, big: nat)
    requires MovedCells(at, moved, shift) && Distinct(at) && Within(at, small) && shift + small <= big
    ensures Within(moved, big) && Distinct(moved)
  {}

  /** What one cell holds after a store in either place. */
  lemma MovedStore(at: seq<nat>, moved: seq<nat>, shift: nat, values: seq<int>, small: seq<int>, big: seq<int>, i: nat)
    requires MovedCells(at, moved, shift) && |values| == |at| && Distinct(at) && Within(at, |small|) && Embedded(small, big, shift)
    requires Within(moved, |big|) && Distinct(moved) && i < |small|
    ensures Scatter(big, moved, values)[shift + i] == Scatter(small, at, values)[i]
  {
    hide Scatter;
    if i in at {
      ScatterStores(small, at, values);
      ScatterStores(big, moved, values);
      var k :| 0 <= k < |at| && at[k] == i;
      assert moved[k] == shift + i;
    } else {
      MovedMember(at, moved, shift, i);
    }
  }

  lemma MovedScatter(at: seq<nat>, moved: seq<nat>, shift: nat, values: seq<int>, small: seq<int>, big: seq<int>)
    requires MovedCells(at, moved, shift) && |values| == |at| && Distinct(at) && Within(at, |small|) && Embedded(small, big, shift)
    requires Within(moved, |big|)
    ensures Embedded(Scatter(small, at, values), Scatter(big, moved, values), shift)
  {
    MovedWithin(at, moved, shift, |small|, |big|);
    hide Scatter, MovedCells, Distinct, Within;
    forall i | 0 <= i < |small|
      ensures Scatter(big, moved, values)[shift + i] == Scatter(small, at, values)[i]
    {
      MovedStore(at, moved, shift, values, small, big, i);
    }
  }

  lemma MovedMember(at: seq<nat>, moved: seq<nat>, shift: nat, i: nat)
    requires MovedCells(at, moved, shift) && i !in at
    ensures shift + i !in moved
  {
    forall k | 0 <= k < |moved|
      ensures moved[k] != shift + i
    {
      assert at[k] in at;
    }
  }

  lemma MovedApply(one: Item, two: Item, shift: nat, small: seq<int>, big: seq<int>)
    requires MovedItem(one, two, shift) && ValidItem(one, |small|) && ValidItem(two, |big|) && Embedded(small, big, shift)
    ensures Apply(one, small).Some? <==> Apply(two, big).Some?
    ensures Apply(one, small).Some? ==> Embedded(Apply(one, small).value, Apply(two, big).value, shift)
  {
    assert Gather(small, one.loads) == Gather(big, two.loads);
    if Computed(one, small).Some? {
      MovedScatter(one.stores, two.stores, shift, Computed(one, small).value, small, big);
    }
  }

  /** Moved items overflow alike and leave the same in the moved place. */
  lemma {:induction false} MovedRun(one: seq<Item>, two: seq<Item>, shift: nat, small: seq<int>, big: seq<int>)
    requires MovedItems(one, two, shift) && ValidItems(one, |small|) && ValidItems(two, |big|) && Embedded(small, big, shift)
    ensures Run(one, small).Some? <==> Run(two, big).Some?
    ensures Run(one, small).Some? ==> Embedded(Run(one, small).value, Run(two, big).value, shift)
  {
    if one != [] {
      hide MovedItem, ValidItem, Apply, Embedded;
      var last := |one| - 1;
      MovedRun(one[..last], two[..last], shift, small, big);
      if Run(one[..last], small).Some? {
        MovedApply(one[last], two[last], shift, Run(one[..last], small).value, Run(two[..last], big).value);
      }
    }
  }

  // ---- Overlap passes ----

  lemma RebasedBlock(first: nat, stride: nat, shift: nat)
    ensures MovedCells(Addresses(Work(first, stride, 0)), Addresses(Work(first + shift, stride, 0)), shift)
  {
    forall k | 0 <= k < 16
      ensures Addresses(Work(first, stride, 0))[k] + shift == Addresses(Work(first + shift, stride, 0))[k]
    {
      BlockAddress(first, stride, k);
      BlockAddress(first + shift, stride, k);
    }
    hide Addresses;
  }

  lemma RebasedFew(w: Work, shift: nat)
    requires w.kind != 0
    ensures MovedCells(Addresses(w), Addresses(Rebase(w, shift)), shift)
    ensures MovedCells(Destinations(w), Destinations(Rebase(w, shift)), shift)
  {}

  lemma RebasedAddresses(w: Work, shift: nat)
    ensures MovedCells(Addresses(w), Addresses(Rebase(w, shift)), shift)
    ensures MovedCells(Destinations(w), Destinations(Rebase(w, shift)), shift)
    ensures Rebase(w, shift).kind == w.kind
  {
    if w.kind == 0 {
      assert Rebase(w, shift) == Work(w.first + shift, w.second, 0) && w == Work(w.first, w.second, 0);
      hide Addresses, MovedCells;
      RebasedBlock(w.first, w.second, shift);
    } else {
      RebasedFew(w, shift);
      hide Addresses, MovedCells;
    }
  }

  lemma RebasedItem(w: Work, fits: Fitting, shift: nat)
    ensures MovedItem(WorkItem(w, fits), WorkItem(Rebase(w, shift), fits), shift)
  {
    RebasedAddresses(w, shift);
    hide Addresses, Filter, Rebase;
  }

  lemma RebasedItems(works: seq<Work>, fits: Fitting, shift: nat)
    ensures MovedItems(WorkItems(works, fits), WorkItems(RebaseAll(works, shift), fits), shift)
  {
    hide MovedItem, WorkItem, Rebase;
    forall k | 0 <= k < |works|
      ensures MovedItem(WorkItem(works[k], fits), WorkItem(Rebase(works[k], shift), fits), shift)
    {
      RebasedItem(works[k], fits, shift);
    }
  }

  lemma RebasedPhase(works: seq<Work>, fits: Fitting, shift: nat, small: seq<int>, big: seq<int>)
    requires ValidWorks(works, |small|) && ValidWorks(RebaseAll(works, shift), |big|) && Embedded(small, big, shift)
    ensures PhaseRun(works, fits, small).Some? <==> PhaseRun(RebaseAll(works, shift), fits, big).Some?
    ensures PhaseRun(works, fits, small).Some? ==>
      Embedded(PhaseRun(works, fits, small).value, PhaseRun(RebaseAll(works, shift), fits, big).value, shift)
  {
    hide Run, ValidWorks, WorkItems, Embedded, MovedItems, ValidItems, RebaseAll;
    WorkItemsValid(works, fits, |small|);
    WorkItemsValid(RebaseAll(works, shift), fits, |big|);
    RebasedItems(works, fits, shift);
    MovedRun(WorkItems(works, fits), WorkItems(RebaseAll(works, shift), fits), shift, small, big);
  }

  /** A rebased pass does in its place what the pass does. */
  lemma RebasedPass(s: Schedule, fits: Fitting, shift: nat, small: seq<int>, big: seq<int>)
    requires ValidSchedule(s, |small|) && ValidSchedule(RebaseSchedule(s, shift), |big|) && Embedded(small, big, shift)
    ensures RunPass(s, fits, small).Some? <==> RunPass(RebaseSchedule(s, shift), fits, big).Some?
    ensures RunPass(s, fits, small).Some? ==>
      Embedded(RunPass(s, fits, small).value, RunPass(RebaseSchedule(s, shift), fits, big).value, shift)
  {
    hide PhaseRun, ValidWorks, Embedded, RebaseAll;
    var moved := RebaseSchedule(s, shift);
    RebasedPhase(s.prefix, fits, shift, small, big);
    if PhaseRun(s.prefix, fits, small).Some? {
      var one, two := PhaseRun(s.prefix, fits, small).value, PhaseRun(moved.prefix, fits, big).value;
      RebasedPhase(s.filters, fits, shift, one, two);
      if PhaseRun(s.filters, fits, one).Some? {
        RebasedPhase(s.suffix, fits, shift, PhaseRun(s.filters, fits, one).value, PhaseRun(moved.filters, fits, two).value);
      }
    }
  }

  lemma EncodeMoved(at: Layout, to: Layout, t: Tile)
    requires at.stride == to.stride && at.offset <= to.offset
    ensures Encode(at, t).Some? && Encode(to, t).Some? ==> Encode(to, t).value == Rebase(Encode(at, t).value, to.offset - at.offset)
  {}

  lemma EncodeAllMoved(at: Layout, to: Layout, tiles: seq<Tile>)
    requires at.stride == to.stride && at.offset <= to.offset && EncodeAll(at, tiles).Some? && EncodeAll(to, tiles).Some?
    ensures EncodeAll(to, tiles).value == RebaseAll(EncodeAll(at, tiles).value, to.offset - at.offset)
  {
    hide Encode, Rebase;
    forall k | 0 <= k < |tiles|
      ensures Encode(at, tiles[k]).Some? && Encode(to, tiles[k]).Some?
        && Encode(to, tiles[k]).value == Rebase(Encode(at, tiles[k]).value, to.offset - at.offset)
    {
      EncodeMoved(at, to, tiles[k]);
    }
  }

  lemma SchedulesMoved(at: Layout, to: Layout, regions: seq<Region>)
    requires LargeEnough(regions) && at.stride == to.stride && at.offset <= to.offset
    ensures FullSchedule(at, regions).Some? && FullSchedule(to, regions).Some? ==>
      FullSchedule(to, regions).value == RebaseSchedule(FullSchedule(at, regions).value, to.offset - at.offset)
    ensures SubsampledSchedule(at, regions).Some? && SubsampledSchedule(to, regions).Some? ==>
      SubsampledSchedule(to, regions).value == RebaseSchedule(SubsampledSchedule(at, regions).value, to.offset - at.offset)
  {
    hide EncodeAll, AllFullTiles, AllSubsampledTiles, AllResiduals, AllRestores, RebaseAll;
    if FullSchedule(at, regions).Some? && FullSchedule(to, regions).Some? {
      EncodeAllMoved(at, to, AllFullTiles(regions));
      NothingRebased(to.offset - at.offset);
    }
    if SubsampledSchedule(at, regions).Some? && SubsampledSchedule(to, regions).Some? {
      EncodeAllMoved(at, to, AllResiduals(regions));
      EncodeAllMoved(at, to, AllSubsampledTiles(regions));
      EncodeAllMoved(at, to, AllRestores(regions));
    }
  }

  lemma NothingRebased(shift: nat)
    ensures RebaseAll([], shift) == []
  {}

  // ---- Jobs ----

  /** How far a job's coefficients, low plane and samples are moved. */
  datatype Shift = Shift(base: nat, low: nat, samples: nat)

  ghost predicate PlaneMoved(p: Plane, q: Plane, d: Shift) {
    q == p.(macroblockOffset := q.macroblockOffset, lowOffset := p.lowOffset + d.low, sampleOffset := p.sampleOffset + d.samples)
  }

  ghost predicate JobMoved(own: Job, moved: Job, d: Shift) {
    && PlaneMoved(own.plane, moved.plane, d) && |moved.macroblocks| == |own.macroblocks|
    && (forall g :: 0 <= g < |own.macroblocks| ==>
          moved.macroblocks[g] == own.macroblocks[g].(offset := own.macroblocks[g].offset + d.base))
    && moved.overlap == own.overlap && moved.hard == own.hard && moved.table == own.table
    && moved.tileColumns == own.tileColumns && moved.tileRows == own.tileRows
  }

  lemma CellsMoved(p: Plane, q: Plane, m: Macroblock, n: Macroblock, d: Shift)
    requires PlaneMoved(p, q, d) && ValidPlane(p) && InWindow(m, p) && n.codedX == m.codedX && n.codedY == m.codedY
    ensures ValidPlane(q) && InWindow(n, q) && BlockCount(q) == BlockCount(p)
    ensures forall k: nat :: k < BlockCount(p) ==> LowCell(q, n, k) == LowCell(p, m, k) + d.low
    ensures forall block: nat, k: nat :: block < BlockCount(p) && k < 16 ==>
      SampleCell(q, n, block, k) == SampleCell(p, m, block, k) + d.samples
  {}

  lemma InputMoved(p: Plane, q: Plane, m: Macroblock, n: Macroblock, d: Shift, coefficients: seq<int>, packed: seq<int>)
    requires PlaneMoved(p, q, d) && n == m.(offset := m.offset + d.base)
    requires Ready(m, p, |coefficients|) && Ready(n, q, |packed|) && Embedded(coefficients, packed, d.base)
    ensures LowInput(packed, n, q) == LowInput(coefficients, m, p)
    ensures HighInput(packed, n, q) == HighInput(coefficients, m, p)
  {
    forall k: nat | k < 16
      ensures LowInputAt(packed, n, q, k) == LowInputAt(coefficients, m, p, k)
    {
      if k == 0 {
        assert packed[d.base + m.offset] == coefficients[m.offset];
      } else if k < BlockCount(p) && m.bands != 0 {
        LowSourceInside(m, p, |coefficients|, k);
        assert packed[d.base + LowSource(m, k)] == coefficients[LowSource(m, k)];
      }
    }
    forall i | 0 <= i < BlockCount(p) * 16
      ensures HighInput(packed, n, q)[i] == HighInput(coefficients, m, p)[i]
    {
      if m.bands >= 2 {
        assert packed[d.base + (m.offset + i)] == coefficients[m.offset + i];
      }
    }
  }

  /** A macroblock's first transform does the same in its new place. */
  lemma FirstItemMoved(own: Job, moved: Job, d: Shift, coefficients: seq<int>, packed: seq<int>, m: Macroblock, n: Macroblock)
    requires JobMoved(own, moved, d) && n == m.(offset := m.offset + d.base) && IsPermutation(own.table)
    requires Ready(m, own.plane, |coefficients|) && Ready(n, moved.plane, |packed|) && Embedded(coefficients, packed, d.base)
    ensures MovedItem(FirstItem(own, coefficients, m), FirstItem(moved, packed, n), d.low)
  {
    var p, q := own.plane, moved.plane;
    hide IsPermutation, LowInput, CoreFits, CoreTransform, LowCell, HighInput;
    CellsMoved(p, q, m, n, d);
    InputMoved(p, q, m, n, d, coefficients, packed);
    assert FirstTransformed(own.table, q, LowInput(packed, n, q)) == FirstTransformed(own.table, p, LowInput(coefficients, m, p));
    assert FirstExact(own.table, packed, n, q) == FirstExact(own.table, coefficients, m, p);
    assert FirstFits(own.table, packed, n, q) == FirstFits(own.table, coefficients, m, p);
  }

  lemma GroupMoved(p: Plane, q: Plane, table: seq<nat>, m: Macroblock, n: Macroblock, d: Shift, coefficients: seq<int>, packed: seq<int>,
                   low: seq<int>, bigLow: seq<int>)
    requires PlaneMoved(p, q, d) && n == m.(offset := m.offset + d.base) && IsPermutation(table)
    requires Ready(m, p, |coefficients|) && Ready(n, q, |packed|) && Embedded(coefficients, packed, d.base)
    requires LowPlaneHolds(p, m, |low|) && LowPlaneHolds(q, n, |bigLow|) && Embedded(low, bigLow, d.low)
    ensures GroupFits(table, packed, bigLow, n, q) <==> GroupFits(table, coefficients, low, m, p)
    ensures GroupExact(table, packed, bigLow, n, q) == GroupExact(table, coefficients, low, m, p)
  {
    hide IsPermutation, LowInput, CoreFits, CoreTransform, LowCell, SampleCell, HighInput, Predicted, PredictionFits,
         ValidPlane;
    CellsMoved(p, q, m, n, d);
    InputMoved(p, q, m, n, d, coefficients, packed);
    assert HighPredicted(packed, n, q) == HighPredicted(coefficients, m, p);
    assert HighFits(packed, n, q) == HighFits(coefficients, m, p);
    hide HighPredicted, HighFits;
    var high := HighPredicted(coefficients, m, p);
    forall block: nat | block < BlockCount(p)
      ensures bigLow[LowCell(q, n, block)] == low[LowCell(p, m, block)]
      ensures SecondFits(table, high, bigLow[LowCell(q, n, block)], n, block) <==> SecondFits(table, high, low[LowCell(p, m, block)], m, block)
      ensures SecondExact(table, high, bigLow[LowCell(q, n, block)], n, block) == SecondExact(table, high, low[LowCell(p, m, block)], m, block)
    {
      assert bigLow[d.low + LowCell(p, m, block)] == low[LowCell(p, m, block)];
      assert SecondInput(high, low[LowCell(p, m, block)], n, block) == SecondInput(high, low[LowCell(p, m, block)], m, block);
    }
    hide SecondFits, SecondExact;
  }

  lemma SecondItemMoved(own: Job, moved: Job, d: Shift, coefficients: seq<int>, packed: seq<int>, low: seq<int>, bigLow: seq<int>,
                        m: Macroblock, n: Macroblock)
    requires JobMoved(own, moved, d) && n == m.(offset := m.offset + d.base) && IsPermutation(own.table)
    requires Ready(m, own.plane, |coefficients|) && Ready(n, moved.plane, |packed|) && Embedded(coefficients, packed, d.base)
    requires LowEnd(own.plane) <= |low| && LowEnd(moved.plane) <= |bigLow| && Embedded(low, bigLow, d.low)
    ensures MovedItem(SecondItem(own, coefficients, low, m), SecondItem(moved, packed, bigLow, n), d.samples)
  {
    var p, q := own.plane, moved.plane;
    LowHeld(p, m, |low|);
    LowHeld(q, n, |bigLow|);
    hide IsPermutation, GroupFits, GroupExact, LowCell, SampleCell, LowPlaneHolds, Embedded, LowEnd;
    CellsMoved(p, q, m, n, d);
    GroupMoved(p, q, own.table, m, n, d, coefficients, packed, low, bigLow);
  }

  /** Both jobs in their buffers. */
  ghost predicate BothValid(own: Job, moved: Job, d: Shift, coefficients: seq<int>, packed: seq<int>,
                            low: nat, bigLow: nat, samples: nat, bigSamples: nat) {
    && JobMoved(own, moved, d) && ValidJob(own, |coefficients|, low, samples) && ValidJob(moved, |packed|, bigLow, bigSamples)
    && Embedded(coefficients, packed, d.base)
  }

  lemma RecordsReady(job: Job, packed: nat, low: nat, samples: nat)
    requires ValidJob(job, packed, low, samples)
    ensures IsPermutation(job.table) && LowEnd(job.plane) <= low
    ensures forall g :: 0 <= g < |job.macroblocks| ==> Ready(job.macroblocks[g], job.plane, packed)
  {
    hide FillsWindow, TileGrid, LowEnd, SampleEnd, FirstSchedule, SecondSchedule, Ready;
  }

  lemma FirstStageMoved(own: Job, moved: Job, d: Shift, coefficients: seq<int>, packed: seq<int>, low: seq<int>, bigLow: seq<int>,
                        samples: nat, bigSamples: nat)
    requires BothValid(own, moved, d, coefficients, packed, |low|, |bigLow|, samples, bigSamples) && Embedded(low, bigLow, d.low)
    ensures FirstStage(own, coefficients, low, samples).Some? <==> FirstStage(moved, packed, bigLow, bigSamples).Some?
    ensures FirstStage(own, coefficients, low, samples).Some? ==>
      Embedded(FirstStage(own, coefficients, low, samples).value, FirstStage(moved, packed, bigLow, bigSamples).value, d.low)
  {
    hide ValidJob, Embedded, IsPermutation, FirstItem, MovedItem, Run, ValidItem, Independent, PlaneMoved, Ready, LowEnd;
    RecordsReady(own, |coefficients|, |low|, samples);
    RecordsReady(moved, |packed|, |bigLow|, bigSamples);
    FirstItemsSound(own, coefficients, |low|, samples);
    FirstItemsSound(moved, packed, |bigLow|, bigSamples);
    var one, two := FirstItems(own, coefficients), FirstItems(moved, packed);
    forall g | 0 <= g < |one|
      ensures MovedItem(one[g], two[g], d.low)
    {
      FirstItemMoved(own, moved, d, coefficients, packed, own.macroblocks[g], moved.macroblocks[g]);
    }
    MovedRun(one, two, d.low, low, bigLow);
  }

  lemma SecondStageMoved(own: Job, moved: Job, d: Shift, coefficients: seq<int>, packed: seq<int>, low: seq<int>, bigLow: seq<int>,
                         samples: seq<int>, bigSamples: seq<int>)
    requires BothValid(own, moved, d, coefficients, packed, |low|, |bigLow|, |samples|, |bigSamples|)
    requires Embedded(low, bigLow, d.low) && Embedded(samples, bigSamples, d.samples)
    ensures SecondStage(own, coefficients, low, samples).Some? <==> SecondStage(moved, packed, bigLow, bigSamples).Some?
    ensures SecondStage(own, coefficients, low, samples).Some? ==>
      Embedded(SecondStage(own, coefficients, low, samples).value, SecondStage(moved, packed, bigLow, bigSamples).value, d.samples)
  {
    hide ValidJob, Embedded, IsPermutation, SecondItem, MovedItem, Run, ValidItem, Independent, PlaneMoved, Ready, LowEnd;
    RecordsReady(own, |coefficients|, |low|, |samples|);
    RecordsReady(moved, |packed|, |bigLow|, |bigSamples|);
    SecondItemsSound(own, coefficients, low, |samples|);
    SecondItemsSound(moved, packed, bigLow, |bigSamples|);
    var one, two := SecondItems(own, coefficients, low), SecondItems(moved, packed, bigLow);
    forall g | 0 <= g < |one|
      ensures MovedItem(one[g], two[g], d.samples)
    {
      SecondItemMoved(own, moved, d, coefficients, packed, low, bigLow, own.macroblocks[g], moved.macroblocks[g]);
    }
    MovedRun(one, two, d.samples, samples, bigSamples);
  }

  lemma SchedulesShifted(p: Plane, q: Plane, d: Shift, hard: bool, tileColumns: seq<nat>, tileRows: seq<nat>)
    requires ValidPlane(p) && PlaneMoved(p, q, d)
    ensures ValidPlane(q)
    ensures FirstSchedule(p, hard, tileColumns, tileRows).Some? && FirstSchedule(q, hard, tileColumns, tileRows).Some? ==>
      FirstSchedule(q, hard, tileColumns, tileRows).value == RebaseSchedule(FirstSchedule(p, hard, tileColumns, tileRows).value, d.low)
    ensures SecondSchedule(p, hard, tileColumns, tileRows).Some? && SecondSchedule(q, hard, tileColumns, tileRows).Some? ==>
      SecondSchedule(q, hard, tileColumns, tileRows).value == RebaseSchedule(SecondSchedule(p, hard, tileColumns, tileRows).value, d.samples)
  {
    hide FullSchedule, SubsampledSchedule, ClippedAxis, ScaleFits, RegionGrid, RebaseSchedule;
    if FirstSchedule(p, hard, tileColumns, tileRows).Some? {
      RegionsLarge(p, hard, tileColumns, tileRows, p.blockColumns, p.blockRows);
      SchedulesMoved(LowLayout(p), LowLayout(q), TileRegions(p, hard, tileColumns, tileRows, p.blockColumns, p.blockRows).value);
    }
    if SecondSchedule(p, hard, tileColumns, tileRows).Some? {
      RegionsLarge(p, hard, tileColumns, tileRows, p.blockColumns * 4, p.blockRows * 4);
      SchedulesMoved(SampleLayout(p), SampleLayout(q), TileRegions(p, hard, tileColumns, tileRows, p.blockColumns * 4, p.blockRows * 4).value);
    }
  }

  lemma FirstOverlapMoved(own: Job, moved: Job, d: Shift, packed: nat, bigPacked: nat,
                          low: seq<int>, bigLow: seq<int>, samples: nat, bigSamples: nat)
    requires JobMoved(own, moved, d) && ValidJob(own, packed, |low|, samples) && ValidJob(moved, bigPacked, |bigLow|, bigSamples)
    requires Embedded(low, bigLow, d.low)
    ensures FirstOverlap(own, low, packed, samples).Some? <==> FirstOverlap(moved, bigLow, bigPacked, bigSamples).Some?
    ensures FirstOverlap(own, low, packed, samples).Some? ==>
      Embedded(FirstOverlap(own, low, packed, samples).value, FirstOverlap(moved, bigLow, bigPacked, bigSamples).value, d.low)
  {
    if own.overlap.Two? {
      var p, q := own.plane, moved.plane;
      FirstPassInside(p, own.hard, own.tileColumns, own.tileRows);
      FirstPassInside(q, own.hard, own.tileColumns, own.tileRows);
      var s := FirstSchedule(p, own.hard, own.tileColumns, own.tileRows).value;
      var r := FirstSchedule(q, own.hard, own.tileColumns, own.tileRows).value;
      InsideValid(s, p.lowOffset, LowEnd(p), |low|);
      InsideValid(r, q.lowOffset, LowEnd(q), |bigLow|);
      SchedulesShifted(p, q, d, own.hard, own.tileColumns, own.tileRows);
      hide RunPass, FirstSchedule, SecondSchedule, ValidSchedule, PassInside, Embedded, FillsWindow, AllReady, LowEnd,
           SampleEnd, TileGrid;
      RebasedPass(s, FilterFits, d.low, low, bigLow);
    }
  }

  lemma SecondOverlapMoved(own: Job, moved: Job, d: Shift, packed: nat, bigPacked: nat, low: nat, bigLow: nat,
                           samples: seq<int>, bigSamples: seq<int>)
    requires JobMoved(own, moved, d) && ValidJob(own, packed, low, |samples|) && ValidJob(moved, bigPacked, bigLow, |bigSamples|)
    requires Embedded(samples, bigSamples, d.samples)
    ensures SecondOverlap(own, samples, packed, low).Some? <==> SecondOverlap(moved, bigSamples, bigPacked, bigLow).Some?
    ensures SecondOverlap(own, samples, packed, low).Some? ==>
      Embedded(SecondOverlap(own, samples, packed, low).value, SecondOverlap(moved, bigSamples, bigPacked, bigLow).value, d.samples)
  {
    if !own.overlap.NoOverlap? {
      var p, q := own.plane, moved.plane;
      SecondPassInside(p, own.hard, own.tileColumns, own.tileRows);
      SecondPassInside(q, own.hard, own.tileColumns, own.tileRows);
      var s := SecondSchedule(p, own.hard, own.tileColumns, own.tileRows).value;
      var r := SecondSchedule(q, own.hard, own.tileColumns, own.tileRows).value;
      InsideValid(s, p.sampleOffset, SampleEnd(p), |samples|);
      InsideValid(r, q.sampleOffset, SampleEnd(q), |bigSamples|);
      SchedulesShifted(p, q, d, own.hard, own.tileColumns, own.tileRows);
      hide RunPass, FirstSchedule, SecondSchedule, ValidSchedule, PassInside, Embedded, FillsWindow, AllReady, LowEnd,
           SampleEnd, TileGrid;
      RebasedPass(s, FilterFits, d.samples, samples, bigSamples);
    }
  }

  /**
   A job moved to other places of larger buffers that hold its own coefficients and its own scratch contents there
   overflows exactly when the job itself does, and otherwise leaves the job's samples in their new place.
   */
  lemma ReconstructMoved(own: Job, moved: Job, d: Shift, coefficients: seq<int>, packed: seq<int>, low: seq<int>, bigLow: seq<int>,
                         samples: seq<int>, bigSamples: seq<int>)
    requires BothValid(own, moved, d, coefficients, packed, |low|, |bigLow|, |samples|, |bigSamples|)
    requires Embedded(low, bigLow, d.low) && Embedded(samples, bigSamples, d.samples)
    ensures Reconstruct(own, coefficients, low, samples).Some? <==> Reconstruct(moved, packed, bigLow, bigSamples).Some?
    ensures Reconstruct(own, coefficients, low, samples).Some? ==>
      Embedded(Reconstruct(own, coefficients, low, samples).value, Reconstruct(moved, packed, bigLow, bigSamples).value, d.samples)
  {
    hide ValidJob, Embedded, JobMoved, FirstStage, FirstOverlap, SecondStage, SecondOverlap;
    FirstStageMoved(own, moved, d, coefficients, packed, low, bigLow, |samples|, |bigSamples|);
    if FirstStage(own, coefficients, low, |samples|).Some? {
      var a, b := FirstStage(own, coefficients, low, |samples|).value, FirstStage(moved, packed, bigLow, |bigSamples|).value;
      FirstOverlapMoved(own, moved, d, |coefficients|, |packed|, a, b, |samples|, |bigSamples|);
      if FirstOverlap(own, a, |coefficients|, |samples|).Some? {
        var c, e := FirstOverlap(own, a, |coefficients|, |samples|).value, FirstOverlap(moved, b, |packed|, |bigSamples|).value;
        SecondStageMoved(own, moved, d, coefficients, packed, c, e, samples, bigSamples);
        if SecondStage(own, coefficients, c, samples).Some? {
          SecondOverlapMoved(own, moved, d, |coefficients|, |packed|, |low|, |bigLow|,
                             SecondStage(own, coefficients, c, samples).value, SecondStage(moved, packed, e, bigSamples).value);
        }
      }
    }
  }

  lemma SliceEmbedded(big: seq<int>, from: nat, count: nat)
    requires from + count <= |big|
    ensures Embedded(big[from..from + count], big, from)
  {}

  /** Neither whether a plane overflows nor what it leaves depends on what its scratch held. */
  lemma StaleOrNot(job: Job, packed: seq<int>, lowOne: seq<int>, lowTwo: seq<int>, one: seq<int>, two: seq<int>)
    requires ValidJob(job, |packed|, |lowOne|, |one|) && |lowTwo| == |lowOne| && |two| == |one|
    ensures Reconstruct(job, packed, lowOne, one).Some? <==> Reconstruct(job, packed, lowTwo, two).Some?
    ensures Reconstruct(job, packed, lowOne, one).Some? ==>
      SameRange(Reconstruct(job, packed, lowOne, one).value, Reconstruct(job, packed, lowTwo, two).value,
                job.plane.sampleOffset, SampleEnd(job.plane))
  {
    hide ValidJob, Reconstruct, SampleEnd, SameRange;
    if Reconstruct(job, packed, lowOne, one).Some? {
      NoStaleScratch(job, packed, lowOne, lowTwo, one, two);
    }
    if Reconstruct(job, packed, lowTwo, two).Some? {
      NoStaleScratch(job, packed, lowTwo, lowOne, two, one);
    }
  }

  /** A memory holds, from a cell on, what another holds in a range. */
  ghost predicate HoldsRange(after: seq<int>, from: nat, own: seq<int>, low: nat, high: nat) {
    from + |own| <= |after| && forall k: nat :: low <= k < high && k < |own| ==> after[from + k] == own[k]
  }

  lemma EmbeddedRange(one: seq<int>, two: seq<int>, big: seq<int>, from: nat, low: nat, high: nat)
    requires Embedded(one, big, from) && SameRange(one, two, low, high)
    ensures HoldsRange(big, from, two, low, high)
  {
    forall k: nat | low <= k < high && k < |two|
      ensures big[from + k] == two[k]
    {
      assert big[from + k] == one[k];
    }
  }

  /** The samples hold, from a cell on, what a plane's own reconstruction leaves. */
  ghost predicate HoldsDecode(after: seq<int>, from: nat, p: Plane, own: Option<seq<int>>) {
    own.Some? && HoldsRange(after, from, own.value, p.sampleOffset, SampleEnd(p))
  }

  /**
   Wherever a job is moved, and whatever the scratch buffers held in either place, it overflows exactly when the job
   itself does, and otherwise leaves the job's samples in their new place.
   */
  lemma PlacedAnywhere(own: Job, moved: Job, d: Shift, coefficients: seq<int>, packed: seq<int>, low: seq<int>, samples: seq<int>,
                       ownLow: seq<int>, ownSamples: seq<int>)
    requires BothValid(own, moved, d, coefficients, packed, |ownLow|, |low|, |ownSamples|, |samples|)
    requires d.low + |ownLow| <= |low| && d.samples + |ownSamples| <= |samples|
    ensures Reconstruct(moved, packed, low, samples).Some? <==> Reconstruct(own, coefficients, ownLow, ownSamples).Some?
    ensures Reconstruct(moved, packed, low, samples).Some? ==>
      HoldsDecode(Reconstruct(moved, packed, low, samples).value, d.samples, own.plane, Reconstruct(own, coefficients, ownLow, ownSamples))
  {
    hide ValidJob, Reconstruct, JobMoved, SampleEnd, Embedded;
    var midLow, midSamples := low[d.low..d.low + |ownLow|], samples[d.samples..d.samples + |ownSamples|];
    SliceEmbedded(low, d.low, |ownLow|);
    SliceEmbedded(samples, d.samples, |ownSamples|);
    ReconstructMoved(own, moved, d, coefficients, packed, midLow, low, midSamples, samples);
    StaleOrNot(own, coefficients, midLow, ownLow, midSamples, ownSamples);
    if Reconstruct(moved, packed, low, samples).Some? {
      EmbeddedRange(Reconstruct(own, coefficients, midLow, midSamples).value, Reconstruct(own, coefficients, ownLow, ownSamples).value,
                    Reconstruct(moved, packed, low, samples).value, d.samples, own.plane.sampleOffset, SampleEnd(own.plane));
    }
  }
}
