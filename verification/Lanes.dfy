/**
 The lanes of the high-pass kernel. A thread group shares one macroblock: its lanes fill the shared block
 of coefficients stride by stride, lane 0 predicts it, and after a barrier the lanes transform the blocks,
 stride by stride again. Whatever the number of lanes and their order, the group does what one lane would.
 */
module Lanes {
  import opened Wrappers
  import opened Arithmetic
  import opened Memory
  import opened Blocks
  import opened Phases
  import opened Regions
  import opened ExactTiling
  import opened Window
  import opened Kernels
  import opened CellGrid
  import opened Reconstruction
  import L = Locality

  /** What a lane visits below `n`: every `lanes`-th index from its own number on. */
  function Strided(lane: nat, lanes: nat, n: nat): (visited: seq<nat>)
    requires lanes > 0
    decreases n - lane
  {
    if lane >= n then [] else [lane] + Strided(lane + lanes, lanes, n)
  }

  lemma NextInClass(lane: nat, lanes: nat, i: nat)
    requires lanes > 0
    ensures lane <= i && i % lanes == lane % lanes <==>
      i == lane || (lane + lanes <= i && i % lanes == (lane + lanes) % lanes)
  {
    DivisionUnique(lane + lanes, lanes, lane / lanes + 1, lane % lanes);
    if lane < i < lane + lanes && i % lanes == lane % lanes {
      MultipleAtLeast(lanes, i / lanes - lane / lanes);
    }
  }

  /** A lane visits exactly the indices of its class, each once. */
  lemma {:induction false} StridedVisits(lane: nat, lanes: nat, n: nat)
    requires lanes > 0
    ensures forall i: nat :: i in Strided(lane, lanes, n) <==> lane <= i < n && i % lanes == lane % lanes
    ensures Distinct(Strided(lane, lanes, n))
    decreases n - lane
  {
    if lane < n {
      StridedVisits(lane + lanes, lanes, n);
      var rest := Strided(lane + lanes, lanes, n);
      forall i: nat
        ensures i in Strided(lane, lanes, n) <==> lane <= i < n && i % lanes == lane % lanes
      {
        NextInClass(lane, lanes, i);
      }
      forall k | 0 <= k < |rest|
        ensures rest[k] != lane
      {
        assert rest[k] in rest;
      }
    }
  }

  /** The lanes together visit every index exactly once. */
  lemma LanesPartition(lanes: nat, n: nat, i: nat)
    requires lanes > 0 && i < n
    ensures i % lanes < lanes && i in Strided(i % lanes, lanes, n)
    ensures forall lane: nat :: lane < lanes && i in Strided(lane, lanes, n) ==> lane == i % lanes
  {
    assert (i % lanes) % lanes == i % lanes;
    StridedVisits(i % lanes, lanes, n);
    assert i % lanes <= i;
    forall lane: nat | lane < lanes && i in Strided(lane, lanes, n)
      ensures lane == i % lanes
    {
      StridedVisits(lane, lanes, n);
    }
  }

  // ---- Filling the shared block ----

  /** One lane's stores to the shared block. */
  ghost function FillItem(input: seq<int>, lane: nat, lanes: nat): Item
    requires lanes > 0
  {
    StridedVisits(lane, lanes, |input|);
    var visited := Strided(lane, lanes, |input|);
    assert forall k :: 0 <= k < |visited| ==> visited[k] in visited;
    var values := Gather(input, visited);
    Item([], visited, _ => Some(values))
  }

  ghost function FillItems(input: seq<int>, lanes: nat): (items: seq<Item>)
    requires lanes > 0
    ensures |items| == lanes
    ensures forall t :: 0 <= t < lanes ==> items[t] == FillItem(input, t, lanes)
  {
    seq(lanes, t requires 0 <= t < lanes => FillItem(input, t, lanes))
  }

  lemma FillItemMeaning(input: seq<int>, lane: nat, lanes: nat, size: nat)
    requires lanes > 0 && |input| <= size
    ensures var item := FillItem(input, lane, lanes);
      && ValidItem(item, size) && item.loads == [] && item.stores == Strided(lane, lanes, |input|)
      && (forall v :: item.op(v).Some?)
      && (forall v, k :: item.op(v).Some? && (0 <= k < |item.stores| ==>
            item.stores[k] < |input| && k < |item.op(v).value| && item.op(v).value[k] == input[item.stores[k]]))
  {
    StridedVisits(lane, lanes, |input|);
    var visited := Strided(lane, lanes, |input|);
    assert forall k :: 0 <= k < |visited| ==> visited[k] in visited;
  }

  lemma FillSound(input: seq<int>, lanes: nat, size: nat)
    requires lanes > 0 && |input| <= size
    ensures ValidItems(FillItems(input, lanes), size) && Independent(FillItems(input, lanes))
  {
    hide ValidItem, FillItem;
    var items := FillItems(input, lanes);
    forall t | 0 <= t < lanes
      ensures ValidItem(items[t], size) && items[t].loads == [] && items[t].stores == Strided(t, lanes, |input|)
    {
      FillItemMeaning(input, t, lanes, size);
    }
    forall j, k, cell: nat | 0 <= j < lanes && 0 <= k < lanes && j != k && cell in items[j].stores
      ensures cell !in items[k].stores && cell !in items[k].loads
    {
      StridedVisits(j, lanes, |input|);
      LanesPartition(lanes, |input|, cell);
    }
  }

  /** However the lanes interleave, at the barrier the shared block holds the input, whatever it held before. */
  lemma HighFilled(input: seq<int>, lanes: nat, states: seq<State>)
    requires lanes > 0 && |states| > 0 && |input| <= |states[0].memory|
    requires Execution(FillItems(input, lanes), states, |states[0].memory|) && AllDone(states[|states| - 1])
    ensures var last := states[|states| - 1];
      !last.failed && last.memory == input + states[0].memory[|input|..]
  {
    hide Execution, AllDone, Independent, ValidItem, FillItem;
    var items, start, last := FillItems(input, lanes), states[0].memory, states[|states| - 1];
    FillSound(input, lanes, |start|);
    InterleavingIsRun(items, states);
    RunIsPhaseResult(items, start);
    forall t | 0 <= t < lanes
      ensures Computed(items[t], start).Some?
    {
      FillItemMeaning(input, t, lanes, |start|);
      assert items[t].op(Gather(start, items[t].loads)).Some?;
    }
    forall i | 0 <= i < |start|
      ensures last.memory[i] == (input + start[|input|..])[i]
    {
      FilledAt(input, lanes, start, last.memory, i);
    }
  }

  lemma FilledAt(input: seq<int>, lanes: nat, start: seq<int>, after: seq<int>, i: nat)
    requires lanes > 0 && |input| <= |start| && i < |start|
    requires ValidItems(FillItems(input, lanes), |start|) && PhaseResult(FillItems(input, lanes), start, after)
    ensures after[i] == if i < |input| then input[i] else start[i]
  {
    hide FillItem, ValidItem;
    var items := FillItems(input, lanes);
    if i < |input| {
      LanesPartition(lanes, |input|, i);
      var t := i % lanes;
      FillItemMeaning(input, t, lanes, |start|);
      var k :| 0 <= k < |items[t].stores| && items[t].stores[k] == i;
      assert after[items[t].stores[k]] == Computed(items[t], start).value[k];
    } else if Written(items, i) {
      var t :| 0 <= t < lanes && i in items[t].stores;
      FillItemMeaning(input, t, lanes, |start|);
      StridedVisits(t, lanes, |input|);
    }
  }

  /** One lane fills its stride of the shared block. */
  method FillLane(high: array<i32>, packed: array<i32>, m: Macroblock, p: Plane, lane: nat, lanes: nat)
    requires Ready(m, p, packed.Length) && BlockCount(p) * 16 <= high.Length && high != packed && lanes > 0
    modifies high
    ensures ValidItem(FillItem(HighInput(packed[..], m, p), lane, lanes), high.Length)
    ensures Some(high[..]) == Apply(FillItem(HighInput(packed[..], m, p), lane, lanes), old(high[..]))
  {
    hide Scatter, Stored;
    ghost var input, before := HighInput(packed[..], m, p), high[..];
    var count := BlockCount(p) * 16;
    FillItemMeaning(input, lane, lanes, high.Length);
    ghost var item := FillItem(input, lane, lanes);
    ghost var visited, values := item.stores, item.op([]).value;
    StoredNone(before, visited, values);
    var index := lane;
    ghost var k := 0;
    while index < count
      invariant input == HighInput(packed[..], m, p)
      invariant k <= |visited| && visited[k..] == Strided(index, lanes, count)
      invariant Stored(high[..], before, visited, values, k)
    {
      assert visited[k] == visited[k..][0] == index;
      StoredNext(high[..], before, visited, values, k);
      high[index] := if m.bands < 2 || index % 16 == 0 then 0 else packed[m.offset + index];
      assert visited[k + 1..] == visited[k..][1..];
      index, k := index + lanes, k + 1;
    }
    StoredAll(high[..], before, visited, values);
    assert Gather(before, item.loads) == [];
  }

  lemma StoredNext(now: seq<int>, before: seq<int>, at: seq<nat>, values: seq<int>, k: nat)
    requires k < |at| && Within(at, |before|) && Stored(now, before, at, values, k)
    ensures at[k] < |now| && Stored(now[at[k] := values[k]], before, at, values, k + 1)
  {
    ScatterNext(before, at, values, k);
  }

  // ---- Transforming the blocks ----

  /** One block of the second transform, after the barrier its group predicted the coefficients before. */
  ghost function BlockItem(table: seq<nat>, packed: seq<int>, low: seq<int>, m: Macroblock, p: Plane, block: nat): Item
    requires Ready(m, p, |packed|) && IsPermutation(table) && LowPlaneHolds(p, m, |low|) && block < BlockCount(p)
  {
    Item([], SampleCells(p, m, block),
         _ => if HighFits(packed, m, p) && SecondFits(table, HighPredicted(packed, m, p), low[LowCell(p, m, block)], m, block)
              then Some(SecondExact(table, HighPredicted(packed, m, p), low[LowCell(p, m, block)], m, block)) else None)
  }

  /** The blocks one lane transforms. */
  ghost function LaneItems(table: seq<nat>, packed: seq<int>, low: seq<int>, m: Macroblock, p: Plane, blocks: seq<nat>): (items: seq<Item>)
    requires Ready(m, p, |packed|) && IsPermutation(table) && LowPlaneHolds(p, m, |low|) && Within(blocks, BlockCount(p))
    ensures |items| == |blocks|
    ensures forall k :: 0 <= k < |items| ==> items[k] == BlockItem(table, packed, low, m, p, blocks[k])
  {
    seq(|blocks|, k requires 0 <= k < |blocks| => BlockItem(table, packed, low, m, p, blocks[k]))
  }

  lemma BlockItemMeaning(table: seq<nat>, packed: seq<int>, low: seq<int>, m: Macroblock, p: Plane, block: nat, size: nat)
    requires Ready(m, p, |packed|) && IsPermutation(table) && LowPlaneHolds(p, m, |low|) && block < BlockCount(p)
    requires SampleEnd(p) <= size
    ensures ValidItem(BlockItem(table, packed, low, m, p, block), size)
  {
    hide HighFits, SecondFits, SecondExact, HighPredicted, SampleCell, SampleEnd;
    forall k | 0 <= k < 16
      ensures SampleCell(p, m, block, k) < size
    {
      SampleCellInside(p, m, block, k);
    }
    forall j, k | 0 <= j < k < 16
      ensures SampleCell(p, m, block, j) != SampleCell(p, m, block, k)
    {
      if SampleCell(p, m, block, j) == SampleCell(p, m, block, k) {
        SampleCellUnique(p, m, m, block, block, j, k);
      }
    }
  }

  /** One lane transforms its stride of the blocks, giving up at the first that overflows. */
  method TransformLane(high: array<i32>, lowPlane: array<i32>, samples: array<i32>, ghost packed: seq<int>,
                       m: Macroblock, p: Plane, table: seq<nat>, lane: nat, lanes: nat)
    returns (r: Outcome)
    requires IsPermutation(table) && Ready(m, p, |packed|) && LowPlaneHolds(p, m, lowPlane.Length) && lanes > 0
    requires HighFits(packed, m, p) && high[..] == HighPredicted(packed, m, p)
    requires samples != high && samples != lowPlane && SampleEnd(p) <= samples.Length
    modifies samples
    ensures var visited := Strided(lane, lanes, BlockCount(p));
      && Within(visited, BlockCount(p))
      && ValidItems(LaneItems(table, packed, lowPlane[..], m, p, visited), samples.Length)
      && Run(LaneItems(table, packed, lowPlane[..], m, p, visited), old(samples[..])) ==
           if r.Done? then Some(samples[..]) else None
  {
    hide HighFits, SecondFits, SecondExact, HighPredicted, SampleCell, SampleCells, LowCell, SampleEnd, BlockItem,
         Run, Apply, ValidItem, Within, BlockCount, ValidPlane, InWindow;
    ghost var before, low := samples[..], lowPlane[..];
    var count := BlockCount(p);
    ghost var visited := Strided(lane, lanes, count);
    LaneBlocks(table, packed, low, m, p, lane, lanes, samples.Length);
    ghost var items := LaneItems(table, packed, low, m, p, visited);
    var block := lane;
    ghost var k := 0;
    RunNone(items, before);
    while block < count
      invariant lowPlane[..] == low && high[..] == HighPredicted(packed, m, p)
      invariant k <= |visited| && visited[k..] == Strided(block, lanes, count)
      invariant Run(items[..k], before) == Some(samples[..])
    {
      assert visited[k] == visited[k..][0] == block;
      BlockMeaning(table, packed, low, samples[..], m, p, block);
      RunNext(items, before, k);
      assert lowPlane[LowCell(p, m, block)] == low[LowCell(p, m, block)];
      :- SecondTransform(high, lowPlane, samples, m, p, table, block);
      assert visited[k + 1..] == visited[k..][1..];
      block, k := block + lanes, k + 1;
    }
    assert items[..|items|] == items;
    return Done;
  }

  lemma LaneBlocks(table: seq<nat>, packed: seq<int>, low: seq<int>, m: Macroblock, p: Plane, lane: nat, lanes: nat, size: nat)
    requires Ready(m, p, |packed|) && IsPermutation(table) && LowPlaneHolds(p, m, |low|) && lanes > 0 && SampleEnd(p) <= size
    ensures Within(Strided(lane, lanes, BlockCount(p)), BlockCount(p))
    ensures ValidItems(LaneItems(table, packed, low, m, p, Strided(lane, lanes, BlockCount(p))), size)
  {
    hide ValidItem, BlockItem, LowPlaneHolds, SampleEnd;
    var visited := Strided(lane, lanes, BlockCount(p));
    StridedVisits(lane, lanes, BlockCount(p));
    forall k | 0 <= k < |visited|
      ensures visited[k] < BlockCount(p)
    {
      assert visited[k] in visited;
    }
    forall k | 0 <= k < |visited|
      ensures ValidItem(LaneItems(table, packed, low, m, p, visited)[k], size)
    {
      BlockItemMeaning(table, packed, low, m, p, visited[k], size);
    }
  }

  lemma RunNone(items: seq<Item>, memory: seq<int>)
    requires ValidItems(items, |memory|)
    ensures Run(items[..0], memory) == Some(memory)
  {}

  /** One more item of a list: if it overflows, so does the list. */
  lemma RunNext(items: seq<Item>, before: seq<int>, k: nat)
    requires k < |items| && ValidItems(items, |before|) && Run(items[..k], before).Some?
    ensures Run(items[..k + 1], before) == Apply(items[k], Run(items[..k], before).value)
    ensures Apply(items[k], Run(items[..k], before).value).None? ==> Run(items, before).None?
  {
    hide ValidItem, Apply;
    assert items[..k + 1][..k] == items[..k];
    assert items == items[..k + 1] + items[k + 1..];
    L.RunConcat(items[..k + 1], items[k + 1..], before);
  }

  /** What a block does once its group's coefficients are predicted. */
  lemma BlockMeaning(table: seq<nat>, packed: seq<int>, low: seq<int>, samples: seq<int>, m: Macroblock, p: Plane, block: nat)
    requires Ready(m, p, |packed|) && IsPermutation(table) && LowPlaneHolds(p, m, |low|) && block < BlockCount(p)
    requires SampleEnd(p) <= |samples| && HighFits(packed, m, p)
    ensures LowCell(p, m, block) < |low| && Within(SampleCells(p, m, block), |samples|)
    ensures ValidItem(BlockItem(table, packed, low, m, p, block), |samples|)
    ensures var high := HighPredicted(packed, m, p);
      Apply(BlockItem(table, packed, low, m, p, block), samples) ==
        if SecondFits(table, high, low[LowCell(p, m, block)], m, block)
        then Some(Scatter(samples, SampleCells(p, m, block), SecondExact(table, high, low[LowCell(p, m, block)], m, block)))
        else None
  {
    hide HighFits, SecondFits, SecondExact, HighPredicted, SampleCell, SampleCells, LowCell, SampleEnd;
    BlockItemMeaning(table, packed, low, m, p, block, |samples|);
  }

  // ---- All blocks of a plane ----

  /** The blocks of every macroblock as threads of one phase, whichever lane runs them. */
  ghost function BlockItems(job: Job, packed: seq<int>, low: seq<int>): (items: seq<Item>)
    requires AllReady(job, |packed|) && LowEnd(job.plane) <= |low| && ValidPlane(job.plane)
    ensures |items| == |job.macroblocks| * BlockCount(job.plane)
    ensures forall j :: 0 <= j < |items| ==> items[j] == BlockOf(job, packed, low, j)
  {
    seq(|job.macroblocks| * BlockCount(job.plane),
        j requires 0 <= j < |job.macroblocks| * BlockCount(job.plane) => BlockOf(job, packed, low, j))
  }

  ghost function BlockOf(job: Job, packed: seq<int>, low: seq<int>, j: nat): Item
    requires AllReady(job, |packed|) && LowEnd(job.plane) <= |low| && ValidPlane(job.plane)
    requires j < |job.macroblocks| * BlockCount(job.plane)
  {
    var g, block := MacroblockOf(job, j), j % BlockCount(job.plane);
    LowHeld(job.plane, job.macroblocks[g], |low|);
    BlockItem(job.table, packed, low, job.macroblocks[g], job.plane, block)
  }

  function MacroblockOf(job: Job, j: nat): (g: nat)
    requires ValidPlane(job.plane) && j < |job.macroblocks| * BlockCount(job.plane)
    ensures g < |job.macroblocks|
    ensures j == g * BlockCount(job.plane) + j % BlockCount(job.plane)
  {
    BlockNumber(BlockCount(job.plane), |job.macroblocks|, j);
    j / BlockCount(job.plane)
  }

  lemma BlockNumber(count: nat, groups: nat, j: nat)
    requires count > 0 && j < groups * count
    ensures j / count < groups && j == j / count * count + j % count
  {
    var outer, inner := SplitPair(count, groups, j);
    DivisionUnique(j, count, outer, inner);
  }

  lemma BlockOfShape(job: Job, packed: seq<int>, low: seq<int>, g: nat, block: nat)
    requires AllReady(job, |packed|) && LowEnd(job.plane) <= |low| && ValidPlane(job.plane)
    requires g < |job.macroblocks| && block < BlockCount(job.plane)
    ensures LowPlaneHolds(job.plane, job.macroblocks[g], |low|)
    ensures var j := g * BlockCount(job.plane) + block;
      && j < |BlockItems(job, packed, low)|
      && BlockItems(job, packed, low)[j] == BlockItem(job.table, packed, low, job.macroblocks[g], job.plane, block)
  {
    hide BlockItem, LowEnd, BlockCount;
    LowHeld(job.plane, job.macroblocks[g], |low|);
    var count := BlockCount(job.plane);
    PairBelow(count, g, block, |job.macroblocks|);
    var j := g * count + block;
    SamePair(count, g, block, MacroblockOf(job, j), j % count);
  }

  lemma BlockItemSound(job: Job, packed: seq<int>, low: seq<int>, samples: nat, j: nat)
    requires ValidJob(job, |packed|, |low|, samples) && j < |BlockItems(job, packed, low)|
    ensures ValidItem(BlockItems(job, packed, low)[j], samples) && BlockItems(job, packed, low)[j].loads == []
  {
    hide LowEnd, SampleEnd, SampleCells, ValidItem, TileGrid, BlockCount, FillsWindow, LowPlaneHolds, HighFits,
         SecondFits, SecondExact, HighPredicted, LowCell;
    var m := job.macroblocks[MacroblockOf(job, j)];
    LowHeld(job.plane, m, |low|);
    BlockItemMeaning(job.table, packed, low, m, job.plane, j % BlockCount(job.plane), samples);
  }

  lemma BlockItemsSound(job: Job, packed: seq<int>, low: seq<int>, samples: nat)
    requires ValidJob(job, |packed|, |low|, samples)
    ensures ValidItems(BlockItems(job, packed, low), samples) && Independent(BlockItems(job, packed, low))
  {
    hide LowEnd, SampleEnd, ValidItem, TileGrid, BlockItems, FillsWindow, LowCell, AllReady;
    var items := BlockItems(job, packed, low);
    forall j | 0 <= j < |items|
      ensures ValidItem(items[j], samples) && items[j].loads == []
    {
      BlockItemSound(job, packed, low, samples, j);
    }
    forall j, k, cell: nat | 0 <= j < |items| && 0 <= k < |items| && j != k && cell in items[j].stores
      ensures cell !in items[k].stores && cell !in items[k].loads
    {
      if cell in items[k].stores {
        BlocksApart(job, packed, low, samples, j, k, cell);
      }
    }
  }

  lemma BlocksApart(job: Job, packed: seq<int>, low: seq<int>, samples: nat, j: nat, k: nat, cell: nat)
    requires ValidJob(job, |packed|, |low|, samples)
    requires j < |BlockItems(job, packed, low)| && k < |BlockItems(job, packed, low)|
    requires cell in BlockItems(job, packed, low)[j].stores && cell in BlockItems(job, packed, low)[k].stores
    ensures j == k
  {
    hide LowEnd, SampleEnd, SampleCell, TileGrid, BlockCount;
    var p := job.plane;
    var m, n := MacroblockOf(job, j), MacroblockOf(job, k);
    var a, b := j % BlockCount(p), k % BlockCount(p);
    var x :| 0 <= x < 16 && SampleCell(p, job.macroblocks[m], a, x) == cell;
    var y :| 0 <= y < 16 && SampleCell(p, job.macroblocks[n], b, y) == cell;
    SampleCellUnique(p, job.macroblocks[m], job.macroblocks[n], a, b, x, y);
    assert CodedX(job.macroblocks)[m] == CodedX(job.macroblocks)[n] && CodedY(job.macroblocks)[m] == CodedY(job.macroblocks)[n];
  }

  /** Whether block `block` of macroblock `g` completes, `count` blocks to a macroblock. */
  ghost predicate BlockCompletes(blocks: seq<Item>, count: nat, samples: seq<int>, g: nat, block: nat)
    requires ValidItems(blocks, |samples|)
  {
    g * count + block < |blocks| && Computed(blocks[g * count + block], samples).Some?
  }

  /** A macroblock's group completes exactly when all its blocks do. */
  lemma GroupByBlocks(job: Job, packed: seq<int>, low: seq<int>, samples: seq<int>, g: nat)
    requires ValidJob(job, |packed|, |low|, |samples|) && g < |job.macroblocks|
    requires ValidItems(BlockItems(job, packed, low), |samples|) && ValidItems(SecondItems(job, packed, low), |samples|)
    ensures Computed(SecondItems(job, packed, low)[g], samples).Some? <==>
      forall block: nat :: block < BlockCount(job.plane) ==> BlockCompletes(BlockItems(job, packed, low), BlockCount(job.plane), samples, g, block)
  {
    hide HighFits, SecondFits, SecondExact, HighPredicted, GroupExact, SampleCells, GroupCells, LowCell, FillsWindow,
         TileGrid, LowEnd, SampleEnd, BlockItems, SecondItems, SecondItem;
    var m := job.macroblocks[g];
    LowHeld(job.plane, m, |low|);
    GroupComputes(job, packed, low, samples, g);
    BlockComputes(job, packed, low, samples, g, 0);
    forall block: nat | block < BlockCount(job.plane)
      ensures BlockCompletes(BlockItems(job, packed, low), BlockCount(job.plane), samples, g, block) <==>
        HighFits(packed, m, job.plane) && SecondFits(job.table, HighPredicted(packed, m, job.plane), low[LowCell(job.plane, m, block)], m, block)
    {
      BlockComputes(job, packed, low, samples, g, block);
    }
  }

  lemma GroupComputes(job: Job, packed: seq<int>, low: seq<int>, samples: seq<int>, g: nat)
    requires ValidJob(job, |packed|, |low|, |samples|) && g < |job.macroblocks|
    requires ValidItems(SecondItems(job, packed, low), |samples|)
    ensures LowPlaneHolds(job.plane, job.macroblocks[g], |low|)
    ensures Computed(SecondItems(job, packed, low)[g], samples) ==
      if GroupFits(job.table, packed, low, job.macroblocks[g], job.plane)
      then Some(GroupExact(job.table, packed, low, job.macroblocks[g], job.plane)) else None
  {
    hide GroupFits, GroupExact, GroupCells, LowEnd, SampleEnd, TileGrid, FillsWindow, LowPlaneHolds, SecondItem;
    LowHeld(job.plane, job.macroblocks[g], |low|);
    SecondItemComputes(job, packed, low, job.macroblocks[g], samples);
  }

  lemma BlockComputes(job: Job, packed: seq<int>, low: seq<int>, samples: seq<int>, g: nat, block: nat)
    requires ValidJob(job, |packed|, |low|, |samples|) && g < |job.macroblocks| && block < BlockCount(job.plane)
    requires ValidItems(BlockItems(job, packed, low), |samples|)
    ensures var m, p := job.macroblocks[g], job.plane;
      && LowPlaneHolds(p, m, |low|)
      && BlockCompletes(BlockItems(job, packed, low), BlockCount(job.plane), samples, g, block)
         == (HighFits(packed, m, p) && SecondFits(job.table, HighPredicted(packed, m, p), low[LowCell(p, m, block)], m, block))
  {
    hide HighFits, SecondFits, SecondExact, HighPredicted, SampleCells, LowCell, FillsWindow, TileGrid, LowEnd,
         SampleEnd, BlockItems, LowPlaneHolds;
    BlockOfShape(job, packed, low, g, block);
  }

  /** Where all blocks complete, each left its samples: together they are the group's. */
  lemma BlocksStore(job: Job, packed: seq<int>, low: seq<int>, samples: seq<int>, after: seq<int>, g: nat, i: nat)
    requires ValidJob(job, |packed|, |low|, |samples|) && g < |job.macroblocks| && i < BlockCount(job.plane) * 16
    requires ValidItems(BlockItems(job, packed, low), |samples|) && PhaseResult(BlockItems(job, packed, low), samples, after)
    ensures var m, p := job.macroblocks[g], job.plane;
      && LowPlaneHolds(p, m, |low|) && SampleCell(p, m, i / 16, i % 16) < |after|
      && after[SampleCell(p, m, i / 16, i % 16)] == GroupExact(job.table, packed, low, m, p)[i]
  {
    hide HighFits, SecondFits, SecondExact, HighPredicted, SampleCell, LowCell, FillsWindow, TileGrid, LowEnd,
         SampleEnd, BlockItems, LowPlaneHolds, BlockCount;
    var block := i / 16;
    BlockOfShape(job, packed, low, g, block);
    var j := g * BlockCount(job.plane) + block;
    PhaseAt(BlockItems(job, packed, low), samples, after, j, i % 16);
  }

  /** The phase of all blocks is the phase of all groups. */
  lemma BlocksAreGroups(job: Job, packed: seq<int>, low: seq<int>, samples: seq<int>)
    requires ValidJob(job, |packed|, |low|, |samples|)
    ensures ValidItems(BlockItems(job, packed, low), |samples|) && Independent(BlockItems(job, packed, low))
    ensures Run(BlockItems(job, packed, low), samples) == SecondStage(job, packed, low, samples)
  {
    hide TileGrid, LowEnd, SampleEnd, FillsWindow, BlockItems, SecondItems, Independent, ValidItem, AllReady,
         BlockCompletes, PhaseResult, SecondItem;
    var blocks, groups := BlockItems(job, packed, low), SecondItems(job, packed, low);
    BlockItemsSound(job, packed, low, |samples|);
    SecondItemsSound(job, packed, low, |samples|);
    RunIsPhaseResult(blocks, samples);
    RunIsPhaseResult(groups, samples);
    SameCompletion(job, packed, low, samples);
    if Run(blocks, samples).Some? {
      GroupsResult(job, packed, low, samples, Run(blocks, samples).value);
      PhaseResultUnique(groups, samples, Run(blocks, samples).value, Run(groups, samples).value);
    }
  }

  /** A numbered block, named by its macroblock and its place there. */
  lemma NumberedBlock(job: Job, packed: seq<int>, low: seq<int>, samples: seq<int>, j: nat)
    requires ValidJob(job, |packed|, |low|, |samples|) && ValidItems(BlockItems(job, packed, low), |samples|)
    requires j < |BlockItems(job, packed, low)|
    ensures j % BlockCount(job.plane) < BlockCount(job.plane)
    ensures BlockCompletes(BlockItems(job, packed, low), BlockCount(job.plane), samples, MacroblockOf(job, j), j % BlockCount(job.plane)) <==>
      Computed(BlockItems(job, packed, low)[j], samples).Some?
  {
    hide TileGrid, LowEnd, SampleEnd, FillsWindow, BlockItems, BlockOf, ValidItem, AllReady, BlockCount, Computed,
         LowPlaneHolds;
    BlockNumber(BlockCount(job.plane), |job.macroblocks|, j);
  }

  lemma SameCompletion(job: Job, packed: seq<int>, low: seq<int>, samples: seq<int>)
    requires ValidJob(job, |packed|, |low|, |samples|)
    requires ValidItems(BlockItems(job, packed, low), |samples|) && ValidItems(SecondItems(job, packed, low), |samples|)
    ensures (forall j :: 0 <= j < |BlockItems(job, packed, low)| ==> Computed(BlockItems(job, packed, low)[j], samples).Some?)
      <==> forall g :: 0 <= g < |job.macroblocks| ==> Computed(SecondItems(job, packed, low)[g], samples).Some?
  {
    hide TileGrid, LowEnd, SampleEnd, FillsWindow, BlockItems, BlockOf, SecondItems, SecondItem, ValidItem,
         BlockCount, AllReady, BlockCompletes, ValidPlane, Computed;
    var blocks, groups := BlockItems(job, packed, low), SecondItems(job, packed, low);
    if forall g :: 0 <= g < |groups| ==> Computed(groups[g], samples).Some? {
      forall j | 0 <= j < |blocks|
        ensures Computed(blocks[j], samples).Some?
      {
        NumberedBlock(job, packed, low, samples, j);
        GroupByBlocks(job, packed, low, samples, MacroblockOf(job, j));
      }
    }
    if forall j :: 0 <= j < |blocks| ==> Computed(blocks[j], samples).Some? {
      forall g | 0 <= g < |groups|
        ensures Computed(groups[g], samples).Some?
      {
        AllBlocksComplete(job, packed, low, samples, g);
        GroupByBlocks(job, packed, low, samples, g);
      }
    }
  }

  lemma AllBlocksComplete(job: Job, packed: seq<int>, low: seq<int>, samples: seq<int>, g: nat)
    requires ValidJob(job, |packed|, |low|, |samples|) && g < |job.macroblocks|
    requires ValidItems(BlockItems(job, packed, low), |samples|)
    requires forall j :: 0 <= j < |BlockItems(job, packed, low)| ==> Computed(BlockItems(job, packed, low)[j], samples).Some?
    ensures forall block: nat :: block < BlockCount(job.plane) ==> BlockCompletes(BlockItems(job, packed, low), BlockCount(job.plane), samples, g, block)
  {
    hide TileGrid, LowEnd, SampleEnd, FillsWindow, BlockItems, ValidItem, AllReady, BlockCount;
    forall block: nat | block < BlockCount(job.plane)
      ensures BlockCompletes(BlockItems(job, packed, low), BlockCount(job.plane), samples, g, block)
    {
      PairBelow(BlockCount(job.plane), g, block, |job.macroblocks|);
    }
  }

  /** What a phase of blocks writes, the groups write. */
  lemma WrittenByGroup(job: Job, packed: seq<int>, low: seq<int>, samples: nat, j: nat, cell: nat)
    requires ValidJob(job, |packed|, |low|, samples)
    requires j < |BlockItems(job, packed, low)| && cell in BlockItems(job, packed, low)[j].stores
    ensures cell in SecondItems(job, packed, low)[MacroblockOf(job, j)].stores
  {
    hide LowEnd, SampleEnd, SampleCell, TileGrid, BlockCount, SecondItem, FillsWindow;
    var p, m, a := job.plane, job.macroblocks[MacroblockOf(job, j)], j % BlockCount(job.plane);
    SecondItemShape(job, packed, low, m);
    var x :| 0 <= x < 16 && SampleCell(p, m, a, x) == cell;
    DivisionUnique(a * 16 + x, 16, a, x);
    assert GroupCells(p, m)[a * 16 + x] == cell;
  }

  lemma GroupStores(job: Job, packed: seq<int>, low: seq<int>, samples: seq<int>, after: seq<int>, g: nat, i: nat)
    requires ValidJob(job, |packed|, |low|, |samples|) && g < |job.macroblocks|
    requires ValidItems(BlockItems(job, packed, low), |samples|) && PhaseResult(BlockItems(job, packed, low), samples, after)
    requires ValidItems(SecondItems(job, packed, low), |samples|) && Computed(SecondItems(job, packed, low)[g], samples).Some?
    requires i < |SecondItems(job, packed, low)[g].stores|
    ensures SecondItems(job, packed, low)[g].stores[i] < |after|
    ensures after[SecondItems(job, packed, low)[g].stores[i]] == Computed(SecondItems(job, packed, low)[g], samples).value[i]
  {
    hide LowEnd, SampleEnd, SampleCell, TileGrid, BlockCount, SecondItem, FillsWindow, BlockItems, PhaseResult,
         GroupFits, GroupExact, LowPlaneHolds;
    SecondItemShape(job, packed, low, job.macroblocks[g]);
    GroupComputes(job, packed, low, samples, g);
    BlocksStore(job, packed, low, samples, after, g, i);
  }

  lemma GroupsResult(job: Job, packed: seq<int>, low: seq<int>, samples: seq<int>, after: seq<int>)
    requires ValidJob(job, |packed|, |low|, |samples|)
    requires ValidItems(BlockItems(job, packed, low), |samples|) && PhaseResult(BlockItems(job, packed, low), samples, after)
    requires ValidItems(SecondItems(job, packed, low), |samples|)
    requires forall g :: 0 <= g < |job.macroblocks| ==> Computed(SecondItems(job, packed, low)[g], samples).Some?
    ensures PhaseResult(SecondItems(job, packed, low), samples, after)
  {
    hide TileGrid, LowEnd, SampleEnd, FillsWindow, BlockItems, SecondItems, ValidItem, BlockCount, AllReady, Computed,
         ValidPlane;
    var groups := SecondItems(job, packed, low);
    forall g, i | 0 <= g < |groups| && 0 <= i < |groups[g].stores|
      ensures groups[g].stores[i] < |after| && after[groups[g].stores[i]] == Computed(groups[g], samples).value[i]
    {
      GroupStores(job, packed, low, samples, after, g, i);
    }
    forall cell: nat | cell < |samples| && !Written(groups, cell)
      ensures after[cell] == samples[cell]
    {
      if Written(BlockItems(job, packed, low), cell) {
        var j :| 0 <= j < |BlockItems(job, packed, low)| && cell in BlockItems(job, packed, low)[j].stores;
        WrittenByGroup(job, packed, low, |samples|, j, cell);
      }
    }
  }
}
