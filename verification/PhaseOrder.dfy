/**
 Execution order inside a phase. Independent items give the same memory in every order; the corner
 phases of a subsampled pass are independent of order exactly when every region is wider than two
 samples.
 */
module PhaseOrder {
  import opened Wrappers
  import opened Memory
  import opened Phases
  import opened Overlap
  import opened Tiling
  import opened Passes
  import opened ExactTiling
  import opened Corners
  import opened Blocks
  import L = Locality

  ghost predicate IsOrder(order: seq<nat>, n: nat) {
    |order| == n && Within(order, n) && Distinct(order)
  }

  ghost function Reordered(items: seq<Item>, order: seq<nat>): (r: seq<Item>)
    requires Within(order, |items|)
    ensures |r| == |order| && forall k :: 0 <= k < |order| ==> r[k] == items[order[k]]
  {
    seq(|order|, k requires 0 <= k < |order| => items[order[k]])
  }

  /** Every order of the items gives the same memory, or overflows alike. */
  ghost predicate OrderFree(items: seq<Item>, size: nat)
    requires ValidItems(items, size)
  {
    forall memory: seq<int>, order: seq<nat> :: |memory| == size && IsOrder(order, |items|) ==>
      Run(Reordered(items, order), memory) == Run(items, memory)
  }

  ghost function ListOrder(n: nat): (order: seq<nat>)
    ensures |order| == n && forall k :: 0 <= k < n ==> order[k] == k
  {
    seq(n, k => k)
  }

  lemma InListOrder(items: seq<Item>)
    ensures IsOrder(ListOrder(|items|), |items|) && Reordered(items, ListOrder(|items|)) == items
  {}

  lemma ReorderedIndependent(items: seq<Item>, order: seq<nat>, size: nat)
    requires ValidItems(items, size) && Independent(items) && IsOrder(order, |items|)
    ensures ValidItems(Reordered(items, order), size) && Independent(Reordered(items, order))
  {}

  lemma IndependentOrderFree(items: seq<Item>, size: nat)
    requires ValidItems(items, size) && Independent(items)
    ensures OrderFree(items, size)
  {
    forall memory: seq<int>, order: seq<nat> | |memory| == size && IsOrder(order, |items|)
      ensures Run(Reordered(items, order), memory) == Run(items, memory)
    {
      SameInOrder(items, order, memory);
    }
  }

  ghost predicate Reaches(order: seq<nat>, n: nat) {
    forall k: nat :: k < n ==> k in order
  }

  lemma OrderReaches(order: seq<nat>, n: nat)
    requires IsOrder(order, n)
    ensures Reaches(order, n)
  {
    forall k: nat | k < n
      ensures k in order
    {
      AllReached(order, n, k);
    }
  }

  lemma SameInOrder(items: seq<Item>, order: seq<nat>, memory: seq<int>)
    requires ValidItems(items, |memory|) && Independent(items) && IsOrder(order, |items|)
    ensures Run(Reordered(items, order), memory) == Run(items, memory)
  {
    ReorderedIndependent(items, order, |memory|);
    OrderReaches(order, |items|);
    hide Run, Independent, IsOrder, ValidItems, Reaches, Reordered;
    RunIsPhaseResult(items, memory);
    RunIsPhaseResult(Reordered(items, order), memory);
    hide PhaseResult, Computed;
    if Run(items, memory).Some? {
      CompleteInOrder(items, order, memory, Run(items, memory).value);
      PhaseResultUnique(Reordered(items, order), memory, Run(items, memory).value, Run(Reordered(items, order), memory).value);
    } else if Run(Reordered(items, order), memory).Some? {
      OverflowInOrder(items, order, memory);
      assert false;
    }
  }

  lemma CompleteInOrder(items: seq<Item>, order: seq<nat>, memory: seq<int>, after: seq<int>)
    requires ValidItems(items, |memory|) && Within(order, |items|) && Reaches(order, |items|)
    requires ValidItems(Reordered(items, order), |memory|) && PhaseResult(items, memory, after)
    ensures PhaseResult(Reordered(items, order), memory, after)
    ensures forall j :: 0 <= j < |order| ==> Computed(Reordered(items, order)[j], memory).Some?
  {
    ReorderedResult(items, order, memory, after);
  }

  lemma OverflowInOrder(items: seq<Item>, order: seq<nat>, memory: seq<int>)
    requires ValidItems(items, |memory|) && Within(order, |items|) && Reaches(order, |items|)
    requires ValidItems(Reordered(items, order), |memory|)
    requires forall j :: 0 <= j < |order| ==> Computed(Reordered(items, order)[j], memory).Some?
    ensures forall k :: 0 <= k < |items| ==> Computed(items[k], memory).Some?
  {
    forall k: nat | k < |items|
      ensures Computed(items[k], memory).Some?
    {
      assert k in order;
      var j :| 0 <= j < |order| && order[j] == k;
      assert Reordered(items, order)[j] == items[k];
    }
  }

  lemma ReorderedResult(items: seq<Item>, order: seq<nat>, before: seq<int>, after: seq<int>)
    requires ValidItems(items, |before|) && Within(order, |items|) && Reaches(order, |items|)
    requires PhaseResult(items, before, after) && ValidItems(Reordered(items, order), |before|)
    ensures PhaseResult(Reordered(items, order), before, after)
  {
    forall cell: nat | cell < |before| && !Written(Reordered(items, order), cell)
      ensures after[cell] == before[cell]
    {
      StillWritten(items, order, cell);
    }
  }

  lemma StillWritten(items: seq<Item>, order: seq<nat>, cell: nat)
    requires Within(order, |items|) && Reaches(order, |items|)
    ensures Written(items, cell) ==> Written(Reordered(items, order), cell)
  {
    if Written(items, cell) {
      var k: nat :| k < |items| && cell in items[k].stores;
      assert k in order;
      var j :| 0 <= j < |order| && order[j] == k;
      assert Reordered(items, order)[j] == items[k];
    }
  }

  // ---- Two records that read each other's destination ----

  /** Neighbouring records k and k + 1 combine the same two samples, each into its own; no other record touches them. */
  ghost predicate Crossed(works: seq<Work>, k: nat) {
    && k + 1 < |works| && 5 <= works[k].kind <= 6
    && works[k + 1] == Work(works[k].second, works[k].first, works[k].kind)
    && works[k].first != works[k].second
    && forall j :: 0 <= j < |works| && j != k && j != k + 1 ==> Elsewhere(works[j], works[k])
  }

  ghost predicate Elsewhere(w: Work, other: Work) {
    && w.kind == other.kind && w.first != other.first && w.first != other.second
    && w.second != other.first && w.second != other.second
  }

  /** The list with records k and k + 1 exchanged. */
  ghost function Exchanged(works: seq<Work>, k: nat): (r: seq<Work>)
    requires k + 1 < |works|
    ensures |r| == |works|
  {
    works[k := works[k + 1]][k + 1 := works[k]]
  }

  ghost function Swapped(n: nat, k: nat): seq<nat>
    requires k + 1 < n
  {
    seq(n, i => if i == k then k + 1 else if i == k + 1 then k else i)
  }

  /** The value a corner record gives its destination. */
  function Residue(kind: nat, own: int, neighbour: int): int {
    if kind == 5 then own - neighbour else own + neighbour
  }

  lemma CrossedBounds(works: seq<Work>, k: nat, size: nat)
    requires ValidWorks(works, size) && Crossed(works, k)
    ensures CornerRecords(works, size) && Crossed(Exchanged(works, k), k) && ValidWorks(Exchanged(works, k), size)
  {
    forall j | 0 <= j < |works|
      ensures CornerRecord(works[j], size)
    {
      var w := works[j];
      assert j == k || j == k + 1 || Elsewhere(w, works[k]);
      assert ValidWork(w) && Addresses(w) == [w.first, w.second];
      assert Addresses(w)[0] == w.first && Addresses(w)[1] == w.second;
    }
    hide Addresses;
    ExchangedCrossed(works, k);
  }

  lemma ExchangedCrossed(works: seq<Work>, k: nat)
    requires Crossed(works, k)
    ensures Crossed(Exchanged(works, k), k)
  {
    var r := Exchanged(works, k);
    forall j | 0 <= j < |r| && j != k && j != k + 1
      ensures Elsewhere(r[j], r[k])
    {
      assert Elsewhere(works[j], works[k]);
    }
  }

  lemma SwappedWorks(works: seq<Work>, k: nat, fits: Fitting)
    requires k + 1 < |works|
    ensures Reordered(WorkItems(works, fits), Swapped(|works|, k)) == WorkItems(Exchanged(works, k), fits)
  {
    hide WorkItem;
  }

  lemma SwapIsOrder(n: nat, k: nat)
    requires k + 1 < n
    ensures IsOrder(Swapped(n, k), n)
  {}

  lemma CornerApplied(w: Work, fits: Fitting, memory: seq<int>)
    requires 5 <= w.kind <= 6 && w.first < |memory| && w.second < |memory| && w.first != w.second && Modest(fits)
    requires -8 <= memory[w.first] <= 8 && -8 <= memory[w.second] <= 8
    ensures ValidItem(WorkItem(w, fits), |memory|)
    ensures Apply(WorkItem(w, fits), memory) ==
      Some(memory[w.first := Residue(w.kind, memory[w.first], memory[w.second])])
  {
    assert Addresses(w) == [w.first, w.second] && Destinations(w) == [w.first];
    assert Gather(memory, Addresses(w)) == [memory[w.first], memory[w.second]];
    WorkItemValid(w, fits, |memory|);
    hide Filter, Addresses;
    ResidualMeaning(w, memory);
    ApplyWork(w, fits, memory);
  }

  lemma OtherIdle(o: Work, w: Work, fits: Fitting, memory: seq<int>)
    requires 5 <= o.kind <= 6 && o.first < |memory| && o.second < |memory| && o.first != o.second && Elsewhere(o, w) && Modest(fits)
    requires forall i :: 0 <= i < |memory| && i != w.first && i != w.second ==> memory[i] == 0
    ensures Idle(WorkItem(o, fits), memory)
  {
    hide WorkItem, Apply, Modest;
    CornerApplied(o, fits, memory);
    assert memory[o.first := 0] == memory;
  }

  /** The corner records of a list combine two different cells of the memory. */
  ghost predicate CornerRecords(works: seq<Work>, size: nat) {
    forall j :: 0 <= j < |works| ==> CornerRecord(works[j], size)
  }

  ghost predicate CornerRecord(w: Work, size: nat) {
    5 <= w.kind <= 6 && w.first < size && w.second < size && w.first != w.second
  }

  ghost predicate AllElsewhere(works: seq<Work>, other: Work) {
    forall j :: 0 <= j < |works| ==> Elsewhere(works[j], other)
  }

  /** Records elsewhere find zeros and leave them, whatever the two samples hold. */
  lemma OthersIdle(works: seq<Work>, w: Work, fits: Fitting, memory: seq<int>)
    requires CornerRecords(works, |memory|) && Modest(fits) && AllElsewhere(works, w)
    requires forall i :: 0 <= i < |memory| && i != w.first && i != w.second ==> memory[i] == 0
    ensures ValidItems(WorkItems(works, fits), |memory|) && Run(WorkItems(works, fits), memory) == Some(memory)
  {
    hide WorkItem, Idle, Run, Elsewhere, Modest, ValidItem;
    forall j | 0 <= j < |works|
      ensures Idle(WorkItems(works, fits)[j], memory)
    {
      assert CornerRecord(works[j], |memory|);
      OtherIdle(works[j], w, fits, memory);
    }
    IdleRun(WorkItems(works, fits), memory);
  }

  /** Two records on the same two samples, one after the other. */
  lemma PairRun(w: Work, fits: Fitting, memory: seq<int>)
    requires 5 <= w.kind <= 6 && w.first < |memory| && w.second < |memory| && w.first != w.second && Modest(fits)
    requires -8 <= memory[w.first] <= 8 && -8 <= memory[w.second] <= 8
    requires -8 <= Residue(w.kind, memory[w.first], memory[w.second]) <= 8
    ensures ValidItems(WorkItems([w, Work(w.second, w.first, w.kind)], fits), |memory|)
    ensures var once := memory[w.first := Residue(w.kind, memory[w.first], memory[w.second])];
      Run(WorkItems([w, Work(w.second, w.first, w.kind)], fits), memory) ==
        Some(once[w.second := Residue(w.kind, once[w.second], once[w.first])])
  {
    var v := Work(w.second, w.first, w.kind);
    var once := memory[w.first := Residue(w.kind, memory[w.first], memory[w.second])];
    CornerApplied(w, fits, memory);
    CornerApplied(v, fits, once);
    hide WorkItem, Apply, Modest;
    var items := WorkItems([w, v], fits);
    assert items[..1] == [WorkItem(w, fits)] && items[..1][..0] == [];
    assert Run(items[..1][..0], memory) == Some(memory);
    assert Run(items[..1], memory) == Some(once);
  }

  /** The value pair a crossed pair of records leaves, the record of `a` first. */
  function AfterPair(kind: nat, a: int, b: int): (int, int) {
    (Residue(kind, a, b), Residue(kind, b, Residue(kind, a, b)))
  }

  /** A plane that is empty but for two samples. */
  function Pair(size: nat, first: nat, second: nat, values: (int, int)): (memory: seq<int>)
    ensures |memory| == size
    ensures forall i :: 0 <= i < size ==> memory[i] == if i == first then values.0 else if i == second then values.1 else 0
  {
    seq(size, i => if i == first then values.0 else if i == second then values.1 else 0)
  }

  predicate Small(kind: nat, values: (int, int)) {
    -8 <= values.0 <= 8 && -8 <= values.1 <= 8 && -8 <= Residue(kind, values.0, values.1) <= 8
  }

  /** What crossed records make of a plane that is empty but for small values in their two samples. */
  lemma CrossedRun(works: seq<Work>, k: nat, fits: Fitting, size: nat, values: (int, int))
    requires ValidWorks(works, size) && Crossed(works, k) && Modest(fits) && Small(works[k].kind, values)
    ensures ValidItems(WorkItems(works, fits), size)
    ensures var w, items := works[k], WorkItems(works, fits);
      Run(items, Pair(size, w.first, w.second, values))
        == Some(Pair(size, w.first, w.second, AfterPair(w.kind, values.0, values.1)))
  {
    CrossedBounds(works, k, size);
    assert CornerRecord(works[k], size);
    hide ValidWorks, CornerRecords;
    CrossedParts(works, k, size);
    var w := works[k];
    var memory, after := Pair(size, w.first, w.second, values), Pair(size, w.first, w.second, AfterPair(w.kind, values.0, values.1));
    var head, pair, tail := works[..k], [w, Work(w.second, w.first, w.kind)], works[k + 2..];
    hide Crossed, WorkItem, Modest, Elsewhere, Run, ValidItem;
    OthersIdle(head, w, fits, memory);
    PairRun(w, fits, memory);
    var once := memory[w.first := Residue(w.kind, memory[w.first], memory[w.second])];
    assert once[w.second := Residue(w.kind, once[w.second], once[w.first])] == after;
    OthersIdle(tail, w, fits, after);
    ThreeParts(head, pair, tail, fits, memory, memory, after, after);
  }

  lemma CrossedParts(works: seq<Work>, k: nat, size: nat)
    requires Crossed(works, k) && CornerRecords(works, size)
    ensures var w := works[k]; works == works[..k] + [w, Work(w.second, w.first, w.kind)] + works[k + 2..]
    ensures AllElsewhere(works[..k], works[k]) && AllElsewhere(works[k + 2..], works[k])
    ensures CornerRecords(works[..k], size) && CornerRecords(works[k + 2..], size)
  {
    hide Elsewhere, CornerRecord;
    var tail := works[k + 2..];
    forall j | 0 <= j < |tail|
      ensures Elsewhere(tail[j], works[k]) && CornerRecord(tail[j], size)
    {
      assert tail[j] == works[k + 2 + j];
    }
  }

  lemma ThreeParts(head: seq<Work>, pair: seq<Work>, tail: seq<Work>, fits: Fitting,
                   m0: seq<int>, m1: seq<int>, m2: seq<int>, m3: seq<int>)
    requires |m0| == |m1| == |m2|
    requires ValidItems(WorkItems(head, fits), |m0|) && ValidItems(WorkItems(pair, fits), |m0|) && ValidItems(WorkItems(tail, fits), |m0|)
    requires Run(WorkItems(head, fits), m0) == Some(m1) && Run(WorkItems(pair, fits), m1) == Some(m2)
    requires Run(WorkItems(tail, fits), m2) == Some(m3)
    ensures ValidItems(WorkItems(head + pair + tail, fits), |m0|)
    ensures Run(WorkItems(head + pair + tail, fits), m0) == Some(m3)
  {
    hide Run, WorkItem, ValidItems;
    assert WorkItems(head + pair + tail, fits) == WorkItems(head, fits) + WorkItems(pair, fits) + WorkItems(tail, fits);
    hide WorkItems;
    L.RunConcat(WorkItems(head, fits), WorkItems(pair, fits), m0);
    L.RunConcat(WorkItems(head, fits) + WorkItems(pair, fits), WorkItems(tail, fits), m0);
  }

  lemma SwappedPair(size: nat, first: nat, second: nat, values: (int, int))
    requires first != second
    ensures Pair(size, second, first, (values.1, values.0)) == Pair(size, first, second, values)
  {}

  /** From a one and a zero, one order leaves a one in the first sample, the other a two. */
  lemma CrossedOutcomes(works: seq<Work>, k: nat, fits: Fitting, size: nat)
    requires ValidWorks(works, size) && Crossed(works, k) && Modest(fits)
    ensures works[k].first < size && ValidItems(WorkItems(works, fits), size) && ValidItems(WorkItems(Exchanged(works, k), fits), size)
    ensures var w := works[k]; var memory := Pair(size, w.first, w.second, (1, 0));
      && Run(WorkItems(works, fits), memory) == Some(Pair(size, w.first, w.second, (1, Residue(w.kind, 0, 1))))
      && Run(WorkItems(Exchanged(works, k), fits), memory) == Some(Pair(size, w.first, w.second, (2, Residue(w.kind, 0, 1))))
  {
    CrossedBounds(works, k, size);
    assert CornerRecord(works[k], size);
    CrossedRun(works, k, fits, size, (1, 0));
    CrossedRun(Exchanged(works, k), k, fits, size, (0, 1));
    var w := works[k];
    SwappedPair(size, w.first, w.second, (1, 0));
    SwappedPair(size, w.first, w.second, (2, Residue(w.kind, 0, 1)));
    hide Run, WorkItems, ValidWorks, Pair;
  }

  lemma PairsDiffer(size: nat, first: nat, second: nat, one: (int, int), two: (int, int))
    requires first < size && one.0 != two.0
    ensures Pair(size, first, second, one) != Pair(size, first, second, two)
  {
    assert Pair(size, first, second, one)[first] != Pair(size, first, second, two)[first];
  }

  lemma CrossedOrderMatters(works: seq<Work>, k: nat, fits: Fitting, size: nat)
    requires ValidWorks(works, size) && ValidItems(WorkItems(works, fits), size) && Crossed(works, k) && Modest(fits)
    ensures !OrderFree(WorkItems(works, fits), size)
  {
    var w := works[k];
    CrossedOutcomes(works, k, fits, size);
    PairsDiffer(size, w.first, w.second, (1, Residue(w.kind, 0, 1)), (2, Residue(w.kind, 0, 1)));
    SwappedWorks(works, k, fits);
    SwapIsOrder(|works|, k);
    var memory := Pair(size, w.first, w.second, (1, 0));
    hide Run, WorkItems, ValidWorks, Reordered, IsOrder, Swapped, OrderFree, Crossed, Exchanged, Pair, Residue,
         Modest, ValidItems;
    OrderMatters(WorkItems(works, fits), Swapped(|works|, k), memory);
  }

  lemma OrderMatters(items: seq<Item>, order: seq<nat>, memory: seq<int>)
    requires ValidItems(items, |memory|) && IsOrder(order, |items|) && ValidItems(Reordered(items, order), |memory|)
    requires Run(Reordered(items, order), memory) != Run(items, memory)
    ensures !OrderFree(items, |memory|)
  {
    hide Run, Reordered, IsOrder, ValidItem;
  }

  // ---- Corner phases ----

  lemma {:induction false} ResidualPosition(regions: seq<Region>, j: nat, i: nat)
    requires LargeEnough(regions) && j < |regions| && i < 4
    ensures 4 * j + i < |AllResiduals(regions)|
    ensures AllResiduals(regions)[4 * j + i] == Residuals(regions[j])[i]
  {
    RestoresMirrorResiduals(regions);
    if j > 0 {
      ResidualPosition(regions[1..], j - 1, i);
      assert AllResiduals(regions)[4 * j + i] == AllResiduals(regions[1..])[4 * (j - 1) + i];
    }
  }

  lemma NextCell(at: Layout, x: nat, y: nat)
    ensures Index(at, x, y) != Index(at, x + 1, y)
  {}

  /** The records of a region two samples wide load each other's sample. */
  lemma NarrowRecords(at: Layout, regions: seq<Region>, s: Schedule, j: nat)
    requires LargeEnough(regions) && SubsampledSchedule(at, regions) == Some(s)
    requires j < |regions| && regions[j].right == regions[j].left + 2
    ensures 4 * j + 1 < |s.prefix| && s.prefix[4 * j].kind == 5
    ensures s.prefix[4 * j + 1] == Work(s.prefix[4 * j].second, s.prefix[4 * j].first, 5)
    ensures s.prefix[4 * j].first != s.prefix[4 * j].second
  {
    NextCell(at, regions[j].left, regions[j].top);
    hide SubsampledSchedule, Index, AllResiduals, AllRestores;
    var k, r := 4 * j, regions[j];
    ResidualPosition(regions, j, 0);
    ResidualPosition(regions, j, 1);
    PrefixRecords(at, regions, s);
    assert AllResiduals(regions)[k] == Residual(r.left, r.top, r.left + 1);
    assert AllResiduals(regions)[k + 1] == Residual(r.left + 1, r.top, r.left);
  }

  lemma PartitionLarge(at: Layout, regions: seq<Region>, height: nat)
    requires Partition(at, regions, height)
    ensures LargeEnough(regions)
  {
    hide Grained, LargeEnough;
  }

  /** The top corners of a region two samples wide are crossed records. */
  lemma NarrowIsCrossed(at: Layout, regions: seq<Region>, height: nat, s: Schedule, j: nat)
    requires Partition(at, regions, height) && SubsampledSchedule(at, regions) == Some(s)
    requires j < |regions| && regions[j].right == regions[j].left + 2
    ensures Crossed(s.prefix, 4 * j) && Crossed(s.suffix, 4 * j)
  {
    hide SubsampledSchedule, Partition, Grained, LargeEnough, Crossed, Elsewhere, AllResiduals, AllRestores;
    PartitionLarge(at, regions, height);
    NarrowRecords(at, regions, s, j);
    SuffixMirrorsPrefix(at, regions);
    var k := 4 * j;
    forall i | 0 <= i < |s.prefix| && i != k && i != k + 1
      ensures Elsewhere(s.prefix[i], s.prefix[k])
    {
      OthersElsewhere(at, regions, height, s, k, i);
    }
    CrossedAlike(s.prefix, s.suffix, k);
  }

  /** Residual and restore records cross alike. */
  lemma CrossedAlike(prefix: seq<Work>, suffix: seq<Work>, k: nat)
    requires k + 1 < |prefix| == |suffix| && prefix[k].first != prefix[k].second
    requires forall i :: 0 <= i < |prefix| ==> prefix[i].kind == 5 && suffix[i] == prefix[i].(kind := 6)
    requires prefix[k + 1] == Work(prefix[k].second, prefix[k].first, 5)
    requires forall i :: 0 <= i < |prefix| && i != k && i != k + 1 ==> Elsewhere(prefix[i], prefix[k])
    ensures Crossed(prefix, k) && Crossed(suffix, k)
  {
    forall i | 0 <= i < |suffix| && i != k && i != k + 1
      ensures Elsewhere(suffix[i], suffix[k])
    {
      assert Elsewhere(prefix[i], prefix[k]);
    }
  }

  lemma PrefixRecords(at: Layout, regions: seq<Region>, s: Schedule)
    requires LargeEnough(regions) && SubsampledSchedule(at, regions) == Some(s)
    ensures |s.prefix| == |AllResiduals(regions)|
    ensures forall k :: 0 <= k < |s.prefix| ==> var t := AllResiduals(regions)[k];
      t.Residual? && s.prefix[k] == Work(Index(at, t.x, t.y), Index(at, t.source, t.y), 5)
  {
    RestoresMirrorResiduals(regions);
    hide AllResiduals, Index;
  }

  /** Three tiles of a list that cover a cell count three times. */
  lemma {:induction false} CoverThrice(tiles: seq<Tile>, i: nat, j: nat, k: nat, x: nat, y: nat)
    requires i < j < k < |tiles| && Covers(tiles[i], x, y) && Covers(tiles[j], x, y) && Covers(tiles[k], x, y)
    ensures Cover(tiles, x, y) >= 3
  {
    hide Covers;
    if i > 0 {
      CoverThrice(tiles[1..], i - 1, j - 1, k - 1, x, y);
    } else {
      CoverTwice(tiles[1..], j - 1, k - 1, x, y);
    }
  }

  lemma {:induction false} CoverTwice(tiles: seq<Tile>, j: nat, k: nat, x: nat, y: nat)
    requires j < k < |tiles| && Covers(tiles[j], x, y) && Covers(tiles[k], x, y)
    ensures Cover(tiles, x, y) >= 2
  {
    hide Covers;
    if j > 0 {
      CoverTwice(tiles[1..], j - 1, k - 1, x, y);
    } else {
      CoverMember(tiles[1..], k - 1, x, y);
    }
  }

  /** No cell is touched by a third record beside a crossed pair: that would cover it three times. */
  lemma NoThird(at: Layout, regions: seq<Region>, height: nat, k: nat, i: nat, x: nat, y: nat)
    requires Partition(at, regions, height) && k + 1 < |AllResiduals(regions)| && i < |AllResiduals(regions)|
    requires i != k && i != k + 1
    requires Covers(AllResiduals(regions)[k], x, y) && Covers(AllResiduals(regions)[k + 1], x, y)
    ensures !Covers(AllResiduals(regions)[i], x, y)
  {
    var tiles := AllResiduals(regions);
    if Covers(tiles[i], x, y) {
      if i < k { CoverThrice(tiles, i, k, k + 1, x, y); } else { CoverThrice(tiles, k, k + 1, i, x, y); }
      AllResidualsCover(regions, x, y);
      assert false;
    }
  }

  lemma OthersElsewhere(at: Layout, regions: seq<Region>, height: nat, s: Schedule, k: nat, i: nat)
    requires Partition(at, regions, height) && SubsampledSchedule(at, regions) == Some(s)
    requires k + 1 < |s.prefix| && i < |s.prefix| && i != k && i != k + 1
    requires s.prefix[k + 1] == Work(s.prefix[k].second, s.prefix[k].first, 5)
    ensures Elsewhere(s.prefix[i], s.prefix[k])
  {
    assert LargeEnough(regions);
    hide SubsampledSchedule, AllResiduals, Partition, Index, Elsewhere, Covers, AllRestores, LargeEnough;
    var tiles := AllResiduals(regions);
    RecordOf(at, regions, height, s, k);
    RecordOf(at, regions, height, s, k + 1);
    RecordOf(at, regions, height, s, i);
    MirrorCovers(at, tiles[k], tiles[k + 1]);
    NoThird(at, regions, height, k, i, tiles[k].x, tiles[k].y);
    NoThird(at, regions, height, k, i, tiles[k].source, tiles[k].y);
    OtherAddresses(at, tiles[k], tiles[i]);
  }

  lemma RecordOf(at: Layout, regions: seq<Region>, height: nat, s: Schedule, k: nat)
    requires Partition(at, regions, height) && SubsampledSchedule(at, regions) == Some(s) && k < |s.prefix|
    ensures |s.prefix| == |AllResiduals(regions)|
    ensures var t := AllResiduals(regions)[k];
      && t.Residual? && t.x < at.stride && t.source < at.stride
      && s.prefix[k] == Work(Index(at, t.x, t.y), Index(at, t.source, t.y), 5)
  {
    ResidualsValid(at, regions, height, at.offset + at.stride * height);
    PrefixRecords(at, regions, s);
    hide SubsampledSchedule, ValidWorks, AllResiduals, Partition, Index;
    ResidualCells(at, AllResiduals(regions), height, k);
  }

  /** Tiles that exchange cell and source cover the same two cells. */
  lemma MirrorCovers(at: Layout, t: Tile, u: Tile)
    requires t.Residual? && u.Residual? && t.x < at.stride && t.source < at.stride && u.x < at.stride && u.source < at.stride
    requires Index(at, u.x, u.y) == Index(at, t.source, t.y) && Index(at, u.source, u.y) == Index(at, t.x, t.y)
    ensures Covers(t, t.x, t.y) && Covers(t, t.source, t.y) && Covers(u, t.x, t.y) && Covers(u, t.source, t.y)
  {
    SameAddress(at, u.x, u.y, t.source, t.y);
    SameAddress(at, u.source, u.y, t.x, t.y);
  }

  lemma OtherAddresses(at: Layout, t: Tile, o: Tile)
    requires t.Residual? && o.Residual? && t.x < at.stride && t.source < at.stride && o.x < at.stride && o.source < at.stride
    requires !Covers(o, t.x, t.y) && !Covers(o, t.source, t.y)
    ensures Elsewhere(Work(Index(at, o.x, o.y), Index(at, o.source, o.y), 5), Work(Index(at, t.x, t.y), Index(at, t.source, t.y), 5))
  {
    SameAddress(at, o.x, o.y, t.x, t.y);
    SameAddress(at, o.x, o.y, t.source, t.y);
    SameAddress(at, o.source, o.y, t.x, t.y);
    SameAddress(at, o.source, o.y, t.source, t.y);
    hide Index;
  }

  lemma ResidualCells(at: Layout, tiles: seq<Tile>, height: nat, k: nat)
    requires AllInPlane(tiles, at.stride, height) && k < |tiles| && tiles[k].Residual?
    ensures tiles[k].x < at.stride && tiles[k].source < at.stride
  {
    var t := tiles[k];
    assert Covers(t, t.x, t.y) && Covers(t, t.source, t.y);
  }

  lemma SameAddress(at: Layout, x: nat, y: nat, cx: nat, cy: nat)
    requires x < at.stride && cx < at.stride
    ensures Index(at, x, y) == Index(at, cx, cy) <==> x == cx && y == cy
  {
    SameCell(at.stride, x, y, cx, cy);
  }

  /**
   The corner phases of a subsampled pass do not depend on the order of their records exactly when every
   region is at least four samples wide. On a region two samples wide the two corners of a row read
   each other's destination.
   */
  lemma CornersOrderFree(at: Layout, regions: seq<Region>, height: nat, s: Schedule, fits: Fitting, size: nat)
    requires Partition(at, regions, height) && SubsampledSchedule(at, regions) == Some(s)
    requires at.offset + at.stride * height <= size && Modest(fits)
    requires ValidItems(WorkItems(s.prefix, fits), size) && ValidItems(WorkItems(s.suffix, fits), size)
    ensures OrderFree(WorkItems(s.prefix, fits), size) <==> WideEnough(regions)
    ensures OrderFree(WorkItems(s.suffix, fits), size) <==> WideEnough(regions)
  {
    hide OrderFree, WorkItems, Independent, SubsampledSchedule, SoundPass, Crossed;
    if WideEnough(regions) {
      SubsampledSound(at, regions, height);
      hide Partition;
      SoundIndependent(s.prefix, fits, at.offset, at.offset + at.stride * height, size);
      SoundIndependent(s.suffix, fits, at.offset, at.offset + at.stride * height, size);
      IndependentOrderFree(WorkItems(s.prefix, fits), size);
      IndependentOrderFree(WorkItems(s.suffix, fits), size);
    } else {
      var j :| 0 <= j < |regions| && regions[j].left + 4 > regions[j].right;
      assert GrainedRegion(regions[j], 2);
      ResidualsValid(at, regions, height, size);
      NarrowIsCrossed(at, regions, height, s, j);
      hide Partition;
      CrossedOrderMatters(s.prefix, 4 * j, fits, size);
      CrossedOrderMatters(s.suffix, 4 * j, fits, size);
    }
  }
}
