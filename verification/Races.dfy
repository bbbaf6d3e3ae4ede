/**
 What the device makes of a first pass whose corner phases are not independent: runs of one and the same
 plane that raise no error and end with different samples.
 */
module Races {
  import opened Wrappers
  import opened Memory
  import opened Operators
  import opened Blocks
  import opened Phases
  import opened Overlap
  import opened Regions
  import opened Tiling
  import opened Passes
  import opened ExactTiling
  import opened OverlapPass
  import opened PhaseOrder
  import opened PlanePasses
  import opened Orders
  import opened Uniform
  import opened Window
  import opened Kernels
  import opened Device
  import C = Corners

  /** The kernels' 32-bit corner records complete on small samples. */
  lemma KernelsModest()
    ensures Modest(FilterFits)
  {}

  /** A filter that loads zeros completes and leaves zeros. */
  lemma ZeroFilter(kind: nat, v: seq<int>)
    requires v == Zeros(|Addresses(Work(0, 0, kind))|)
    ensures FilterFits(kind, v) && Filter(kind, v) == Zeros(|Destinations(Work(0, 0, kind))|)
  {
    hide InverseOverlap4, InverseOverlap2x2, InverseOverlap2, FitsOverlap4, FitsOverlap2x2, FitsOverlap2, RunSteps,
         RunFits;
    if kind == 0 {
      OverlapStepsValid();
      ZeroRun(OVERLAP_STEPS, v);
    } else if kind <= 2 {
      ZeroKept(Overlap4, v);
    } else if kind == 3 {
      ZeroKept(Overlap2x2, v);
    } else if kind == 4 {
      ZeroKept(Overlap2, v);
    }
  }

  lemma ZeroIdle(w: Work, memory: seq<int>)
    requires ValidWork(w) && Within(Addresses(w), |memory|) && forall i :: i in Addresses(w) ==> memory[i] == 0
    ensures Idle(WorkItem(w, FilterFits), memory)
  {
    var at, to := Addresses(w), Destinations(w);
    SameShapes(w);
    WorkItemValid(w, FilterFits, |memory|);
    var v := Gather(memory, at);
    forall k | 0 <= k < |at|
      ensures v[k] == 0
    {
      assert at[k] in at;
    }
    assert v == Zeros(|at|);
    ZeroFilter(w.kind, v);
    hide Filter, FilterFits;
    forall k | 0 <= k < |to|
      ensures to[k] < |memory| && memory[to[k]] == 0
    {
      DestinationsAreAddresses(w, to[k]);
      var j :| 0 <= j < |at| && at[j] == to[k];
    }
    assert Gather(memory, to) == Zeros(|to|);
    GatherScatter(memory, to, Zeros(|to|));
  }

  lemma SameShapes(w: Work)
    ensures |Addresses(w)| == |Addresses(Work(0, 0, w.kind))| && |Destinations(w)| == |Destinations(Work(0, 0, w.kind))|
  {}

  /** Filters that touch neither of two cells change nothing in a plane that is empty elsewhere. */
  lemma FiltersIdle(works: seq<Work>, memory: seq<int>, a: nat, b: nat)
    requires ValidWorks(works, |memory|) && TouchCount(works, a) == 0 && TouchCount(works, b) == 0
    requires forall i :: 0 <= i < |memory| && i != a && i != b ==> memory[i] == 0
    ensures ValidItems(WorkItems(works, FilterFits), |memory|) && Run(WorkItems(works, FilterFits), memory) == Some(memory)
  {
    hide WorkItem, Idle, Run, TouchCount, ValidItem, Addresses;
    forall k | 0 <= k < |works|
      ensures Idle(WorkItems(works, FilterFits)[k], memory)
    {
      if a in Addresses(works[k]) { TouchMember(works, k, a); }
      if b in Addresses(works[k]) { TouchMember(works, k, b); }
      var at := Addresses(works[k]);
      forall i | i in at
        ensures i < |memory| && memory[i] == 0
      {
        var j :| 0 <= j < |at| && at[j] == i;
      }
      ZeroIdle(works[k], memory);
    }
    IdleRun(WorkItems(works, FilterFits), memory);
  }

  // ---- Two runs of one pass ----

  /** The three phases of a pass. */
  ghost function PassPhases(s: Schedule): seq<seq<Item>> {
    [WorkItems(s.prefix, FilterFits), WorkItems(s.filters, FilterFits), WorkItems(s.suffix, FilterFits)]
  }

  /** Every device run of the phases ends alike from the same memory, whatever its interleavings. */
  ghost predicate Deterministic(phases: seq<seq<Item>>, size: nat) {
    forall memory: seq<int>, r: seq<seq<State>>, q: seq<seq<State>>, one: Option<seq<int>>, two: Option<seq<int>> ::
      |memory| == size && Ends(phases, r, memory, one) && Ends(phases, q, memory, two) ==> one == two
  }

  /** Two device runs of the phases from one memory, neither raising the status word, that leave different memories. */
  ghost predicate Diverges(phases: seq<seq<Item>>, size: nat) {
    exists memory: seq<int>, r: seq<seq<State>>, q: seq<seq<State>>, one: seq<int>, two: seq<int> ::
      |memory| == size && Ends(phases, r, memory, Some(one)) && Ends(phases, q, memory, Some(two)) && one != two
  }

  lemma SoundDeterministic(phases: seq<seq<Item>>, size: nat)
    requires SoundPhases(phases, size)
    ensures Deterministic(phases, size)
  {
    hide SoundPhases, Ends, RunPhases;
    forall memory: seq<int>, r: seq<seq<State>>, q: seq<seq<State>>, one: Option<seq<int>>, two: Option<seq<int>>
      | |memory| == size && Ends(phases, r, memory, one) && Ends(phases, q, memory, two)
      ensures one == two
    {
      EndsAsRun(phases, r, memory, one);
      EndsAsRun(phases, q, memory, two);
    }
  }

  /** A run of three phases that takes the items of the first in a given order and the others in list order. */
  lemma OrderedEnds(a: seq<Item>, order: seq<nat>, b: seq<Item>, c: seq<Item>,
                    m0: seq<int>, m1: seq<int>, m2: seq<int>, m3: seq<int>) returns (runs: seq<seq<State>>)
    requires ValidItems(a, |m0|) && ValidItems(b, |m0|) && ValidItems(c, |m0|) && |m0| == |m1| == |m2|
    requires IsOrder(order, |a|) && ValidItems(Reordered(a, order), |m0|) && Run(Reordered(a, order), m0) == Some(m1)
    requires Run(b, m1) == Some(m2) && Run(c, m2) == Some(m3)
    ensures Ends([a, b, c], runs, m0, Some(m3))
  {
    hide Run, Execution, AllDone, IsOrder, Reordered, ValidItems;
    InListOrder(b);
    InListOrder(c);
    var one := OrderExecutes(a, order, m0);
    var two := OrderExecutes(b, ListOrder(|b|), m1);
    var three := OrderExecutes(c, ListOrder(|c|), m2);
    runs := [one, two, three];
    assert [a, b, c][1..] == [b, c] && [b, c][1..] == [c] && [c][1..] == [];
    assert runs[1..] == [two, three] && [two, three][1..] == [three];
    assert Ends([c], [three], m2, Some(m3));
    assert Ends([b, c], [two, three], m1, Some(m3));
  }

  /** A crossed pair among the corner records of a pass, met by no filter. */
  ghost predicate CrossedPass(s: Schedule, k: nat, size: nat) {
    && ValidWorks(s.prefix, size) && ValidWorks(s.filters, size) && ValidWorks(s.suffix, size)
    && Crossed(s.prefix, k) && s.prefix[k].kind == 5 && Crossed(s.suffix, k)
    && s.suffix[k] == s.prefix[k].(kind := 6)
    && TouchCount(s.filters, s.prefix[k].first) == 0 && TouchCount(s.filters, s.prefix[k].second) == 0
  }

  /**
   The samples before the pass, before its filters and after it, from `u` and zero in the pair: in list order and with
   the pair exchanged.
   */
  lemma CrossedPassOutcomes(s: Schedule, k: nat, size: nat, u: int)
    requires CrossedPass(s, k, size) && 0 <= u <= 4
    ensures ValidItems(WorkItems(s.prefix, FilterFits), size) && ValidItems(WorkItems(Exchanged(s.prefix, k), FilterFits), size)
    ensures ValidItems(WorkItems(s.filters, FilterFits), size) && ValidItems(WorkItems(s.suffix, FilterFits), size)
    ensures var a, b := s.prefix[k].first, s.prefix[k].second;
      && Run(WorkItems(s.prefix, FilterFits), Pair(size, a, b, (u, 0))) == Some(Pair(size, a, b, (u, -u)))
      && Run(WorkItems(Exchanged(s.prefix, k), FilterFits), Pair(size, a, b, (u, 0))) == Some(Pair(size, a, b, (2 * u, -u)))
      && Run(WorkItems(s.filters, FilterFits), Pair(size, a, b, (u, -u))) == Some(Pair(size, a, b, (u, -u)))
      && Run(WorkItems(s.filters, FilterFits), Pair(size, a, b, (2 * u, -u))) == Some(Pair(size, a, b, (2 * u, -u)))
      && Run(WorkItems(s.suffix, FilterFits), Pair(size, a, b, (u, -u))) == Some(Pair(size, a, b, (0, -u)))
      && Run(WorkItems(s.suffix, FilterFits), Pair(size, a, b, (2 * u, -u))) == Some(Pair(size, a, b, (u, 0)))
  {
    var a, b := s.prefix[k].first, s.prefix[k].second;
    PairEnds(s.prefix, k);
    hide ValidWorks, Crossed, FilterFits, WorkItems, Run, TouchCount, ValidItems;
    KernelsModest();
    PairValues(u);
    hide Modest, Small, AfterPair, Pair, Exchanged;
    CrossedBothWays(s.prefix, k, size, u);
    FiltersIdle(s.filters, Pair(size, a, b, (u, -u)), a, b);
    FiltersIdle(s.filters, Pair(size, a, b, (2 * u, -u)), a, b);
    CrossedRun(s.suffix, k, FilterFits, size, (u, -u));
    CrossedRun(s.suffix, k, FilterFits, size, (2 * u, -u));
  }

  /** What crossed records make of `u` and zero, whichever goes first, and of what they leave. */
  lemma PairValues(u: int)
    requires 0 <= u <= 4
    ensures Small(5, (u, 0)) && AfterPair(5, u, 0) == (u, -u)
    ensures Small(5, (0, u)) && AfterPair(5, 0, u) == (-u, 2 * u)
    ensures Small(6, (u, -u)) && AfterPair(6, u, -u) == (0, -u)
    ensures Small(6, (2 * u, -u)) && AfterPair(6, 2 * u, -u) == (u, 0)
  {}

  lemma PairEnds(works: seq<Work>, k: nat)
    requires Crossed(works, k)
    ensures k + 1 < |works|
  {}

  /** Crossed residual records in list order and exchanged. */
  lemma CrossedBothWays(works: seq<Work>, k: nat, size: nat, u: int)
    requires ValidWorks(works, size) && Crossed(works, k) && works[k].kind == 5 && 0 <= u <= 4
    ensures ValidItems(WorkItems(works, FilterFits), size) && ValidItems(WorkItems(Exchanged(works, k), FilterFits), size)
    ensures var a, b := works[k].first, works[k].second;
      && Run(WorkItems(works, FilterFits), Pair(size, a, b, (u, 0))) == Some(Pair(size, a, b, (u, -u)))
      && Run(WorkItems(Exchanged(works, k), FilterFits), Pair(size, a, b, (u, 0))) == Some(Pair(size, a, b, (2 * u, -u)))
  {
    KernelsModest();
    PairValues(u);
    CrossedBounds(works, k, size);
    var a, b := works[k].first, works[k].second;
    assert Exchanged(works, k)[k] == Work(b, a, 5) && a != b;
    hide Run, WorkItems, ValidWorks, Pair, FilterFits, Modest, Small, AfterPair, Crossed, Exchanged, ValidItems,
         CornerRecords;
    CrossedRun(works, k, FilterFits, size, (u, 0));
    CrossedRun(Exchanged(works, k), k, FilterFits, size, (0, u));
    SwappedPair(size, a, b, (u, 0));
    SwappedPair(size, a, b, (2 * u, -u));
  }

  /** Two runs of such a pass from `u` and zero in the two samples. */
  lemma CrossedEnds(s: Schedule, k: nat, size: nat, u: int) returns (r: seq<seq<State>>, q: seq<seq<State>>)
    requires CrossedPass(s, k, size) && 0 <= u <= 4
    ensures var a, b := s.prefix[k].first, s.prefix[k].second;
      && Ends(PassPhases(s), r, Pair(size, a, b, (u, 0)), Some(Pair(size, a, b, (0, -u))))
      && Ends(PassPhases(s), q, Pair(size, a, b, (u, 0)), Some(Pair(size, a, b, (u, 0))))
  {
    CrossedPassOutcomes(s, k, size, u);
    var a, b := s.prefix[k].first, s.prefix[k].second;
    var m0, m1, m2 := Pair(size, a, b, (u, 0)), Pair(size, a, b, (u, -u)), Pair(size, a, b, (2 * u, -u));
    hide CrossedPass, Run, WorkItems, Pair, IsOrder, Reordered, Swapped, Exchanged, Ends, ValidItems;
    var prefix, filters, suffix := WorkItems(s.prefix, FilterFits), WorkItems(s.filters, FilterFits), WorkItems(s.suffix, FilterFits);
    InListOrder(prefix);
    SwapIsOrder(|s.prefix|, k);
    SwappedWorks(s.prefix, k, FilterFits);
    r := OrderedEnds(prefix, ListOrder(|prefix|), filters, suffix, m0, m1, m1, Pair(size, a, b, (0, -u)));
    q := OrderedEnds(prefix, Swapped(|prefix|, k), filters, suffix, m0, m2, m2, m0);
  }

  lemma CrossedDiverges(s: Schedule, k: nat, size: nat)
    requires CrossedPass(s, k, size) && s.prefix[k].first < size
    ensures Diverges(PassPhases(s), size)
  {
    var a, b := s.prefix[k].first, s.prefix[k].second;
    hide CrossedPass, Pair, Ends, PassPhases;
    PairsDiffer(size, a, b, (0, -1), (1, 0));
    var r, q := CrossedEnds(s, k, size, 1);
  }

  lemma DivergesNotDeterministic(phases: seq<seq<Item>>, size: nat)
    requires Diverges(phases, size)
    ensures !Deterministic(phases, size)
  {
    hide Ends;
    var memory: seq<int>, r: seq<seq<State>>, q: seq<seq<State>>, one: seq<int>, two: seq<int> :|
      |memory| == size && Ends(phases, r, memory, Some(one)) && Ends(phases, q, memory, Some(two)) && one != two;
  }

  // ---- The first pass of a plane ----

  lemma SoundPassPhases(s: Schedule, low: nat, high: nat, size: nat)
    requires SoundSchedule(s, low, high) && high <= size && ValidSchedule(s, size)
    ensures SoundPhases(PassPhases(s), size)
  {
    hide SoundPass, ValidWorks, Independent, ValidItems;
    SoundIndependent(s.prefix, FilterFits, low, high, size);
    SoundIndependent(s.filters, FilterFits, low, high, size);
    SoundIndependent(s.suffix, FilterFits, low, high, size);
  }

  lemma NarrowRegion(at: Layout, regions: seq<Region>, height: nat) returns (j: nat)
    requires C.Partition(at, regions, height) && !WideEnough(regions)
    ensures j < |regions| && regions[j].right == regions[j].left + 2 && LargeEnough(regions)
  {
    j :| 0 <= j < |regions| && regions[j].left + 4 > regions[j].right;
    assert GrainedRegion(regions[j], 2);
  }

  lemma NarrowCrossesPass(at: Layout, regions: seq<Region>, height: nat, s: Schedule, size: nat) returns (k: nat)
    requires C.Partition(at, regions, height) && LargeEnough(regions) && SubsampledSchedule(at, regions) == Some(s)
    requires !WideEnough(regions) && ValidSchedule(s, size)
    ensures CrossedPass(s, k, size) && s.prefix[k].first < size
  {
    hide SubsampledSchedule, ValidWorks, Crossed, TouchCount, C.Partition, WideEnough, LargeEnough;
    var j := NarrowRegion(at, regions, height);
    k := 4 * j;
    NarrowIsCrossed(at, regions, height, s, j);
    CrossedPairOf(s.prefix, k);
    C.SuffixMirrorsPrefix(at, regions);
    C.CornerUntouched(at, regions, height, k);
    C.CornerUntouched(at, regions, height, k + 1);
    CrossedBounds(s.prefix, k, size);
    assert CornerRecord(s.prefix[k], size);
  }

  lemma CrossedPairOf(works: seq<Work>, k: nat)
    requires Crossed(works, k)
    ensures k + 1 < |works| && works[k + 1].first == works[k].second
  {}

  /**
   The device's first pass is a function of the plane it starts from exactly when no tile of a subsampled
   plane shows a single macroblock column, and exactly otherwise two runs of one plane, neither raising an error,
   end with different samples.
   */
  lemma FirstPassDeterministic(p: Plane, hard: bool, tileColumns: seq<nat>, tileRows: seq<nat>, s: Schedule, size: nat)
    requires ValidPlane(p) && TileGrid(tileColumns, tileRows)
    requires FirstSchedule(p, hard, tileColumns, tileRows) == Some(s) && LowEnd(p) <= size
    ensures Deterministic(PassPhases(s), size) <==> (p.blockColumns == 2 ==> WideTiles(p, hard, tileColumns))
    ensures Diverges(PassPhases(s), size) <==> p.blockColumns == 2 && !WideTiles(p, hard, tileColumns)
  {
    hide WideTiles, LowEnd, PassInside, ValidSchedule, SoundSchedule, Deterministic, Diverges, PassPhases,
         TileRegions, SubsampledSchedule, WideEnough;
    FirstPassInside(p, hard, tileColumns, tileRows);
    InsideValid(s, p.lowOffset, LowEnd(p), size);
    if p.blockColumns == 2 ==> WideTiles(p, hard, tileColumns) {
      FirstScheduleSound(p, hard, tileColumns, tileRows);
      SoundPassPhases(s, p.lowOffset, LowEnd(p), size);
      SoundDeterministic(PassPhases(s), size);
      if Diverges(PassPhases(s), size) {
        DivergesNotDeterministic(PassPhases(s), size);
      }
    } else {
      LowSize(p);
      FirstRegions(p, hard, tileColumns, tileRows);
      RegionsWide(p, hard, tileColumns, tileRows);
      var regions := TileRegions(p, hard, tileColumns, tileRows, 2, p.blockRows).value;
      var k := NarrowCrossesPass(LowLayout(p), regions, p.macroblocksY * p.blockRows, s, size);
      CrossedDiverges(s, k, size);
      DivergesNotDeterministic(PassPhases(s), size);
    }
  }

  // ---- One macroblock of 4:2:0 chroma ----

  function OneChroma(): Plane {
    Plane(0, 1, 2, 2, 0, 0, 1, 1, 8, 8, 0, 0, false)
  }

  lemma OneTiles(r: Region)
    requires r == Region(0, 2, 0, 2)
    ensures Residuals(r) == [Residual(0, 0, 1), Residual(1, 0, 0), Residual(0, 1, 1), Residual(1, 1, 0)]
    ensures Restores(r) == [Restore(0, 0, 1), Restore(1, 0, 0), Restore(0, 1, 1), Restore(1, 1, 0)]
    ensures SubsampledTiles(r) == []
  {}

  /** The records of four tiles. */
  lemma FourRecords(at: Layout, t: seq<Tile>, w: seq<Work>)
    requires |t| == |w| == 4
    requires Encode(at, t[0]) == Some(w[0]) && Encode(at, t[1]) == Some(w[1])
    requires Encode(at, t[2]) == Some(w[2]) && Encode(at, t[3]) == Some(w[3])
    ensures EncodeAll(at, t) == Some(w)
  {
    hide Encode;
    assert EncodeAll(at, t).value == w;
  }

  lemma CornerEncoded(at: Layout, x: nat, y: nat, source: nat)
    requires at.offset == 0 && at.stride == 2 && x <= 1 && y <= 1 && source <= 1
    ensures Encode(at, Residual(x, y, source)) == Some(Work(2 * y + x, 2 * y + source, 5))
    ensures Encode(at, Restore(x, y, source)) == Some(Work(2 * y + x, 2 * y + source, 6))
  {
    assert Index(at, x, y) == 2 * y + x && Index(at, source, y) == 2 * y + source;
  }

  lemma OneRecords(at: Layout)
    requires at.offset == 0 && at.stride == 2
    ensures EncodeAll(at, [Residual(0, 0, 1), Residual(1, 0, 0), Residual(0, 1, 1), Residual(1, 1, 0)])
      == Some([Work(0, 1, 5), Work(1, 0, 5), Work(2, 3, 5), Work(3, 2, 5)])
    ensures EncodeAll(at, [Restore(0, 0, 1), Restore(1, 0, 0), Restore(0, 1, 1), Restore(1, 1, 0)])
      == Some([Work(0, 1, 6), Work(1, 0, 6), Work(2, 3, 6), Work(3, 2, 6)])
  {
    hide Encode, EncodeAll;
    CornerEncoded(at, 0, 0, 1);
    CornerEncoded(at, 1, 0, 0);
    CornerEncoded(at, 0, 1, 1);
    CornerEncoded(at, 1, 1, 0);
    FourRecords(at, [Residual(0, 0, 1), Residual(1, 0, 0), Residual(0, 1, 1), Residual(1, 1, 0)],
                [Work(0, 1, 5), Work(1, 0, 5), Work(2, 3, 5), Work(3, 2, 5)]);
    FourRecords(at, [Restore(0, 0, 1), Restore(1, 0, 0), Restore(0, 1, 1), Restore(1, 1, 0)],
                [Work(0, 1, 6), Work(1, 0, 6), Work(2, 3, 6), Work(3, 2, 6)]);
  }

  /** Its schedule holds corner records only. */
  lemma OneSchedule(p: Plane)
    requires p == OneChroma()
    ensures ValidPlane(p)
    ensures FirstSchedule(p, false, [1], [1]) == Some(Schedule(
      [Work(0, 1, 5), Work(1, 0, 5), Work(2, 3, 5), Work(3, 2, 5)], [],
      [Work(0, 1, 6), Work(1, 0, 6), Work(2, 3, 6), Work(3, 2, 6)]))
  {
    var r := Region(0, 2, 0, 2);
    OneTiles(r);
    OneRecords(LowLayout(p));
    hide EncodeAll, Residuals, Restores, SubsampledTiles;
    EncodeNothing(LowLayout(p));
    var regions := [r];
    assert regions[1..] == [];
    assert AllResiduals(regions) == Residuals(r) && AllRestores(regions) == Restores(r) && AllSubsampledTiles(regions) == [];
  }

  /**
   A plane of one such macroblock, soft tiles: from the low plane [1, 0, 0, 0] the device ends with
   [0, -1, 0, 0] or with [1, 0, 0, 0], as its threads happen to interleave.
   */
  lemma OneChromaRaces(p: Plane, s: Schedule) returns (r: seq<seq<State>>, q: seq<seq<State>>)
    requires p == OneChroma() && ValidPlane(p) && FirstSchedule(p, false, [1], [1]) == Some(s)
    ensures Ends(PassPhases(s), r, [1, 0, 0, 0], Some([0, -1, 0, 0]))
    ensures Ends(PassPhases(s), q, [1, 0, 0, 0], Some([1, 0, 0, 0]))
  {
    OneSchedule(p);
    OneCrossed(s);
    hide FirstSchedule, CrossedPass;
    assert Pair(4, 0, 1, (1, 0)) == [1, 0, 0, 0] && Pair(4, 0, 1, (0, -1)) == [0, -1, 0, 0];
    hide Pair, Ends, PassPhases;
    var one := 1;
    r, q := CrossedEnds(s, 0, 4, one);
  }

  lemma OneCrossed(s: Schedule)
    requires s == Schedule([Work(0, 1, 5), Work(1, 0, 5), Work(2, 3, 5), Work(3, 2, 5)], [],
                           [Work(0, 1, 6), Work(1, 0, 6), Work(2, 3, 6), Work(3, 2, 6)])
    ensures CrossedPass(s, 0, 4)
  {}
}
