/**
 Corner residuals of subsampled passes: they keep each corner's distance to its neighbour, and their
 order matters exactly when some region is only two samples wide.
 */
module Corners {
  import opened Wrappers
  import opened Memory
  import opened Phases
  import opened Overlap
  import opened Tiling
  import opened Passes
  import opened ExactTiling
  import opened OverlapPass

  /** Regions that cut up a plane of subsampled chroma. */
  ghost predicate Partition(at: Layout, regions: seq<Region>, height: nat) {
    && at.stride > 0 && LargeEnough(regions) && Grained(regions, 2)
    && forall x: nat, y: nat :: InsideCount(regions, x, y) == if x < at.stride && y < height then 1 else 0
  }

  lemma {:induction false} RestoresMirrorResiduals(regions: seq<Region>)
    requires LargeEnough(regions)
    ensures |AllRestores(regions)| == |AllResiduals(regions)| == 4 * |regions|
    ensures forall k :: 0 <= k < |AllResiduals(regions)| ==>
      AllResiduals(regions)[k].Residual? &&
      AllRestores(regions)[k] == Restore(AllResiduals(regions)[k].x, AllResiduals(regions)[k].y, AllResiduals(regions)[k].source)
  {
    if regions != [] {
      RestoresMirrorResiduals(regions[1..]);
    }
  }

  lemma SuffixMirrorsPrefix(at: Layout, regions: seq<Region>)
    requires LargeEnough(regions) && SubsampledSchedule(at, regions).Some?
    ensures var s := SubsampledSchedule(at, regions).value;
      |s.suffix| == |s.prefix| == 4 * |regions| &&
      forall k :: 0 <= k < |s.prefix| ==> s.prefix[k].kind == 5 && s.suffix[k] == s.prefix[k].(kind := 6)
  {
    RestoresMirrorResiduals(regions);
  }

  lemma {:induction false} ResidualAtCorner(regions: seq<Region>, k: nat)
    requires LargeEnough(regions) && Grained(regions, 2) && k < |AllResiduals(regions)|
    ensures CornerCount(regions, AllResiduals(regions)[k].x, AllResiduals(regions)[k].y) >= 1
  {
    assert GrainedRegion(regions[0], 2);
    if k >= 4 {
      ResidualAtCorner(regions[1..], k - 4);
      assert AllResiduals(regions)[k] == AllResiduals(regions[1..])[k - 4];
    }
  }

  /** A completed phase of a sound pass leaves the cells none of its records stores. */
  lemma PhaseKeeps(works: seq<Work>, fits: Fitting, memory: seq<int>, low: nat, high: nat, cell: nat)
    requires SoundPass(works, low, high) && high <= |memory| && ValidWorks(works, |memory|)
    requires PhaseRun(works, fits, memory).Some? && cell < |memory|
    requires forall k :: 0 <= k < |works| ==> cell !in Destinations(works[k])
    ensures PhaseRun(works, fits, memory).value[cell] == memory[cell]
  {
    hide Addresses, Filter, SoundPass;
    SoundIndependent(works, fits, low, high, |memory|);
    RunIsPhaseResult(WorkItems(works, fits), memory);
    assert !Written(WorkItems(works, fits), cell);
  }

  /** What a corner record stores in a completed phase. */
  lemma PhaseStores(works: seq<Work>, fits: Fitting, memory: seq<int>, low: nat, high: nat, k: nat)
    requires SoundPass(works, low, high) && high <= |memory| && ValidWorks(works, |memory|)
    requires PhaseRun(works, fits, memory).Some? && k < |works| && 5 <= works[k].kind <= 6
    ensures works[k].first < |memory| && works[k].second < |memory|
    ensures PhaseRun(works, fits, memory).value[works[k].first] ==
      if works[k].kind == 5 then memory[works[k].first] - memory[works[k].second]
      else memory[works[k].first] + memory[works[k].second]
  {
    SoundIndependent(works, fits, low, high, |memory|);
    hide SoundPass;
    var w := works[k];
    assert Addresses(w) == [w.first, w.second] && Destinations(w) == [w.first];
    assert Addresses(w)[0] == w.first && Addresses(w)[1] == w.second && Destinations(w)[0] == w.first;
    RunIsPhaseResult(WorkItems(works, fits), memory);
    var item := WorkItems(works, fits)[k];
    assert item.stores[0] == w.first;
    var v := Gather(memory, Addresses(w));
    assert Computed(item, memory) == Some(Filter(w.kind, v));
  }

  /** Neither end of a corner record is stored by another record of its phase. */
  lemma NeighbourKept(works: seq<Work>, low: nat, high: nat, k: nat)
    requires SoundPass(works, low, high) && k < |works| && 5 <= works[k].kind <= 6
    ensures forall j :: 0 <= j < |works| ==> works[k].second !in Destinations(works[j])
  {
    var w := works[k];
    assert Addresses(w)[0] == w.first && Addresses(w)[1] == w.second;
    forall j | 0 <= j < |works|
      ensures w.second !in Destinations(works[j])
    {
      assert ValidWork(w) && w.second in Addresses(w);
      if j != k && w.second in Destinations(works[j]) {
        DestinationsAreAddresses(works[j], w.second);
        assert false;
      }
    }
  }

  lemma FiltersSkipCorner(at: Layout, regions: seq<Region>, height: nat, k: nat)
    requires Partition(at, regions, height) && SubsampledSchedule(at, regions).Some?
    requires k < |SubsampledSchedule(at, regions).value.prefix|
    ensures var s := SubsampledSchedule(at, regions).value;
      forall j :: 0 <= j < |s.filters| ==> s.prefix[k].first !in Destinations(s.filters[j])
  {
    hide SubsampledSchedule, Grained, InsideCount, TouchCount, Destinations, Addresses;
    CornerUntouched(at, regions, height, k);
    var s := SubsampledSchedule(at, regions).value;
    NotStored(s.filters, s.prefix[k].first);
  }

  /** No filter touches a corner. */
  lemma CornerUntouched(at: Layout, regions: seq<Region>, height: nat, k: nat)
    requires Partition(at, regions, height) && SubsampledSchedule(at, regions).Some?
    requires k < |SubsampledSchedule(at, regions).value.prefix|
    ensures var s := SubsampledSchedule(at, regions).value; TouchCount(s.filters, s.prefix[k].first) == 0
  {
    var s := SubsampledSchedule(at, regions).value;
    assert k < |AllResiduals(regions)| && s.prefix[k] == Encode(at, AllResiduals(regions)[k]).value;
    hide SubsampledSchedule, AllResiduals, AllRestores, SoundPass, TouchCount, Index, Grained;
    var t := AllResiduals(regions)[k];
    RestoresMirrorResiduals(regions);
    ResidualAtCorner(regions, k);
    SubsampledTiling(at, regions, height);
    ResidualsValid(at, regions, height, at.offset + at.stride * height);
    assert Covers(t, t.x, t.y);
  }

  lemma NotStored(works: seq<Work>, i: nat)
    requires TouchCount(works, i) == 0
    ensures forall j :: 0 <= j < |works| ==> i !in Destinations(works[j])
  {
    hide TouchCount, Destinations, Addresses;
    forall j | 0 <= j < |works|
      ensures i !in Destinations(works[j])
    {
      if i in Destinations(works[j]) {
        DestinationsAreAddresses(works[j], i);
        TouchMember(works, j, i);
      }
    }
  }

  /** On wide regions every phase of a subsampled pass is sound. */
  lemma SubsampledSound(at: Layout, regions: seq<Region>, height: nat)
    requires Partition(at, regions, height) && WideEnough(regions) && SubsampledSchedule(at, regions).Some?
    ensures var s := SubsampledSchedule(at, regions).value;
      var low, high := at.offset, at.offset + at.stride * height;
      SoundPass(s.prefix, low, high) && SoundPass(s.filters, low, high) && SoundPass(s.suffix, low, high)
  {
    hide SoundPass, SubsampledSchedule;
    ResidualsSound(at, regions, height);
    SubsampledTiling(at, regions, height);
  }

  lemma DistanceKept(s: Schedule, fits: Fitting, memory: seq<int>, low: nat, high: nat, k: nat)
    requires ValidSchedule(s, |memory|) && high <= |memory| && RunPass(s, fits, memory).Some?
    requires SoundPass(s.prefix, low, high) && SoundPass(s.filters, low, high) && SoundPass(s.suffix, low, high)
    requires k < |s.prefix| && k < |s.suffix| && s.prefix[k].kind == 5 && s.suffix[k] == s.prefix[k].(kind := 6)
    requires forall j :: 0 <= j < |s.filters| ==> s.prefix[k].first !in Destinations(s.filters[j])
    ensures var corner, neighbour := s.prefix[k].first, s.prefix[k].second;
      var after := RunPass(s, fits, memory).value;
      corner < |memory| && neighbour < |memory| &&
      after[corner] - after[neighbour] == memory[corner] - memory[neighbour]
  {
    hide SoundPass, Destinations, PhaseRun, ValidWorks;
    NeighbourKept(s.prefix, low, high, k);
    NeighbourKept(s.suffix, low, high, k);
    var one := PhaseRun(s.prefix, fits, memory).value;
    var two := PhaseRun(s.filters, fits, one).value;
    PhaseStores(s.prefix, fits, memory, low, high, k);
    PhaseKeeps(s.prefix, fits, memory, low, high, s.prefix[k].second);
    PhaseKeeps(s.filters, fits, one, low, high, s.prefix[k].first);
    PhaseStores(s.suffix, fits, two, low, high, k);
    PhaseKeeps(s.suffix, fits, two, low, high, s.suffix[k].second);
  }

  /**
   A subsampled pass over regions at least four samples wide keeps the difference between every corner
   sample and its horizontal neighbour.
   */
  lemma CornersKeepDistance(at: Layout, regions: seq<Region>, height: nat, s: Schedule, fits: Fitting,
                            memory: seq<int>, k: nat)
    requires Partition(at, regions, height) && WideEnough(regions)
    requires SubsampledSchedule(at, regions) == Some(s) && at.offset + at.stride * height <= |memory|
    requires k < |s.prefix| && ValidSchedule(s, |memory|) && RunPass(s, fits, memory).Some?
    ensures var corner, neighbour := s.prefix[k].first, s.prefix[k].second;
      var after := RunPass(s, fits, memory).value;
      corner < |memory| && neighbour < |memory| &&
      after[corner] - after[neighbour] == memory[corner] - memory[neighbour]
  {
    hide SubsampledSchedule, SoundPass, Destinations, RunPass, Addresses;
    SuffixMirrorsPrefix(at, regions);
    SubsampledSound(at, regions, height);
    FiltersSkipCorner(at, regions, height, k);
    hide Partition;
    DistanceKept(s, fits, memory, at.offset, at.offset + at.stride * height, k);
  }
}
