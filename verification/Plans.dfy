/** From the plan constructors' checks to the guarantees the kernels rely on. */
module Plans {
  import opened Wrappers
  import opened Blocks
  import opened Regions
  import opened ExactTiling
  import opened Window
  import opened Kernels
  import opened Reconstruction

  /** Every transmitted coefficient of the macroblocks lies in an arena of `size` coefficients. */
  ghost predicate SpansInside(ms: seq<Macroblock>, blocks: nat, size: nat) {
    forall g :: 0 <= g < |ms| ==> ms[g].offset + Span(ms[g].bands, blocks) <= size
  }

  /** Where a plane of the entropy decoder lies in its arena. */
  datatype ArenaPlane = ArenaPlane(coefficientOffset: nat, coefficientCount: nat, macroblockOffset: nat, macroblockCount: nat,
                                   blockColumns: nat, blockRows: nat)

  /** The contract every plane of an arena has to meet: a supported shape, and ranges inside the tables. */
  predicate PlaneContract(p: ArenaPlane, macroblocks: nat, size: nat) {
    && 1 <= p.blockColumns <= 4 && 1 <= p.blockRows <= 4
    && p.coefficientOffset + p.coefficientCount <= size && p.macroblockOffset + p.macroblockCount <= macroblocks
  }

  /** Every plane's transmitted coefficients lie inside the arena. */
  ghost predicate PlaneSpans(p: ArenaPlane, macroblocks: seq<Macroblock>, size: nat)
    requires p.macroblockOffset + p.macroblockCount <= |macroblocks|
  {
    SpansInside(macroblocks[p.macroblockOffset..p.macroblockOffset + p.macroblockCount], p.blockColumns * p.blockRows, size)
  }

  method ValidateContract(macroblocks: seq<Macroblock>, planes: seq<ArenaPlane>, size: nat) returns (ok: bool)
    ensures ok <==>
      && (forall g :: 0 <= g < |macroblocks| ==> macroblocks[g].offset <= size)
      && forall k :: 0 <= k < |planes| ==>
           && 1 <= planes[k].blockColumns <= 4 && 1 <= planes[k].blockRows <= 4
           && planes[k].coefficientOffset + planes[k].coefficientCount <= size
           && planes[k].macroblockOffset + planes[k].macroblockCount <= |macroblocks|
  {
    for g := 0 to |macroblocks|
      invariant forall k :: 0 <= k < g ==> macroblocks[k].offset <= size
    {
      if macroblocks[g].offset > size {
        return false;
      }
    }
    for k := 0 to |planes|
      invariant forall j :: 0 <= j < k ==> PlaneContract(planes[j], |macroblocks|, size)
    {
      if !PlaneContract(planes[k], |macroblocks|, size) {
        return false;
      }
    }
    return true;
  }

  method ValidateSpans(macroblocks: seq<Macroblock>, p: ArenaPlane, size: nat) returns (ok: bool)
    requires p.macroblockOffset + p.macroblockCount <= |macroblocks|
    ensures ok <==> PlaneSpans(p, macroblocks, size)
  {
    var blocks := p.blockColumns * p.blockRows;
    ghost var own := macroblocks[p.macroblockOffset..p.macroblockOffset + p.macroblockCount];
    for index := p.macroblockOffset to p.macroblockOffset + p.macroblockCount
      invariant forall k :: 0 <= k < index - p.macroblockOffset ==> own[k].offset + Span(own[k].bands, blocks) <= size
    {
      var m := macroblocks[index];
      assert own[index - p.macroblockOffset] == m;
      var required := if m.bands == 0 then 1 else if m.bands == 1 then blocks else blocks * 16;
      if m.offset + required > size {
        return false;
      }
    }
    return true;
  }

  /** The check of an uploaded arena: its contract, no prediction from two sides at once, all spans inside. */
  method ValidateArena(macroblocks: seq<Macroblock>, planes: seq<ArenaPlane>, size: nat) returns (ok: bool)
    ensures ok <==>
      && (forall g :: 0 <= g < |macroblocks| ==> macroblocks[g].offset <= size && macroblocks[g].prediction <= 2)
      && forall k :: 0 <= k < |planes| ==>
           && 1 <= planes[k].blockColumns <= 4 && 1 <= planes[k].blockRows <= 4
           && planes[k].coefficientOffset + planes[k].coefficientCount <= size
           && planes[k].macroblockOffset + planes[k].macroblockCount <= |macroblocks|
           && PlaneSpans(planes[k], macroblocks, size)
  {
    var contract := ValidateContract(macroblocks, planes, size);
    if !contract {
      return false;
    }
    for g := 0 to |macroblocks|
      invariant forall k :: 0 <= k < g ==> macroblocks[k].prediction <= 2
    {
      if macroblocks[g].prediction > 2 {
        return false;
      }
    }
    for k := 0 to |planes|
      invariant forall j :: 0 <= j < k ==> PlaneSpans(planes[j], macroblocks, size)
    {
      hide PlaneSpans;
      assert PlaneContract(planes[k], |macroblocks|, size);
      var inside := ValidateSpans(macroblocks, planes[k], size);
      if !inside {
        return false;
      }
    }
    return true;
  }

  lemma CodedSlices(macroblocks: seq<Macroblock>, from: nat, to: nat)
    requires from <= to <= |macroblocks|
    ensures CodedX(macroblocks)[from..to] == CodedX(macroblocks[from..to])
    ensures CodedY(macroblocks)[from..to] == CodedY(macroblocks[from..to])
  {}

  /**
   A plane the constructors accept, over an arena that passed its check and in buffers as long as the plan
   says, is a valid job: its macroblocks fill the window and every access of the kernels is inside a buffer.
   */
  lemma PlannedJobValid(job: Job, s: Source, macroblocks: seq<Macroblock>, lowLen: nat, sampleLen: nat,
                        packed: nat, low: nat, samples: nat)
    requires s.codedX == CodedX(macroblocks) && s.codedY == CodedY(macroblocks)
    requires PlaneOf(s, lowLen, sampleLen) == Some(job.plane)
    requires s.offset + s.count <= |macroblocks| && job.macroblocks == macroblocks[s.offset..s.offset + s.count]
    requires SpansInside(job.macroblocks, s.blockColumns * s.blockRows, packed)
    requires LowEnd(job.plane) <= low && SampleEnd(job.plane) <= samples
    requires IsPermutation(job.table) && TileGrid(job.tileColumns, job.tileRows)
    requires job.overlap.Two? ==> ValidPlane(job.plane) && FirstSchedule(job.plane, job.hard, job.tileColumns, job.tileRows).Some?
    requires !job.overlap.NoOverlap? ==>
      ValidPlane(job.plane) && SecondSchedule(job.plane, job.hard, job.tileColumns, job.tileRows).Some?
    ensures ValidJob(job, packed, low, samples)
  {
    hide FirstSchedule, SecondSchedule, LowEnd, SampleEnd, TileGrid, IsPermutation, NoRepeat, BoundingWindow, FillsWindow;
    PlaneOfValid(s, lowLen, sampleLen);
    var w := PlaneOfShape(s, lowLen, sampleLen);
    hide PlaneOf, Align;
    CodedSlices(macroblocks, s.offset, s.offset + s.count);
    AcceptedFills(job.macroblocks, job.plane);
    FilledWindow(job.macroblocks, job.plane);
  }

  lemma FilledWindow(ms: seq<Macroblock>, p: Plane)
    requires FillsWindow(ms, p)
    ensures forall g :: 0 <= g < |ms| ==> InWindow(ms[g], p)
  {}
}
