/**
 Plane-relative overlap schedules: built once per plane shape with the plane at index zero, and moved to
 a plane's base by the kernel.
 */
module Rebasing {
  import opened Wrappers
  import opened Words
  import opened Overlap
  import opened Regions
  import opened Passes

  datatype Pass = First | Second

  function Planned(pass: Pass, p: Plane, hard: bool, tileColumns: seq<nat>, tileRows: seq<nat>): Option<Schedule>
    requires ValidPlane(p)
  {
    if pass.First? then FirstSchedule(p, hard, tileColumns, tileRows) else SecondSchedule(p, hard, tileColumns, tileRows)
  }

  function AtZero(p: Plane): (q: Plane)
    ensures ValidPlane(p) ==> ValidPlane(q)
  {
    p.(lowOffset := 0, sampleOffset := 0)
  }

  function BaseOf(pass: Pass, p: Plane): nat {
    if pass.First? then p.lowOffset else p.sampleOffset
  }

  /** A record moved by `base`: indices move, strides stay. */
  function Rebase(w: Work, base: nat): Work {
    Work(w.first + base, if w.kind >= 4 then w.second + base else w.second, w.kind)
  }

  function RebaseAll(works: seq<Work>, base: nat): (r: seq<Work>)
    ensures |r| == |works| && forall k :: 0 <= k < |works| ==> r[k] == Rebase(works[k], base)
  {
    seq(|works|, k requires 0 <= k < |works| => Rebase(works[k], base))
  }

  function RebaseSchedule(s: Schedule, base: nat): Schedule {
    Schedule(RebaseAll(s.prefix, base), RebaseAll(s.filters, base), RebaseAll(s.suffix, base))
  }

  // ---- The largest index a schedule touches ----

  /** The largest cell a record touches; `None` beyond 32 bits. */
  function MaxAccessedIndex(w: Work): Option<nat> {
    var top :=
      if w.kind == 0 then w.second * 3 + w.first + 3
      else if w.kind == 1 then w.second * 3 + w.first
      else if w.kind <= 3 then w.second + w.first + 1
      else if w.first > w.second then w.first else w.second;
    if top <= U32_MAX then Some(top) else None
  }

  /** It is the maximum of the record's addresses, and exists exactly when they all fit in 32 bits. */
  lemma MaxAccessedIsMaximum(w: Work)
    requires w.kind <= 6
    ensures MaxAccessedIndex(w).Some? <==> forall i :: i in Addresses(w) ==> i <= U32_MAX
    ensures MaxAccessedIndex(w).Some? ==>
      MaxAccessedIndex(w).value in Addresses(w) && forall i :: i in Addresses(w) ==> i <= MaxAccessedIndex(w).value
  {
    var a := Addresses(w);
    var last := if w.kind == 0 then 15 else if w.kind <= 3 then 3 else if w.first > w.second then 0 else 1;
    assert a[last] in a;
    if w.kind == 0 {
      forall i | i in a
        ensures i <= a[last]
      {
        var k :| 0 <= k < 16 && a[k] == i;
        BlockAddress(w.first, w.second, k);
        StrideBelow(w.second, k / 4);
      }
    }
  }

  lemma StrideBelow(stride: nat, k: nat)
    requires k <= 3
    ensures stride * k <= stride * 3
  {}

  function Larger(a: nat, b: nat): nat {
    if a > b then a else b
  }

  function MaxIndex(works: seq<Work>, start: nat): Option<nat> {
    if works == [] then Some(start)
    else
      var m :- MaxAccessedIndex(works[0]);
      MaxIndex(works[1..], Larger(start, m))
  }

  method FindMaxIndex(works: seq<Work>, start: nat) returns (r: Option<nat>)
    ensures r == MaxIndex(works, start)
  {
    hide MaxAccessedIndex;
    var maximum := start;
    for k := 0 to |works|
      invariant MaxIndex(works, start) == MaxIndex(works[k..], maximum)
    {
      assert works[k..][1..] == works[k + 1..];
      var index :- MaxAccessedIndex(works[k]);
      maximum := Larger(maximum, index);
    }
    return Some(maximum);
  }

  lemma {:induction false} MaxIndexBounds(works: seq<Work>, start: nat)
    ensures var r := MaxIndex(works, start); r.Some? ==>
      start <= r.value &&
      forall k :: 0 <= k < |works| ==> MaxAccessedIndex(works[k]).Some? && MaxAccessedIndex(works[k]).value <= r.value
  {
    hide MaxAccessedIndex;
    if works != [] && MaxIndex(works, start).Some? {
      MaxIndexBounds(works[1..], Larger(start, MaxAccessedIndex(works[0]).value));
      forall k | 0 <= k < |works|
        ensures MaxAccessedIndex(works[k]).Some? && MaxAccessedIndex(works[k]).value <= MaxIndex(works, start).value
      {
        assert k > 0 ==> works[k] == works[1..][k - 1];
      }
    }
  }

  // ---- A rebased relative schedule is the absolute one ----

  /** A record whose indices stay below a bound. */
  predicate Below(w: Work, top: nat) {
    w.first <= top && (w.kind >= 4 ==> w.second <= top)
  }

  lemma EncodeRebased(zero: Layout, at: Layout, t: Tile, top: nat)
    requires zero.offset == 0 && at.stride == zero.stride && at.offset + top <= U32_MAX
    ensures Encode(zero, t).Some? && Below(Encode(zero, t).value, top) ==>
      Encode(at, t) == Some(Rebase(Encode(zero, t).value, at.offset))
  {}

  lemma FirstBelowMax(w: Work)
    requires MaxAccessedIndex(w).Some?
    ensures Below(w, MaxAccessedIndex(w).value)
  {}

  lemma EncodeAllRebased(zero: Layout, at: Layout, tiles: seq<Tile>, works: seq<Work>, start: nat, top: nat)
    requires zero.offset == 0 && at.stride == zero.stride && EncodeAll(zero, tiles) == Some(works)
    requires MaxIndex(works, start) == Some(top) && at.offset + top <= U32_MAX
    ensures EncodeAll(at, tiles) == Some(RebaseAll(works, at.offset))
  {
    hide Encode, MaxAccessedIndex, MaxIndex, Rebase;
    MaxIndexBounds(works, start);
    forall k | 0 <= k < |tiles|
      ensures Encode(at, tiles[k]) == Some(Rebase(works[k], at.offset))
    {
      assert Encode(zero, tiles[k]) == Some(works[k]);
      FirstBelowMax(works[k]);
      EncodeRebased(zero, at, tiles[k], top);
    }
    assert EncodeAll(at, tiles).value == RebaseAll(works, at.offset);
  }

  /** The largest index of a whole schedule, in the order the planner scans it. */
  function ScheduleMax(s: Schedule): Option<nat> {
    var one :- MaxIndex(s.prefix, 0);
    var two :- MaxIndex(s.filters, one);
    MaxIndex(s.suffix, two)
  }

  lemma ScheduleRebased(zero: Layout, at: Layout, regions: seq<Region>, full: bool, s: Schedule, top: nat)
    requires zero.offset == 0 && at.stride == zero.stride && LargeEnough(regions)
    requires (if full then FullSchedule(zero, regions) else SubsampledSchedule(zero, regions)) == Some(s)
    requires ScheduleMax(s) == Some(top) && at.offset + top <= U32_MAX
    ensures (if full then FullSchedule(at, regions) else SubsampledSchedule(at, regions)) == Some(RebaseSchedule(s, at.offset))
  {
    hide EncodeAll, MaxIndex, AllFullTiles, AllSubsampledTiles, AllResiduals, AllRestores;
    var one := MaxIndex(s.prefix, 0).value;
    var two := MaxIndex(s.filters, one).value;
    MaxIndexBounds(s.filters, one);
    MaxIndexBounds(s.suffix, two);
    if full {
      EncodeAllRebased(zero, at, AllFullTiles(regions), s.filters, one, two);
    } else {
      EncodeAllRebased(zero, at, AllResiduals(regions), s.prefix, 0, one);
      EncodeAllRebased(zero, at, AllSubsampledTiles(regions), s.filters, one, two);
      EncodeAllRebased(zero, at, AllRestores(regions), s.suffix, two, top);
    }
  }

  /**
   A relative schedule moved to a base at which its largest index still fits is the schedule planned for
   the plane itself.
   */
  lemma RebasedIsAbsolute(pass: Pass, p: Plane, hard: bool, tileColumns: seq<nat>, tileRows: seq<nat>, s: Schedule, top: nat)
    requires ValidPlane(p) && Planned(pass, AtZero(p), hard, tileColumns, tileRows) == Some(s)
    requires ScheduleMax(s) == Some(top) && BaseOf(pass, p) + top <= U32_MAX
    ensures Planned(pass, p, hard, tileColumns, tileRows) == Some(RebaseSchedule(s, BaseOf(pass, p)))
  {
    hide FullSchedule, SubsampledSchedule, ClippedAxis, ScaleFits, RegionGrid, ScheduleMax;
    var q := AtZero(p);
    if pass.First? {
      var regions := TileRegions(p, hard, tileColumns, tileRows, p.blockColumns, p.blockRows).value;
      RegionsLarge(p, hard, tileColumns, tileRows, p.blockColumns, p.blockRows);
      ScheduleRebased(LowLayout(q), LowLayout(p), regions, p.blockColumns == 4, s, top);
    } else {
      var regions := TileRegions(p, hard, tileColumns, tileRows, p.blockColumns * 4, p.blockRows * 4).value;
      RegionsLarge(p, hard, tileColumns, tileRows, p.blockColumns * 4, p.blockRows * 4);
      ScheduleRebased(SampleLayout(q), SampleLayout(p), regions, true, s, top);
    }
  }

  lemma RebasedMax(w: Work, base: nat)
    requires w.kind <= 6 && MaxAccessedIndex(w).Some? && base + MaxAccessedIndex(w).value <= U32_MAX
    ensures MaxAccessedIndex(Rebase(w, base)) == Some(MaxAccessedIndex(w).value + base)
  {}

  /** Every cell a rebased record touches has a 32-bit index. */
  lemma RebasedFits(works: seq<Work>, start: nat, top: nat, base: nat, k: nat, i: nat)
    requires MaxIndex(works, start) == Some(top) && base + top <= U32_MAX
    requires k < |works| && works[k].kind <= 6 && i in Addresses(Rebase(works[k], base))
    ensures i <= base + top
  {
    hide Addresses, MaxIndex, MaxAccessedIndex, Rebase;
    MaxIndexBounds(works, start);
    RebasedMax(works[k], base);
    assert Rebase(works[k], base).kind == works[k].kind by { KindKept(works[k], base); }
    MaxAccessedIsMaximum(Rebase(works[k], base));
  }

  lemma KindKept(w: Work, base: nat)
    ensures Rebase(w, base).kind == w.kind
  {}
}
