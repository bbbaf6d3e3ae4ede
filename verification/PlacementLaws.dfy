/**
 When a plane's schedule can be shared and placed: which requests share an entry of the cache, and that a plane is
 refused exactly when its schedule cannot be planned or one of its records would leave the 32-bit index range.
 */
module PlacementLaws {
  import opened Wrappers
  import opened Overlap
  import opened Regions
  import opened Passes
  import opened Rebasing
  import opened ScheduleCache
  import opened Batch
  import opened Dispatches

  /** Some record of a list addresses the cell. */
  ghost predicate Touched(works: seq<Work>, i: nat) {
    exists k: nat :: k < |works| && i in Addresses(works[k])
  }

  /** The running maximum is the largest address, if every address has 32 bits. */
  ghost predicate Highest(works: seq<Work>, start: nat, top: nat) {
    && (forall i: nat :: Touched(works, i) ==> i <= top && i <= 0xFFFF_FFFF)
    && start <= top && (top == start || Touched(works, top))
  }

  lemma TouchedFirst(works: seq<Work>, i: nat)
    requires works != []
    ensures Touched(works, i) <==> i in Addresses(works[0]) || Touched(works[1..], i)
  {
    hide Addresses;
    if Touched(works, i) {
      var k: nat :| k < |works| && i in Addresses(works[k]);
      assert k > 0 ==> works[1..][k - 1] == works[k];
    }
    if Touched(works[1..], i) {
      var k: nat :| k < |works[1..]| && i in Addresses(works[1..][k]);
      assert works[k + 1] == works[1..][k];
    }
  }

  lemma {:induction false} HighestExactly(works: seq<Work>, start: nat)
    requires AllKinds(works)
    ensures MaxIndex(works, start).Some? <==> forall i: nat :: Touched(works, i) ==> i <= 0xFFFF_FFFF
    ensures MaxIndex(works, start).Some? ==> Highest(works, start, MaxIndex(works, start).value)
  {
    hide Addresses, MaxAccessedIndex, Touched;
    forall i: nat | works != []
      ensures Touched(works, i) <==> i in Addresses(works[0]) || Touched(works[1..], i)
    {
      TouchedFirst(works, i);
    }
    if works == [] {
      NothingTouched();
    } else {
      MaxAccessedIsMaximum(works[0]);
      forall k | 0 <= k < |works[1..]|
        ensures works[1..][k].kind <= 6
      {
        assert works[1..][k] == works[k + 1];
      }
      if MaxAccessedIndex(works[0]).Some? {
        HighestExactly(works[1..], Larger(start, MaxAccessedIndex(works[0]).value));
      }
    }
  }

  lemma NothingTouched()
    ensures forall i: nat :: !Touched([], i)
  {}

  ghost predicate TouchedBy(s: Schedule, i: nat) {
    Touched(s.prefix, i) || Touched(s.filters, i) || Touched(s.suffix, i)
  }

  /** The largest index of a schedule, over all its lists; zero for an empty one. */
  ghost predicate Top(s: Schedule, top: nat) {
    (forall i: nat :: TouchedBy(s, i) ==> i <= top && i <= 0xFFFF_FFFF) && (top == 0 || TouchedBy(s, top))
  }

  /** A schedule without a largest index touches one beyond 32 bits. */
  lemma NoTop(s: Schedule)
    requires ScheduleKinds(s) && ScheduleMax(s).None?
    ensures exists i: nat :: TouchedBy(s, i) && i > 0xFFFF_FFFF
  {
    hide MaxIndex, Touched, AllKinds;
    HighestExactly(s.prefix, 0);
    var list := s.prefix;
    if MaxIndex(s.prefix, 0).Some? {
      var one := MaxIndex(s.prefix, 0).value;
      HighestExactly(s.filters, one);
      list := s.filters;
      if MaxIndex(s.filters, one).Some? {
        HighestExactly(s.suffix, MaxIndex(s.filters, one).value);
        list := s.suffix;
      }
    }
    var i: nat :| Touched(list, i) && i > 0xFFFF_FFFF;
    assert TouchedBy(s, i);
  }

  lemma TopFound(s: Schedule)
    requires ScheduleKinds(s) && ScheduleMax(s).Some?
    ensures Top(s, ScheduleMax(s).value)
  {
    hide MaxIndex, Touched, AllKinds;
    HighestExactly(s.prefix, 0);
    var one := MaxIndex(s.prefix, 0).value;
    HighestExactly(s.filters, one);
    HighestExactly(s.suffix, MaxIndex(s.filters, one).value);
  }

  lemma ScheduleTop(s: Schedule, top: nat)
    requires ScheduleKinds(s)
    ensures ScheduleMax(s) == Some(top) <==> Top(s, top)
  {
    if ScheduleMax(s).Some? {
      TopFound(s);
    } else {
      NoTop(s);
    }
    hide ScheduleMax, TouchedBy;
  }

  /** Two requests share an entry exactly when they agree on everything a relative schedule depends on. */
  lemma SharedExactly(q: Request, r: Request)
    ensures RequestKey(q) == RequestKey(r) <==> (
      && q.pass == r.pass && q.hard == r.hard && q.plane.sampleWidth == r.plane.sampleWidth
      && q.plane.blockColumns == r.plane.blockColumns && q.plane.blockRows == r.plane.blockRows
      && q.plane.macroblocksX == r.plane.macroblocksX && q.plane.macroblocksY == r.plane.macroblocksY
      && (q.hard ==> q.plane.originX == r.plane.originX && q.plane.originY == r.plane.originY
                     && q.tileColumns == r.tileColumns && q.tileRows == r.tileRows))
  {}

  /** The schedule of a plane moved to the start of its arenas. */
  ghost predicate Relative(q: Request, s: Schedule)
    requires ValidPlane(q.plane)
  {
    && Planned(q.pass, q.plane.(lowOffset := 0, sampleOffset := 0), q.hard, q.tileColumns, q.tileRows) == Some(s)
    && |s.prefix| <= 0xFFFF_FFFF && |s.filters| <= 0xFFFF_FFFF && |s.suffix| <= 0xFFFF_FFFF
  }

  lemma RelativeKinds(q: Request, s: Schedule)
    requires ValidPlane(q.plane) && Relative(q, s)
    ensures ScheduleKinds(s)
  {
    hide Planned;
    PlannedKinds(q.(plane := q.plane.(lowOffset := 0, sampleOffset := 0)));
  }

  /** What is uploaded for a request: its relative schedule and the largest index that this touches. */
  lemma UploadExactly(q: Request, r: Resident)
    requires ValidPlane(q.plane)
    ensures Upload(q) == Some(r) <==> Relative(q, r.schedule) && Top(r.schedule, r.maxIndex)
  {
    hide Planned, ScheduleMax, Top, ScheduleKinds;
    if Relative(q, r.schedule) {
      RelativeKinds(q, r.schedule);
      ScheduleTop(r.schedule, r.maxIndex);
    }
  }

  /** Moved to its base, every index of the schedule has 32 bits. */
  ghost predicate Placeable(s: Schedule, base: nat) {
    base <= 0xFFFF_FFFF && forall i: nat :: TouchedBy(s, i) ==> base + i <= 0xFFFF_FFFF
  }

  /** A plane is collected exactly when its relative schedule exists and all its records can be moved to the plane. */
  lemma CollectedExactly(pass: Pass, image: OverlapImage, p: Plane, status: nat)
    requires ValidPlane(p)
    ensures CollectedPlane(pass, image, p, status).Some? <==>
      exists s: Schedule :: Relative(RequestOf(pass, image, p), s) && Placeable(s, if pass.First? then p.lowOffset else p.sampleOffset)
  {
    hide Upload, TouchedBy, Relative;
    var q := RequestOf(pass, image, p);
    if Upload(q).Some? {
      var r := Upload(q).value;
      UploadExactly(q, r);
      assert CheckedBase(r, BaseOf(pass, p)).Some? <==> Placeable(r.schedule, BaseOf(pass, p));
    }
    forall s: Schedule | Relative(q, s) && Placeable(s, BaseOf(pass, p))
      ensures Upload(q).Some? && Upload(q).value.schedule == s
    {
      PlaceableUploads(q, s, BaseOf(pass, p));
    }
  }

  lemma PlaceableUploads(q: Request, s: Schedule, base: nat)
    requires ValidPlane(q.plane) && Relative(q, s) && Placeable(s, base)
    ensures Upload(q).Some? && Upload(q).value.schedule == s
  {
    RelativeKinds(q, s);
    hide Planned, ScheduleKinds, TouchedBy, ScheduleMax;
    if ScheduleMax(s).None? {
      NoTop(s);
    }
  }

  /** The planes of an image are collected exactly when each of them is. */
  lemma {:induction false} PlanesExactly(pass: Pass, image: OverlapImage, planes: seq<Plane>, status: nat)
    requires forall k :: 0 <= k < |planes| ==> ValidPlane(planes[k])
    ensures CollectedPlanes(pass, image, planes, status).Some? <==>
      forall p :: p in planes ==> CollectedPlane(pass, image, p, status).Some?
  {
    hide CollectedPlane;
    if planes != [] {
      var init, last := planes[..|planes| - 1], planes[|planes| - 1];
      PlanesExactly(pass, image, init, status);
      assert planes == init + [last];
    }
  }

  /** A pass is refused exactly when an image that runs it has no 32-bit status slot or a plane that cannot be placed. */
  lemma {:induction false} PassExactly(pass: Pass, images: seq<OverlapImage>)
    requires forall i, k :: 0 <= i < |images| && 0 <= k < |images[i].planes| ==> ValidPlane(images[i].planes[k])
    ensures Collected(pass, images).Some? <==>
      forall i: nat :: i < |images| && (if pass.First? then images[i].overlap.Two? else !images[i].overlap.NoOverlap?) ==>
        i <= 0xFFFF_FFFF && forall p :: p in images[i].planes ==> CollectedPlane(pass, images[i], p, i).Some?
  {
    hide CollectedPlane, CollectedPlanes;
    if images != [] {
      var last := |images| - 1;
      PassExactly(pass, images[..last]);
      PlanesExactly(pass, images[last], images[last].planes, last);
      assert forall i :: 0 <= i < last ==> images[..last][i] == images[i];
    }
  }
}
