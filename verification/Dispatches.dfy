/**
 The overlap passes of a batch as they are dispatched: the planes that run a pass, each with its resident
 schedule, its base and its image's status slot, and one dispatch per stage and resident schedule.
 */
module Dispatches {
  import opened Wrappers
  import opened Words
  import opened Overlap
  import opened Regions
  import opened Passes
  import opened ExactTiling
  import opened OverlapPass
  import opened PlanePasses
  import opened PhaseOrder
  import opened Window
  import opened Rebasing
  import opened ScheduleCache
  import opened Device
  import opened Batch
  import opened Isolation
  import opened Launches
  import L = Locality
  import R = Reconstruction

  // ---- Collecting the planes of a pass ----

  /** What an image contributes to an overlap pass: its planes, if its mode runs the pass. */
  datatype OverlapImage = OverlapImage(overlap: R.OverlapMode, hard: bool, tileColumns: seq<nat>, tileRows: seq<nat>, planes: seq<Plane>)

  /** A plane to dispatch: its resident schedule, the base it is moved to, and its image's status slot. */
  datatype OverlapPlane = OverlapPlane(resident: Resident, base: nat, status: nat)

  predicate Enabled(pass: Pass, overlap: R.OverlapMode) {
    if pass.First? then overlap.Two? else !overlap.NoOverlap?
  }

  function RequestOf(pass: Pass, image: OverlapImage, p: Plane): Request {
    Request(pass, p, image.hard, image.tileColumns, image.tileRows)
  }

  function CollectedPlane(pass: Pass, image: OverlapImage, p: Plane, status: nat): Option<OverlapPlane>
    requires ValidPlane(p)
  {
    var resident :- Upload(RequestOf(pass, image, p));
    var base :- CheckedBase(resident, BaseOf(pass, p));
    Some(OverlapPlane(resident, base, status))
  }

  function CollectedPlanes(pass: Pass, image: OverlapImage, planes: seq<Plane>, status: nat): (r: Option<seq<OverlapPlane>>)
    requires forall k :: 0 <= k < |planes| ==> ValidPlane(planes[k])
  {
    if planes == [] then Some([])
    else
      var init :- CollectedPlanes(pass, image, planes[..|planes| - 1], status);
      var last :- CollectedPlane(pass, image, planes[|planes| - 1], status);
      Some(init + [last])
  }

  /** The cache after an image's planes were looked up, up to the first that cannot be placed. */
  function CacheAfter(c: Cache, pass: Pass, image: OverlapImage, planes: seq<Plane>): Cache
    requires forall k :: 0 <= k < |planes| ==> ValidPlane(planes[k])
  {
    if planes == [] then c
    else
      var init, last := planes[..|planes| - 1], planes[|planes| - 1];
      var before := CacheAfter(c, pass, image, init);
      if CollectedPlanes(pass, image, init, 0).None? then before else LookedUp(before, RequestOf(pass, image, last))
  }

  /** The cache after all images, up to the first plane that cannot be placed. */
  function CacheAfterAll(c: Cache, pass: Pass, images: seq<OverlapImage>): Cache
    requires forall i, k :: 0 <= i < |images| && 0 <= k < |images[i].planes| ==> ValidPlane(images[i].planes[k])
  {
    if images == [] then c
    else
      var last := |images| - 1;
      var before := CacheAfterAll(c, pass, images[..last]);
      if Collected(pass, images[..last]).None? || !Enabled(pass, images[last].overlap) || last > U32_MAX then before
      else CacheAfter(before, pass, images[last], images[last].planes)
  }

  /** The objects the look-ups of an image's planes hand out. */
  function ObjectsOf(c: Cache, pass: Pass, image: OverlapImage, planes: seq<Plane>): seq<nat>
    requires forall k :: 0 <= k < |planes| ==> ValidPlane(planes[k])
  {
    if planes == [] then []
    else
      var init, last := planes[..|planes| - 1], planes[|planes| - 1];
      match Answered(CacheAfter(c, pass, image, init), RequestOf(pass, image, last))
      case None => []
      case Some(shared) => ObjectsOf(c, pass, image, init) + [shared.number]
  }

  /** The objects the look-ups of all images that run the pass hand out. */
  function AllObjects(c: Cache, pass: Pass, images: seq<OverlapImage>): seq<nat>
    requires forall i, k :: 0 <= i < |images| && 0 <= k < |images[i].planes| ==> ValidPlane(images[i].planes[k])
  {
    if images == [] then []
    else
      var last := |images| - 1;
      AllObjects(c, pass, images[..last])
      + if Enabled(pass, images[last].overlap) then
          ObjectsOf(CacheAfterAll(c, pass, images[..last]), pass, images[last], images[last].planes)
        else []
  }

  /** Whether planes can be placed does not depend on the status slot. */
  lemma {:induction false} AnyStatus(pass: Pass, image: OverlapImage, planes: seq<Plane>, status: nat)
    requires forall k :: 0 <= k < |planes| ==> ValidPlane(planes[k])
    ensures CollectedPlanes(pass, image, planes, status).Some? <==> CollectedPlanes(pass, image, planes, 0).Some?
  {
    if planes != [] {
      hide Upload, CheckedBase;
      AnyStatus(pass, image, planes[..|planes| - 1], status);
    }
  }

  /** The planes of all images that run the pass, in order, or `None` when one cannot be placed. */
  function Collected(pass: Pass, images: seq<OverlapImage>): (r: Option<seq<OverlapPlane>>)
    requires forall i, k :: 0 <= i < |images| && 0 <= k < |images[i].planes| ==> ValidPlane(images[i].planes[k])
  {
    if images == [] then Some([])
    else
      var last := |images| - 1;
      var init :- Collected(pass, images[..last]);
      if !Enabled(pass, images[last].overlap) then Some(init)
      else if last > U32_MAX then None
      else
        var planes :- CollectedPlanes(pass, images[last], images[last].planes, last);
        Some(init + planes)
  }

  lemma {:induction false} CollectedFails(pass: Pass, images: seq<OverlapImage>, n: nat)
    requires forall i, k :: 0 <= i < |images| && 0 <= k < |images[i].planes| ==> ValidPlane(images[i].planes[k])
    requires n <= |images| && Collected(pass, images[..n]).None?
    ensures Collected(pass, images).None?
    ensures forall c :: CacheAfterAll(c, pass, images) == CacheAfterAll(c, pass, images[..n])
    decreases |images|
  {
    if n < |images| {
      assert images[..|images| - 1][..n] == images[..n];
      CollectedFails(pass, images[..|images| - 1], n);
    } else {
      assert images[..n] == images;
    }
  }

  lemma {:induction false} CollectedPlanesFail(pass: Pass, image: OverlapImage, planes: seq<Plane>, status: nat, n: nat)
    requires forall k :: 0 <= k < |planes| ==> ValidPlane(planes[k])
    requires n <= |planes| && CollectedPlanes(pass, image, planes[..n], status).None?
    ensures CollectedPlanes(pass, image, planes, status).None?
    ensures forall c :: CacheAfter(c, pass, image, planes) == CacheAfter(c, pass, image, planes[..n])
    decreases |planes|
  {
    if n < |planes| {
      assert planes[..|planes| - 1][..n] == planes[..n];
      CollectedPlanesFail(pass, image, planes[..|planes| - 1], status, n);
      AnyStatus(pass, image, planes[..|planes| - 1], status);
    } else {
      assert planes[..n] == planes;
    }
  }

  lemma NothingCollected(start: Cache, pass: Pass, image: OverlapImage, status: nat)
    ensures CollectedPlanes(pass, image, [], status) == Some([]) && CacheAfter(start, pass, image, []) == start
    ensures ObjectsOf(start, pass, image, []) == []
  {}

  lemma PlaneNext(pass: Pass, image: OverlapImage, planes: seq<Plane>, k: nat, status: nat, start: Cache, collected: seq<OverlapPlane>)
    requires forall j :: 0 <= j < |planes| ==> ValidPlane(planes[j])
    requires k < |planes| && CollectedPlanes(pass, image, planes[..k], status) == Some(collected)
    ensures CollectedPlanes(pass, image, planes[..k + 1], status) ==
      match CollectedPlane(pass, image, planes[k], status)
      case None => None
      case Some(c) => Some(collected + [c])
    ensures CacheAfter(start, pass, image, planes[..k + 1])
      == LookedUp(CacheAfter(start, pass, image, planes[..k]), RequestOf(pass, image, planes[k]))
    ensures match Answered(CacheAfter(start, pass, image, planes[..k]), RequestOf(pass, image, planes[k]))
      case None => true
      case Some(shared) =>
        ObjectsOf(start, pass, image, planes[..k + 1]) == ObjectsOf(start, pass, image, planes[..k]) + [shared.number]
  {
    hide Upload, CheckedBase, CollectedPlane, LookedUp, Answered, RequestKey, RequestOf;
    AnyStatus(pass, image, planes[..k], status);
    assert planes[..k + 1][..k] == planes[..k];
  }

  /** Planes with the same resident object have the same resident schedule. */
  ghost predicate Identified(planes: seq<OverlapPlane>, objects: seq<nat>) {
    && |objects| == |planes|
    && forall j, k :: 0 <= j < |planes| && 0 <= k < |planes| && objects[j] == objects[k] ==> planes[j].resident == planes[k].resident
  }

  /** Every plane holds the object made by the upload of its number. */
  ghost predicate AllMade(planes: seq<OverlapPlane>, objects: seq<nat>, made: seq<Resident>) {
    && |objects| == |planes|
    && forall k :: 0 <= k < |planes| ==> MadeAs(Shared(planes[k].resident, objects[k]), made)
  }

  lemma MadeConcat(a: seq<OverlapPlane>, x: seq<nat>, b: seq<OverlapPlane>, y: seq<nat>, before: seq<Resident>, after: seq<Resident>)
    requires AllMade(a, x, before) && AllMade(b, y, after) && before <= after
    ensures AllMade(a + b, x + y, after)
  {}

  lemma MadeIdentified(planes: seq<OverlapPlane>, objects: seq<nat>, made: seq<Resident>)
    requires AllMade(planes, objects, made)
    ensures Identified(planes, objects)
  {}

  method CollectPlanes(cache: OverlapScheduleCache, pass: Pass, image: OverlapImage, status: nat)
    returns (r: Option<seq<OverlapPlane>>, objects: seq<nat>)
    requires cache.Valid() && forall k :: 0 <= k < |image.planes| ==> ValidPlane(image.planes[k])
    modifies cache
    ensures cache.Valid() && old(cache.made) <= cache.made
    ensures r == CollectedPlanes(pass, image, image.planes, status)
    ensures cache.State() == CacheAfter(old(cache.State()), pass, image, image.planes)
    ensures r.Some? ==> objects == ObjectsOf(old(cache.State()), pass, image, image.planes) && AllMade(r.value, objects, cache.made)
  {
    hide Upload, CheckedBase, LookedUp, Answered, RequestKey, CollectedPlanes, CacheAfter, ObjectsOf, AllMade, MadeAs;
    ghost var start := cache.State();
    assert image.planes[..0] == [];
    NothingCollected(start, pass, image, status);
    var collected: seq<OverlapPlane> := [];
    objects := [];
    assert AllMade([], [], cache.made) by { NothingMade(cache.made); }
    for k := 0 to |image.planes|
      invariant cache.Valid() && old(cache.made) <= cache.made
      invariant CollectedPlanes(pass, image, image.planes[..k], status) == Some(collected)
      invariant cache.State() == CacheAfter(start, pass, image, image.planes[..k])
      invariant objects == ObjectsOf(start, pass, image, image.planes[..k]) && AllMade(collected, objects, cache.made)
    {
      var p := image.planes[k];
      PlaneNext(pass, image, image.planes, k, status, start, collected);
      ghost var before := cache.made;
      var shared := cache.GetOrUpload(RequestOf(pass, image, p));
      if shared.None? {
        CollectedPlanesFail(pass, image, image.planes, status, k + 1);
        return None, [];
      }
      var base := CheckedBase(shared.value.resident, BaseOf(pass, p));
      if base.None? {
        CollectedPlanesFail(pass, image, image.planes, status, k + 1);
        return None, [];
      }
      var plane := OverlapPlane(shared.value.resident, base.value, status);
      OneMade(plane, shared.value, cache.made);
      MadeConcat(collected, objects, [plane], [shared.value.number], before, cache.made);
      collected, objects := collected + [plane], objects + [shared.value.number];
    }
    assert image.planes[..|image.planes|] == image.planes;
    return Some(collected), objects;
  }

  lemma NothingMade(made: seq<Resident>)
    ensures AllMade([], [], made)
  {}

  lemma OneMade(plane: OverlapPlane, shared: Shared, made: seq<Resident>)
    requires MadeAs(shared, made) && plane.resident == shared.resident
    ensures AllMade([plane], [shared.number], made)
  {}

  /**
   Whatever the cache holds, the planes of a pass are collected as fresh uploads would place them, each with the
   object its look-up handed out. Planes with the same object have the same schedule, even when entries were
   evicted in between.
   */
  method CollectOverlaps(cache: OverlapScheduleCache, pass: Pass, images: seq<OverlapImage>)
    returns (r: Option<seq<OverlapPlane>>, objects: seq<nat>)
    requires cache.Valid()
    requires forall i, k :: 0 <= i < |images| && 0 <= k < |images[i].planes| ==> ValidPlane(images[i].planes[k])
    modifies cache
    ensures cache.Valid()
    ensures r == Collected(pass, images)
    ensures cache.State() == CacheAfterAll(old(cache.State()), pass, images)
    ensures r.Some? ==> objects == AllObjects(old(cache.State()), pass, images) && Identified(r.value, objects)
  {
    hide CollectedPlanes, CacheAfter, ObjectsOf, AllMade, Identified;
    ghost var start := cache.State();
    var collected: seq<OverlapPlane> := [];
    objects := [];
    NothingMade(cache.made);
    for i := 0 to |images|
      invariant cache.Valid()
      invariant Collected(pass, images[..i]) == Some(collected)
      invariant cache.State() == CacheAfterAll(start, pass, images[..i])
      invariant objects == AllObjects(start, pass, images[..i]) && AllMade(collected, objects, cache.made)
    {
      assert images[..i + 1][..i] == images[..i];
      if Enabled(pass, images[i].overlap) {
        if i > U32_MAX {
          CollectedFails(pass, images, i + 1);
          return None, [];
        }
        ghost var before := cache.made;
        var planes, held := CollectPlanes(cache, pass, images[i], i);
        if planes.None? {
          CollectedFails(pass, images, i + 1);
          return None, [];
        }
        MadeConcat(collected, objects, planes.value, held, before, cache.made);
        collected, objects := collected + planes.value, objects + held;
      }
    }
    assert images[..|images|] == images;
    MadeIdentified(collected, objects, cache.made);
    return Some(collected), objects;
  }

  /** A collected plane's schedule, moved to its base, is the schedule planned for the plane itself. */
  lemma CollectedIsOwn(pass: Pass, image: OverlapImage, p: Plane, status: nat)
    requires ValidPlane(p) && CollectedPlane(pass, image, p, status).Some?
    ensures var c := CollectedPlane(pass, image, p, status).value;
      && c.base == BaseOf(pass, p) && c.status == status
      && Planned(pass, p, image.hard, image.tileColumns, image.tileRows) == Some(RebaseSchedule(c.resident.schedule, c.base))
  {
    hide Upload, Planned, CheckedBase;
    AnswerIsAbsolute(RequestOf(pass, image, p));
    BaseKept(Upload(RequestOf(pass, image, p)).value, BaseOf(pass, p));
  }

  lemma BaseKept(r: Resident, base: nat)
    ensures CheckedBase(r, base).Some? ==> CheckedBase(r, base) == Some(base)
  {}

  // ---- The requests of a pass ----

  /** A request of the encoder and the image it is made for. */
  datatype Asked = Asked(request: Request, image: nat)

  function PlaneRequests(pass: Pass, image: OverlapImage, planes: seq<Plane>, status: nat): (r: seq<Asked>)
    ensures |r| == |planes| && forall k :: 0 <= k < |planes| ==> r[k] == Asked(RequestOf(pass, image, planes[k]), status)
  {
    seq(|planes|, k requires 0 <= k < |planes| => Asked(RequestOf(pass, image, planes[k]), status))
  }

  /** The requests of all images that run the pass, in order. */
  function AllRequests(pass: Pass, images: seq<OverlapImage>): seq<Asked> {
    if images == [] then []
    else
      var last := |images| - 1;
      AllRequests(pass, images[..last])
      + if Enabled(pass, images[last].overlap) then PlaneRequests(pass, images[last], images[last].planes, last) else []
  }

  /** A collected plane answers a request: its schedule moved to its base is the one planned for the plane. */
  ghost predicate Answers(c: OverlapPlane, a: Asked) {
    && ValidPlane(a.request.plane) && c.status == a.image && c.base == BaseOf(a.request.pass, a.request.plane)
    && Planned(a.request.pass, a.request.plane, a.request.hard, a.request.tileColumns, a.request.tileRows)
         == Some(RebaseSchedule(c.resident.schedule, c.base))
  }

  ghost predicate AllAnswer(collected: seq<OverlapPlane>, asked: seq<Asked>) {
    |collected| == |asked| && forall k :: 0 <= k < |asked| ==> Answers(collected[k], asked[k])
  }

  lemma AnswerConcat(c: seq<OverlapPlane>, a: seq<Asked>, d: seq<OverlapPlane>, b: seq<Asked>)
    requires AllAnswer(c, a) && AllAnswer(d, b)
    ensures AllAnswer(c + d, a + b)
  {
    hide Answers;
  }

  lemma PlaneAnswers(pass: Pass, image: OverlapImage, p: Plane, status: nat)
    requires ValidPlane(p) && CollectedPlane(pass, image, p, status).Some?
    ensures AllAnswer([CollectedPlane(pass, image, p, status).value], [Asked(RequestOf(pass, image, p), status)])
  {
    hide Upload, Planned, CollectedPlane;
    CollectedIsOwn(pass, image, p, status);
  }

  lemma PlanesLast(pass: Pass, image: OverlapImage, planes: seq<Plane>, status: nat)
    requires forall k :: 0 <= k < |planes| ==> ValidPlane(planes[k])
    requires planes != [] && CollectedPlanes(pass, image, planes, status).Some?
    ensures var init, last := planes[..|planes| - 1], planes[|planes| - 1];
      && CollectedPlanes(pass, image, init, status).Some? && CollectedPlane(pass, image, last, status).Some?
      && CollectedPlanes(pass, image, planes, status).value
         == CollectedPlanes(pass, image, init, status).value + [CollectedPlane(pass, image, last, status).value]
      && PlaneRequests(pass, image, planes, status)
         == PlaneRequests(pass, image, init, status) + [Asked(RequestOf(pass, image, last), status)]
  {
    hide CollectedPlane, RequestOf, ValidPlane;
  }

  lemma {:induction false} PlanesAnswer(pass: Pass, image: OverlapImage, planes: seq<Plane>, status: nat)
    requires forall k :: 0 <= k < |planes| ==> ValidPlane(planes[k])
    requires CollectedPlanes(pass, image, planes, status).Some?
    ensures AllAnswer(CollectedPlanes(pass, image, planes, status).value, PlaneRequests(pass, image, planes, status))
  {
    if planes != [] {
      hide CollectedPlane, CollectedPlanes, PlaneRequests, AllAnswer, ValidPlane, RequestOf;
      var init, last := planes[..|planes| - 1], planes[|planes| - 1];
      PlanesLast(pass, image, planes, status);
      PlanesAnswer(pass, image, init, status);
      PlaneAnswers(pass, image, last, status);
      AnswerConcat(CollectedPlanes(pass, image, init, status).value, PlaneRequests(pass, image, init, status),
                   [CollectedPlane(pass, image, last, status).value], [Asked(RequestOf(pass, image, last), status)]);
    } else {
      assert AllAnswer([], []);
    }
  }

  /** The planes collected for a pass answer the requests of all images that run it, one by one. */
  lemma {:induction false} CollectedAnswers(pass: Pass, images: seq<OverlapImage>)
    requires forall i, k :: 0 <= i < |images| && 0 <= k < |images[i].planes| ==> ValidPlane(images[i].planes[k])
    requires Collected(pass, images).Some?
    ensures AllAnswer(Collected(pass, images).value, AllRequests(pass, images))
  {
    if images != [] {
      hide AllAnswer, CollectedPlanes, PlaneRequests;
      var last := |images| - 1;
      CollectedAnswers(pass, images[..last]);
      if Enabled(pass, images[last].overlap) {
        PlanesAnswer(pass, images[last], images[last].planes, last);
        AnswerConcat(Collected(pass, images[..last]).value, AllRequests(pass, images[..last]),
                     CollectedPlanes(pass, images[last], images[last].planes, last).value,
                     PlaneRequests(pass, images[last], images[last].planes, last));
      } else {
        assert AllRequests(pass, images) == AllRequests(pass, images[..last]);
      }
    } else {
      assert AllAnswer([], []);
    }
  }

  // ---- Grouping the planes by resident schedule ----

  /** One dispatch: a resident schedule, and the base and status slot of every plane that shares it. */
  datatype Group = Group(identity: nat, resident: Resident, entries: seq<(nat, nat)>)

  /** The numbers of the planes of all groups, group by group. */
  function Flatten(members: seq<seq<nat>>): seq<nat> {
    if members == [] then [] else members[0] + Flatten(members[1..])
  }

  function FindGroup(groups: seq<Group>, identity: nat): (r: Option<nat>)
    ensures r.Some? ==> r.value < |groups| && groups[r.value].identity == identity
    ensures r.None? ==> forall g :: 0 <= g < |groups| ==> groups[g].identity != identity
  {
    if groups == [] then None
    else if groups[0].identity == identity then Some(0)
    else
      var rest :- FindGroup(groups[1..], identity);
      Some(rest + 1)
  }

  /** Adding a member to one group inserts it somewhere in the dispatch order. */
  lemma {:induction false} FlattenInsert(members: seq<seq<nat>>, g: nat, k: nat) returns (a: seq<nat>, b: seq<nat>)
    requires g < |members|
    ensures Flatten(members) == a + b
    ensures Flatten(members[g := members[g] + [k]]) == a + [k] + b
  {
    var changed := members[g := members[g] + [k]];
    if g == 0 {
      a, b := members[0], Flatten(members[1..]);
      assert changed[1..] == members[1..];
    } else {
      var c, d := FlattenInsert(members[1..], g - 1, k);
      a, b := members[0] + c, d;
      assert changed[1..] == members[1..][g - 1 := members[g] + [k]];
    }
  }

  lemma {:induction false} FlattenAppend(members: seq<seq<nat>>, last: seq<nat>)
    ensures Flatten(members + [last]) == Flatten(members) + last
  {
    if members == [] {
      assert [last][1..] == [];
    } else {
      assert (members + [last])[1..] == members[1..] + [last];
      FlattenAppend(members[1..], last);
    }
  }

  lemma OrderInsert(a: seq<nat>, b: seq<nat>, k: nat)
    requires IsOrder(a + b, k)
    ensures IsOrder(a + [k] + b, k + 1)
  {
    var all, longer := a + b, a + [k] + b;
    forall i | 0 <= i < |longer|
      ensures longer[i] == (if i < |a| then all[i] else if i == |a| then k else all[i - 1]) && longer[i] < k + 1
    {}
    forall i, j | 0 <= i < j < |longer|
      ensures longer[i] != longer[j]
    {
      if i == |a| {
        assert longer[j] == all[j - 1] < k;
      } else if j == |a| {
        assert longer[i] == all[i] < k;
      } else {
        assert all[if i < |a| then i else i - 1] != all[if j < |a| then j else j - 1];
      }
    }
  }

  lemma OrderAppend(a: seq<nat>, k: nat)
    requires IsOrder(a, k)
    ensures IsOrder(a + [k], k + 1)
  {
    assert a + [] == a && a + [k] + [] == a + [k];
    OrderInsert(a, [], k);
  }

  /** A group holds the entries of its members, in order, all of its own resident object. */
  ghost predicate GroupOf(group: Group, members: seq<nat>, planes: seq<OverlapPlane>, objects: seq<nat>)
    requires |objects| == |planes|
  {
    && |group.entries| == |members|
    && (forall i, j :: 0 <= i < j < |members| ==> members[i] < members[j])
    && forall i :: 0 <= i < |members| ==>
         var k := members[i];
         && k < |planes| && objects[k] == group.identity && planes[k].resident == group.resident
         && group.entries[i] == (planes[k].base, planes[k].status)
  }

  /** Every group is one resident object with its members, and no two groups share one. */
  ghost predicate Grouped(groups: seq<Group>, members: seq<seq<nat>>, planes: seq<OverlapPlane>, objects: seq<nat>) {
    && |members| == |groups| && |objects| == |planes|
    && (forall g, h :: 0 <= g < h < |groups| ==> groups[g].identity != groups[h].identity)
    && forall g :: 0 <= g < |groups| ==> GroupOf(groups[g], members[g], planes, objects)
  }

  /** Every plane is in exactly one group, that of its resident object. */
  ghost predicate Partitioned(groups: seq<Group>, planes: seq<OverlapPlane>, objects: seq<nat>) {
    exists members: seq<seq<nat>> :: Grouped(groups, members, planes, objects) && IsOrder(Flatten(members), |planes|)
  }

  lemma GroupLonger(group: Group, members: seq<nat>, planes: seq<OverlapPlane>, objects: seq<nat>, k: nat)
    requires Identified(planes, objects) && k < |planes| && GroupOf(group, members, planes[..k], objects[..k])
    ensures GroupOf(group, members, planes[..k + 1], objects[..k + 1])
    ensures members != [] && group.identity == objects[k] ==>
      GroupOf(group.(entries := group.entries + [(planes[k].base, planes[k].status)]), members + [k], planes[..k + 1], objects[..k + 1])
  {
    if members != [] && group.identity == objects[k] {
      assert objects[members[0]] == objects[k];
    }
  }

  lemma GroupNew(planes: seq<OverlapPlane>, objects: seq<nat>, k: nat)
    requires Identified(planes, objects) && k < |planes|
    ensures GroupOf(Group(objects[k], planes[k].resident, [(planes[k].base, planes[k].status)]), [k], planes[..k + 1], objects[..k + 1])
  {}

  ghost predicate NoneEmpty(members: seq<seq<nat>>) {
    forall g :: 0 <= g < |members| ==> members[g] != []
  }

  lemma GroupedMore(groups: seq<Group>, members: seq<seq<nat>>, planes: seq<OverlapPlane>, objects: seq<nat>, k: nat, found: Option<nat>)
    requires Identified(planes, objects) && k < |planes| && Grouped(groups, members, planes[..k], objects[..k]) && NoneEmpty(members)
    requires found == FindGroup(groups, objects[k])
    ensures found.Some? ==>
      var g := found.value;
      && Grouped(groups[g := groups[g].(entries := groups[g].entries + [(planes[k].base, planes[k].status)])],
                 members[g := members[g] + [k]], planes[..k + 1], objects[..k + 1])
      && NoneEmpty(members[g := members[g] + [k]])
    ensures found.None? ==>
      && Grouped(groups + [Group(objects[k], planes[k].resident, [(planes[k].base, planes[k].status)])], members + [[k]],
                 planes[..k + 1], objects[..k + 1])
      && NoneEmpty(members + [[k]])
  {
    forall g | 0 <= g < |groups|
      ensures GroupOf(groups[g], members[g], planes[..k + 1], objects[..k + 1])
      ensures groups[g].identity == objects[k] ==>
        GroupOf(groups[g].(entries := groups[g].entries + [(planes[k].base, planes[k].status)]), members[g] + [k], planes[..k + 1], objects[..k + 1])
    {
      GroupLonger(groups[g], members[g], planes, objects, k);
    }
    GroupNew(planes, objects, k);
    hide GroupOf, Identified;
  }

  /**
   Every collected plane is dispatched once per stage, with its own base and status slot, in the group of its
   resident object.
   */
  method GroupPlanes(planes: seq<OverlapPlane>, objects: seq<nat>) returns (groups: seq<Group>)
    requires Identified(planes, objects)
    ensures Partitioned(groups, planes, objects)
  {
    groups := [];
    ghost var members: seq<seq<nat>> := [];
    assert |objects| == |planes|;
    hide Identified, FindGroup, GroupOf;
    for k := 0 to |planes|
      invariant IsOrder(Flatten(members), k)
      invariant Grouped(groups, members, planes[..k], objects[..k]) && NoneEmpty(members) && |members| == |groups|
    {
      hide IsOrder, Flatten, Grouped, NoneEmpty;
      var identity, entry := objects[k], (planes[k].base, planes[k].status);
      var found := FindGroup(groups, identity);
      GroupedMore(groups, members, planes, objects, k, found);
      match found
      case Some(g) =>
        ghost var a, b := FlattenInsert(members, g, k);
        OrderInsert(a, b, k);
        groups := groups[g := groups[g].(entries := groups[g].entries + [entry])];
        members := members[g := members[g] + [k]];
      case None =>
        FlattenAppend(members, [k]);
        OrderAppend(Flatten(members), k);
        groups := groups + [Group(identity, planes[k].resident, [entry])];
        members := members + [[k]];
    }
    assert planes[..|planes|] == planes && objects[..|objects|] == objects;
  }

  /** The groups of a pass, from the images and the cache: refused exactly when a plane cannot be placed. */
  method OverlapGroups(cache: OverlapScheduleCache, pass: Pass, images: seq<OverlapImage>)
    returns (r: Option<seq<Group>>)
    requires cache.Valid()
    requires forall i, k :: 0 <= i < |images| && 0 <= k < |images[i].planes| ==> ValidPlane(images[i].planes[k])
    modifies cache
    ensures cache.Valid() && cache.State() == CacheAfterAll(old(cache.State()), pass, images)
    ensures r.Some? <==> Collected(pass, images).Some?
    ensures r.Some? ==> Partitioned(r.value, Collected(pass, images).value, AllObjects(old(cache.State()), pass, images))
  {
    hide Collected, CacheAfterAll, AllObjects, Partitioned, Identified;
    var planes, objects := CollectOverlaps(cache, pass, images);
    if planes.None? {
      return None;
    }
    var groups := GroupPlanes(planes.value, objects);
    return Some(groups);
  }

  // ---- The schedules of the planes of a pass ----

  lemma EncodedKinds(at: Layout, tiles: seq<Tile>, works: seq<Work>)
    requires EncodeAll(at, tiles) == Some(works)
    ensures AllKinds(works)
  {
    hide Absolute;
    forall k | 0 <= k < |works|
      ensures works[k].kind <= 6
    {
      assert Encode(at, tiles[k]) == Some(works[k]);
    }
  }

  ghost predicate ScheduleKinds(s: Schedule) {
    AllKinds(s.prefix) && AllKinds(s.filters) && AllKinds(s.suffix)
  }

  lemma FullKinds(at: Layout, regions: seq<Region>)
    requires LargeEnough(regions)
    ensures FullSchedule(at, regions).Some? ==> ScheduleKinds(FullSchedule(at, regions).value)
    ensures SubsampledSchedule(at, regions).Some? ==> ScheduleKinds(SubsampledSchedule(at, regions).value)
  {
    hide EncodeAll, AllFullTiles, AllSubsampledTiles, AllResiduals, AllRestores;
    if FullSchedule(at, regions).Some? {
      EncodedKinds(at, AllFullTiles(regions), FullSchedule(at, regions).value.filters);
    }
    if SubsampledSchedule(at, regions).Some? {
      var s := SubsampledSchedule(at, regions).value;
      EncodedKinds(at, AllResiduals(regions), s.prefix);
      EncodedKinds(at, AllSubsampledTiles(regions), s.filters);
      EncodedKinds(at, AllRestores(regions), s.suffix);
    }
  }

  lemma PlannedKinds(q: Request)
    requires ValidPlane(q.plane) && Planned(q.pass, q.plane, q.hard, q.tileColumns, q.tileRows).Some?
    ensures ScheduleKinds(Planned(q.pass, q.plane, q.hard, q.tileColumns, q.tileRows).value)
  {
    hide TileRegions, FullSchedule, SubsampledSchedule;
    var p := q.plane;
    if q.pass.First? {
      RegionsLarge(p, q.hard, q.tileColumns, q.tileRows, p.blockColumns, p.blockRows);
      FullKinds(LowLayout(p), TileRegions(p, q.hard, q.tileColumns, q.tileRows, p.blockColumns, p.blockRows).value);
    } else {
      RegionsLarge(p, q.hard, q.tileColumns, q.tileRows, p.blockColumns * 4, p.blockRows * 4);
      FullKinds(SampleLayout(p), TileRegions(p, q.hard, q.tileColumns, q.tileRows, p.blockColumns * 4, p.blockRows * 4).value);
    }
  }

  function EndOf(pass: Pass, p: Plane): nat {
    if pass.First? then LowEnd(p) else SampleEnd(p)
  }

  /** A plane whose pass can be planned, in a buffer of `size` cells. */
  ghost predicate Plannable(q: Request, size: nat) {
    && ValidPlane(q.plane) && TileGrid(q.tileColumns, q.tileRows) && EndOf(q.pass, q.plane) <= size
    && Planned(q.pass, q.plane, q.hard, q.tileColumns, q.tileRows).Some?
  }

  ghost function PlacementOf(q: Request, size: nat): Placement
    requires Plannable(q, size)
  {
    Placement(Planned(q.pass, q.plane, q.hard, q.tileColumns, q.tileRows).value, BaseOf(q.pass, q.plane), EndOf(q.pass, q.plane))
  }

  lemma PlacementFitted(q: Request, size: nat)
    requires Plannable(q, size)
    ensures Fitted(PlacementOf(q, size), size)
  {
    hide FirstSchedule, SecondSchedule, LowEnd, SampleEnd, PassInside, TileGrid, ValidSchedule, AllKinds;
    PlannedKinds(q);
    if q.pass.First? {
      FirstPassInside(q.plane, q.hard, q.tileColumns, q.tileRows);
    } else {
      SecondPassInside(q.plane, q.hard, q.tileColumns, q.tileRows);
    }
    var p := PlacementOf(q, size);
    InsideValid(p.schedule, p.low, p.high, size);
  }

  // ---- The pass of a batch ----

  ghost predicate AllPlannable(asked: seq<Asked>, size: nat) {
    forall k :: 0 <= k < |asked| ==> Plannable(asked[k].request, size)
  }

  ghost function Placements(asked: seq<Asked>, size: nat): (ps: seq<Placement>)
    requires AllPlannable(asked, size)
    ensures |ps| == |asked| && forall k :: 0 <= k < |asked| ==> ps[k] == PlacementOf(asked[k].request, size)
  {
    seq(|asked|, k requires 0 <= k < |asked| => PlacementOf(asked[k].request, size))
  }

  function ImagesOf(asked: seq<Asked>): (images: seq<nat>)
    ensures |images| == |asked| && forall k :: 0 <= k < |asked| ==> images[k] == asked[k].image
  {
    seq(|asked|, k requires 0 <= k < |asked| => asked[k].image)
  }

  /** The planes of one pass follow each other in their buffer. */
  ghost predicate InOrder(asked: seq<Asked>) {
    forall j, k :: 0 <= j < k < |asked| ==>
      EndOf(asked[j].request.pass, asked[j].request.plane) <= BaseOf(asked[k].request.pass, asked[k].request.plane)
  }

  lemma PlacementsReady(asked: seq<Asked>, size: nat)
    requires AllPlannable(asked, size) && InOrder(asked)
    ensures AllFitted(Placements(asked, size), size) && Apart(Placements(asked, size))
  {
    hide Plannable, Fitted;
    var ps := Placements(asked, size);
    forall k | 0 <= k < |ps|
      ensures Fitted(ps[k], size)
    {
      PlacementFitted(asked[k].request, size);
    }
    forall j, k | 0 <= j < |ps| && 0 <= k < |ps| && j != k
      ensures ps[j].high <= ps[k].low || ps[k].high <= ps[j].low
    {
      assert j < k || k < j;
      if j < k {
        assert EndOf(asked[j].request.pass, asked[j].request.plane) <= BaseOf(asked[k].request.pass, asked[k].request.plane);
      } else {
        assert EndOf(asked[k].request.pass, asked[k].request.plane) <= BaseOf(asked[j].request.pass, asked[j].request.plane);
      }
    }
  }

  /** No two records of a phase of the requested pass meet. */
  lemma RequestSound(q: Request, size: nat)
    requires Plannable(q, size)
    requires q.pass.First? && q.plane.blockColumns == 2 ==> WideTiles(q.plane, q.hard, q.tileColumns)
    ensures Sound(PlacementOf(q, size))
  {
    hide FirstSchedule, SecondSchedule, LowEnd, TileGrid, WideTiles, SoundPass;
    NothingSound(q.plane.sampleOffset, SampleEnd(q.plane));
    if q.pass.First? {
      FirstScheduleSound(q.plane, q.hard, q.tileColumns, q.tileRows);
    } else {
      SecondPassTiling(q.plane, q.hard, q.tileColumns, q.tileRows);
    }
  }

  lemma EveryListed(ps: seq<Placement>, order: seq<nat>)
    requires IsOrder(order, |ps|)
    ensures Listed(order, ps)
  {
    OrderReaches(order, |ps|);
  }

  /** What the requested pass of one plane leaves, planned for the plane itself. */
  ghost function OwnPass(q: Request, fits: Fitting, memory: seq<int>): (after: Option<seq<int>>)
    requires Plannable(q, |memory|)
    ensures after.Some? ==> |after.value| == |memory|
  {
    PlacementFitted(q, |memory|);
    RunPass(PlacementOf(q, |memory|).schedule, fits, memory)
  }

  lemma PlacementIs(q: Request, fits: Fitting, memory: seq<int>)
    requires Plannable(q, |memory|)
    ensures var p := PlacementOf(q, |memory|);
      && ValidSchedule(p.schedule, |memory|) && RunPass(p.schedule, fits, memory) == OwnPass(q, fits, memory)
      && p.low == BaseOf(q.pass, q.plane) && p.high == EndOf(q.pass, q.plane)
  {
    PlacementFitted(q, |memory|);
    hide Plannable, RunPass, EndOf, BaseOf;
  }

  /** A device run of the pass: each stage over the planes of all groups, group by group. */
  ghost predicate OverlapEnds(asked: seq<Asked>, members: seq<seq<nat>>, fits: Fitting, runs: seq<seq<BatchState>>, memory: seq<int>,
                              raised: set<nat>, after: seq<int>, raisedAfter: set<nat>)
    requires AllPlannable(asked, |memory|) && InOrder(asked) && IsOrder(Flatten(members), |asked|)
  {
    var ps := Placements(asked, |memory|);
    PlacementsReady(asked, |memory|);
    EveryListed(ps, Flatten(members));
    PassEnds(ps, Flatten(members), ImagesOf(asked), fits, runs, memory, raised, after, raisedAfter)
  }

  /**
   The overlap pass of a batch, each stage dispatched group by group over all planes and its threads interleaving
   freely: an image's status word ends raised exactly when the pass of one of its own planes overflows, and
   otherwise each of its planes holds what its own planned pass leaves. The image's subsampled planes must not run
   a first pass over a tile of one macroblock column.
   */
  lemma BatchOverlaps(asked: seq<Asked>, members: seq<seq<nat>>, fits: Fitting, runs: seq<seq<BatchState>>, memory: seq<int>,
                      raised: set<nat>, after: seq<int>, raisedAfter: set<nat>, image: nat)
    requires AllPlannable(asked, |memory|) && InOrder(asked) && IsOrder(Flatten(members), |asked|) && image !in raised
    requires forall k :: 0 <= k < |asked| && asked[k].image == image ==>
      var q := asked[k].request; q.pass.First? && q.plane.blockColumns == 2 ==> WideTiles(q.plane, q.hard, q.tileColumns)
    requires OverlapEnds(asked, members, fits, runs, memory, raised, after, raisedAfter)
    ensures image in raisedAfter <==>
      exists k :: 0 <= k < |asked| && asked[k].image == image && OwnPass(asked[k].request, fits, memory).None?
    ensures image !in raisedAfter ==> forall k :: 0 <= k < |asked| && asked[k].image == image ==>
      && OwnPass(asked[k].request, fits, memory).Some?
      && L.Agree(after, OwnPass(asked[k].request, fits, memory).value,
                 Range(BaseOf(asked[k].request.pass, asked[k].request.plane), EndOf(asked[k].request.pass, asked[k].request.plane)))
  {
    var ps := Placements(asked, |memory|);
    hide Plannable, Fitted, PassEnds, Flatten, Sound, Listed, Apart, RunPass, L.Agree, Range, WideTiles,
         ValidSchedule, InOrder, OwnPass, PlacementOf, EndOf, BaseOf, IsOrder;
    PlacementsReady(asked, |memory|);
    EveryListed(ps, Flatten(members));
    forall k | 0 <= k < |ps| && ImagesOf(asked)[k] == image
      ensures Sound(ps[k])
    {
      RequestSound(asked[k].request, |memory|);
    }
    PassesAlone(ps, Flatten(members), ImagesOf(asked), fits, runs, memory, raised, after, raisedAfter, image);
    forall k | 0 <= k < |ps|
      ensures ValidSchedule(ps[k].schedule, |memory|) && RunPass(ps[k].schedule, fits, memory) == OwnPass(asked[k].request, fits, memory)
      ensures Range(ps[k].low, ps[k].high)
        == Range(BaseOf(asked[k].request.pass, asked[k].request.plane), EndOf(asked[k].request.pass, asked[k].request.plane))
    {
      PlacementIs(asked[k].request, fits, memory);
    }
  }
}
