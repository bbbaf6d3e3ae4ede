/**
 The launches of a batch: each runs some items of every plane of every image, as threads that check their
 image's status word. Each plane comes out as its own items by themselves leave it.
 */
module Launches {
  import opened Wrappers
  import opened Memory
  import opened Phases
  import opened Overlap
  import opened Passes
  import opened OverlapPass
  import opened PlanePasses
  import opened Device
  import opened Batch
  import opened Isolation
  import L = Locality

  /** One launch over the planes of a batch: the items of each plane, and the order the planes are listed in. */
  datatype Launch = Launch(lists: seq<seq<Item>>, order: seq<nat>)

  /** Every plane's items work in its own range; no plane is listed twice, and only planes without items are not listed. */
  ghost predicate ValidLaunch(launch: Launch, ps: seq<Placement>, size: nat) {
    && |launch.lists| == |ps| && AllOwn(launch.lists, ps, size) && Within(launch.order, |ps|) && Distinct(launch.order)
    && forall k: nat :: k < |ps| && k !in launch.order ==> launch.lists[k] == []
  }

  ghost predicate AllValid(launches: seq<Launch>, ps: seq<Placement>, size: nat) {
    forall i :: 0 <= i < |launches| ==> ValidLaunch(launches[i], ps, size)
  }

  ghost function TagAll(items: seq<Item>, image: nat): (tagged: seq<Tagged>)
    ensures |tagged| == |items| && forall k :: 0 <= k < |items| ==> tagged[k] == Tagged(items[k], image)
  {
    seq(|items|, k requires 0 <= k < |items| => Tagged(items[k], image))
  }

  /** The threads of a launch, where `images[k]` is the image of plane `k`. */
  ghost function Threads(lists: seq<seq<Item>>, images: seq<nat>, order: seq<nat>): seq<Tagged>
    requires |lists| == |images| && Within(order, |lists|)
  {
    if order == [] then []
    else
      var last := order[|order| - 1];
      Threads(lists, images, order[..|order| - 1]) + TagAll(lists[last], images[last])
  }

  ghost function AllThreads(launches: seq<Launch>, ps: seq<Placement>, images: seq<nat>, size: nat): (phases: seq<seq<Tagged>>)
    requires AllValid(launches, ps, size) && |images| == |ps|
    ensures |phases| == |launches|
    ensures forall i :: 0 <= i < |launches| ==> phases[i] == Threads(launches[i].lists, images, launches[i].order)
  {
    seq(|launches|, i requires 0 <= i < |launches| => Threads(launches[i].lists, images, launches[i].order))
  }

  // ---- The threads of one image ----

  /** The planes of one image in a launch order. */
  ghost function OwnOrder(order: seq<nat>, images: seq<nat>, image: nat): (own: seq<nat>)
    requires Within(order, |images|)
    ensures Within(own, |images|) && forall k: nat :: k < |images| ==> (k in own <==> k in order && images[k] == image)
  {
    if order == [] then []
    else
      var last := order[|order| - 1];
      assert forall k :: k in order <==> k == last || k in order[..|order| - 1];
      OwnOrder(order[..|order| - 1], images, image) + if images[last] == image then [last] else []
  }

  lemma {:induction false} OwnOrderDistinct(order: seq<nat>, images: seq<nat>, image: nat)
    requires Within(order, |images|) && Distinct(order)
    ensures Distinct(OwnOrder(order, images, image))
  {
    if order != [] {
      var init, last := order[..|order| - 1], order[|order| - 1];
      OwnOrderDistinct(init, images, image);
      assert last !in init;
    }
  }

  lemma {:induction false} OwnItemsConcat(a: seq<Tagged>, b: seq<Tagged>, image: nat)
    ensures OwnItems(a + b, image) == OwnItems(a, image) + OwnItems(b, image)
  {
    if b == [] {
      assert a + b == a;
    } else {
      assert (a + b)[..|a + b| - 1] == a + b[..|b| - 1];
      OwnItemsConcat(a, b[..|b| - 1], image);
    }
  }

  lemma OwnItemsNext(phase: seq<Tagged>, last: Tagged, image: nat)
    ensures OwnItems(phase + [last], image) == OwnItems(phase, image) + if last.image == image then [last.item] else []
  {
    hide Owners;
    assert (phase + [last])[..|phase|] == phase;
  }

  lemma OwnItemsNone(phase: seq<Tagged>, image: nat)
    requires phase == []
    ensures OwnItems(phase, image) == []
  {}

  lemma {:induction false} OwnTagged(items: seq<Item>, tag: nat, image: nat)
    ensures OwnItems(TagAll(items, tag), image) == if tag == image then items else []
  {
    hide OwnItems, Owners;
    if items != [] {
      var init, last := items[..|items| - 1], items[|items| - 1];
      OwnTagged(init, tag, image);
      assert TagAll(items, tag) == TagAll(init, tag) + [Tagged(last, tag)];
      OwnItemsNext(TagAll(init, tag), Tagged(last, tag), image);
      assert items == init + [last];
    } else {
      OwnItemsNone(TagAll(items, tag), image);
    }
  }

  lemma DispatchAppend(lists: seq<seq<Item>>, order: seq<nat>, k: nat)
    requires Within(order, |lists|) && k < |lists|
    ensures Dispatch(lists, order + [k]) == Dispatch(lists, order) + lists[k]
  {
    assert (order + [k])[..|order|] == order;
  }

  lemma {:induction false} OwnThreads(lists: seq<seq<Item>>, images: seq<nat>, order: seq<nat>, image: nat)
    requires |lists| == |images| && Within(order, |lists|)
    ensures OwnItems(Threads(lists, images, order), image) == Dispatch(lists, OwnOrder(order, images, image))
  {
    if order != [] {
      hide OwnItems, Dispatch;
      var init, last := order[..|order| - 1], order[|order| - 1];
      OwnThreads(lists, images, init, image);
      OwnItemsConcat(Threads(lists, images, init), TagAll(lists[last], images[last]), image);
      OwnTagged(lists[last], images[last], image);
      var own := OwnOrder(init, images, image);
      if images[last] == image {
        DispatchAppend(lists, own, last);
      } else {
        assert OwnOrder(order, images, image) == own;
      }
    } else {
      OwnItemsNone([], image);
    }
  }

  lemma {:induction false} ThreadsUntagged(lists: seq<seq<Item>>, images: seq<nat>, order: seq<nat>)
    requires |lists| == |images| && Within(order, |lists|)
    ensures Untagged(Threads(lists, images, order)) == Dispatch(lists, order)
  {
    if order != [] {
      var init, last := order[..|order| - 1], order[|order| - 1];
      ThreadsUntagged(lists, images, init);
      assert Untagged(TagAll(lists[last], images[last])) == lists[last];
      assert Untagged(Threads(lists, images, init) + TagAll(lists[last], images[last]))
        == Untagged(Threads(lists, images, init)) + Untagged(TagAll(lists[last], images[last]));
    }
  }

  /** The cells of an image's planes. */
  ghost function PartOfImage(ps: seq<Placement>, images: seq<nat>, image: nat): L.Part
    requires |images| == |ps|
  {
    (cell: nat) => exists k :: 0 <= k < |ps| && images[k] == image && Range(ps[k].low, ps[k].high)(cell)
  }

  /** A thread works in a plane of its own image. */
  ghost predicate InOwnPlane(t: Tagged, ps: seq<Placement>, images: seq<nat>)
    requires |images| == |ps|
  {
    exists k :: 0 <= k < |ps| && images[k] == t.image && L.StaysIn(t.item, Range(ps[k].low, ps[k].high))
  }

  lemma {:induction false} ThreadsInOwn(lists: seq<seq<Item>>, ps: seq<Placement>, images: seq<nat>, order: seq<nat>, size: nat)
    requires AllOwn(lists, ps, size) && |images| == |ps| && Within(order, |ps|)
    ensures forall i :: 0 <= i < |Threads(lists, images, order)| ==> InOwnPlane(Threads(lists, images, order)[i], ps, images)
  {
    if order != [] {
      hide L.StaysIn, ValidItem, Range, InOwnPlane;
      var init, last := order[..|order| - 1], order[|order| - 1];
      ThreadsInOwn(lists, ps, images, init, size);
      assert Own(lists[last], ps[last], size);
      forall i | 0 <= i < |lists[last]|
        ensures InOwnPlane(TagAll(lists[last], images[last])[i], ps, images)
      {
        TaggedInOwn(lists[last][i], ps, images, last);
      }
    }
  }

  lemma TaggedInOwn(item: Item, ps: seq<Placement>, images: seq<nat>, k: nat)
    requires |images| == |ps| && k < |ps| && L.StaysIn(item, Range(ps[k].low, ps[k].high))
    ensures InOwnPlane(Tagged(item, images[k]), ps, images)
  {
    hide L.StaysIn;
  }

  lemma ThreadInPart(t: Tagged, ps: seq<Placement>, images: seq<nat>, image: nat)
    requires |images| == |ps| && Apart(ps) && InOwnPlane(t, ps, images)
    ensures if t.image == image then L.StaysIn(t.item, PartOfImage(ps, images, image))
            else L.Avoids(t.item, PartOfImage(ps, images, image))
  {
    var k :| 0 <= k < |ps| && images[k] == t.image && L.StaysIn(t.item, Range(ps[k].low, ps[k].high));
    if t.image != image {
      forall cell: nat | cell in t.item.stores
        ensures !PartOfImage(ps, images, image)(cell)
      {
        assert Range(ps[k].low, ps[k].high)(cell);
      }
    }
  }

  /** The image's own items of a launch, as a list. */
  ghost function OwnLaunch(launch: Launch, images: seq<nat>, image: nat): seq<Item>
    requires |launch.lists| == |images| && Within(launch.order, |images|)
  {
    Dispatch(launch.lists, OwnOrder(launch.order, images, image))
  }

  /** The items of an image's planes are independent of each other in every launch. */
  ghost predicate OwnIndependent(launches: seq<Launch>, images: seq<nat>, image: nat) {
    forall i, k :: 0 <= i < |launches| && 0 <= k < |images| && images[k] == image && k < |launches[i].lists|
      ==> Independent(launches[i].lists[k])
  }

  lemma LaunchIsolated(launch: Launch, ps: seq<Placement>, images: seq<nat>, image: nat, size: nat)
    requires ValidLaunch(launch, ps, size) && Apart(ps) && |images| == |ps|
    requires forall k :: 0 <= k < |images| && images[k] == image ==> Independent(launch.lists[k])
    ensures Isolated(Threads(launch.lists, images, launch.order), image, PartOfImage(ps, images, image), size)
  {
    hide Independent, L.StaysIn, L.Avoids, AllOwn, AllOwned, Apart, PartOfImage, InOwnPlane, ValidItem, Threads,
         OwnItems, Dispatch;
    var own := OwnOrder(launch.order, images, image);
    OwnOrderDistinct(launch.order, images, image);
    OwnThreads(launch.lists, images, launch.order, image);
    forall j | 0 <= j < |own|
      ensures Independent(launch.lists[own[j]])
    {
      assert own[j] in own;
    }
    DispatchIndependent(launch.lists, ps, own, size);
    ThreadsUntagged(launch.lists, images, launch.order);
    DispatchOwned(launch.lists, ps, launch.order, size);
    OwnedValid(Dispatch(launch.lists, launch.order), ps, size);
    ThreadsInOwn(launch.lists, ps, images, launch.order, size);
    var threads := Threads(launch.lists, images, launch.order);
    forall k | 0 <= k < |threads|
      ensures if threads[k].image == image then L.StaysIn(threads[k].item, PartOfImage(ps, images, image))
              else L.Avoids(threads[k].item, PartOfImage(ps, images, image))
    {
      ThreadInPart(threads[k], ps, images, image);
    }
  }

  // ---- The items of one plane ----

  /** What one plane runs, launch after launch. */
  ghost function PlaneRun(launches: seq<Launch>, k: nat): seq<Item>
    requires forall i :: 0 <= i < |launches| ==> k < |launches[i].lists|
  {
    if launches == [] then [] else launches[0].lists[k] + PlaneRun(launches[1..], k)
  }

  lemma {:induction false} PlaneRunValid(launches: seq<Launch>, ps: seq<Placement>, size: nat, k: nat)
    requires AllValid(launches, ps, size) && k < |ps|
    ensures ValidItems(PlaneRun(launches, k), size)
  {
    if launches != [] {
      hide ValidItem, L.StaysIn;
      assert ValidLaunch(launches[0], ps, size) && Own(launches[0].lists[k], ps[k], size);
      PlaneRunValid(launches[1..], ps, size, k);
    }
  }

  /** What one plane's own items leave of a memory. */
  ghost function Alone(launches: seq<Launch>, ps: seq<Placement>, memory: seq<int>, k: nat): (after: Option<seq<int>>)
    requires AllValid(launches, ps, |memory|) && k < |ps|
    ensures after.Some? ==> |after.value| == |memory|
  {
    PlaneRunValid(launches, ps, |memory|, k);
    Run(PlaneRun(launches, k), memory)
  }

  /** The image's items of all launches, one after the other. */
  ghost function OwnLaunches(launches: seq<Launch>, images: seq<nat>, image: nat): seq<Item>
    requires forall i :: 0 <= i < |launches| ==> |launches[i].lists| == |images| && Within(launches[i].order, |images|)
  {
    if launches == [] then [] else OwnLaunch(launches[0], images, image) + OwnLaunches(launches[1..], images, image)
  }

  lemma {:induction false} OwnJoined(launches: seq<Launch>, ps: seq<Placement>, images: seq<nat>, image: nat, size: nat)
    requires AllValid(launches, ps, size) && |images| == |ps|
    ensures Joined(OwnPhases(AllThreads(launches, ps, images, size), image)) == OwnLaunches(launches, images, image)
  {
    if launches != [] {
      hide Own, OwnItems, Threads, Distinct;
      OwnJoined(launches[1..], ps, images, image, size);
      OwnThreads(launches[0].lists, images, launches[0].order, image);
      assert AllThreads(launches, ps, images, size)[1..] == AllThreads(launches[1..], ps, images, size);
      assert OwnPhases(AllThreads(launches, ps, images, size), image)[1..]
        == OwnPhases(AllThreads(launches[1..], ps, images, size), image);
    }
  }

  lemma {:induction false} LaunchesOwned(launches: seq<Launch>, ps: seq<Placement>, images: seq<nat>, image: nat, size: nat)
    requires AllValid(launches, ps, size) && |images| == |ps|
    ensures AllOwned(OwnLaunches(launches, images, image), ps, size)
  {
    if launches != [] {
      hide AllOwned, AllOwn, Distinct, Dispatch;
      LaunchesOwned(launches[1..], ps, images, image, size);
      DispatchOwned(launches[0].lists, ps, OwnOrder(launches[0].order, images, image), size);
      OwnedConcat(OwnLaunch(launches[0], images, image), OwnLaunches(launches[1..], images, image), ps, size);
    }
  }

  /** Of the image's items each of its planes selects its own run, and every other plane nothing. */
  lemma {:induction false} PlaneSelected(launches: seq<Launch>, ps: seq<Placement>, images: seq<nat>, image: nat, size: nat, k: nat)
    requires AllValid(launches, ps, size) && |images| == |ps| && Apart(ps) && k < |ps|
    ensures L.Selected(OwnLaunches(launches, images, image), Range(ps[k].low, ps[k].high)) ==
      if images[k] == image then PlaneRun(launches, k) else []
  {
    var part := Range(ps[k].low, ps[k].high);
    if launches != [] {
      hide L.Selected, AllOwn, Apart, Range, Distinct, Dispatch;
      PlaneSelected(launches[1..], ps, images, image, size, k);
      L.SelectedConcat(OwnLaunch(launches[0], images, image), OwnLaunches(launches[1..], images, image), part);
      var own := OwnOrder(launches[0].order, images, image);
      OwnOrderDistinct(launches[0].order, images, image);
      DispatchSelected(launches[0].lists, ps, own, size, k);
      assert k !in launches[0].order ==> launches[0].lists[k] == [];
    } else {
      NothingSelected(part);
    }
  }

  // ---- An image in a batch ----

  /** What a plane's own items among a list leave of a memory. */
  ghost function PartRun(items: seq<Item>, p: Placement, memory: seq<int>): (after: Option<seq<int>>)
    requires ValidItems(items, |memory|)
    ensures after.Some? ==> |after.value| == |memory|
  {
    L.SelectedValid(items, Range(p.low, p.high), |memory|);
    Run(L.Selected(items, Range(p.low, p.high)), memory)
  }

  lemma AgreeSelf(memory: seq<int>, part: L.Part)
    ensures L.Agree(memory, memory, part)
  {}

  /** Items that work in planes complete exactly when each plane's do, and leave each plane what those leave. */
  lemma ImageParts(items: seq<Item>, ps: seq<Placement>, memory: seq<int>)
    requires AllOwned(items, ps, |memory|) && ValidItems(items, |memory|) && Apart(ps)
    ensures Run(items, memory).None? <==> exists k :: 0 <= k < |ps| && PartRun(items, ps[k], memory).None?
    ensures Run(items, memory).Some? ==> forall k :: 0 <= k < |ps| ==>
      && PartRun(items, ps[k], memory).Some?
      && L.Agree(Run(items, memory).value, PartRun(items, ps[k], memory).value, Range(ps[k].low, ps[k].high))
  {
    hide AllOwned, Run, L.Selected, Range, L.Separable, L.Agree, ValidItems;
    OwnedExchangeable(items, ps, |memory|);
    L.RunDecided(items, memory, Parts(ps));
    forall k | 0 <= k < |ps|
      ensures ValidItems(L.Selected(items, Parts(ps)[k]), |memory|)
      ensures PartRun(items, ps[k], memory) == Run(L.Selected(items, Parts(ps)[k]), memory)
      ensures Run(items, memory).Some? && PartRun(items, ps[k], memory).Some? ==>
        L.Agree(Run(items, memory).value, PartRun(items, ps[k], memory).value, Range(ps[k].low, ps[k].high))
    {
      L.SelectedValid(items, Parts(ps)[k], |memory|);
      if Run(items, memory).Some? {
        L.SeparableAll(items, Parts(ps), k);
        AgreeSelf(memory, Parts(ps)[k]);
        L.RunLocal(items, memory, memory, Parts(ps)[k]);
      }
    }
    assert L.AllComplete(items, memory, Parts(ps)) <==> forall k :: 0 <= k < |ps| ==> PartRun(items, ps[k], memory).Some?;
  }

  lemma PartIsAlone(launches: seq<Launch>, ps: seq<Placement>, images: seq<nat>, image: nat, memory: seq<int>, k: nat)
    requires AllValid(launches, ps, |memory|) && |images| == |ps| && Apart(ps) && k < |ps|
    requires ValidItems(OwnLaunches(launches, images, image), |memory|)
    ensures PartRun(OwnLaunches(launches, images, image), ps[k], memory) ==
      if images[k] == image then Alone(launches, ps, memory, k) else Some(memory)
  {
    PlaneSelected(launches, ps, images, image, |memory|, k);
    hide L.Selected, OwnLaunches, AllValid, ValidItem, PlaneRun;
    assert Run([], memory) == Some(memory);
  }

  /** Some plane of the image overflows when its items run by themselves. */
  ghost predicate AnyFails(launches: seq<Launch>, ps: seq<Placement>, images: seq<nat>, image: nat, memory: seq<int>)
    requires AllValid(launches, ps, |memory|) && |images| == |ps|
  {
    exists k :: 0 <= k < |ps| && images[k] == image && Alone(launches, ps, memory, k).None?
  }

  /** Every plane of the image holds what its items leave by themselves. */
  ghost predicate HoldsAlone(after: seq<int>, launches: seq<Launch>, ps: seq<Placement>, images: seq<nat>, image: nat, memory: seq<int>)
    requires AllValid(launches, ps, |memory|) && |images| == |ps|
  {
    forall k :: 0 <= k < |ps| && images[k] == image ==>
      && Alone(launches, ps, memory, k).Some?
      && L.Agree(after, Alone(launches, ps, memory, k).value, Range(ps[k].low, ps[k].high))
  }

  lemma OwnAlone(launches: seq<Launch>, ps: seq<Placement>, images: seq<nat>, image: nat, memory: seq<int>, after: seq<int>)
    requires AllValid(launches, ps, |memory|) && |images| == |ps| && Apart(ps)
    requires ValidItems(OwnLaunches(launches, images, image), |memory|)
    ensures var own := Run(OwnLaunches(launches, images, image), memory);
      && (own.None? <==> AnyFails(launches, ps, images, image, memory))
      && (own.Some? && L.Agree(after, own.value, PartOfImage(ps, images, image)) ==>
            HoldsAlone(after, launches, ps, images, image, memory))
  {
    hide Run, OwnLaunches, L.Agree, Range, PartOfImage, AllOwn, Distinct, Alone, PartRun, ValidItems, AllOwned, Apart;
    var items := OwnLaunches(launches, images, image);
    LaunchesOwned(launches, ps, images, image, |memory|);
    ImageParts(items, ps, memory);
    forall k | 0 <= k < |ps|
      ensures PartRun(items, ps[k], memory) == if images[k] == image then Alone(launches, ps, memory, k) else Some(memory)
    {
      PartIsAlone(launches, ps, images, image, memory, k);
    }
    if Run(items, memory).Some? && L.Agree(after, Run(items, memory).value, PartOfImage(ps, images, image)) {
      forall k | 0 <= k < |ps| && images[k] == image
        ensures L.Agree(after, Alone(launches, ps, memory, k).value, Range(ps[k].low, ps[k].high))
      {
        assert PartRun(items, ps[k], memory) == Alone(launches, ps, memory, k);
        AgreeInPlane(after, Run(items, memory).value, Alone(launches, ps, memory, k).value, ps, images, image, k);
      }
    }
  }

  lemma AgreeInPlane(x: seq<int>, y: seq<int>, z: seq<int>, ps: seq<Placement>, images: seq<nat>, image: nat, k: nat)
    requires |images| == |ps| && k < |ps| && images[k] == image
    requires L.Agree(x, y, PartOfImage(ps, images, image)) && L.Agree(y, z, Range(ps[k].low, ps[k].high))
    ensures L.Agree(x, z, Range(ps[k].low, ps[k].high))
  {}

  /**
   One image in a batch of launches: its status word ends raised exactly when one of its planes overflows by
   itself, and otherwise every plane of it holds what its own items leave, however the threads of all images
   interleave. Only this image's items must be independent.
   */
  lemma ImageAlone(launches: seq<Launch>, ps: seq<Placement>, images: seq<nat>, runs: seq<seq<BatchState>>,
                   memory: seq<int>, raised: set<nat>, after: seq<int>, raisedAfter: set<nat>, image: nat)
    requires AllValid(launches, ps, |memory|) && |images| == |ps| && Apart(ps)
    requires OwnIndependent(launches, images, image) && image !in raised
    requires BatchEnds(AllThreads(launches, ps, images, |memory|), runs, memory, raised, after, raisedAfter)
    ensures image in raisedAfter <==> AnyFails(launches, ps, images, image, memory)
    ensures image !in raisedAfter ==> HoldsAlone(after, launches, ps, images, image, memory)
  {
    hide Run, RunPhases, L.Agree, PartOfImage, BatchEnds, Isolated, AllOwn, Distinct, Apart, AnyFails, HoldsAlone,
         ValidItems, Independent, SoundPhases, Joined, OwnLaunches;
    var phases, part := AllThreads(launches, ps, images, |memory|), PartOfImage(ps, images, image);
    forall i | 0 <= i < |phases|
      ensures Isolated(phases[i], image, part, |memory|)
    {
      LaunchIndependent(launches, ps, images, image, |memory|, i);
      LaunchIsolated(launches[i], ps, images, image, |memory|);
    }
    AgreeSelf(memory, part);
    ImagePhases(phases, runs, memory, raised, after, raisedAfter, image, part, memory);
    PhasesJoined(OwnPhases(phases, image), memory);
    OwnJoined(launches, ps, images, image, |memory|);
    OwnAlone(launches, ps, images, image, memory, after);
  }

  lemma LaunchIndependent(launches: seq<Launch>, ps: seq<Placement>, images: seq<nat>, image: nat, size: nat, i: nat)
    requires AllValid(launches, ps, size) && |images| == |ps| && OwnIndependent(launches, images, image) && i < |launches|
    ensures ValidLaunch(launches[i], ps, size)
    ensures |launches[i].lists| == |images|
    ensures forall k :: 0 <= k < |images| && images[k] == image ==> Independent(launches[i].lists[k])
  {
    hide Independent, Own;
  }

  // ---- The launches of an overlap pass ----

  /** An order that takes no plane twice and leaves out only planes with nothing to do. */
  ghost predicate Listed(order: seq<nat>, ps: seq<Placement>) {
    && Within(order, |ps|) && Distinct(order)
    && forall k: nat :: k < |ps| && k !in order ==> ps[k].schedule == Schedule([], [], [])
  }

  ghost function StageLaunches(ps: seq<Placement>, order: seq<nat>, fits: Fitting): seq<Launch> {
    [Launch(StageLists(ps, Prefix, fits), order), Launch(StageLists(ps, Filters, fits), order),
     Launch(StageLists(ps, Suffix, fits), order)]
  }

  lemma StageValid(ps: seq<Placement>, order: seq<nat>, stage: Stage, fits: Fitting, size: nat)
    requires AllFitted(ps, size) && Listed(order, ps)
    ensures ValidLaunch(Launch(StageLists(ps, stage, fits), order), ps, size)
  {
    hide Fitted, Own, Distinct;
    StagesOwn(ps, stage, fits, size);
    forall k: nat | k < |ps| && k !in order
      ensures StageLists(ps, stage, fits)[k] == []
    {
      assert StageOf(ps[k].schedule, stage) == [];
    }
  }

  lemma StagesValid(ps: seq<Placement>, order: seq<nat>, fits: Fitting, size: nat)
    requires AllFitted(ps, size) && Listed(order, ps)
    ensures AllValid(StageLaunches(ps, order, fits), ps, size)
  {
    hide Fitted, Listed, ValidLaunch;
    StageValid(ps, order, Prefix, fits, size);
    StageValid(ps, order, Filters, fits, size);
    StageValid(ps, order, Suffix, fits, size);
  }

  /** A plane runs its own pass. */
  lemma StagesRun(ps: seq<Placement>, order: seq<nat>, fits: Fitting, k: nat)
    requires k < |ps|
    ensures PlaneRun(StageLaunches(ps, order, fits), k) == PlaneItems(ps[k].schedule, fits)
  {
    hide WorkItems;
    var launches := StageLaunches(ps, order, fits);
    assert launches[1..] == [launches[1], launches[2]] && [launches[1], launches[2]][1..] == [launches[2]] && [launches[2]][1..] == [];
    assert PlaneRun([launches[2]], k) == launches[2].lists[k];
    assert PlaneRun([launches[1], launches[2]], k) == launches[1].lists[k] + launches[2].lists[k];
  }

  lemma StagesIndependent(ps: seq<Placement>, order: seq<nat>, fits: Fitting, images: seq<nat>, image: nat, size: nat)
    requires AllFitted(ps, size) && |images| == |ps|
    requires forall k :: 0 <= k < |ps| && images[k] == image ==> Sound(ps[k])
    ensures OwnIndependent(StageLaunches(ps, order, fits), images, image)
  {
    hide Fitted, Sound, Independent, WorkItems;
    forall k | 0 <= k < |ps| && images[k] == image
      ensures Independent(WorkItems(ps[k].schedule.prefix, fits))
      ensures Independent(WorkItems(ps[k].schedule.filters, fits))
      ensures Independent(WorkItems(ps[k].schedule.suffix, fits))
    {
      StageSound(ps[k], Prefix, fits, size);
      StageSound(ps[k], Filters, fits, size);
      StageSound(ps[k], Suffix, fits, size);
    }
  }

  /** A device run of an overlap pass over the planes of a batch. */
  ghost predicate PassEnds(ps: seq<Placement>, order: seq<nat>, images: seq<nat>, fits: Fitting, runs: seq<seq<BatchState>>,
                           memory: seq<int>, raised: set<nat>, after: seq<int>, raisedAfter: set<nat>)
    requires AllFitted(ps, |memory|) && Listed(order, ps) && |images| == |ps|
  {
    StagesValid(ps, order, fits, |memory|);
    BatchEnds(AllThreads(StageLaunches(ps, order, fits), ps, images, |memory|), runs, memory, raised, after, raisedAfter)
  }

  /**
   The overlap pass of one image in a batch: its status word ends raised exactly when one of its planes' own
   passes overflows, and otherwise each of its planes holds what its own pass leaves, however the threads of all
   images interleave. No two records of a phase of one of its planes may meet.
   */
  lemma PassesAlone(ps: seq<Placement>, order: seq<nat>, images: seq<nat>, fits: Fitting, runs: seq<seq<BatchState>>,
                    memory: seq<int>, raised: set<nat>, after: seq<int>, raisedAfter: set<nat>, image: nat)
    requires AllFitted(ps, |memory|) && Apart(ps) && Listed(order, ps) && |images| == |ps| && image !in raised
    requires forall k :: 0 <= k < |ps| && images[k] == image ==> Sound(ps[k])
    requires PassEnds(ps, order, images, fits, runs, memory, raised, after, raisedAfter)
    ensures image in raisedAfter <==>
      exists k :: 0 <= k < |ps| && images[k] == image && RunPass(ps[k].schedule, fits, memory).None?
    ensures image !in raisedAfter ==> forall k :: 0 <= k < |ps| && images[k] == image ==>
      && RunPass(ps[k].schedule, fits, memory).Some?
      && L.Agree(after, RunPass(ps[k].schedule, fits, memory).value, Range(ps[k].low, ps[k].high))
  {
    hide AllThreads, BatchEnds, Sound, Apart, Listed, RunPass, AllValid, Run, L.Agree, OwnIndependent, StageLaunches,
         PlaneItems, ValidSchedule, PassInside, AllKinds;
    var launches := StageLaunches(ps, order, fits);
    StagesValid(ps, order, fits, |memory|);
    StagesIndependent(ps, order, fits, images, image, |memory|);
    ImageAlone(launches, ps, images, runs, memory, raised, after, raisedAfter, image);
    forall k | 0 <= k < |ps|
      ensures Alone(launches, ps, memory, k) == RunPass(ps[k].schedule, fits, memory)
    {
      StagesRun(ps, order, fits, k);
      PassRuns(ps[k].schedule, fits, memory);
    }
  }
}
