/**
 Overlap passes of a whole batch: all prefixes, then all filters, then all suffixes, over every plane of
 every image, against one plane after the other.
 */
module Batch {
  import opened Wrappers
  import opened Memory
  import opened Phases
  import opened Overlap
  import opened Passes
  import opened ExactTiling
  import opened OverlapPass
  import opened PlanePasses
  import opened PhaseOrder
  import opened Device
  import Blocks
  import L = Locality

  /** A schedule and the range of cells it works in. */
  datatype Placement = Placement(schedule: Schedule, low: nat, high: nat)

  ghost predicate AllKinds(works: seq<Work>) {
    forall k :: 0 <= k < |works| ==> works[k].kind <= 6
  }

  ghost predicate Fitted(p: Placement, size: nat) {
    && PassInside(p.schedule, p.low, p.high) && p.high <= size && ValidSchedule(p.schedule, size)
    && AllKinds(p.schedule.prefix) && AllKinds(p.schedule.filters) && AllKinds(p.schedule.suffix)
  }

  /** Placements of different planes do not overlap. */
  ghost predicate Apart(ps: seq<Placement>) {
    forall j, k :: 0 <= j < |ps| && 0 <= k < |ps| && j != k ==> ps[j].high <= ps[k].low || ps[k].high <= ps[j].low
  }

  ghost predicate AllFitted(ps: seq<Placement>, size: nat) {
    forall k :: 0 <= k < |ps| ==> Fitted(ps[k], size)
  }

  // ---- Dispatching a list of items for every plane ----

  /** The items of some planes, plane by plane in the given order. */
  ghost function Dispatch(lists: seq<seq<Item>>, order: seq<nat>): seq<Item>
    requires Within(order, |lists|)
  {
    if order == [] then [] else Dispatch(lists, order[..|order| - 1]) + lists[order[|order| - 1]]
  }

  /** Items that all work in the range of one placement and store something. */
  ghost predicate Own(items: seq<Item>, p: Placement, size: nat) {
    && ValidItems(items, size)
    && forall k :: 0 <= k < |items| ==> L.StaysIn(items[k], Range(p.low, p.high)) && items[k].stores != []
  }

  /** The items of each plane work in its own range. */
  ghost predicate AllOwn(lists: seq<seq<Item>>, ps: seq<Placement>, size: nat) {
    |lists| == |ps| && forall k :: 0 <= k < |lists| ==> Own(lists[k], ps[k], size)
  }

  /** A plane's own items are all selected by its range, another plane's not at all. */
  lemma OwnSelected(items: seq<Item>, p: Placement, q: Placement, size: nat)
    requires Own(items, p, size)
    ensures L.Selected(items, Range(p.low, p.high)) == items
    ensures p.high <= q.low || q.high <= p.low ==> L.Selected(items, Range(q.low, q.high)) == []
  {
    forall k | 0 <= k < |items|
      ensures !L.Avoids(items[k], Range(p.low, p.high))
      ensures p.high <= q.low || q.high <= p.low ==> L.Avoids(items[k], Range(q.low, q.high))
    {
      assert items[k].stores[0] in items[k].stores;
    }
    hide L.Avoids, L.StaysIn, L.Selected;
    L.SelectedAll(items, Range(p.low, p.high));
    if p.high <= q.low || q.high <= p.low {
      L.SelectedNone(items, Range(q.low, q.high));
    }
  }

  lemma {:induction false} DispatchSelected(lists: seq<seq<Item>>, ps: seq<Placement>, order: seq<nat>, size: nat, k: nat)
    requires AllOwn(lists, ps, size) && Apart(ps) && Within(order, |ps|) && Distinct(order) && k < |ps|
    ensures L.Selected(Dispatch(lists, order), Range(ps[k].low, ps[k].high)) == if k in order then lists[k] else []
  {
    if order != [] {
      hide L.Selected, Own, Range;
      var init, last := order[..|order| - 1], order[|order| - 1];
      DispatchSelected(lists, ps, init, size, k);
      L.SelectedConcat(Dispatch(lists, init), lists[last], Range(ps[k].low, ps[k].high));
      OwnSelected(lists[last], ps[last], ps[k], size);
      assert k == last ==> k !in init;
      assert k in order <==> k == last || k in init;
    } else {
      NothingSelected(Range(ps[k].low, ps[k].high));
    }
  }

  lemma NothingSelected(part: L.Part)
    ensures L.Selected([], part) == []
  {}

  /** An item that works in some plane and stores something there. */
  ghost predicate Owned(item: Item, ps: seq<Placement>) {
    item.stores != [] && exists k :: 0 <= k < |ps| && L.StaysIn(item, Range(ps[k].low, ps[k].high))
  }

  ghost predicate AllOwned(items: seq<Item>, ps: seq<Placement>, size: nat) {
    ValidItems(items, size) && forall i :: 0 <= i < |items| ==> Owned(items[i], ps)
  }

  lemma OwnIsOwned(items: seq<Item>, ps: seq<Placement>, k: nat, size: nat)
    requires k < |ps| && Own(items, ps[k], size)
    ensures AllOwned(items, ps, size)
  {
    hide L.StaysIn, ValidItem, Range;
  }

  lemma OwnedConcat(a: seq<Item>, b: seq<Item>, ps: seq<Placement>, size: nat)
    requires AllOwned(a, ps, size) && AllOwned(b, ps, size)
    ensures AllOwned(a + b, ps, size)
  {
    hide Owned, ValidItem;
  }

  lemma OwnedValid(items: seq<Item>, ps: seq<Placement>, size: nat)
    requires AllOwned(items, ps, size)
    ensures ValidItems(items, size)
  {}

  lemma {:induction false} DispatchOwned(lists: seq<seq<Item>>, ps: seq<Placement>, order: seq<nat>, size: nat)
    requires AllOwn(lists, ps, size) && Within(order, |ps|)
    ensures AllOwned(Dispatch(lists, order), ps, size)
  {
    if order != [] {
      hide AllOwned, Own;
      var init, last := order[..|order| - 1], order[|order| - 1];
      DispatchOwned(lists, ps, init, size);
      OwnIsOwned(lists[last], ps, last, size);
      OwnedConcat(Dispatch(lists, init), lists[last], ps, size);
    }
  }

  /** An item with no cell in a placement's range. */
  ghost predicate Clear(item: Item, p: Placement) {
    && (forall cell: nat :: cell in item.loads ==> !(p.low <= cell < p.high))
    && (forall cell: nat :: cell in item.stores ==> !(p.low <= cell < p.high))
  }

  ghost predicate AllClear(items: seq<Item>, p: Placement) {
    forall i :: 0 <= i < |items| ==> Clear(items[i], p)
  }

  lemma {:induction false} DispatchClear(lists: seq<seq<Item>>, ps: seq<Placement>, order: seq<nat>, size: nat, k: nat)
    requires AllOwn(lists, ps, size) && Apart(ps) && Within(order, |ps|) && k < |ps| && k !in order
    ensures AllClear(Dispatch(lists, order), ps[k])
  {
    if order != [] {
      hide Own, Apart, Clear;
      var init, last := order[..|order| - 1], order[|order| - 1];
      DispatchClear(lists, ps, init, size, k);
      assert order[|order| - 1] in order && Own(lists[last], ps[last], size);
      OthersClear(lists[last], ps, last, size, k);
    }
  }

  lemma OthersClear(items: seq<Item>, ps: seq<Placement>, j: nat, size: nat, k: nat)
    requires Apart(ps) && j < |ps| && k < |ps| && j != k && Own(items, ps[j], size)
    ensures AllClear(items, ps[k])
  {
    assert ps[j].high <= ps[k].low || ps[k].high <= ps[j].low;
    forall i | 0 <= i < |items|
      ensures Clear(items[i], ps[k])
    {
      assert L.StaysIn(items[i], Range(ps[j].low, ps[j].high));
    }
  }

  lemma ConcatIndependent(a: seq<Item>, b: seq<Item>, p: Placement, size: nat)
    requires Independent(a) && Independent(b) && AllClear(a, p) && Own(b, p, size)
    ensures Independent(a + b)
  {
    forall j, k, cell: nat | 0 <= j < |a + b| && 0 <= k < |a + b| && j != k && cell in (a + b)[j].stores
      ensures cell !in (a + b)[k].stores && cell !in (a + b)[k].loads
    {
      if j < |a| && k >= |a| {
        assert Clear(a[j], p) && L.StaysIn(b[k - |a|], Range(p.low, p.high));
      } else if j >= |a| && k < |a| {
        assert Clear(a[k], p) && L.StaysIn(b[j - |a|], Range(p.low, p.high));
      } else if j < |a| {
        assert (a + b)[j] == a[j] && (a + b)[k] == a[k];
      } else {
        assert (a + b)[j] == b[j - |a|] && (a + b)[k] == b[k - |a|];
      }
    }
  }

  /** Independent items of planes that lie apart are independent of each other. */
  lemma {:induction false} DispatchIndependent(lists: seq<seq<Item>>, ps: seq<Placement>, order: seq<nat>, size: nat)
    requires AllOwn(lists, ps, size) && Apart(ps) && Within(order, |ps|) && Distinct(order)
    requires forall j :: 0 <= j < |order| ==> Independent(lists[order[j]])
    ensures Independent(Dispatch(lists, order))
  {
    if order != [] {
      hide Independent, AllClear, Own;
      var init, last := order[..|order| - 1], order[|order| - 1];
      DispatchIndependent(lists, ps, init, size);
      assert last !in init;
      DispatchClear(lists, ps, init, size, last);
      assert Independent(lists[order[|order| - 1]]);
      ConcatIndependent(Dispatch(lists, init), lists[last], ps[last], size);
    }
  }

  // ---- The stages of an overlap pass ----

  datatype Stage = Prefix | Filters | Suffix

  function StageOf(s: Schedule, stage: Stage): seq<Work> {
    match stage
    case Prefix => s.prefix
    case Filters => s.filters
    case Suffix => s.suffix
  }

  ghost function StageLists(ps: seq<Placement>, stage: Stage, fits: Fitting): (lists: seq<seq<Item>>)
    ensures |lists| == |ps|
    ensures forall k :: 0 <= k < |ps| ==> lists[k] == WorkItems(StageOf(ps[k].schedule, stage), fits)
  {
    seq(|ps|, k requires 0 <= k < |ps| => WorkItems(StageOf(ps[k].schedule, stage), fits))
  }

  /** The items of one stage of every plane. */
  ghost function StageItems(ps: seq<Placement>, order: seq<nat>, stage: Stage, fits: Fitting): seq<Item>
    requires Within(order, |ps|)
  {
    Dispatch(StageLists(ps, stage, fits), order)
  }

  /** The three device phases of the passes of all planes. */
  ghost function StagePhases(ps: seq<Placement>, order: seq<nat>, fits: Fitting): seq<seq<Item>>
    requires Within(order, |ps|)
  {
    [StageItems(ps, order, Prefix, fits), StageItems(ps, order, Filters, fits), StageItems(ps, order, Suffix, fits)]
  }

  ghost function BatchItems(ps: seq<Placement>, order: seq<nat>, fits: Fitting): seq<Item>
    requires Within(order, |ps|)
  {
    StageItems(ps, order, Prefix, fits) + StageItems(ps, order, Filters, fits) + StageItems(ps, order, Suffix, fits)
  }

  ghost function PlaneItems(s: Schedule, fits: Fitting): seq<Item> {
    WorkItems(s.prefix, fits) + WorkItems(s.filters, fits) + WorkItems(s.suffix, fits)
  }

  lemma StageOwn(p: Placement, stage: Stage, fits: Fitting, size: nat)
    requires Fitted(p, size)
    ensures Own(WorkItems(StageOf(p.schedule, stage), fits), p, size)
  {
    var works := StageOf(p.schedule, stage);
    WorksStay(works, fits, p.low, p.high);
    WorkItemsValid(works, fits, size);
    hide L.StaysIn, ValidItem, WorksInside, ValidWorks, Filter;
    forall k | 0 <= k < |works|
      ensures WorkItems(works, fits)[k].stores != []
    {
      assert works[k].kind <= 6;
    }
  }

  lemma StagesOwn(ps: seq<Placement>, stage: Stage, fits: Fitting, size: nat)
    requires AllFitted(ps, size)
    ensures AllOwn(StageLists(ps, stage, fits), ps, size)
  {
    hide Fitted, Own, WorkItems;
    forall k | 0 <= k < |ps|
      ensures Own(StageLists(ps, stage, fits)[k], ps[k], size)
    {
      StageOwn(ps[k], stage, fits, size);
    }
  }

  lemma StageOwned(ps: seq<Placement>, order: seq<nat>, stage: Stage, fits: Fitting, size: nat)
    requires AllFitted(ps, size) && Within(order, |ps|)
    ensures AllOwned(StageItems(ps, order, stage, fits), ps, size)
  {
    hide AllOwned, AllOwn, AllFitted;
    StagesOwn(ps, stage, fits, size);
    DispatchOwned(StageLists(ps, stage, fits), ps, order, size);
  }

  lemma BatchOwned(ps: seq<Placement>, order: seq<nat>, fits: Fitting, size: nat)
    requires AllFitted(ps, size) && Within(order, |ps|)
    ensures AllOwned(BatchItems(ps, order, fits), ps, size)
  {
    hide AllOwned, StageItems;
    StageOwned(ps, order, Prefix, fits, size);
    StageOwned(ps, order, Filters, fits, size);
    StageOwned(ps, order, Suffix, fits, size);
    var a, b, c := StageItems(ps, order, Prefix, fits), StageItems(ps, order, Filters, fits), StageItems(ps, order, Suffix, fits);
    OwnedConcat(a, b, ps, size);
    OwnedConcat(a + b, c, ps, size);
  }

  lemma SelectedThree(a: seq<Item>, b: seq<Item>, c: seq<Item>, part: L.Part)
    ensures L.Selected(a + b + c, part) == L.Selected(a, part) + L.Selected(b, part) + L.Selected(c, part)
  {
    hide L.Selected;
    L.SelectedConcat(a + b, c, part);
    L.SelectedConcat(a, b, part);
  }

  /** What each plane sees of a batch is its own pass. */
  lemma BatchSelected(ps: seq<Placement>, order: seq<nat>, fits: Fitting, size: nat, k: nat)
    requires AllFitted(ps, size) && Apart(ps) && Within(order, |ps|) && Distinct(order) && k < |ps|
    ensures L.Selected(BatchItems(ps, order, fits), Range(ps[k].low, ps[k].high)) ==
      if k in order then PlaneItems(ps[k].schedule, fits) else []
  {
    hide L.Selected, AllFitted, Apart, WorkItems, Dispatch, Range, AllOwn;
    StagesOwn(ps, Prefix, fits, size);
    StagesOwn(ps, Filters, fits, size);
    StagesOwn(ps, Suffix, fits, size);
    DispatchSelected(StageLists(ps, Prefix, fits), ps, order, size, k);
    DispatchSelected(StageLists(ps, Filters, fits), ps, order, size, k);
    DispatchSelected(StageLists(ps, Suffix, fits), ps, order, size, k);
    SelectedThree(StageItems(ps, order, Prefix, fits), StageItems(ps, order, Filters, fits),
                  StageItems(ps, order, Suffix, fits), Range(ps[k].low, ps[k].high));
  }

  // ---- One plane after the other ----

  /** One plane's whole pass after the other. */
  ghost function SequentialItems(ps: seq<Placement>, fits: Fitting): seq<Item> {
    if ps == [] then [] else SequentialItems(ps[..|ps| - 1], fits) + PlaneItems(ps[|ps| - 1].schedule, fits)
  }

  lemma OwnConcat(a: seq<Item>, b: seq<Item>, p: Placement, size: nat)
    requires Own(a, p, size) && Own(b, p, size)
    ensures Own(a + b, p, size)
  {
    hide L.StaysIn, ValidItem;
  }

  lemma PlaneOwn(p: Placement, fits: Fitting, size: nat)
    requires Fitted(p, size)
    ensures Own(PlaneItems(p.schedule, fits), p, size)
  {
    hide Own, Fitted, WorkItems;
    StageOwn(p, Prefix, fits, size);
    StageOwn(p, Filters, fits, size);
    StageOwn(p, Suffix, fits, size);
    var s := p.schedule;
    OwnConcat(WorkItems(s.prefix, fits), WorkItems(s.filters, fits), p, size);
    OwnConcat(WorkItems(s.prefix, fits) + WorkItems(s.filters, fits), WorkItems(s.suffix, fits), p, size);
  }

  lemma {:induction false} SequentialSelected(ps: seq<Placement>, all: seq<Placement>, fits: Fitting, size: nat, k: nat)
    requires AllFitted(all, size) && Apart(all) && ps <= all && k < |all|
    ensures L.Selected(SequentialItems(ps, fits), Range(all[k].low, all[k].high)) ==
      if k < |ps| then PlaneItems(all[k].schedule, fits) else []
  {
    if ps != [] {
      hide L.Selected, Own, Fitted, PlaneItems, Range;
      var init, last := ps[..|ps| - 1], |ps| - 1;
      SequentialSelected(init, all, fits, size, k);
      var own := PlaneItems(ps[last].schedule, fits);
      L.SelectedConcat(SequentialItems(init, fits), own, Range(all[k].low, all[k].high));
      assert ps[last] == all[last];
      PlaneOwn(all[last], fits, size);
      OwnSelected(own, all[last], all[k], size);
    } else {
      NothingSelected(Range(all[k].low, all[k].high));
    }
  }

  lemma {:induction false} SequentialOwned(ps: seq<Placement>, all: seq<Placement>, fits: Fitting, size: nat)
    requires AllFitted(all, size) && ps <= all
    ensures AllOwned(SequentialItems(ps, fits), all, size)
  {
    if ps != [] {
      hide Fitted, AllOwned, Own, PlaneItems;
      var init, last := ps[..|ps| - 1], |ps| - 1;
      SequentialOwned(init, all, fits, size);
      assert ps[last] == all[last];
      PlaneOwn(all[last], fits, size);
      OwnIsOwned(PlaneItems(all[last].schedule, fits), all, last, size);
      OwnedConcat(SequentialItems(init, fits), PlaneItems(all[last].schedule, fits), all, size);
    }
  }

  // ---- Stage-wise equals plane by plane ----

  function Parts(ps: seq<Placement>): (parts: seq<L.Part>)
    ensures |parts| == |ps| && forall k :: 0 <= k < |ps| ==> parts[k] == Range(ps[k].low, ps[k].high)
  {
    seq(|ps|, k requires 0 <= k < |ps| => Range(ps[k].low, ps[k].high))
  }

  lemma PartsApart(ps: seq<Placement>, p: nat, q: nat, cell: nat)
    requires Apart(ps) && p < q < |ps| && Parts(ps)[p](cell)
    ensures !Parts(ps)[q](cell)
  {
    assert Parts(ps)[p] == Range(ps[p].low, ps[p].high) && Parts(ps)[q] == Range(ps[q].low, ps[q].high);
  }

  lemma PartOf(item: Item, ps: seq<Placement>) returns (k: nat)
    requires Owned(item, ps)
    ensures k < |ps| && L.StaysIn(item, Parts(ps)[k])
  {
    hide L.StaysIn;
    k :| 0 <= k < |ps| && L.StaysIn(item, Range(ps[k].low, ps[k].high));
  }

  lemma OwnedExchangeable(items: seq<Item>, ps: seq<Placement>, size: nat)
    requires AllOwned(items, ps, size) && Apart(ps)
    ensures L.Exchangeable(items, size, Parts(ps))
  {
    hide ValidItem, L.StaysIn, Parts, Range, Apart;
    var parts := Parts(ps);
    forall p, q, cell: nat | 0 <= p < q < |parts| && parts[p](cell)
      ensures !parts[q](cell)
    {
      PartsApart(ps, p, q, cell);
    }
    forall i | 0 <= i < |items|
      ensures exists p :: 0 <= p < |parts| && L.StaysIn(items[i], parts[p])
    {
      var k := PartOf(items[i], ps);
    }
    forall i | 0 <= i < |items|
      ensures items[i].stores != []
    {
      assert Owned(items[i], ps);
    }
    assert forall p, q, cell: nat :: 0 <= p < q < |parts| && parts[p](cell) ==> !parts[q](cell);
    assert L.Separated(items, parts);
  }

  lemma {:induction false} OrderHolds(order: seq<nat>, n: nat, k: nat)
    requires IsOrder(order, n) && k < n
    ensures k in order
  {
    Blocks.AllReached(order, n, k);
  }

  lemma ItemsAlike(ps: seq<Placement>, order: seq<nat>, fits: Fitting, memory: seq<int>)
    requires AllFitted(ps, |memory|) && Apart(ps) && IsOrder(order, |ps|)
    ensures ValidItems(BatchItems(ps, order, fits), |memory|) && ValidItems(SequentialItems(ps, fits), |memory|)
    ensures Run(BatchItems(ps, order, fits), memory) == Run(SequentialItems(ps, fits), memory)
  {
    hide Run, Fitted, AllOwned, BatchItems, SequentialItems, L.Exchangeable, Range, L.Selected, ValidItems;
    var one, two := BatchItems(ps, order, fits), SequentialItems(ps, fits);
    BatchOwned(ps, order, fits, |memory|);
    SequentialOwned(ps, ps, fits, |memory|);
    OwnedValid(one, ps, |memory|);
    OwnedValid(two, ps, |memory|);
    OwnedExchangeable(one, ps, |memory|);
    OwnedExchangeable(two, ps, |memory|);
    forall k | 0 <= k < |ps|
      ensures L.Selected(one, Parts(ps)[k]) == L.Selected(two, Parts(ps)[k])
    {
      OrderHolds(order, |ps|, k);
      BatchSelected(ps, order, fits, |memory|, k);
      SequentialSelected(ps, ps, fits, |memory|, k);
    }
    assert L.SameSelections(one, two, Parts(ps));
    L.Exchange(one, two, memory, Parts(ps));
  }

  /** Every plane's own pass, one plane after the other. */
  ghost function OneByOne(ps: seq<Placement>, fits: Fitting, memory: seq<int>): (after: Option<seq<int>>)
    requires AllFitted(ps, |memory|)
    ensures after.Some? ==> |after.value| == |memory|
  {
    if ps == [] then Some(memory)
    else
      var before :- OneByOne(ps[..|ps| - 1], fits, memory);
      RunPass(ps[|ps| - 1].schedule, fits, before)
  }

  lemma PassRuns(s: Schedule, fits: Fitting, memory: seq<int>)
    requires ValidSchedule(s, |memory|)
    ensures ValidItems(PlaneItems(s, fits), |memory|)
    ensures RunPass(s, fits, memory) == Run(PlaneItems(s, fits), memory)
  {
    hide Run, WorkItems, ValidItems, ValidWorks;
    WorkItemsValid(s.prefix, fits, |memory|);
    WorkItemsValid(s.filters, fits, |memory|);
    WorkItemsValid(s.suffix, fits, |memory|);
    L.RunConcat(WorkItems(s.prefix, fits), WorkItems(s.filters, fits), memory);
    L.RunConcat(WorkItems(s.prefix, fits) + WorkItems(s.filters, fits), WorkItems(s.suffix, fits), memory);
  }

  lemma {:induction false} OneByOneRuns(ps: seq<Placement>, fits: Fitting, memory: seq<int>)
    requires AllFitted(ps, |memory|)
    ensures ValidItems(SequentialItems(ps, fits), |memory|)
    ensures OneByOne(ps, fits, memory) == Run(SequentialItems(ps, fits), memory)
  {
    if ps != [] {
      var init, last := ps[..|ps| - 1], ps[|ps| - 1];
      OneByOneRuns(init, fits, memory);
      assert Fitted(last, |memory|);
      hide Run, PlaneItems, ValidItem, RunPass;
      if OneByOne(init, fits, memory).Some? {
        PassRuns(last.schedule, fits, OneByOne(init, fits, memory).value);
      }
      PlaneOwn(last, fits, |memory|);
      L.RunConcat(SequentialItems(init, fits), PlaneItems(last.schedule, fits), memory);
    }
  }

  // ---- The batch on the device ----

  /** The phases of a run, one list after the other. */
  ghost function Joined(phases: seq<seq<Item>>): seq<Item> {
    if phases == [] then [] else phases[0] + Joined(phases[1..])
  }

  lemma {:induction false} PhasesJoined(phases: seq<seq<Item>>, memory: seq<int>)
    requires SoundPhases(phases, |memory|)
    ensures ValidItems(Joined(phases), |memory|) && RunPhases(phases, memory) == Run(Joined(phases), memory)
  {
    if phases != [] {
      hide Run, Independent, ValidItem;
      var middle := Run(phases[0], memory);
      assert SoundPhases(phases[1..], |memory|);
      if middle.Some? {
        PhasesJoined(phases[1..], middle.value);
      } else {
        PhasesJoined(phases[1..], memory);
      }
      L.RunConcat(phases[0], Joined(phases[1..]), memory);
    } else {
      assert Run([], memory) == Some(memory);
    }
  }

  lemma StagesJoined(ps: seq<Placement>, order: seq<nat>, fits: Fitting)
    requires Within(order, |ps|)
    ensures Joined(StagePhases(ps, order, fits)) == BatchItems(ps, order, fits)
  {
    hide StageItems;
    var phases := StagePhases(ps, order, fits);
    assert phases[1..][1..][1..] == [] && phases[1..][0] == phases[1] && phases[1..][1..][0] == phases[2];
    assert Joined(phases[1..][1..]) == phases[2];
  }

  /** No two records of one phase of the plane's pass meet. */
  ghost predicate Sound(p: Placement) {
    SoundSchedule(p.schedule, p.low, p.high)
  }

  lemma StageSound(p: Placement, stage: Stage, fits: Fitting, size: nat)
    requires Fitted(p, size) && Sound(p)
    ensures Independent(WorkItems(StageOf(p.schedule, stage), fits))
  {
    hide SoundPass, ValidWorks, Independent, WorksInside, AllKinds;
    SoundIndependent(StageOf(p.schedule, stage), fits, p.low, p.high, size);
  }

  lemma StageIndependent(ps: seq<Placement>, order: seq<nat>, stage: Stage, fits: Fitting, size: nat)
    requires AllFitted(ps, size) && Apart(ps) && Within(order, |ps|) && Distinct(order)
    requires forall j :: 0 <= j < |order| ==> Sound(ps[order[j]])
    ensures ValidItems(StageItems(ps, order, stage, fits), size) && Independent(StageItems(ps, order, stage, fits))
  {
    hide Independent, AllOwn, Dispatch, Sound, Fitted, WorkItems, Apart, ValidItem, Owned, AllOwned;
    StagesOwn(ps, stage, fits, size);
    forall j | 0 <= j < |order|
      ensures Independent(StageLists(ps, stage, fits)[order[j]])
    {
      StageSound(ps[order[j]], stage, fits, size);
    }
    DispatchIndependent(StageLists(ps, stage, fits), ps, order, size);
    StageOwned(ps, order, stage, fits, size);
    OwnedValid(StageItems(ps, order, stage, fits), ps, size);
  }

  lemma StagesSound(ps: seq<Placement>, order: seq<nat>, fits: Fitting, size: nat)
    requires AllFitted(ps, size) && Apart(ps) && Within(order, |ps|) && Distinct(order)
    requires forall j :: 0 <= j < |order| ==> Sound(ps[order[j]])
    ensures SoundPhases(StagePhases(ps, order, fits), size)
  {
    hide Independent, ValidItems, AllFitted, Apart, Sound, StageItems, Distinct;
    StageIndependent(ps, order, Prefix, fits, size);
    StageIndependent(ps, order, Filters, fits, size);
    StageIndependent(ps, order, Suffix, fits, size);
  }

  /**
   The passes of all planes, run stage by stage on the device with the threads of a stage interleaving
   freely, end as every plane's own pass does, one plane after the other; the status word is raised exactly
   when one of those overflows. No two records of a phase of one plane may meet.
   */
  lemma BatchIsSequential(ps: seq<Placement>, order: seq<nat>, fits: Fitting, runs: seq<seq<State>>, memory: seq<int>,
                          result: Option<seq<int>>)
    requires AllFitted(ps, |memory|) && Apart(ps) && IsOrder(order, |ps|) && forall k :: 0 <= k < |ps| ==> Sound(ps[k])
    requires Ends(StagePhases(ps, order, fits), runs, memory, result)
    ensures OneByOne(ps, fits, memory) == result
  {
    hide Run, AllFitted, Apart, OneByOne, BatchItems, SequentialItems, ValidItems, Ends, RunPhases, SoundPhases,
         StagePhases, Sound, Joined;
    StagesSound(ps, order, fits, |memory|);
    EndsAsRun(StagePhases(ps, order, fits), runs, memory, result);
    PhasesJoined(StagePhases(ps, order, fits), memory);
    StagesJoined(ps, order, fits);
    ItemsAlike(ps, order, fits, memory);
    OneByOneRuns(ps, fits, memory);
  }
}
