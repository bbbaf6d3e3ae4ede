/**
 The first passes of a batch as one pass. Listed plane by plane, the records of a stage of all planes are one list of
 records, and a crossed pair of the plane listed first is a crossed pair of the whole.
 */
module StageRaces {
  import opened Memory
  import opened Overlap
  import opened Regions
  import opened Passes
  import opened ExactTiling
  import opened OverlapPass
  import opened PlanePasses
  import opened PhaseOrder
  import opened Races
  import opened Batch
  import opened Launches

  // ---- The records of a stage ----

  /** The records of one stage of all planes, in the order the planes are listed. */
  ghost function StageWorks(ps: seq<Placement>, order: seq<nat>, stage: Stage): seq<Work>
    requires Within(order, |ps|)
  {
    if order == [] then []
    else StageWorks(ps, order[..|order| - 1], stage) + StageOf(ps[order[|order| - 1]].schedule, stage)
  }

  ghost function WholePass(ps: seq<Placement>, order: seq<nat>): Schedule
    requires Within(order, |ps|)
  {
    Schedule(StageWorks(ps, order, Prefix), StageWorks(ps, order, Filters), StageWorks(ps, order, Suffix))
  }

  lemma WorkItemsConcat(a: seq<Work>, b: seq<Work>, fits: Fitting)
    ensures WorkItems(a + b, fits) == WorkItems(a, fits) + WorkItems(b, fits)
  {
    hide WorkItem;
  }

  lemma {:induction false} StageItemsAre(ps: seq<Placement>, order: seq<nat>, stage: Stage, fits: Fitting)
    requires Within(order, |ps|)
    ensures Dispatch(StageLists(ps, stage, fits), order) == WorkItems(StageWorks(ps, order, stage), fits)
  {
    if order != [] {
      hide WorkItems, StageOf;
      var init, last := order[..|order| - 1], order[|order| - 1];
      StageItemsAre(ps, init, stage, fits);
      WorkItemsConcat(StageWorks(ps, init, stage), StageOf(ps[last].schedule, stage), fits);
    } else {
      assert WorkItems([], fits) == [];
    }
  }

  lemma {:induction false} StageWorksValid(ps: seq<Placement>, order: seq<nat>, stage: Stage, size: nat)
    requires Within(order, |ps|) && AllFitted(ps, size)
    ensures ValidWorks(StageWorks(ps, order, stage), size)
  {
    if order != [] {
      hide Addresses, PassInside, AllKinds;
      StageWorksValid(ps, order[..|order| - 1], stage, size);
      assert Fitted(ps[order[|order| - 1]], size);
    }
  }

  // ---- Records of different planes ----

  lemma TouchConcat(a: seq<Work>, b: seq<Work>, cell: nat)
    ensures TouchCount(a + b, cell) == TouchCount(a, cell) + TouchCount(b, cell)
  {
    hide Addresses;
    if a == [] {
      assert a + b == b;
    } else {
      assert (a + b)[1..] == a[1..] + b;
      TouchConcat(a[1..], b, cell);
    }
  }

  lemma {:induction false} TouchOutside(works: seq<Work>, low: nat, high: nat, cell: nat)
    requires WorksInside(works, low, high) && !(low <= cell < high)
    ensures TouchCount(works, cell) == 0
  {
    if works != [] {
      hide Addresses;
      assert WorkInside(works[0], low, high);
      TouchOutside(works[1..], low, high, cell);
    }
  }

  lemma StageInside(p: Placement, stage: Stage, size: nat)
    requires Fitted(p, size)
    ensures WorksInside(StageOf(p.schedule, stage), p.low, p.high)
  {}

  /** No filter of a batch touches a cell that its own plane's filters leave alone. */
  lemma {:induction false} StageUntouched(ps: seq<Placement>, order: seq<nat>, size: nat, k: nat, cell: nat)
    requires AllFitted(ps, size) && Apart(ps) && Within(order, |ps|) && k < |ps| && ps[k].low <= cell < ps[k].high
    requires TouchCount(ps[k].schedule.filters, cell) == 0
    ensures TouchCount(StageWorks(ps, order, Filters), cell) == 0
  {
    if order != [] {
      hide TouchCount, WorksInside, ValidSchedule, AllKinds;
      var init, last := order[..|order| - 1], order[|order| - 1];
      StageUntouched(ps, init, size, k, cell);
      TouchConcat(StageWorks(ps, init, Filters), ps[last].schedule.filters, cell);
      if last != k {
        StageInside(ps[last], Filters, size);
        assert ps[last].high <= ps[k].low || ps[k].high <= ps[last].low;
        TouchOutside(ps[last].schedule.filters, ps[last].low, ps[last].high, cell);
      }
    }
  }

  /** Corner records of one kind. */
  predicate OfKind(works: seq<Work>, kind: nat) {
    forall j :: 0 <= j < |works| ==> works[j].kind == kind
  }

  lemma CornerAddresses(w: Work, low: nat, high: nat)
    requires 5 <= w.kind <= 6 && WorkInside(w, low, high)
    ensures low <= w.first < high && low <= w.second < high
  {
    assert Addresses(w) == [w.first, w.second];
    assert w.first in Addresses(w) && w.second in Addresses(w);
  }

  /** Corner records of different planes share no sample. */
  lemma CornersApart(works: seq<Work>, p: Placement, w: Work, q: Placement)
    requires WorksInside(works, p.low, p.high) && OfKind(works, w.kind) && 5 <= w.kind <= 6 && WorkInside(w, q.low, q.high)
    requires p.high <= q.low || q.high <= p.low
    ensures AllElsewhere(works, w)
  {
    CornerAddresses(w, q.low, q.high);
    forall j | 0 <= j < |works|
      ensures Elsewhere(works[j], w)
    {
      CornerAddresses(works[j], p.low, p.high);
    }
  }

  lemma CrossedAppend(a: seq<Work>, b: seq<Work>, i: nat)
    requires Crossed(a, i) && AllElsewhere(b, a[i])
    ensures Crossed(a + b, i) && (a + b)[i] == a[i]
  {
    hide Elsewhere;
    forall j | 0 <= j < |a + b| && j != i && j != i + 1
      ensures Elsewhere((a + b)[j], a[i])
    {
      if j >= |a| {
        assert (a + b)[j] == b[j - |a|];
      }
    }
  }

  lemma CrossedAt(works: seq<Work>, i: nat)
    requires Crossed(works, i)
    ensures i + 1 < |works| && 5 <= works[i].kind <= 6
  {}

  /** A crossed pair of the plane listed first is one of the whole stage. */
  lemma {:induction false} StageCrossed(ps: seq<Placement>, order: seq<nat>, stage: Stage, size: nat, kind: nat, i: nat)
    requires AllFitted(ps, size) && Apart(ps) && Within(order, |ps|) && Distinct(order) && order != []
    requires forall j :: 0 <= j < |ps| ==> OfKind(StageOf(ps[j].schedule, stage), kind)
    requires Crossed(StageOf(ps[order[0]].schedule, stage), i)
    ensures Crossed(StageWorks(ps, order, stage), i)
    ensures StageWorks(ps, order, stage)[i] == StageOf(ps[order[0]].schedule, stage)[i]
  {
    var k, init, last := order[0], order[..|order| - 1], order[|order| - 1];
    var own, more := StageOf(ps[k].schedule, stage), StageOf(ps[last].schedule, stage);
    CrossedAt(own, i);
    if |order| == 1 {
      assert StageWorks(ps, init, stage) == [] && StageWorks(ps, order, stage) == [] + own == own;
    } else {
      StageInside(ps[k], stage, size);
      StageInside(ps[last], stage, size);
      assert WorkInside(own[i], ps[k].low, ps[k].high);
      assert ps[last].high <= ps[k].low || ps[k].high <= ps[last].low;
      hide WorksInside, WorkInside, Fitted, Crossed, Apart, StageOf, AllElsewhere;
      StageCrossed(ps, init, stage, size, kind, i);
      CornersApart(more, ps[last], own[i], ps[k]);
      CrossedAppend(StageWorks(ps, init, stage), more, i);
    }
  }

  /** Only residual records before the filters, and only restoring ones after them. */
  ghost predicate CornerStages(s: Schedule) {
    OfKind(s.prefix, 5) && OfKind(s.suffix, 6)
  }

  /** A crossed pair of the plane listed first makes the passes of the batch a crossed pass. */
  lemma WholeCrossed(ps: seq<Placement>, order: seq<nat>, size: nat, i: nat)
    requires AllFitted(ps, size) && Apart(ps) && Within(order, |ps|) && Distinct(order) && order != []
    requires forall j :: 0 <= j < |ps| ==> CornerStages(ps[j].schedule)
    requires CrossedPass(ps[order[0]].schedule, i, size)
    ensures CrossedPass(WholePass(ps, order), i, size)
    ensures WholePass(ps, order).prefix[i] == ps[order[0]].schedule.prefix[i]
  {
    var k := order[0];
    var s, w := ps[k].schedule, ps[k].schedule.prefix[i];
    StageInside(ps[k], Prefix, size);
    CornerAddresses(w, ps[k].low, ps[k].high);
    hide Fitted, Apart, Crossed, TouchCount, ValidWorks, WorksInside, WorkInside, OfKind;
    StageCrossed(ps, order, Prefix, size, 5, i);
    StageCrossed(ps, order, Suffix, size, 6, i);
    StageUntouched(ps, order, size, k, w.first);
    StageUntouched(ps, order, size, k, w.second);
    StageWorksValid(ps, order, Prefix, size);
    StageWorksValid(ps, order, Filters, size);
    StageWorksValid(ps, order, Suffix, size);
  }

  // ---- A plane listed first ----

  /** All planes, `k` before the others. */
  ghost function HeadOrder(n: nat, k: nat): (order: seq<nat>)
    requires k < n
    ensures |order| == n && forall j :: 0 <= j < n ==> order[j] == if j == 0 then k else if j <= k then j - 1 else j
  {
    seq(n, j => if j == 0 then k else if j <= k then j - 1 else j)
  }

  lemma HeadListed(ps: seq<Placement>, k: nat)
    requires k < |ps|
    ensures Listed(HeadOrder(|ps|, k), ps)
  {
    var order := HeadOrder(|ps|, k);
    forall j: nat | j < |ps|
      ensures j in order
    {
      assert order[if j == k then 0 else if j < k then j + 1 else j] == j;
    }
  }
}
