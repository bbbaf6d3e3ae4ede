/** What a run does to a part of memory depends only on that part and on the items that store there. */
module Locality {
  import opened Wrappers
  import opened Memory
  import opened Phases

  /** A part of memory: the cells that satisfy a predicate. */
  type Part = nat -> bool

  ghost predicate StaysIn(item: Item, part: Part) {
    && (forall cell: nat :: cell in item.loads ==> part(cell))
    && (forall cell: nat :: cell in item.stores ==> part(cell))
  }

  ghost predicate Avoids(item: Item, part: Part) {
    forall cell: nat :: cell in item.stores ==> !part(cell)
  }

  /** Every item works inside the part or stores nothing into it. */
  ghost predicate Separable(items: seq<Item>, part: Part) {
    forall k :: 0 <= k < |items| ==> StaysIn(items[k], part) || Avoids(items[k], part)
  }

  /** The items that work inside the part, in order. */
  ghost function Selected(items: seq<Item>, part: Part): (chosen: seq<Item>) {
    if items == [] then []
    else
      var last := items[|items| - 1];
      Selected(items[..|items| - 1], part) + if Avoids(last, part) then [] else [last]
  }

  lemma {:induction false} SelectedValid(items: seq<Item>, part: Part, size: nat)
    requires ValidItems(items, size)
    ensures ValidItems(Selected(items, part), size)
  {
    if items != [] {
      SelectedValid(items[..|items| - 1], part, size);
    }
  }

  lemma {:induction false} SelectedConcat(a: seq<Item>, b: seq<Item>, part: Part)
    ensures Selected(a + b, part) == Selected(a, part) + Selected(b, part)
  {
    if b == [] {
      assert a + b == a;
    } else {
      assert (a + b)[..|a + b| - 1] == a + b[..|b| - 1];
      SelectedConcat(a, b[..|b| - 1], part);
    }
  }

  lemma {:induction false} SelectedAll(items: seq<Item>, part: Part)
    requires forall k :: 0 <= k < |items| ==> !Avoids(items[k], part)
    ensures Selected(items, part) == items
  {
    if items != [] {
      SelectedAll(items[..|items| - 1], part);
    }
  }

  lemma {:induction false} SelectedNone(items: seq<Item>, part: Part)
    requires forall k :: 0 <= k < |items| ==> Avoids(items[k], part)
    ensures Selected(items, part) == []
  {
    if items != [] {
      SelectedNone(items[..|items| - 1], part);
    }
  }

  ghost predicate Agree(one: seq<int>, two: seq<int>, part: Part) {
    |one| == |two| && forall cell: nat :: cell < |one| && part(cell) ==> one[cell] == two[cell]
  }

  lemma ApplyInside(item: Item, one: seq<int>, two: seq<int>, part: Part)
    requires Agree(one, two, part) && ValidItem(item, |one|) && StaysIn(item, part)
    requires Apply(item, one).Some?
    ensures Apply(item, two).Some? && Agree(Apply(item, one).value, Apply(item, two).value, part)
  {
    forall p | 0 <= p < |item.loads|
      ensures one[item.loads[p]] == two[item.loads[p]]
    {
      assert item.loads[p] in item.loads;
    }
    assert Gather(one, item.loads) == Gather(two, item.loads);
    var out := Computed(item, one).value;
    ScatterStores(one, item.stores, out);
    ScatterStores(two, item.stores, out);
    var a, b := Apply(item, one).value, Apply(item, two).value;
    forall cell: nat | cell < |one| && part(cell)
      ensures a[cell] == b[cell]
    {
      if cell in item.stores {
        var p :| 0 <= p < |item.stores| && item.stores[p] == cell;
      }
    }
  }

  /**
   Running only the items that work inside a part, on any memory that agrees there, gives the same
   values there as running them all.
   */
  lemma {:induction false} RunLocal(items: seq<Item>, one: seq<int>, two: seq<int>, part: Part)
    requires Agree(one, two, part) && ValidItems(items, |one|) && Separable(items, part)
    requires Run(items, one).Some?
    ensures ValidItems(Selected(items, part), |two|)
    ensures Run(Selected(items, part), two).Some?
    ensures Agree(Run(items, one).value, Run(Selected(items, part), two).value, part)
  {
    SelectedValid(items, part, |one|);
    if items != [] {
      var init, last := items[..|items| - 1], items[|items| - 1];
      RunLocal(init, one, two, part);
      var chosen := Selected(init, part);
      var middle := Run(init, one).value;
      if !Avoids(last, part) {
        ApplyInside(last, middle, Run(chosen, two).value, part);
        assert (chosen + [last])[..|chosen|] == chosen;
      } else {
        assert chosen + [] == chosen;
        AppliedOutside(last, middle, part);
      }
    }
  }

  lemma AppliedOutside(item: Item, memory: seq<int>, part: Part)
    requires ValidItem(item, |memory|) && Avoids(item, part) && Apply(item, memory).Some?
    ensures Agree(memory, Apply(item, memory).value, part)
  {
    forall cell: nat | cell < |memory| && part(cell)
      ensures Apply(item, memory).value[cell] == memory[cell]
    {
      assert cell !in item.stores;
    }
  }

  /** A run changes nothing where none of its items stores. */
  lemma {:induction false} RunFrame(items: seq<Item>, memory: seq<int>, part: Part)
    requires ValidItems(items, |memory|) && Run(items, memory).Some?
    requires forall k :: 0 <= k < |items| ==> Avoids(items[k], part)
    ensures Agree(memory, Run(items, memory).value, part)
  {
    if items != [] {
      var init, last := items[..|items| - 1], items[|items| - 1];
      RunFrame(init, memory, part);
      AppliedOutside(last, Run(init, memory).value, part);
    }
  }

  lemma {:induction false} RunConcat(a: seq<Item>, b: seq<Item>, memory: seq<int>)
    requires ValidItems(a, |memory|) && ValidItems(b, |memory|)
    ensures ValidItems(a + b, |memory|)
    ensures Run(a + b, memory) ==
      match Run(a, memory)
      case None => None
      case Some(middle) => Run(b, middle)
  {
    if b == [] {
      assert a + b == a;
    } else {
      assert (a + b)[..|a + b| - 1] == a + b[..|b| - 1];
      RunConcat(a, b[..|b| - 1], memory);
    }
  }

  // ---- Exchanging items of separate parts ----

  /** Each item works inside one of the parts, and the parts have no cell in common. */
  ghost predicate Separated(items: seq<Item>, parts: seq<Part>) {
    && (forall p, q, cell: nat :: 0 <= p < q < |parts| && parts[p](cell) ==> !parts[q](cell))
    && (forall k :: 0 <= k < |items| ==> exists p :: 0 <= p < |parts| && StaysIn(items[k], parts[p]))
  }

  lemma SeparatedItem(items: seq<Item>, parts: seq<Part>, k: nat, p: nat)
    requires Separated(items, parts) && k < |items| && p < |parts|
    ensures StaysIn(items[k], parts[p]) || Avoids(items[k], parts[p])
  {
    var q :| 0 <= q < |parts| && StaysIn(items[k], parts[q]);
    if q != p {
      forall cell: nat | cell in items[k].stores
        ensures !parts[p](cell)
      {
        assert parts[q](cell);
      }
    }
  }

  ghost predicate AllComplete(items: seq<Item>, memory: seq<int>, parts: seq<Part>)
    requires ValidItems(items, |memory|)
  {
    forall p :: 0 <= p < |parts| ==>
      ValidItems(Selected(items, parts[p]), |memory|) && Run(Selected(items, parts[p]), memory).Some?
  }

  lemma RunCompletesParts(items: seq<Item>, memory: seq<int>, parts: seq<Part>)
    requires ValidItems(items, |memory|) && Separated(items, parts) && Run(items, memory).Some?
    ensures AllComplete(items, memory, parts)
  {
    hide ValidItem, StaysIn, Avoids, Run, Selected;
    forall p | 0 <= p < |parts|
      ensures ValidItems(Selected(items, parts[p]), |memory|) && Run(Selected(items, parts[p]), memory).Some?
    {
      SeparableAll(items, parts, p);
      RunLocal(items, memory, memory, parts[p]);
    }
  }

  /** A run completes exactly when the run of each part's own items does. */
  lemma {:induction false} RunDecided(items: seq<Item>, memory: seq<int>, parts: seq<Part>)
    requires ValidItems(items, |memory|) && Separated(items, parts)
    requires forall k :: 0 <= k < |items| ==> items[k].stores != []
    ensures Run(items, memory).Some? <==> AllComplete(items, memory, parts)
  {
    if Run(items, memory).Some? {
      RunCompletesParts(items, memory, parts);
    } else if AllComplete(items, memory, parts) {
      hide AllComplete, ValidItem, StaysIn, Avoids;
      InitCompletes(items, memory, parts);
      assert Separated(items[..|items| - 1], parts);
      RunDecided(items[..|items| - 1], memory, parts);
      var p := OwnPart(items, parts, |items| - 1);
      FinalCompletes(items, memory, parts[p]);
    }
  }

  lemma InitCompletes(items: seq<Item>, memory: seq<int>, parts: seq<Part>)
    requires items != [] && ValidItems(items, |memory|) && AllComplete(items, memory, parts)
    ensures AllComplete(items[..|items| - 1], memory, parts)
  {
    hide ValidItem;
    var init, last := items[..|items| - 1], items[|items| - 1];
    forall p | 0 <= p < |parts|
      ensures ValidItems(Selected(init, parts[p]), |memory|) && Run(Selected(init, parts[p]), memory).Some?
    {
      SelectedValid(init, parts[p], |memory|);
      var chosen := Selected(items, parts[p]);
      if !Avoids(last, parts[p]) {
        assert chosen[..|chosen| - 1] == Selected(init, parts[p]);
      } else {
        assert chosen == Selected(init, parts[p]);
      }
    }
  }

  /** The part an item works in. */
  lemma OwnPart(items: seq<Item>, parts: seq<Part>, k: nat) returns (p: nat)
    requires Separated(items, parts) && k < |items| && items[k].stores != []
    ensures p < |parts| && StaysIn(items[k], parts[p]) && !Avoids(items[k], parts[p]) && Separable(items, parts[p])
  {
    p :| 0 <= p < |parts| && StaysIn(items[k], parts[p]);
    assert items[k].stores[0] in items[k].stores;
    SeparableAll(items, parts, p);
  }

  lemma FinalCompletes(items: seq<Item>, memory: seq<int>, part: Part)
    requires items != [] && ValidItems(items, |memory|) && Separable(items, part)
    requires StaysIn(items[|items| - 1], part) && !Avoids(items[|items| - 1], part)
    requires ValidItems(Selected(items, part), |memory|) && Run(Selected(items, part), memory).Some?
    requires Run(items[..|items| - 1], memory).Some?
    ensures Run(items, memory).Some?
  {
    hide ValidItem, StaysIn, Avoids;
    var init, last := items[..|items| - 1], items[|items| - 1];
    assert Separable(init, part);
    assert Selected(items, part) == Selected(init, part) + [last];
    hide Selected, Separable;
    LastCompletes(init, last, memory, part);
  }

  lemma RunAppend(items: seq<Item>, last: Item, memory: seq<int>)
    requires ValidItems(items, |memory|) && ValidItem(last, |memory|)
    ensures ValidItems(items + [last], |memory|)
    ensures Run(items + [last], memory) ==
      if Run(items, memory).Some? then Apply(last, Run(items, memory).value) else None
  {
    assert (items + [last])[..|items|] == items;
  }

  /** If an item completes after its own part's items, it completes after all items. */
  lemma LastCompletes(init: seq<Item>, last: Item, memory: seq<int>, part: Part)
    requires ValidItems(init, |memory|) && ValidItem(last, |memory|)
    requires Separable(init, part) && StaysIn(last, part) && Run(init, memory).Some?
    requires ValidItems(Selected(init, part) + [last], |memory|) && Run(Selected(init, part) + [last], memory).Some?
    ensures Apply(last, Run(init, memory).value).Some?
  {
    hide Selected, Separable, StaysIn, Apply, ValidItem;
    RunLocal(init, memory, memory, part);
    RunAppend(Selected(init, part), last, memory);
    ApplyInside(last, Run(Selected(init, part), memory).value, Run(init, memory).value, part);
  }

  lemma SeparableAll(items: seq<Item>, parts: seq<Part>, p: nat)
    requires Separated(items, parts) && p < |parts|
    ensures Separable(items, parts[p])
  {
    forall k | 0 <= k < |items|
      ensures StaysIn(items[k], parts[p]) || Avoids(items[k], parts[p])
    {
      SeparatedItem(items, parts, k, p);
    }
  }

  ghost predicate SameSelections(a: seq<Item>, b: seq<Item>, parts: seq<Part>) {
    forall p :: 0 <= p < |parts| ==> Selected(a, parts[p]) == Selected(b, parts[p])
  }

  ghost predicate Exchangeable(items: seq<Item>, size: nat, parts: seq<Part>) {
    && ValidItems(items, size) && Separated(items, parts)
    && forall k :: 0 <= k < |items| ==> items[k].stores != []
  }

  lemma CompleteAlike(a: seq<Item>, b: seq<Item>, memory: seq<int>, parts: seq<Part>)
    requires ValidItems(a, |memory|) && ValidItems(b, |memory|) && SameSelections(a, b, parts)
    ensures AllComplete(a, memory, parts) <==> AllComplete(b, memory, parts)
  {
    hide Run, Selected, ValidItems;
    forall p | 0 <= p < |parts|
      ensures Selected(a, parts[p]) == Selected(b, parts[p])
    {}
  }

  /** Two runs that give every part the same items in the same order are the same run. */
  lemma Exchange(a: seq<Item>, b: seq<Item>, memory: seq<int>, parts: seq<Part>)
    requires Exchangeable(a, |memory|, parts) && Exchangeable(b, |memory|, parts) && SameSelections(a, b, parts)
    ensures Run(a, memory) == Run(b, memory)
  {
    hide Run, SameSelections, Separated, AllComplete, ValidItems;
    RunDecided(a, memory, parts);
    RunDecided(b, memory, parts);
    CompleteAlike(a, b, memory, parts);
    if Run(a, memory).Some? {
      var one, two := Run(a, memory).value, Run(b, memory).value;
      forall cell: nat | cell < |memory|
        ensures one[cell] == two[cell]
      {
        SameCell(a, b, memory, parts, cell);
      }
      assert one == two;
    }
  }

  lemma SameCell(a: seq<Item>, b: seq<Item>, memory: seq<int>, parts: seq<Part>, cell: nat)
    requires ValidItems(a, |memory|) && Separated(a, parts)
    requires ValidItems(b, |memory|) && Separated(b, parts)
    requires SameSelections(a, b, parts)
    requires Run(a, memory).Some? && Run(b, memory).Some? && cell < |memory|
    ensures Run(a, memory).value[cell] == Run(b, memory).value[cell]
  {
    if p :| 0 <= p < |parts| && parts[p](cell) {
      SeparableAll(a, parts, p);
      SeparableAll(b, parts, p);
      RunLocal(a, memory, memory, parts[p]);
      RunLocal(b, memory, memory, parts[p]);
    } else {
      var outside: Part := c => c == cell;
      OutsideAvoided(a, parts, cell);
      OutsideAvoided(b, parts, cell);
      RunFrame(a, memory, outside);
      RunFrame(b, memory, outside);
    }
  }

  lemma OutsideAvoided(items: seq<Item>, parts: seq<Part>, cell: nat)
    requires Separated(items, parts) && forall p :: 0 <= p < |parts| ==> !parts[p](cell)
    ensures forall k :: 0 <= k < |items| ==> Avoids(items[k], c => c == cell)
  {
    forall k | 0 <= k < |items|
      ensures Avoids(items[k], c => c == cell)
    {
      var p :| 0 <= p < |parts| && StaysIn(items[k], parts[p]);
    }
  }
}
