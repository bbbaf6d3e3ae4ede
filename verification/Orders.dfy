/**
 Every order of a phase is an execution of the device: the machine may run the threads one after the other,
 in any order. So a phase whose result depends on the order of its items has executions that end differently.
 */
module Orders {
  import opened Memory
  import opened Phases
  import opened PhaseOrder
  import L = Locality

  ghost predicate Path(items: seq<Item>, states: seq<State>, size: nat)
    requires ValidItems(items, size)
  {
    |states| > 0 && forall i :: 0 <= i < |states| - 1 ==> Advances(items, states[i], states[i + 1], size)
  }

  ghost function Last(states: seq<State>): State
    requires |states| > 0
  {
    states[|states| - 1]
  }

  lemma PathStep(items: seq<Item>, states: seq<State>, size: nat, next: State, t: nat)
    requires ValidItems(items, size) && Path(items, states, size) && t < |items|
    requires |Last(states).memory| == size && |Last(states).threads| == |items| && Step(items, Last(states), next, t)
    ensures Path(items, states + [next], size) && Last(states + [next]) == next && (states + [next])[0] == states[0]
  {
    hide Step, ValidItems;
    var more := states + [next];
    forall i | 0 <= i < |more| - 1
      ensures Advances(items, more[i], more[i + 1], size)
    {
      assert more[i] == states[i];
    }
  }

  lemma PathJoin(items: seq<Item>, one: seq<State>, two: seq<State>, size: nat)
    requires ValidItems(items, size) && Path(items, one, size) && Path(items, two, size) && Last(one) == two[0]
    ensures Path(items, one + two[1..], size) && Last(one + two[1..]) == Last(two) && (one + two[1..])[0] == one[0]
  {
    hide Advances, ValidItems;
    var both := one + two[1..];
    forall i | 0 <= i < |both| - 1
      ensures Advances(items, both[i], both[i + 1], size)
    {
      if i >= |one| - 1 {
        assert both[i] == two[i - (|one| - 1)] && both[i + 1] == two[i + 1 - (|one| - 1)];
      }
    }
  }

  /** A state in which thread `t` has come to a certain point, the others where they were. */
  ghost function At(s: State, t: nat, memory: seq<int>, thread: Thread): State
    requires t < |s.threads|
  {
    State(memory, s.failed, s.threads[t := thread])
  }

  lemma AtAgain(s: State, t: nat, m: seq<int>, a: Thread, n: seq<int>, b: Thread)
    requires t < |s.threads|
    ensures At(At(s, t, m, a), t, n, b) == At(s, t, n, b)
  {}

  ghost predicate Ready(items: seq<Item>, s: State, t: nat) {
    t < |items| == |s.threads| && ValidItems(items, |s.memory|) && s.threads[t] == Loading([])
  }

  /** A thread loads all its cells. */
  lemma LoadAll(items: seq<Item>, s: State, t: nat) returns (states: seq<State>)
    requires Ready(items, s, t)
    ensures Path(items, states, |s.memory|) && states[0] == s
    ensures Last(states) == At(s, t, s.memory, Loading(Gather(s.memory, items[t].loads)))
  {
    var item := items[t];
    var values := Gather(s.memory, item.loads);
    states := [s];
    assert s.threads[t := Loading(values[..0])] == s.threads;
    for p := 0 to |item.loads|
      invariant Path(items, states, |s.memory|) && states[0] == s
      invariant Last(states) == At(s, t, s.memory, Loading(values[..p]))
    {
      var now, next := Last(states), At(s, t, s.memory, Loading(values[..p + 1]));
      assert values[..p + 1] == values[..p] + [values[p]];
      AtAgain(s, t, s.memory, Loading(values[..p]), s.memory, Loading(values[..p + 1]));
      assert next == At(now, t, s.memory, Loading(values[..p + 1]));
      assert Step(items, now, next, t);
      PathStep(items, states, |s.memory|, next, t);
      states := states + [next];
    }
    assert values[..|item.loads|] == values;
  }

  /** A thread stores all it computed. */
  lemma StoreAll(items: seq<Item>, s: State, t: nat, out: seq<int>) returns (states: seq<State>)
    requires t < |items| == |s.threads| && ValidItems(items, |s.memory|) && s.threads[t] == Storing(out, 0)
    requires |out| == |items[t].stores|
    ensures Path(items, states, |s.memory|) && states[0] == s
    ensures Last(states) == At(s, t, Scatter(s.memory, items[t].stores, out), Storing(out, |out|))
  {
    var item := items[t];
    var stores := item.stores;
    states := [s];
    ScatterWhole(s.memory, stores, out);
    assert stores[..0] == [] && out[..0] == [] && s.threads[t := Storing(out, 0)] == s.threads;
    for p := 0 to |stores|
      invariant Path(items, states, |s.memory|) && states[0] == s
      invariant Last(states) == At(s, t, Scatter(s.memory, stores[..p], out[..p]), Storing(out, p))
    {
      var now := Last(states);
      ScatterNext(s.memory, stores, out, p);
      var next := At(s, t, Scatter(s.memory, stores[..p + 1], out[..p + 1]), Storing(out, p + 1));
      AtAgain(s, t, now.memory, Storing(out, p), next.memory, Storing(out, p + 1));
      assert Step(items, now, next, t);
      PathStep(items, states, |s.memory|, next, t);
      states := states + [next];
    }
  }

  /** A thread runs from its start to its end while the others wait. */
  lemma ThreadRuns(items: seq<Item>, s: State, t: nat) returns (states: seq<State>)
    requires Ready(items, s, t) && Apply(items[t], s.memory).Some?
    ensures Path(items, states, |s.memory|) && states[0] == s
    ensures Last(states) == At(s, t, Apply(items[t], s.memory).value, Finished)
  {
    var values := Gather(s.memory, items[t].loads);
    var out := Computed(items[t], s.memory).value;
    var size := |s.memory|;
    states := LoadAll(items, s, t);
    var loaded := Last(states);
    var computed := At(s, t, s.memory, Storing(out, 0));
    AtAgain(s, t, s.memory, Loading(values), s.memory, Storing(out, 0));
    assert Step(items, loaded, computed, t);
    PathStep(items, states, size, computed, t);
    states := states + [computed];
    var more := StoreAll(items, computed, t, out);
    AtAgain(s, t, s.memory, Storing(out, 0), Scatter(s.memory, items[t].stores, out), Storing(out, |out|));
    PathJoin(items, states, more, size);
    states := states + more[1..];
    var stored := Last(states);
    var done := At(s, t, Apply(items[t], s.memory).value, Finished);
    AtAgain(s, t, stored.memory, Storing(out, |out|), done.memory, Finished);
    assert Step(items, stored, done, t);
    PathStep(items, states, size, done, t);
    states := states + [done];
  }

  /** Where the machine is after the first `j` items of an order: those have finished, the others not begun. */
  ghost predicate Reached(items: seq<Item>, order: seq<nat>, j: nat, now: seq<int>, s: State) {
    && !s.failed && |s.threads| == |items| && s.memory == now && j <= |order|
    && forall k: nat :: k < |items| ==> s.threads[k] == if k in order[..j] then Finished else Loading([])
  }

  lemma PartCompletes(items: seq<Item>, j: nat, memory: seq<int>)
    requires ValidItems(items, |memory|) && Run(items, memory).Some? && j <= |items|
    ensures ValidItems(items[..j], |memory|) && Run(items[..j], memory).Some?
  {
    hide ValidItem, Run;
    assert items == items[..j] + items[j..];
    L.RunConcat(items[..j], items[j..], memory);
  }

  /** If a whole list completes, so does its next item. */
  lemma NextApplies(items: seq<Item>, j: nat, memory: seq<int>)
    requires ValidItems(items, |memory|) && Run(items, memory).Some? && j < |items|
    ensures ValidItem(items[j], |memory|) && Run(items[..j], memory).Some? && Run(items[..j + 1], memory).Some?
    ensures Apply(items[j], Run(items[..j], memory).value) == Run(items[..j + 1], memory)
  {
    PartCompletes(items, j, memory);
    PartCompletes(items, j + 1, memory);
    var part := items[..j + 1];
    assert part[..|part| - 1] == items[..j] && part[|part| - 1] == items[j];
    hide ValidItem, Apply;
  }

  lemma NextReached(items: seq<Item>, order: seq<nat>, j: nat, s: State, after: seq<int>)
    requires IsOrder(order, |items|) && j < |order| && Reached(items, order, j, s.memory, s)
    ensures s.threads[order[j]] == Loading([])
    ensures Reached(items, order, j + 1, after, At(s, order[j], after, Finished))
  {
    assert order[..j + 1] == order[..j] + [order[j]];
    assert order[j] !in order[..j];
  }

  /** Every order of items that completes is an execution that ends with the same memory and a clear status. */
  lemma OrderExecutes(items: seq<Item>, order: seq<nat>, memory: seq<int>) returns (states: seq<State>)
    requires ValidItems(items, |memory|) && IsOrder(order, |items|)
    requires ValidItems(Reordered(items, order), |memory|) && Run(Reordered(items, order), memory).Some?
    ensures |states| > 0 && states[0].memory == memory && Execution(items, states, |memory|)
    ensures AllDone(Last(states)) && !Last(states).failed
    ensures Last(states).memory == Run(Reordered(items, order), memory).value
  {
    hide ValidItem, Apply, Step;
    var list := Reordered(items, order);
    var s := State(memory, false, seq(|items|, _ => Loading([])));
    states := [s];
    assert order[..0] == [] && list[..0] == [];
    for j := 0 to |order|
      invariant Path(items, states, |memory|) && states[0] == s
      invariant Run(list[..j], memory).Some? && Reached(items, order, j, Run(list[..j], memory).value, Last(states))
    {
      NextApplies(list, j, memory);
      var now, t := Last(states), order[j];
      NextReached(items, order, j, now, Run(list[..j + 1], memory).value);
      var more := ThreadRuns(items, now, t);
      PathJoin(items, states, more, |memory|);
      states := states + more[1..];
    }
    assert list[..|order|] == list;
    OrderReaches(order, |items|);
    assert order[..|order|] == order;
  }
}
