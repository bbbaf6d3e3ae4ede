/**
 The device: one phase runs a list of work items as threads whose loads and stores interleave freely;
 a barrier separates phases. An item that overflows raises the status word and stores nothing.
 */
module Phases {
  import opened Wrappers
  import opened Memory

  /** One work item: the cells it loads, the cells it stores, and what it computes (`None` on overflow). */
  datatype Item = Item(loads: seq<nat>, stores: seq<nat>, op: seq<int> -> Option<seq<int>>)

  ghost predicate ValidItem(item: Item, size: nat) {
    && Within(item.loads, size) && Within(item.stores, size) && Distinct(item.stores)
    && forall v: seq<int> :: |v| == |item.loads| && item.op(v).Some? ==> |item.op(v).value| == |item.stores|
  }

  ghost predicate ValidItems(items: seq<Item>, size: nat) {
    forall k :: 0 <= k < |items| ==> ValidItem(items[k], size)
  }

  /** No item stores where another one loads or stores. */
  ghost predicate Independent(items: seq<Item>) {
    forall j, k, cell: nat :: 0 <= j < |items| && 0 <= k < |items| && j != k && cell in items[j].stores
      ==> cell !in items[k].stores && cell !in items[k].loads
  }

  /** What an item computes from a memory. */
  ghost function Computed(item: Item, memory: seq<int>): (out: Option<seq<int>>)
    requires ValidItem(item, |memory|)
    ensures out.Some? ==> |out.value| == |item.stores|
  {
    item.op(Gather(memory, item.loads))
  }

  ghost function Apply(item: Item, memory: seq<int>): (after: Option<seq<int>>)
    requires ValidItem(item, |memory|)
    ensures after.Some? ==> |after.value| == |memory|
  {
    var out :- Computed(item, memory);
    Some(Scatter(memory, item.stores, out))
  }

  /** The items one after the other, in list order; `None` if any of them overflows. */
  ghost function Run(items: seq<Item>, memory: seq<int>): (after: Option<seq<int>>)
    requires ValidItems(items, |memory|)
    ensures after.Some? ==> |after.value| == |memory|
  {
    if items == [] then Some(memory)
    else
      var middle :- Run(items[..|items| - 1], memory);
      Apply(items[|items| - 1], middle)
  }

  /** An item that leaves a memory as it is. */
  ghost predicate Idle(item: Item, memory: seq<int>) {
    ValidItem(item, |memory|) && Apply(item, memory) == Some(memory)
  }

  lemma {:induction false} IdleRun(items: seq<Item>, memory: seq<int>)
    requires forall k :: 0 <= k < |items| ==> Idle(items[k], memory)
    ensures ValidItems(items, |memory|) && Run(items, memory) == Some(memory)
  {
    if items != [] {
      IdleRun(items[..|items| - 1], memory);
      assert Idle(items[|items| - 1], memory);
    }
  }

  // ---- The meaning of a phase ----

  ghost predicate Written(items: seq<Item>, cell: nat) {
    exists k :: 0 <= k < |items| && cell in items[k].stores
  }

  /** Every item computed from the memory the phase began with, and nothing else changed. */
  ghost predicate PhaseResult(items: seq<Item>, before: seq<int>, after: seq<int>)
    requires ValidItems(items, |before|)
  {
    && |after| == |before|
    && (forall k :: 0 <= k < |items| ==> Computed(items[k], before).Some?)
    && (forall k, p :: 0 <= k < |items| && 0 <= p < |items[k].stores| ==>
          after[items[k].stores[p]] == Computed(items[k], before).value[p])
    && (forall cell :: 0 <= cell < |before| && !Written(items, cell) ==> after[cell] == before[cell])
  }

  lemma PhaseResultUnique(items: seq<Item>, before: seq<int>, one: seq<int>, two: seq<int>)
    requires ValidItems(items, |before|)
    requires PhaseResult(items, before, one) && PhaseResult(items, before, two)
    ensures one == two
  {
    forall cell | 0 <= cell < |before|
      ensures one[cell] == two[cell]
    {
      if Written(items, cell) {
        var k :| 0 <= k < |items| && cell in items[k].stores;
        var p :| 0 <= p < |items[k].stores| && items[k].stores[p] == cell;
      }
    }
  }

  /** A sequential run of independent items has the phase's meaning, and overflows only if some item must. */
  lemma {:induction false} RunIsPhaseResult(items: seq<Item>, before: seq<int>)
    requires ValidItems(items, |before|) && Independent(items)
    ensures Run(items, before).Some? ==> PhaseResult(items, before, Run(items, before).value)
    ensures Run(items, before).Some? <==> forall k :: 0 <= k < |items| ==> Computed(items[k], before).Some?
  {
    if items != [] {
      var last := items[|items| - 1];
      var init := items[..|items| - 1];
      RunIsPhaseResult(init, before);
      forall k | 0 <= k < |init|
        ensures items[k] == init[k]
      {}
      if Run(init, before).Some? {
        var middle := Run(init, before).value;
        UntouchedReads(items, before, middle);
        if Computed(last, middle).Some? {
          ExtendPhaseResult(items, before, middle);
        }
      }
    }
  }

  lemma UntouchedReads(items: seq<Item>, before: seq<int>, middle: seq<int>)
    requires items != [] && ValidItems(items, |before|) && Independent(items)
    requires PhaseResult(items[..|items| - 1], before, middle)
    ensures Computed(items[|items| - 1], middle) == Computed(items[|items| - 1], before)
  {
    var last := items[|items| - 1];
    var init := items[..|items| - 1];
    forall p | 0 <= p < |last.loads|
      ensures middle[last.loads[p]] == before[last.loads[p]]
    {
      assert last.loads[p] in last.loads;
      assert !Written(init, last.loads[p]);
    }
    assert Gather(middle, last.loads) == Gather(before, last.loads);
  }

  lemma ExtendPhaseResult(items: seq<Item>, before: seq<int>, middle: seq<int>)
    requires items != [] && ValidItems(items, |before|) && Independent(items)
    requires PhaseResult(items[..|items| - 1], before, middle)
    requires Computed(items[|items| - 1], middle) == Computed(items[|items| - 1], before)
    requires Computed(items[|items| - 1], before).Some?
    ensures PhaseResult(items, before, Apply(items[|items| - 1], middle).value)
  {
    var last := items[|items| - 1];
    var init := items[..|items| - 1];
    var out := Computed(last, before).value;
    var after := Scatter(middle, last.stores, out);
    ScatterStores(middle, last.stores, out);
    forall k, p | 0 <= k < |items| && 0 <= p < |items[k].stores|
      ensures after[items[k].stores[p]] == Computed(items[k], before).value[p]
    {
      if k < |init| {
        assert items[k] == init[k] && items[k].stores[p] in items[k].stores;
        assert items[k].stores[p] !in last.stores;
      }
    }
    forall cell | 0 <= cell < |before| && !Written(items, cell)
      ensures after[cell] == before[cell]
    {
      assert cell !in last.stores;
      forall k | 0 <= k < |init|
        ensures cell !in init[k].stores
      {
        assert init[k] == items[k];
      }
    }
  }

  // ---- Interleaved execution ----

  /** Where one thread is: loading cell by cell, storing cell by cell, done, or given up. */
  datatype Thread =
    | Loading(loaded: seq<int>)
    | Storing(out: seq<int>, stored: nat)
    | Finished
    | Aborted

  datatype State = State(memory: seq<int>, failed: bool, threads: seq<Thread>)

  ghost predicate Initial(items: seq<Item>, s: State) {
    && !s.failed && |s.threads| == |items|
    && forall k :: 0 <= k < |items| ==> s.threads[k] == Loading([])
  }

  /** One atomic action of thread `t`. */
  ghost predicate Step(items: seq<Item>, s: State, s': State, t: nat)
    requires ValidItems(items, |s.memory|) && |s.threads| == |items| && t < |items|
  {
    var item := items[t];
    match s.threads[t]
    case Loading(loaded) =>
      || (loaded == [] && s.failed && s' == s.(threads := s.threads[t := Aborted]))
      || (|loaded| < |item.loads|
          && s' == s.(threads := s.threads[t := Loading(loaded + [s.memory[item.loads[|loaded|]]])]))
      || (|loaded| == |item.loads| && item.op(loaded).Some?
          && s' == s.(threads := s.threads[t := Storing(item.op(loaded).value, 0)]))
      || (|loaded| == |item.loads| && item.op(loaded).None?
          && s' == s.(failed := true, threads := s.threads[t := Aborted]))
    case Storing(out, stored) =>
      || (stored < |item.stores| == |out|
          && s' == s.(memory := s.memory[item.stores[stored] := out[stored]],
                      threads := s.threads[t := Storing(out, stored + 1)]))
      || (stored == |item.stores| && s' == s.(threads := s.threads[t := Finished]))
    case Finished => false
    case Aborted => false
  }

  /** A run of the machine: any interleaving of the threads' actions. */
  ghost predicate Execution(items: seq<Item>, states: seq<State>, size: nat) {
    && ValidItems(items, size)
    && |states| > 0 && Initial(items, states[0]) && |states[0].memory| == size
    && forall i :: 0 <= i < |states| - 1 ==> Advances(items, states[i], states[i + 1], size)
  }

  ghost predicate Advances(items: seq<Item>, s: State, s': State, size: nat)
    requires ValidItems(items, size)
  {
    |s.memory| == size && |s.threads| == |items| && exists t: nat :: t < |items| && Step(items, s, s', t)
  }

  ghost predicate AllDone(s: State) {
    forall k :: 0 <= k < |s.threads| ==> s.threads[k].Finished? || s.threads[k].Aborted?
  }

  /** What a thread knows about the memory, in terms of the memory the phase began with. */
  ghost predicate ThreadInvariant(item: Item, start: seq<int>, s: State, thread: Thread)
    requires ValidItem(item, |start|) && |s.memory| == |start|
  {
    match thread
    case Loading(loaded) =>
      && |loaded| <= |item.loads|
      && (forall p :: 0 <= p < |loaded| ==> loaded[p] == start[item.loads[p]])
      && (forall p :: 0 <= p < |item.stores| ==> s.memory[item.stores[p]] == start[item.stores[p]])
    case Storing(out, stored) =>
      && Computed(item, start) == Some(out) && stored <= |item.stores|
      && (forall p :: 0 <= p < stored ==> s.memory[item.stores[p]] == out[p])
      && (forall p :: stored <= p < |item.stores| ==> s.memory[item.stores[p]] == start[item.stores[p]])
    case Finished =>
      && Computed(item, start).Some?
      && (forall p :: 0 <= p < |item.stores| ==> s.memory[item.stores[p]] == Computed(item, start).value[p])
    case Aborted => s.failed
  }

  ghost predicate Invariant(items: seq<Item>, start: seq<int>, s: State)
    requires ValidItems(items, |start|)
  {
    && |s.memory| == |start| && |s.threads| == |items|
    && (forall k :: 0 <= k < |items| ==> ThreadInvariant(items[k], start, s, s.threads[k]))
    && (forall cell :: 0 <= cell < |start| && !Written(items, cell) ==> s.memory[cell] == start[cell])
    && (s.failed ==> exists k :: 0 <= k < |items| && Computed(items[k], start).None?)
  }

  lemma StepKeepsInvariant(items: seq<Item>, start: seq<int>, s: State, s': State, t: nat)
    requires ValidItems(items, |start|) && Independent(items)
    requires Invariant(items, start, s) && t < |items| && Step(items, s, s', t)
    ensures Invariant(items, start, s')
  {
    assert ThreadInvariant(items[t], start, s, s.threads[t]);
    if s.threads[t].Storing? && s.threads[t].stored < |items[t].stores| {
      StoreKeepsOthers(items, start, s, s', t);
    } else {
      ThreadAdvances(items, start, s, s', t);
      forall k | 0 <= k < |items|
        ensures ThreadInvariant(items[k], start, s', s'.threads[k])
      {
        assert ThreadInvariant(items[k], start, s, s.threads[k]);
      }
    }
  }

  /** A step that stores nothing keeps the acting thread's knowledge true. */
  lemma ThreadAdvances(items: seq<Item>, start: seq<int>, s: State, s': State, t: nat)
    requires ValidItems(items, |start|) && Independent(items)
    requires Invariant(items, start, s) && t < |items| && Step(items, s, s', t)
    requires !(s.threads[t].Storing? && s.threads[t].stored < |items[t].stores|)
    ensures ThreadInvariant(items[t], start, s', s'.threads[t])
    ensures s'.failed ==> exists k :: 0 <= k < |items| && Computed(items[k], start).None?
  {
    var item := items[t];
    assert ThreadInvariant(item, start, s, s.threads[t]);
    if s.threads[t].Loading? {
      var loaded := s.threads[t].loaded;
      if |loaded| < |item.loads| {
        LoadSeesStart(items, start, s, t, |loaded|);
      } else {
        assert loaded == Gather(start, item.loads);
      }
    }
  }

  lemma LoadSeesStart(items: seq<Item>, start: seq<int>, s: State, t: nat, p: nat)
    requires ValidItems(items, |start|) && Independent(items) && Invariant(items, start, s)
    requires t < |items| && s.threads[t].Loading? && p < |items[t].loads|
    ensures s.memory[items[t].loads[p]] == start[items[t].loads[p]]
  {
    var cell := items[t].loads[p];
    if Written(items, cell) {
      var k :| 0 <= k < |items| && cell in items[k].stores;
      assert ThreadInvariant(items[k], start, s, s.threads[k]);
      if k == t {
        var q :| 0 <= q < |items[t].stores| && items[t].stores[q] == cell;
      }
    }
  }

  lemma StoreKeepsOthers(items: seq<Item>, start: seq<int>, s: State, s': State, t: nat)
    requires ValidItems(items, |start|) && Independent(items) && Invariant(items, start, s)
    requires t < |items| && s.threads[t].Storing? && Step(items, s, s', t)
    requires s.threads[t].stored < |items[t].stores|
    ensures Invariant(items, start, s')
  {
    var item := items[t];
    var cell := item.stores[s.threads[t].stored];
    assert cell in item.stores;
    forall k | 0 <= k < |items|
      ensures ThreadInvariant(items[k], start, s', s'.threads[k])
    {
      assert ThreadInvariant(items[k], start, s, s.threads[k]);
      if k != t {
        forall p | 0 <= p < |items[k].stores|
          ensures s'.memory[items[k].stores[p]] == s.memory[items[k].stores[p]]
        {
          assert items[k].stores[p] in items[k].stores;
        }
      }
    }
    forall other | 0 <= other < |start| && !Written(items, other)
      ensures s'.memory[other] == start[other]
    {}
  }

  lemma {:induction false} ExecutionKeepsInvariant(items: seq<Item>, states: seq<State>, i: nat)
    requires i < |states| && Execution(items, states, |states[0].memory|) && Independent(items)
    ensures Invariant(items, states[0].memory, states[i])
  {
    if i > 0 {
      ExecutionKeepsInvariant(items, states, i - 1);
      var s, s' := states[i - 1], states[i];
      assert Advances(items, s, s', |states[0].memory|);
      var t: nat :| t < |items| && Step(items, s, s', t);
      StepKeepsInvariant(items, states[0].memory, s, s', t);
    }
  }

  /** When all threads are done, what they know decides the outcome. */
  lemma DoneIsRun(items: seq<Item>, start: seq<int>, last: State)
    requires ValidItems(items, |start|) && Independent(items) && Invariant(items, start, last) && AllDone(last)
    ensures Run(items, start) == if last.failed then None else Some(last.memory)
  {
    RunIsPhaseResult(items, start);
    if !last.failed {
      forall k | 0 <= k < |items|
        ensures ThreadInvariant(items[k], start, last, Finished)
      {
        assert ThreadInvariant(items[k], start, last, last.threads[k]);
      }
      PhaseResultUnique(items, start, last.memory, Run(items, start).value);
    }
  }

  /**
   However the threads of independent items interleave, once all are done the status word says whether
   some item overflows, and if none does the memory is that of running the items one after the other.
   */
  lemma InterleavingIsRun(items: seq<Item>, states: seq<State>)
    requires |states| > 0 && Execution(items, states, |states[0].memory|) && Independent(items)
    requires AllDone(states[|states| - 1])
    ensures var last := states[|states| - 1];
      Run(items, states[0].memory) == if last.failed then None else Some(last.memory)
  {
    hide Run, Independent, AllDone;
    ExecutionKeepsInvariant(items, states, |states| - 1);
    DoneIsRun(items, states[0].memory, states[|states| - 1]);
  }
}
