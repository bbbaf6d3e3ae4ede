/**
 Grouping images into command buffers. Both planners are greedy; greedy is optimal because every part of a
 group that fits also fits.
 */
module Grouping {
  import opened Wrappers
  import opened Words

  const BATCH_SCRATCH_BUDGET: nat := 256 * 1024 * 1024
  const DENSE_IMAGES_PER_COMMAND: nat := 16

  /** A run of consecutive images, the end excluded. */
  datatype Range = Range(start: nat, end: nat)

  /** The scratch bytes of images `a` up to `b`. */
  function Sum(sizes: seq<nat>, a: nat, b: nat): nat
    requires a <= b <= |sizes|
    decreases b - a
  {
    if a == b then 0 else Sum(sizes, a, b - 1) + sizes[b - 1]
  }

  lemma {:induction false} SumPart(sizes: seq<nat>, a: nat, c: nat, d: nat, b: nat)
    requires a <= c <= d <= b <= |sizes|
    ensures Sum(sizes, c, d) <= Sum(sizes, a, b)
    decreases b - a
  {
    if d < b {
      SumPart(sizes, a, c, d, b - 1);
    } else if c < d {
      SumPart(sizes, a, c, d - 1, b - 1);
    }
  }

  /** Non-empty consecutive ranges from `from` to `to`. */
  ghost predicate Consecutive(groups: seq<Range>, from: nat, to: nat) {
    && (groups == [] ==> from == to)
    && (groups != [] ==> groups[0].start == from && groups[|groups| - 1].end == to)
    && (forall k :: 0 <= k < |groups| ==> groups[k].start < groups[k].end)
    && (forall k :: 0 <= k < |groups| - 1 ==> groups[k].end == groups[k + 1].start)
  }

  type Feasible = (nat, nat) -> bool

  /** Every part of a feasible run is feasible. */
  ghost predicate Hereditary(feasible: Feasible) {
    forall a: nat, b: nat, c: nat, d: nat :: feasible(a, b) && a <= c < d <= b ==> feasible(c, d)
  }

  ghost predicate AllFeasible(groups: seq<Range>, feasible: Feasible) {
    forall k :: 0 <= k < |groups| ==> feasible(groups[k].start, groups[k].end)
  }

  /** No group but the last could take one more image. */
  ghost predicate Maximal(groups: seq<Range>, feasible: Feasible) {
    forall k :: 0 <= k < |groups| - 1 ==> !feasible(groups[k].start, groups[k].end + 1)
  }

  lemma {:induction false} StartsInside(groups: seq<Range>, from: nat, to: nat, k: nat)
    requires Consecutive(groups, from, to) && k < |groups|
    ensures from <= groups[k].start < groups[k].end <= to
    ensures k < |groups| - 1 ==> groups[k].end < to
  {
    hide Consecutive;
    FromStart(groups, from, to, k);
    ToEnd(groups, from, to, k);
  }

  lemma {:induction false} FromStart(groups: seq<Range>, from: nat, to: nat, k: nat)
    requires Consecutive(groups, from, to) && k < |groups|
    ensures from <= groups[k].start
  {
    if k > 0 {
      FromStart(groups, from, to, k - 1);
      assert groups[k - 1].end == groups[k].start;
    }
  }

  lemma {:induction false} ToEnd(groups: seq<Range>, from: nat, to: nat, k: nat)
    requires Consecutive(groups, from, to) && k < |groups|
    ensures groups[k].start < groups[k].end <= to
    ensures k < |groups| - 1 ==> groups[k].end < to
    decreases |groups| - k
  {
    if k < |groups| - 1 {
      ToEnd(groups, from, to, k + 1);
      assert groups[k].end == groups[k + 1].start;
    }
  }

  /** The greedy groups stay ahead of any other feasible grouping. */
  lemma {:induction false} StaysAhead(greedy: seq<Range>, other: seq<Range>, n: nat, feasible: Feasible, k: nat)
    requires Consecutive(greedy, 0, n) && Consecutive(other, 0, n) && Hereditary(feasible)
    requires AllFeasible(other, feasible) && Maximal(greedy, feasible) && k < |greedy| && k < |other|
    ensures greedy[k].end >= other[k].end
  {
    StartsInside(other, 0, n, k);
    if k > 0 {
      StaysAhead(greedy, other, n, feasible, k - 1);
      assert greedy[k].start == greedy[k - 1].end && other[k].start == other[k - 1].end;
    }
    assert greedy[k].start < greedy[k].end && feasible(other[k].start, other[k].end);
    assert k < |greedy| - 1 ==> !feasible(greedy[k].start, greedy[k].end + 1);
  }

  /** No feasible grouping has fewer groups than the greedy one. */
  lemma GreedyOptimal(greedy: seq<Range>, other: seq<Range>, n: nat, feasible: Feasible)
    requires Consecutive(greedy, 0, n) && Consecutive(other, 0, n) && Hereditary(feasible)
    requires AllFeasible(other, feasible) && Maximal(greedy, feasible)
    ensures |greedy| <= |other|
  {
    if greedy != [] {
      StartsInside(greedy, 0, n, 0);
    }
    if 0 < |other| < |greedy| {
      StaysAhead(greedy, other, n, feasible, |other| - 1);
      StartsInside(greedy, 0, n, |other| - 1);
    }
  }

  /** Groups built so far: they reach `to`, and the last of them cannot take the image there. */
  ghost predicate Growing(groups: seq<Range>, to: nat, n: nat, feasible: Feasible) {
    && Consecutive(groups, 0, to) && AllFeasible(groups, feasible) && Maximal(groups, feasible)
    && (groups != [] && to < n ==> !feasible(groups[|groups| - 1].start, to + 1))
  }

  lemma Push(groups: seq<Range>, start: nat, end: nat, n: nat, feasible: Feasible)
    requires Growing(groups, start, n, feasible) && start < end <= n && feasible(start, end)
    requires end < n ==> !feasible(start, end + 1)
    ensures Growing(groups + [Range(start, end)], end, n, feasible)
  {
    var more := groups + [Range(start, end)];
    forall k | 0 <= k < |more| - 1
      ensures more[k].end == more[k + 1].start
      ensures !feasible(more[k].start, more[k].end + 1)
    {}
  }

  // ---- Batches within the scratch budget ----

  function WithinBudget(sizes: seq<nat>): Feasible {
    (a: nat, b: nat) => a <= b <= |sizes| && Sum(sizes, a, b) <= 0x1000_0000
  }

  lemma BudgetHereditary(sizes: seq<nat>)
    ensures Hereditary(WithinBudget(sizes))
  {
    forall a: nat, b: nat, c: nat, d: nat | WithinBudget(sizes)(a, b) && a <= c < d <= b
      ensures WithinBudget(sizes)(c, d)
    {
      SumPart(sizes, a, c, d, b);
    }
  }

  method BatchGroups(sizes: seq<nat>) returns (r: Option<seq<Range>>)
    ensures r.None? <==> exists k :: 0 <= k < |sizes| && sizes[k] > 0x1000_0000
    ensures r.Some? ==> Consecutive(r.value, 0, |sizes|)
    ensures r.Some? ==> AllFeasible(r.value, WithinBudget(sizes)) && Maximal(r.value, WithinBudget(sizes))
  {
    hide Growing, Consecutive, AllFeasible, Maximal;
    var n := |sizes|;
    ghost var feasible := WithinBudget(sizes);
    var groups: seq<Range> := [];
    assert Growing(groups, 0, n, feasible) by { NothingYet(n, feasible); }
    var start, bytes := 0, 0;
    for index := 0 to n
      invariant 0 <= start <= index && (start < index || index == 0)
      invariant Growing(groups, start, n, feasible)
      invariant bytes == Sum(sizes, start, index) <= BATCH_SCRATCH_BUDGET
      invariant forall k :: 0 <= k < index ==> sizes[k] <= BATCH_SCRATCH_BUDGET
    {
      var size := sizes[index];
      if size > BATCH_SCRATCH_BUDGET {
        return None;
      }
      assert Sum(sizes, start, index + 1) == bytes + size;
      if bytes + size > BATCH_SCRATCH_BUDGET {
        Push(groups, start, index, n, feasible);
        groups := groups + [Range(start, index)];
        start, bytes := index, 0;
      }
      bytes := bytes + size;
      assert bytes == Sum(sizes, start, index + 1);
    }
    if start < n {
      Push(groups, start, n, n, feasible);
      groups := groups + [Range(start, n)];
    }
    Grown(groups, n, feasible);
    return Some(groups);
  }

  lemma NothingYet(n: nat, feasible: Feasible)
    ensures Growing([], 0, n, feasible)
  {}

  lemma Grown(groups: seq<Range>, n: nat, feasible: Feasible)
    requires Growing(groups, n, n, feasible)
    ensures Consecutive(groups, 0, n) && AllFeasible(groups, feasible) && Maximal(groups, feasible)
  {}

  /** The batches cover the images in order, each within the budget, in as few groups as possible. */
  lemma BatchGroupsOptimal(sizes: seq<nat>, groups: seq<Range>, other: seq<Range>)
    requires Consecutive(groups, 0, |sizes|) && Maximal(groups, WithinBudget(sizes))
    requires Consecutive(other, 0, |sizes|) && AllFeasible(other, WithinBudget(sizes))
    ensures |groups| <= |other|
  {
    BudgetHereditary(sizes);
    GreedyOptimal(groups, other, |sizes|, WithinBudget(sizes));
  }

  // ---- Dense groups ----

  /** At most sixteen images within the budget, or one image of any size. */
  function DenseFits(sizes: seq<nat>): Feasible {
    (a: nat, b: nat) => a < b <= |sizes| && b - a <= 16
              && (b == a + 1 || Sum(sizes, a, b) <= 0x1000_0000)
  }

  lemma DenseHereditary(sizes: seq<nat>)
    ensures Hereditary(DenseFits(sizes))
  {
    forall a: nat, b: nat, c: nat, d: nat | DenseFits(sizes)(a, b) && a <= c < d <= b
      ensures DenseFits(sizes)(c, d)
    {
      SumPart(sizes, a, c, d, b);
    }
  }

  /** A group that starts at `start` and still takes image `end` makes the byte count exceed the address space. */
  ghost predicate OverflowsAt(sizes: seq<nat>, start: nat, end: nat) {
    && start <= end < |sizes| && end - start < 16
    && (end > start ==> DenseFits(sizes)(start, end)) && Sum(sizes, start, end + 1) > 0xFFFF_FFFF_FFFF_FFFF
  }

  ghost predicate ByteCountOverflows(sizes: seq<nat>, start: nat) {
    exists end: nat :: OverflowsAt(sizes, start, end)
  }

  method DenseGroupEnd(sizes: seq<nat>, start: nat) returns (r: Option<nat>)
    requires start < |sizes|
    ensures r.None? <==> ByteCountOverflows(sizes, start)
    ensures r.Some? ==> DenseFits(sizes)(start, r.value)
    ensures r.Some? && r.value < |sizes| ==> !DenseFits(sizes)(start, r.value + 1)
    ensures r.Some? ==> start < r.value <= |sizes| && r.value - start <= 16
    ensures r.Some? && r.value - start > 1 ==> Sum(sizes, start, r.value) <= 0x1000_0000
    ensures r.Some? && r.value < |sizes| && r.value - start < 16 ==> Sum(sizes, start, r.value + 1) > 0x1000_0000
  {
    var end, scratch := start, 0;
    while end < |sizes| && end - start < DENSE_IMAGES_PER_COMMAND
      invariant start <= end <= |sizes| && scratch == Sum(sizes, start, end)
      invariant end > start ==> DenseFits(sizes)(start, end)
      invariant forall e :: start < e <= end ==> Sum(sizes, start, e) <= USIZE_MAX
    {
      var next := scratch + sizes[end];
      assert next == Sum(sizes, start, end + 1);
      if next > USIZE_MAX {
        assert OverflowsAt(sizes, start, end);
        return None;
      }
      if end > start && next > BATCH_SCRATCH_BUDGET {
        NothingLarger(sizes, start, end);
        break;
      }
      scratch := next;
      end := end + 1;
    }
    return Some(end);
  }

  lemma NothingLarger(sizes: seq<nat>, start: nat, end: nat)
    requires start < end < |sizes| && Sum(sizes, start, end + 1) > BATCH_SCRATCH_BUDGET
    ensures forall e :: end < e < |sizes| ==> !DenseFits(sizes)(start, e)
  {
    forall e | end < e < |sizes|
      ensures !DenseFits(sizes)(start, e)
    {
      SumPart(sizes, start, start, end + 1, e);
    }
  }

  /** Greedy groups are determined: those that reach less far begin those that reach farther. */
  lemma {:induction false} GreedyUnique(groups: seq<Range>, part: seq<Range>, start: nat, n: nat, feasible: Feasible, k: nat)
    requires Growing(groups, n, n, feasible) && Growing(part, start, n, feasible) && start < n
    requires Hereditary(feasible) && k < |part|
    ensures k < |groups| && groups[k] == part[k]
  {
    StartsInside(part, 0, start, k);
    if k > 0 {
      StartsInside(part, 0, start, k - 1);
      GreedyUnique(groups, part, start, n, feasible, k - 1);
      assert k < |groups|;
      assert groups[k - 1].end == groups[k].start && part[k - 1].end == part[k].start;
    }
    StartsInside(groups, 0, n, k);
    var from, a, b := groups[k].start, groups[k].end, part[k].end;
    assert feasible(from, a) && feasible(from, b);
    assert !feasible(from, b + 1);
    assert k < |groups| - 1 ==> !feasible(from, a + 1);
  }

  /** Where greedy groups stop short of the end, the full list has its next group. */
  lemma NextStart(groups: seq<Range>, part: seq<Range>, start: nat, n: nat, feasible: Feasible)
    requires Growing(groups, n, n, feasible) && Growing(part, start, n, feasible) && start < n && Hereditary(feasible)
    ensures |part| < |groups| && groups[|part|].start == start
  {
    if part != [] {
      var last := |part| - 1;
      GreedyUnique(groups, part, start, n, feasible, last);
      assert groups[last].end == start;
      assert |part| < |groups|;
      assert groups[last].end == groups[|part|].start;
    }
  }

  /** The greedy groups reach an image at which the byte count of the next group overflows. */
  ghost predicate DenseOverflows(sizes: seq<nat>) {
    exists part, start: nat ::
      Growing(part, start, |sizes|, DenseFits(sizes)) && start < |sizes| && ByteCountOverflows(sizes, start)
  }

  /** The grouping loop of a dense batch; it always advances. */
  method DenseGroups(sizes: seq<nat>) returns (r: Option<seq<Range>>)
    ensures r.None? <==> DenseOverflows(sizes)
    ensures r.Some? ==> Consecutive(r.value, 0, |sizes|)
    ensures r.Some? ==> AllFeasible(r.value, DenseFits(sizes)) && Maximal(r.value, DenseFits(sizes))
  {
    hide Growing, Consecutive, AllFeasible, Maximal, ByteCountOverflows, DenseFits;
    ghost var feasible := DenseFits(sizes);
    var groups: seq<Range> := [];
    NothingYet(|sizes|, feasible);
    var start := 0;
    while start < |sizes|
      invariant 0 <= start <= |sizes| && Growing(groups, start, |sizes|, feasible)
      invariant forall k :: 0 <= k < |groups| ==> !ByteCountOverflows(sizes, groups[k].start)
    {
      var end := DenseGroupEnd(sizes, start);
      if end.None? {
        return None;
      }
      DenseAdvances(sizes, start, end.value);
      Push(groups, start, end.value, |sizes|, feasible);
      groups := groups + [Range(start, end.value)];
      start := end.value;
    }
    Grown(groups, |sizes|, feasible);
    DenseHereditary(sizes);
    forall part, from: nat | from < |sizes| && Growing(part, from, |sizes|, feasible)
      ensures !ByteCountOverflows(sizes, from)
    {
      NextStart(groups, part, from, |sizes|, feasible);
    }
    return Some(groups);
  }

  lemma DenseAdvances(sizes: seq<nat>, start: nat, end: nat)
    requires DenseFits(sizes)(start, end)
    ensures start < end <= |sizes|
  {}

  /** Dense groups are as few as sixteen-image groups within the budget can be. */
  lemma DenseGroupsOptimal(sizes: seq<nat>, groups: seq<Range>, other: seq<Range>)
    requires Consecutive(groups, 0, |sizes|) && Maximal(groups, DenseFits(sizes))
    requires Consecutive(other, 0, |sizes|) && AllFeasible(other, DenseFits(sizes))
    ensures |groups| <= |other|
  {
    DenseHereditary(sizes);
    GreedyOptimal(groups, other, |sizes|, DenseFits(sizes));
  }
}
