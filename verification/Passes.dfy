/**
 Overlap passes on the device: the addresses each work record touches, the filter it runs, and what
 exact tiling means for a whole pass.
 */
module Passes {
  import opened Arithmetic
  import opened Wrappers
  import opened Memory
  import opened Operators
  import opened Blocks
  import opened Phases
  import opened Overlap
  import opened Tiling

  /** The cells a record loads, in the order of its filter's operands. */
  function Addresses(w: Work): seq<nat> {
    var f, s := w.first, w.second;
    if w.kind == 0 then
      [f, f + 1, f + 2, f + 3,
       f + s, f + s + 1, f + s + 2, f + s + 3,
       f + s * 2, f + s * 2 + 1, f + s * 2 + 2, f + s * 2 + 3,
       f + s * 3, f + s * 3 + 1, f + s * 3 + 2, f + s * 3 + 3]
    else if w.kind == 1 then [f, f + s, f + s * 2, f + s * 3]
    else if w.kind <= 3 then [f, f + 1, f + s, f + s + 1]
    else if w.kind <= 6 then [f, s]
    else []
  }

  function Destinations(w: Work): seq<nat> {
    if w.kind == 5 || w.kind == 6 then [w.first] else Addresses(w)
  }

  /** The exact result of a record's filter. */
  ghost function Filter(kind: nat, v: seq<int>): (r: seq<int>)
    requires |v| == |Addresses(Work(0, 0, kind))|
    ensures |r| == |Destinations(Work(0, 0, kind))|
  {
    if kind == 0 then Overlap4x4(v)
    else if kind <= 2 then InverseOverlap4(v)
    else if kind == 3 then InverseOverlap2x2(v)
    else if kind == 4 then InverseOverlap2(v)
    else if kind == 5 then [v[0] - v[1]]
    else if kind == 6 then [v[0] + v[1]]
    else []
  }

  /** The encoder's filter that takes the result back. */
  ghost function ForwardFilter(kind: nat, v: seq<int>): (r: seq<int>)
    requires |v| == |Addresses(Work(0, 0, kind))|
    ensures |r| == |Destinations(Work(0, 0, kind))|
  {
    if kind == 0 then ForwardOverlap4x4(v)
    else if kind <= 2 then ForwardOverlap4(v)
    else if kind == 3 then ForwardOverlap2x2(v)
    else if kind == 4 then ForwardOverlap2(v)
    else if kind == 5 then [v[0] + v[1]]
    else if kind == 6 then [v[0] - v[1]]
    else []
  }

  /** Which operands a filter completes on in 32 bits. Every theorem holds for any such predicate. */
  type Fitting = (nat, seq<int>) -> bool

  ghost function WorkItem(w: Work, fits: Fitting): Item {
    Item(Addresses(w), Destinations(w),
         v => if |v| == |Addresses(Work(0, 0, w.kind))| && fits(w.kind, v) then Some(Filter(w.kind, v)) else None)
  }

  ghost function WorkItems(works: seq<Work>, fits: Fitting): (items: seq<Item>)
    ensures |items| == |works|
    ensures forall k :: 0 <= k < |works| ==> items[k] == WorkItem(works[k], fits)
  {
    seq(|works|, k requires 0 <= k < |works| => WorkItem(works[k], fits))
  }

  /** Records whose addresses are distinct. */
  predicate ValidWork(w: Work) {
    && (w.kind == 0 ==> w.second >= 4)
    && (w.kind == 1 ==> w.second >= 1)
    && (2 <= w.kind <= 3 ==> w.second >= 2)
    && (4 <= w.kind <= 6 ==> w.first != w.second)
  }

  lemma AddressesDistinct(w: Work)
    requires ValidWork(w)
    ensures Distinct(Addresses(w)) && Distinct(Destinations(w))
  {
    if w.kind == 0 {
      BlockAddressesDistinct(w.first, w.second);
    }
  }

  lemma BlockAddressesDistinct(first: nat, stride: nat)
    requires stride >= 4
    ensures Distinct(Addresses(Work(first, stride, 0)))
  {
    var a := Addresses(Work(first, stride, 0));
    forall i, j | 0 <= i < j < 16
      ensures a[i] != a[j]
    {
      BlockAddress(first, stride, i);
      BlockAddress(first, stride, j);
    }
  }

  lemma BlockAddress(first: nat, stride: nat, i: nat)
    requires i < 16
    ensures var a := Addresses(Work(first, stride, 0))[i];
      first + stride * (i / 4) <= a == first + stride * (i / 4) + i % 4 && i % 4 <= 3
  {}

  // ---- From tiles to addresses ----

  /** Two addresses of a row-major plane are equal only for the same cell. */
  lemma SameCell(stride: nat, x: nat, y: nat, cx: nat, cy: nat)
    requires x < stride && cx < stride
    ensures cy * stride + cx == y * stride + x <==> cx == x && cy == y
  {
    DivisionUnique(y * stride + x, stride, y, x);
    DivisionUnique(cy * stride + cx, stride, cy, cx);
  }

  ghost predicate InPlane(t: Tile, width: nat, height: nat) {
    forall x: nat, y: nat :: Covers(t, x, y) ==> x < width && y < height
  }

  /** The cell behind an address. */
  lemma CellOf(at: Layout, i: nat) returns (x: nat, y: nat)
    requires at.stride > 0 && i >= at.offset
    ensures x < at.stride && i == Index(at, x, y)
  {
    var d := i - at.offset;
    x, y := d % at.stride, d / at.stride;
  }

  lemma Offset(at: Layout, t: Tile, a: nat, b: nat, x: nat, y: nat)
    requires at.stride > 0 && x < at.stride && t.x + a < at.stride
    ensures Index(at, t.x, t.y) + at.stride * b + a == Index(at, x, y) <==> x == t.x + a && y == t.y + b
  {
    SameCell(at.stride, x, y, t.x + a, t.y + b);
    assert (t.y + b) * at.stride == t.y * at.stride + at.stride * b;
  }

  /** Whether address `i` is one of the four that follow `f`. */
  predicate InFour(i: nat, f: nat) {
    i == f || i == f + 1 || i == f + 2 || i == f + 3
  }

  lemma OffsetsOfRow(at: Layout, t: Tile, b: nat, x: nat, y: nat)
    requires at.stride > 0 && x < at.stride && t.x + 3 < at.stride
    ensures InFour(Index(at, x, y), Index(at, t.x, t.y) + at.stride * b) <==> t.x <= x < t.x + 4 && y == t.y + b
  {
    Offset(at, t, 0, b, x, y);
    Offset(at, t, 1, b, x, y);
    Offset(at, t, 2, b, x, y);
    Offset(at, t, 3, b, x, y);
    hide Index;
  }

  lemma BlockMembers(i: nat, f: nat, s: nat)
    ensures i in Addresses(Work(f, s, 0)) <==>
      InFour(i, f) || InFour(i, f + s) || InFour(i, f + s * 2) || InFour(i, f + s * 3)
  {
    var a := Addresses(Work(f, s, 0));
    assert a == a[..4] + a[4..8] + a[8..12] + a[12..];
    assert a[..4] == [f, f + 1, f + 2, f + 3];
    assert a[4..8] == [f + s, f + s + 1, f + s + 2, f + s + 3];
    assert a[8..12] == [f + s * 2, f + s * 2 + 1, f + s * 2 + 2, f + s * 2 + 3];
    assert a[12..] == [f + s * 3, f + s * 3 + 1, f + s * 3 + 2, f + s * 3 + 3];
  }

  lemma BlockTouches(at: Layout, t: Tile, x: nat, y: nat)
    requires t.Block? && at.stride > 0 && t.x + 3 < at.stride && x < at.stride
    ensures Index(at, x, y) in Addresses(Work(Index(at, t.x, t.y), at.stride, 0)) <==> Covers(t, x, y)
  {
    OffsetsOfRow(at, t, 0, x, y);
    OffsetsOfRow(at, t, 1, x, y);
    OffsetsOfRow(at, t, 2, x, y);
    OffsetsOfRow(at, t, 3, x, y);
    hide Index, InFour, Addresses;
    BlockMembers(Index(at, x, y), Index(at, t.x, t.y), at.stride);
  }

  lemma SquareTouches(at: Layout, t: Tile, kind: nat, x: nat, y: nat)
    requires (t.Corner? || t.Square?) && at.stride > 0 && t.x + 1 < at.stride && x < at.stride && 2 <= kind <= 3
    ensures Index(at, x, y) in Addresses(Work(Index(at, t.x, t.y), at.stride, kind)) <==> Covers(t, x, y)
  {
    Offset(at, t, 0, 0, x, y);
    Offset(at, t, 1, 0, x, y);
    Offset(at, t, 0, 1, x, y);
    Offset(at, t, 1, 1, x, y);
    hide Index;
  }

  lemma ColumnTouches(at: Layout, t: Tile, x: nat, y: nat)
    requires t.Column? && at.stride > 0 && t.x < at.stride && x < at.stride
    ensures Index(at, x, y) in Addresses(Work(Index(at, t.x, t.y), at.stride, 1)) <==> Covers(t, x, y)
  {
    Offset(at, t, 0, 0, x, y);
    Offset(at, t, 0, 1, x, y);
    Offset(at, t, 0, 2, x, y);
    Offset(at, t, 0, 3, x, y);
    hide Index;
  }

  lemma RowTouches(at: Layout, t: Tile, x: nat, y: nat)
    requires t.Row? && at.stride > 0 && t.x + 3 < at.stride && x < at.stride
    ensures Index(at, x, y) in Addresses(Work(Index(at, t.x, t.y), 1, 1)) <==> Covers(t, x, y)
  {
    OffsetsOfRow(at, t, 0, x, y);
    hide Index;
  }

  lemma PairTouches(at: Layout, t: Tile, w: Work, x: nat, y: nat)
    requires t.Upright? || t.Level? || t.Residual? || t.Restore?
    requires at.stride > 0 && Encode(at, t) == Some(w) && x < at.stride
    requires forall cx: nat, cy: nat :: Covers(t, cx, cy) ==> cx < at.stride
    ensures Index(at, x, y) in Addresses(w) <==> Covers(t, x, y)
  {
    var sx := if t.Upright? then t.x else if t.Level? then t.x + 1 else t.source;
    var sy := if t.Upright? then t.y + 1 else t.y;
    assert Covers(t, t.x, t.y) && Covers(t, sx, sy);
    SameCell(at.stride, x, y, t.x, t.y);
    SameCell(at.stride, x, y, sx, sy);
    assert w.first == Index(at, t.x, t.y) && w.second == Index(at, sx, sy) && 4 <= w.kind <= 6;
  }

  /** A record touches exactly the addresses of the cells its tile covers. */
  lemma EncodedTouches(at: Layout, t: Tile, w: Work, height: nat, x: nat, y: nat)
    requires at.stride > 0 && Encode(at, t) == Some(w) && InPlane(t, at.stride, height) && x < at.stride
    ensures Index(at, x, y) in Addresses(w) <==> Covers(t, x, y)
  {
    assert Covers(t, t.x, t.y);
    hide Index;
    match t
    case Block(a, b) =>
      assert Covers(t, a + 3, b);
      BlockTouches(at, t, x, y);
    case Column(_, _) =>
      ColumnTouches(at, t, x, y);
    case Row(a, b) =>
      assert Covers(t, a + 3, b);
      RowTouches(at, t, x, y);
    case Corner(a, b) =>
      assert Covers(t, a + 1, b);
      SquareTouches(at, t, 2, x, y);
    case Square(a, b) =>
      assert Covers(t, a + 1, b);
      SquareTouches(at, t, 3, x, y);
    case _ =>
      PairTouches(at, t, w, x, y);
  }

  // ---- One filter, applied and taken back ----

  ghost function Filtered(w: Work, memory: seq<int>): (after: seq<int>)
    requires Within(Addresses(w), |memory|)
    ensures |after| == |memory|
  {
    Scatter(memory, Destinations(w), Filter(w.kind, Gather(memory, Addresses(w))))
  }

  ghost function Unfiltered(w: Work, memory: seq<int>): (before: seq<int>)
    requires Within(Addresses(w), |memory|)
    ensures |before| == |memory|
  {
    Scatter(memory, Destinations(w), ForwardFilter(w.kind, Gather(memory, Addresses(w))))
  }

  lemma FilterOperatorsReversible(kind: nat, v: seq<int>)
    requires |v| == |Addresses(Work(0, 0, kind))| && kind <= 4
    ensures ForwardFilter(kind, Filter(kind, v)) == v
    ensures Filter(kind, ForwardFilter(kind, v)) == v
  {
    if kind == 0 {
      Overlap4x4Reversible(v);
    } else if kind <= 2 {
      Overlap4Undone(v);
      Overlap4Redone(v);
    } else if kind == 3 {
      Overlap2x2Reversible(v);
    } else {
      Overlap2Reversible(v);
    }
    hide Overlap4x4, ForwardOverlap4x4, InverseOverlap4, ForwardOverlap4;
    hide InverseOverlap2x2, ForwardOverlap2x2, InverseOverlap2, ForwardOverlap2;
  }

  lemma FilterReversible(w: Work, memory: seq<int>)
    requires ValidWork(w) && Within(Addresses(w), |memory|)
    ensures Unfiltered(w, Filtered(w, memory)) == memory
    ensures Filtered(w, Unfiltered(w, memory)) == memory
  {
    AddressesDistinct(w);
    var at := Addresses(w);
    var values := Gather(memory, at);
    if w.kind <= 4 {
      hide Filter, ForwardFilter, Addresses;
      FilterOperatorsReversible(w.kind, values);
      GatherScatter(memory, at, values);
      GatherScatter(memory, at, Filter(w.kind, values));
      GatherScatter(memory, at, ForwardFilter(w.kind, values));
      ScatterTwice(memory, at, Filter(w.kind, values), values);
      ScatterTwice(memory, at, ForwardFilter(w.kind, values), values);
    } else if w.kind <= 6 {
      ResidualReversible(w, memory);
    }
  }

  lemma ScatterOne(memory: seq<int>, cell: nat, value: int)
    requires cell < |memory|
    ensures Scatter(memory, [cell], [value]) == memory[cell := value]
  {
    var at, values := [cell], [value];
    assert at[..0] == [] && values[..0] == [];
    assert Scatter(memory, at[..0], values[..0]) == memory;
  }

  /** What the two corner-residual records compute. */
  lemma ResidualMeaning(w: Work, memory: seq<int>)
    requires 5 <= w.kind <= 6 && w.first < |memory| && w.second < |memory|
    ensures Within(Addresses(w), |memory|)
    ensures Filtered(w, memory) == memory[w.first :=
      if w.kind == 5 then memory[w.first] - memory[w.second] else memory[w.first] + memory[w.second]]
    ensures Unfiltered(w, memory) == memory[w.first :=
      if w.kind == 5 then memory[w.first] + memory[w.second] else memory[w.first] - memory[w.second]]
  {
    var at := Addresses(w);
    var v := Gather(memory, at);
    assert v == [memory[w.first], memory[w.second]];
    ScatterOne(memory, w.first, Filter(w.kind, v)[0]);
    ScatterOne(memory, w.first, ForwardFilter(w.kind, v)[0]);
    assert Filter(w.kind, v) == [Filter(w.kind, v)[0]];
    assert ForwardFilter(w.kind, v) == [ForwardFilter(w.kind, v)[0]];
  }

  lemma ResidualReversible(w: Work, memory: seq<int>)
    requires 5 <= w.kind <= 6 && ValidWork(w) && Within(Addresses(w), |memory|)
    ensures Unfiltered(w, Filtered(w, memory)) == memory
    ensures Filtered(w, Unfiltered(w, memory)) == memory
  {
    assert Addresses(w)[0] == w.first && Addresses(w)[1] == w.second;
    hide Filtered, Unfiltered, Addresses;
    ResidualMeaning(w, memory);
    ResidualMeaning(w, Filtered(w, memory));
    ResidualMeaning(w, Unfiltered(w, memory));
  }

  /** The forward pass: the filters taken back in reverse order. */
  ghost function UndoAll(works: seq<Work>, memory: seq<int>): (before: seq<int>)
    requires forall k :: 0 <= k < |works| ==> Within(Addresses(works[k]), |memory|)
    ensures |before| == |memory|
  {
    if works == [] then memory else UndoAll(works[..|works| - 1], Unfiltered(works[|works| - 1], memory))
  }

  /** Records the planner may emit for a memory of `size` cells. */
  ghost predicate ValidWorks(works: seq<Work>, size: nat) {
    forall k :: 0 <= k < |works| ==> ValidWork(works[k]) && Within(Addresses(works[k]), size)
  }

  lemma WorkItemValid(w: Work, fits: Fitting, size: nat)
    requires ValidWork(w) && Within(Addresses(w), size)
    ensures ValidItem(WorkItem(w, fits), size)
  {
    AddressesDistinct(w);
    assert 5 <= w.kind <= 6 ==> Addresses(w)[0] == w.first;
    assert |Destinations(w)| == |Destinations(Work(0, 0, w.kind))|;
    assert |Addresses(w)| == |Addresses(Work(0, 0, w.kind))|;
    hide Addresses, Filter;
    var item := WorkItem(w, fits);
    assert Within(item.loads, size);
    assert Within(item.stores, size);
    forall v: seq<int> | |v| == |item.loads| && item.op(v).Some?
      ensures |item.op(v).value| == |item.stores|
    {
      assert item.op(v).value == Filter(w.kind, v);
    }
  }

  lemma WorkItemsValid(works: seq<Work>, fits: Fitting, size: nat)
    requires ValidWorks(works, size)
    ensures ValidItems(WorkItems(works, fits), size)
  {
    forall k | 0 <= k < |works|
      ensures ValidItem(WorkItem(works[k], fits), size)
    {
      WorkItemValid(works[k], fits, size);
    }
  }

  lemma ApplyWork(w: Work, fits: Fitting, memory: seq<int>)
    requires Within(Addresses(w), |memory|) && ValidItem(WorkItem(w, fits), |memory|)
    ensures Apply(WorkItem(w, fits), memory) ==
      if fits(w.kind, Gather(memory, Addresses(w))) then Some(Filtered(w, memory)) else None
  {
    hide Filter;
  }

  /** A pass that completes can be taken back: the forward pass restores the memory it started from. */
  lemma {:induction false} PassUndone(works: seq<Work>, fits: Fitting, memory: seq<int>)
    requires ValidWorks(works, |memory|) && ValidItems(WorkItems(works, fits), |memory|)
    ensures Run(WorkItems(works, fits), memory).Some? ==>
      UndoAll(works, Run(WorkItems(works, fits), memory).value) == memory
  {
    if works != [] && Run(WorkItems(works, fits), memory).Some? {
      hide Addresses, Filter, ForwardFilter;
      var init, last := works[..|works| - 1], works[|works| - 1];
      var items := WorkItems(works, fits);
      assert items[..|items| - 1] == WorkItems(init, fits);
      PassUndone(init, fits, memory);
      var middle := Run(WorkItems(init, fits), memory).value;
      assert items[|items| - 1] == WorkItem(last, fits);
      ApplyWork(last, fits, middle);
      FilterReversible(last, middle);
    }
  }

  ghost predicate Always(fits: Fitting) {
    forall kind: nat, v: seq<int> :: fits(kind, v)
  }

  /** Corner records complete on small samples, as they do in 32 bits. */
  ghost predicate Modest(fits: Fitting) {
    forall kind: nat, v: seq<int> :: 5 <= kind <= 6 && |v| == 2 && -8 <= v[0] <= 8 && -8 <= v[1] <= 8 ==> fits(kind, v)
  }

  /** On unbounded integers the forward pass is a two-sided inverse: a pass is a bijection on memories. */
  lemma {:induction false} PassRedone(works: seq<Work>, fits: Fitting, memory: seq<int>)
    requires ValidWorks(works, |memory|) && ValidItems(WorkItems(works, fits), |memory|) && Always(fits)
    ensures Run(WorkItems(works, fits), UndoAll(works, memory)) == Some(memory)
  {
    if works != [] {
      hide Addresses, Filter, ForwardFilter, Run;
      var init, last := works[..|works| - 1], works[|works| - 1];
      assert WorkItems(works, fits)[..|init|] == WorkItems(init, fits);
      PassRedone(init, fits, Unfiltered(last, memory));
      RunWork(works, fits, UndoAll(works, memory), Unfiltered(last, memory));
      FilterReversible(last, memory);
    } else {
      assert WorkItems(works, fits) == [];
    }
  }

  /** The last record of a pass, after all others. */
  lemma RunWork(works: seq<Work>, fits: Fitting, memory: seq<int>, middle: seq<int>)
    requires works != [] && ValidWorks(works, |memory|) && ValidItems(WorkItems(works, fits), |memory|)
    requires ValidItems(WorkItems(works[..|works| - 1], fits), |memory|)
    requires Run(WorkItems(works[..|works| - 1], fits), memory) == Some(middle)
    ensures Run(WorkItems(works, fits), memory) ==
      if fits(works[|works| - 1].kind, Gather(middle, Addresses(works[|works| - 1])))
      then Some(Filtered(works[|works| - 1], middle)) else None
  {
    hide Addresses, Filter;
    var items, last := WorkItems(works, fits), works[|works| - 1];
    assert items[..|items| - 1] == WorkItems(works[..|works| - 1], fits);
    assert items[|items| - 1] == WorkItem(last, fits);
    hide WorkItem;
    ApplyWork(last, fits, middle);
  }
}
