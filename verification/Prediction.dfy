/**
 High-pass prediction inside a macroblock: each predicted coefficient becomes the sum of the originals
 along its row or column of blocks.
 */
module Prediction {
  import opened Arithmetic

  datatype Direction = NoPrediction | FromLeft | FromTop

  /** How many blocks precede `block` in the direction of prediction, and how far apart they are. */
  function Depth(direction: Direction, columns: nat, block: nat): nat
    requires columns > 0
  {
    match direction
    case NoPrediction => 0
    case FromLeft => block % columns
    case FromTop => block / columns
  }

  function Stride(direction: Direction, columns: nat): nat {
    if direction.FromTop? then columns else 1
  }

  predicate Predicts(direction: Direction, position: nat) {
    match direction
    case NoPrediction => false
    case FromLeft => position == 4 || position == 8 || position == 12
    case FromTop => 1 <= position <= 3
  }

  /** The sum of the coefficients at one position of `depth + 1` blocks, ending with `block`. */
  ghost function RunningSum(c: seq<int>, block: nat, stride: nat, depth: nat, position: nat): int
    requires block >= stride * depth && position < 16 && block * 16 + position < |c|
    decreases depth
  {
    c[block * 16 + position] +
    if depth == 0 then 0
    else
      assert stride * depth == stride * (depth - 1) + stride;
      RunningSum(c, block - stride, stride, depth - 1, position)
  }

  lemma BlockDepth(direction: Direction, columns: nat, row: nat, column: nat)
    requires column < columns
    ensures Depth(direction, columns, row * columns + column) ==
      if direction.FromLeft? then column else if direction.FromTop? then row else 0
  {
    var block := row * columns + column;
    assert columns * row == row * columns;
    DivisionUnique(block, columns, row, column);
    assert block % columns == block - columns * (block / columns);
  }

  lemma DepthReaches(direction: Direction, columns: nat, block: nat)
    requires columns > 0
    ensures Stride(direction, columns) * Depth(direction, columns, block) <= block
    ensures Depth(direction, columns, block) > 0 ==>
      block >= Stride(direction, columns)
      && Depth(direction, columns, block - Stride(direction, columns)) == Depth(direction, columns, block) - 1
  {
    hide Depth;
    var row, column := RowAndColumn(columns, block);
    BlockDepth(direction, columns, row, column);
    if direction.FromLeft? && column > 0 {
      BlockDepth(direction, columns, row, column - 1);
    } else if direction.FromTop? {
      assert columns * row == row * columns;
      if row > 0 {
        assert (row - 1) * columns == row * columns - columns;
        BlockDepth(direction, columns, row - 1, column);
      }
    }
  }

  lemma RowAndColumn(columns: nat, block: nat) returns (row: nat, column: nat)
    requires columns > 0
    ensures column < columns && block == row * columns + column
  {
    row, column := block / columns, block % columns;
    assert block == columns * row + column;
  }

  /** The predicted value of coefficient `i` of a macroblock of `count` blocks. */
  ghost function PredictedAt(direction: Direction, columns: nat, count: nat, c: seq<int>, i: nat): int
    requires columns > 0 && i < |c|
  {
    DepthReaches(direction, columns, i / 16);
    if i < count * 16 && Predicts(direction, i % 16)
    then RunningSum(c, i / 16, Stride(direction, columns), Depth(direction, columns, i / 16), i % 16)
    else c[i]
  }

  ghost function Predicted(direction: Direction, columns: nat, count: nat, c: seq<int>): (r: seq<int>)
    requires columns > 0
    ensures |r| == |c|
    ensures forall i :: 0 <= i < |c| ==> r[i] == PredictedAt(direction, columns, count, c, i)
  {
    seq(|c|, i requires 0 <= i < |c| => PredictedAt(direction, columns, count, c, i))
  }

  /** The encoder's step: each predicted coefficient minus its neighbour. */
  ghost function Differenced(direction: Direction, columns: nat, count: nat, c: seq<int>): (r: seq<int>)
    requires columns > 0
    ensures |r| == |c|
  {
    seq(|c|, i requires 0 <= i < |c| => DifferenceAt(direction, columns, count, c, i))
  }

  ghost function DifferenceAt(direction: Direction, columns: nat, count: nat, c: seq<int>, i: nat): int
    requires columns > 0 && i < |c|
  {
    DepthReaches(direction, columns, i / 16);
    if i < count * 16 && Predicts(direction, i % 16) && Depth(direction, columns, i / 16) > 0
    then c[i] - c[i - Stride(direction, columns) * 16]
    else c[i]
  }

  /** A predicted coefficient is its original plus the predicted coefficient of the block before. */
  lemma PredictedStep(direction: Direction, columns: nat, count: nat, c: seq<int>, i: nat)
    requires columns > 0 && i < |c| && i < count * 16 && Predicts(direction, i % 16)
    requires Depth(direction, columns, i / 16) > 0
    ensures i >= Stride(direction, columns) * 16
    ensures PredictedAt(direction, columns, count, c, i) ==
      c[i] + PredictedAt(direction, columns, count, c, i - Stride(direction, columns) * 16)
  {
    DepthReaches(direction, columns, i / 16);
    var back := i - Stride(direction, columns) * 16;
    assert back / 16 == i / 16 - Stride(direction, columns) && back % 16 == i % 16;
  }

  lemma PredictedStays(direction: Direction, columns: nat, count: nat, c: seq<int>, i: nat)
    requires columns > 0 && i < |c|
    requires i >= count * 16 || !Predicts(direction, i % 16) || Depth(direction, columns, i / 16) == 0
    ensures PredictedAt(direction, columns, count, c, i) == c[i]
  {
    DepthReaches(direction, columns, i / 16);
  }

  /** Differencing takes prediction back. */
  lemma PredictionUndone(direction: Direction, columns: nat, count: nat, c: seq<int>)
    requires columns > 0
    ensures Differenced(direction, columns, count, Predicted(direction, columns, count, c)) == c
  {
    hide PredictedAt;
    var p := Predicted(direction, columns, count, c);
    forall i | 0 <= i < |c|
      ensures Differenced(direction, columns, count, p)[i] == c[i]
    {
      if i < count * 16 && Predicts(direction, i % 16) && Depth(direction, columns, i / 16) > 0 {
        PredictedStep(direction, columns, count, c, i);
      } else {
        PredictedStays(direction, columns, count, c, i);
      }
    }
  }

  /** And prediction takes differencing back. */
  lemma DifferenceUndone(direction: Direction, columns: nat, count: nat, c: seq<int>)
    requires columns > 0
    ensures Predicted(direction, columns, count, Differenced(direction, columns, count, c)) == c
  {
    var d := Differenced(direction, columns, count, c);
    forall i | 0 <= i < |c|
      ensures PredictedAt(direction, columns, count, d, i) == c[i]
    {
      DifferenceUndoneAt(direction, columns, count, c, i);
    }
  }

  lemma {:induction false} DifferenceUndoneAt(direction: Direction, columns: nat, count: nat, c: seq<int>, i: nat)
    requires columns > 0 && i < |c|
    ensures PredictedAt(direction, columns, count, Differenced(direction, columns, count, c), i) == c[i]
    decreases i
  {
    hide PredictedAt;
    var d := Differenced(direction, columns, count, c);
    assert d[i] == DifferenceAt(direction, columns, count, c, i);
    if i < count * 16 && Predicts(direction, i % 16) && Depth(direction, columns, i / 16) > 0 {
      PredictedStep(direction, columns, count, d, i);
      DifferenceUndoneAt(direction, columns, count, c, i - Stride(direction, columns) * 16);
    } else {
      PredictedStays(direction, columns, count, d, i);
    }
  }

  // ---- In place ----

  /** Whether every value prediction stores fits in 32 bits. */
  ghost predicate PredictionFits(direction: Direction, columns: nat, count: nat, c: seq<int>)
    requires columns > 0
  {
    forall i :: 0 <= i < |c| ==> FitsI32(PredictedAt(direction, columns, count, c, i))
  }

  /** The macroblock once the coefficients below `next` are predicted. */
  ghost predicate PredictedBelow(direction: Direction, columns: nat, count: nat, before: seq<int>, now: seq<int>, next: nat)
    requires columns > 0
  {
    && |now| == |before|
    && forall i :: 0 <= i < |now| ==>
         now[i] == if i < next then PredictedAt(direction, columns, count, before, i) else before[i]
  }

  /** Coefficients that are not predicted count as done. */
  lemma SkipTo(direction: Direction, columns: nat, count: nat, before: seq<int>, now: seq<int>, next: nat, later: nat)
    requires columns > 0 && PredictedBelow(direction, columns, count, before, now, next) && next <= later
    requires forall i :: next <= i < later && i < |now| ==>
      i >= count * 16 || !Predicts(direction, i % 16) || Depth(direction, columns, i / 16) == 0
    ensures PredictedBelow(direction, columns, count, before, now, later)
  {
    hide PredictedAt;
    forall i | 0 <= i < |now|
      ensures now[i] == if i < later then PredictedAt(direction, columns, count, before, i) else before[i]
    {
      if next <= i < later {
        PredictedStays(direction, columns, count, before, i);
      }
    }
  }

  /** Adds one coefficient of the block before; fails exactly when the predicted value overflows. */
  method AddPrevious(c: array<i32>, i: nat, direction: Direction, columns: nat, ghost count: nat, ghost before: seq<int>)
    returns (r: Outcome)
    requires columns > 0 && i < c.Length && i < count * 16 && Predicts(direction, i % 16)
    requires Depth(direction, columns, i / 16) > 0
    requires PredictedBelow(direction, columns, count, before, c[..], i)
    modifies c
    ensures r.Done? ==> PredictedBelow(direction, columns, count, before, c[..], i + 1)
    ensures r.Overflow? ==> !PredictionFits(direction, columns, count, before)
  {
    hide PredictedAt;
    PredictedStep(direction, columns, count, before, i);
    assert c[..][i] == before[i];
    assert Stride(direction, columns) > 0;
    assert c[..][i - Stride(direction, columns) * 16] == c[i - Stride(direction, columns) * 16];
    c[i] :- CheckedAdd(c[i], c[i - Stride(direction, columns) * 16]);
    return Done;
  }

  /** The three predicted positions of a block. */
  function Positions(direction: Direction): seq<nat> {
    match direction
    case NoPrediction => []
    case FromLeft => [4, 8, 12]
    case FromTop => [1, 2, 3]
  }

  /** Where the `k`-th search for a predicted position starts, and where it ends. */
  function GapStart(direction: Direction, block: nat, k: nat): nat
    requires !direction.NoPrediction? && k <= 3
  {
    block * 16 + if k == 0 then 0 else Positions(direction)[k - 1] + 1
  }

  function GapEnd(direction: Direction, block: nat, k: nat): (end: nat)
    requires !direction.NoPrediction? && k <= 3
    ensures block * 16 <= end <= block * 16 + 16
    ensures k < 3 ==> end == block * 16 + Positions(direction)[k] && end / 16 == block && Predicts(direction, end % 16)
    ensures k < 3 ==> GapStart(direction, block, k + 1) == end + 1
  {
    block * 16 + if k == 3 then 16 else Positions(direction)[k]
  }

  lemma SkipGap(direction: Direction, columns: nat, count: nat, before: seq<int>, now: seq<int>, block: nat, k: nat)
    requires columns > 0 && !direction.NoPrediction? && k <= 3
    requires PredictedBelow(direction, columns, count, before, now, GapStart(direction, block, k))
    ensures |now| == |before|
    ensures PredictedBelow(direction, columns, count, before, now, GapEnd(direction, block, k))
  {
    hide PredictedAt, Depth;
    SkipTo(direction, columns, count, before, now, GapStart(direction, block, k), GapEnd(direction, block, k));
  }

  method PredictBlock(c: array<i32>, block: nat, direction: Direction, columns: nat, ghost count: nat, ghost before: seq<int>)
    returns (r: Outcome)
    requires columns > 0 && block < count && count * 16 <= c.Length && !direction.NoPrediction?
    requires Depth(direction, columns, block) > 0
    requires PredictedBelow(direction, columns, count, before, c[..], block * 16)
    modifies c
    ensures r.Done? ==> PredictedBelow(direction, columns, count, before, c[..], block * 16 + 16)
    ensures r.Overflow? ==> !PredictionFits(direction, columns, count, before)
  {
    var positions := Positions(direction);
    for k := 0 to 3
      invariant PredictedBelow(direction, columns, count, before, c[..], GapStart(direction, block, k))
    {
      hide PredictedAt, PredictedBelow, Depth, PredictionFits, Stride, Predicts, GapStart;
      SkipGap(direction, columns, count, before, c[..], block, k);
      assert GapEnd(direction, block, k) == block * 16 + positions[k];
      :- AddPrevious(c, block * 16 + positions[k], direction, columns, count, before);
    }
    SkipGap(direction, columns, count, before, c[..], block, 3);
    return Done;
  }

  lemma PredictionBegins(direction: Direction, columns: nat, count: nat, before: seq<int>)
    requires columns > 0
    ensures PredictedBelow(direction, columns, count, before, before, 0)
  {}

  lemma PredictionEnds(direction: Direction, columns: nat, count: nat, before: seq<int>, now: seq<i32>)
    requires columns > 0 && PredictedBelow(direction, columns, count, before, now, count * 16)
    ensures now == Predicted(direction, columns, count, before)
    ensures PredictionFits(direction, columns, count, before)
  {
    hide PredictedAt;
    forall i | 0 <= i < |now|
      ensures now[i] == PredictedAt(direction, columns, count, before, i)
    {
      if i >= count * 16 {
        PredictedStays(direction, columns, count, before, i);
      }
    }
  }

  /** A block at the start of its row or column is left as it is. */
  lemma BlockSkipped(direction: Direction, columns: nat, count: nat, before: seq<int>, now: seq<int>, block: nat)
    requires columns > 0 && PredictedBelow(direction, columns, count, before, now, block * 16)
    requires Depth(direction, columns, block) == 0
    ensures PredictedBelow(direction, columns, count, before, now, block * 16 + 16)
  {
    hide PredictedAt, Depth, PredictedBelow;
    forall i | block * 16 <= i < block * 16 + 16 && i < |now|
      ensures Depth(direction, columns, i / 16) == 0
    {
      assert i / 16 == block;
    }
    SkipTo(direction, columns, count, before, now, block * 16, block * 16 + 16);
  }

  lemma RowEnd(row: nat, columns: nat, rows: nat)
    requires row < rows
    ensures (row + 1) * columns == row * columns + columns <= rows * columns
  {}

  /** Prediction as the shared library runs it: row by row, block by block. */
  method PredictGeometry(c: array<i32>, direction: Direction, columns: nat, rows: nat) returns (r: Outcome)
    requires columns > 0 && rows > 0 && rows * columns * 16 <= c.Length
    modifies c
    ensures r.Done? <==> PredictionFits(direction, columns, rows * columns, old(c[..]))
    ensures r.Done? ==> c[..] == Predicted(direction, columns, rows * columns, old(c[..]))
  {
    hide PredictedAt, PredictedBelow, Depth, Predicted, PredictionFits;
    ghost var before, count := c[..], rows * columns;
    PredictionBegins(direction, columns, count, before);
    match direction {
      case FromLeft =>
        for row := 0 to rows
          invariant PredictedBelow(direction, columns, count, before, c[..], row * columns * 16)
        {
          RowEnd(row, columns, rows);
          BlockDepth(direction, columns, row, 0);
          BlockSkipped(direction, columns, count, before, c[..], row * columns);
          for column := 1 to columns
            invariant PredictedBelow(direction, columns, count, before, c[..], (row * columns + column) * 16)
          {
            BlockDepth(direction, columns, row, column);
            :- PredictBlock(c, row * columns + column, direction, columns, count, before);
          }
        }
      case FromTop =>
        FirstRow(columns, count, before, c[..]);
        for row := 1 to rows
          invariant PredictedBelow(direction, columns, count, before, c[..], row * columns * 16)
        {
          RowEnd(row, columns, rows);
          for column := 0 to columns
            invariant PredictedBelow(direction, columns, count, before, c[..], (row * columns + column) * 16)
          {
            BlockDepth(direction, columns, row, column);
            :- PredictBlock(c, row * columns + column, direction, columns, count, before);
          }
        }
      case NoPrediction =>
        NothingPredicted(direction, columns, count, before, c[..]);
    }
    PredictionEnds(direction, columns, count, before, c[..]);
    return Done;
  }

  /** Prediction as the device kernel runs it, over block numbers. */
  method PredictHigh(high: array<i32>, direction: Direction, columns: nat, count: nat) returns (r: Outcome)
    requires columns > 0 && count * 16 <= high.Length
    modifies high
    ensures r.Done? <==> PredictionFits(direction, columns, count, old(high[..]))
    ensures r.Done? ==> high[..] == Predicted(direction, columns, count, old(high[..]))
  {
    hide PredictedAt, PredictedBelow, Predicted, PredictionFits;
    ghost var before := high[..];
    PredictionBegins(direction, columns, count, before);
    var block: nat := 0;
    if direction.FromLeft? && count > 0 {
      BlockSkipped(direction, columns, count, before, high[..], 0);
      block := 1;
      while block < count
        invariant 1 <= block <= count
        invariant PredictedBelow(direction, columns, count, before, high[..], block * 16)
      {
        if block % columns != 0 {
          :- PredictBlock(high, block, direction, columns, count, before);
        } else {
          BlockSkipped(direction, columns, count, before, high[..], block);
        }
        block := block + 1;
      }
    } else if direction.FromTop? && columns < count {
      FirstRow(columns, count, before, high[..]);
      block := columns;
      while block < count
        invariant columns <= block <= count
        invariant PredictedBelow(direction, columns, count, before, high[..], block * 16)
      {
        LaterRow(columns, block);
        :- PredictBlock(high, block, direction, columns, count, before);
        block := block + 1;
      }
    } else {
      NothingPredicted(direction, columns, count, before, high[..]);
    }
    PredictionEnds(direction, columns, count, before, high[..]);
    return Done;
  }

  lemma LaterRow(columns: nat, block: nat)
    requires 0 < columns <= block
    ensures Depth(FromTop, columns, block) > 0
  {
    DivisionUnique(block, columns, block / columns, block % columns);
  }

  lemma FirstRow(columns: nat, count: nat, before: seq<int>, now: seq<int>)
    requires columns > 0 && PredictedBelow(FromTop, columns, count, before, now, 0)
    ensures PredictedBelow(FromTop, columns, count, before, now, columns * 16)
  {
    hide PredictedAt, PredictedBelow;
    forall i | 0 <= i < columns * 16 && i < |now|
      ensures Depth(FromTop, columns, i / 16) == 0
    {
      DivisionUnique(i / 16, columns, 0, i / 16);
    }
    SkipTo(FromTop, columns, count, before, now, 0, columns * 16);
  }

  lemma NothingPredicted(direction: Direction, columns: nat, count: nat, before: seq<int>, now: seq<int>)
    requires columns > 0 && PredictedBelow(direction, columns, count, before, now, 0)
    requires direction.NoPrediction? || count == 0 || (direction.FromTop? && count <= columns)
    ensures PredictedBelow(direction, columns, count, before, now, count * 16)
  {
    hide PredictedAt, PredictedBelow;
    forall i | 0 <= i < count * 16 && i < |now|
      ensures !Predicts(direction, i % 16) || Depth(direction, columns, i / 16) == 0
    {
      if direction.FromTop? {
        DivisionUnique(i / 16, columns, 0, i / 16);
      }
    }
    SkipTo(direction, columns, count, before, now, 0, count * 16);
  }
}
