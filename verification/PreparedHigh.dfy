/** The high-pass coefficients of a macroblock as its record's prediction code has them, position by position. */
module PreparedHigh {
  import opened Arithmetic
  import opened Prediction
  import opened Regions
  import opened Kernels

  /** The sum of `terms + 1` coefficients, `stride` apart, from `start` on. */
  ghost function Total(packed: seq<int>, start: nat, stride: nat, terms: nat): int
    requires start + stride * terms < |packed|
  {
    if terms == 0 then packed[start]
    else
      assert stride * terms == stride * (terms - 1) + stride;
      Total(packed, start, stride, terms - 1) + packed[start + stride * terms]
  }

  lemma {:induction false} RunningTotal(packed: seq<int>, c: seq<int>, offset: nat, start: nat, block: nat, stride: nat,
                                        depth: nat, k: nat)
    requires 0 < k < 16 && stride * depth <= block && block * 16 + k < |c| && offset + |c| <= |packed|
    requires forall i :: 0 <= i < |c| && i % 16 != 0 ==> c[i] == packed[offset + i]
    requires start + stride * 16 * depth == offset + block * 16 + k
    ensures RunningSum(c, block, stride, depth, k) == Total(packed, start, stride * 16, depth)
    decreases depth
  {
    assert (block * 16 + k) % 16 == k;
    if depth > 0 {
      assert stride * depth == stride * (depth - 1) + stride;
      assert stride * 16 * depth == stride * 16 * (depth - 1) + stride * 16;
      RunningTotal(packed, c, offset, start, block - stride, stride, depth - 1, k);
    }
  }

  /** Where coefficient `k` of the block at `row` and `column` lies in a macroblock. */
  function Place(p: Plane, row: nat, column: nat, k: nat): nat {
    (row * p.blockColumns + column) * 16 + k
  }

  lemma PlaceInside(p: Plane, row: nat, column: nat, k: nat)
    requires ValidPlane(p) && row < p.blockRows && column < p.blockColumns && k < 16
    ensures Place(p, row, column, k) < BlockCount(p) * 16
    ensures Place(p, row, column, k) / 16 == row * p.blockColumns + column && Place(p, row, column, k) % 16 == k
  {
    BlockInGrid(p, row, column);
  }

  /**
   What a record's codes make of coefficient `k` of the block at `row` and `column`: with high-pass bands and
   prediction 1, positions 4, 8 and 12 hold the sum along the row of blocks; with prediction 2, positions 1, 2 and 3
   the sum down the column; all others what was transmitted; without high-pass bands nothing.
   */
  ghost function Coded(packed: seq<int>, m: Macroblock, p: Plane, row: nat, column: nat, k: nat): int
    requires Ready(m, p, |packed|) && row < p.blockRows && column < p.blockColumns && k < 16
  {
    PlaceInside(p, row, column, k);
    if m.bands < 2 || k == 0 then 0
    else if m.prediction == 1 && k in {4, 8, 12} then
      assert Place(p, row, 0, k) + 16 * column == Place(p, row, column, k);
      Total(packed, m.offset + Place(p, row, 0, k), 16, column)
    else if m.prediction == 2 && k in {1, 2, 3} then
      assert p.blockColumns * 16 * row == row * p.blockColumns * 16;
      Total(packed, m.offset + Place(p, 0, column, k), p.blockColumns * 16, row)
    else packed[m.offset + Place(p, row, column, k)]
  }

  lemma RowCoded(packed: seq<int>, m: Macroblock, p: Plane, row: nat, column: nat, k: nat)
    requires Ready(m, p, |packed|) && row < p.blockRows && column < p.blockColumns && k < 16
    requires m.bands >= 2 && m.prediction == 1 && k in {4, 8, 12}
    ensures Place(p, row, column, k) < BlockCount(p) * 16
    ensures PredictedAt(DirectionOf(m), p.blockColumns, BlockCount(p), HighInput(packed, m, p), Place(p, row, column, k))
      == Coded(packed, m, p, row, column, k)
  {
    hide RunningSum, Total;
    PlaceInside(p, row, column, k);
    BlockDepth(FromLeft, p.blockColumns, row, column);
    RunningTotal(packed, HighInput(packed, m, p), m.offset, m.offset + Place(p, row, 0, k), row * p.blockColumns + column, 1, column, k);
  }

  lemma ColumnCoded(packed: seq<int>, m: Macroblock, p: Plane, row: nat, column: nat, k: nat)
    requires Ready(m, p, |packed|) && row < p.blockRows && column < p.blockColumns && k < 16
    requires m.bands >= 2 && m.prediction == 2 && k in {1, 2, 3}
    ensures Place(p, row, column, k) < BlockCount(p) * 16
    ensures PredictedAt(DirectionOf(m), p.blockColumns, BlockCount(p), HighInput(packed, m, p), Place(p, row, column, k))
      == Coded(packed, m, p, row, column, k)
  {
    hide RunningSum, Total;
    var columns := p.blockColumns;
    PlaceInside(p, row, column, k);
    BlockDepth(FromTop, columns, row, column);
    assert columns * row == row * columns;
    assert columns * 16 * row == row * columns * 16;
    RunningTotal(packed, HighInput(packed, m, p), m.offset, m.offset + Place(p, 0, column, k), row * columns + column, columns, row, k);
  }

  /** Preparing the high-pass coefficients leaves at every position what the record's codes say. */
  lemma PreparedCoded(packed: seq<int>, m: Macroblock, p: Plane, row: nat, column: nat, k: nat)
    requires Ready(m, p, |packed|) && row < p.blockRows && column < p.blockColumns && k < 16
    ensures Place(p, row, column, k) < BlockCount(p) * 16
    ensures HighPredicted(packed, m, p)[Place(p, row, column, k)] == Coded(packed, m, p, row, column, k)
  {
    var h, columns, i := HighInput(packed, m, p), p.blockColumns, Place(p, row, column, k);
    PlaceInside(p, row, column, k);
    assert HighPredicted(packed, m, p)[i] == PredictedAt(DirectionOf(m), columns, BlockCount(p), h, i);
    if m.bands >= 2 && m.prediction == 1 && k in {4, 8, 12} {
      RowCoded(packed, m, p, row, column, k);
    } else if m.bands >= 2 && m.prediction == 2 && k in {1, 2, 3} {
      ColumnCoded(packed, m, p, row, column, k);
    } else {
      PredictedStays(DirectionOf(m), columns, BlockCount(p), h, i);
    }
  }

  /** And it completes exactly when each of these values is a 32-bit one. */
  lemma PreparedFits(packed: seq<int>, m: Macroblock, p: Plane)
    requires Ready(m, p, |packed|)
    ensures HighFits(packed, m, p) <==> forall row: nat, column: nat, k: nat ::
      row < p.blockRows && column < p.blockColumns && k < 16 ==> FitsI32(Coded(packed, m, p, row, column, k))
  {
    hide Coded, PredictedAt;
    var h, all := HighPredicted(packed, m, p), BlockCount(p) * 16;
    if HighFits(packed, m, p) {
      forall row: nat, column: nat, k: nat | row < p.blockRows && column < p.blockColumns && k < 16
        ensures FitsI32(Coded(packed, m, p, row, column, k))
      {
        PreparedCoded(packed, m, p, row, column, k);
        assert h[Place(p, row, column, k)] == PredictedAt(DirectionOf(m), p.blockColumns, BlockCount(p),
                                                          HighInput(packed, m, p), Place(p, row, column, k));
      }
    }
    if forall row: nat, column: nat, k: nat ::
         row < p.blockRows && column < p.blockColumns && k < 16 ==> FitsI32(Coded(packed, m, p, row, column, k)) {
      forall i | 0 <= i < all
        ensures FitsI32(PredictedAt(DirectionOf(m), p.blockColumns, BlockCount(p), HighInput(packed, m, p), i))
      {
        var row, column := RowAndColumn(p.blockColumns, i / 16);
        assert row < p.blockRows;
        PreparedCoded(packed, m, p, row, column, i % 16);
        assert Place(p, row, column, i % 16) == i;
        assert h[i] == PredictedAt(DirectionOf(m), p.blockColumns, BlockCount(p), HighInput(packed, m, p), i);
      }
    }
  }
}
