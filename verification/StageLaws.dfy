/**
 What the two transform stages leave in their planes, cell by cell: the synthesis of each block's dequantized
 coefficients, at its own place.
 */
module StageLaws {
  import opened Blocks
  import opened LinearLaws
  import opened CoreMap
  import opened ChromaMap
  import opened Regions
  import opened Kernels
  import opened Reconstruction
  import opened PreparedHigh

  // ---- Second stage ----

  /** The low-plane cell of the block at `row` and `column` of a macroblock. */
  function BlockCell(p: Plane, m: Macroblock, row: nat, column: nat): int {
    p.lowOffset + ((m.codedY - p.originY) * p.blockRows + row) * (p.macroblocksX * p.blockColumns)
    + (m.codedX - p.originX) * p.blockColumns + column
  }

  /** Sample `x` of line `y` of that block. */
  function PixelCell(p: Plane, m: Macroblock, row: nat, column: nat, y: nat, x: nat): int {
    p.sampleOffset + (((m.codedY - p.originY) * p.blockRows + row) * 4 + y) * p.sampleWidth
    + ((m.codedX - p.originX) * p.blockColumns + column) * 4 + x
  }

  /** A block's coefficients: its low-plane value, and the high-pass coefficients as predicted, times their quantizer. */
  ghost function Dequantized(packed: seq<int>, low: int, m: Macroblock, p: Plane, row: nat, column: nat): (v: seq<int>)
    requires Ready(m, p, |packed|) && row < p.blockRows && column < p.blockColumns
    ensures |v| == 16
  {
    seq(16, k requires 0 <= k < 16 =>
      if k == 0 then low else Coded(packed, m, p, row, column, k) * m.quantizerHighPass)
  }

  lemma SecondInputs(packed: seq<int>, low: int, m: Macroblock, p: Plane, row: nat, column: nat)
    requires Ready(m, p, |packed|) && row < p.blockRows && column < p.blockColumns
    ensures (row * p.blockColumns + column) * 16 + 16 <= BlockCount(p) * 16
    ensures SecondInput(HighPredicted(packed, m, p), low, m, row * p.blockColumns + column)
      == Dequantized(packed, low, m, p, row, column)
  {
    hide Coded, HighPredicted;
    BlockInGrid(p, row, column);
    var a, b := SecondInput(HighPredicted(packed, m, p), low, m, row * p.blockColumns + column), Dequantized(packed, low, m, p, row, column);
    forall k | 1 <= k < 16
      ensures a[k] == b[k]
    {
      PreparedCoded(packed, m, p, row, column, k);
    }
  }

  lemma CellsNamed(p: Plane, m: Macroblock, row: nat, column: nat, y: nat, x: nat)
    requires ValidPlane(p) && InWindow(m, p) && row < p.blockRows && column < p.blockColumns && y < 4 && x < 4
    ensures var block, i := row * p.blockColumns + column, (row * p.blockColumns + column) * 16 + y * 4 + x;
      && block < BlockCount(p) && i < BlockCount(p) * 16 && i / 16 == block && i % 16 == y * 4 + x
      && LowCell(p, m, block) == BlockCell(p, m, row, column)
      && SampleCell(p, m, block, y * 4 + x) == PixelCell(p, m, row, column, y, x)
  {
    BlockInGrid(p, row, column);
    LowCellNamed(p, m, row, column);
    PixelNamed(p, m, row, column, y, x);
    hide LowCell, SampleCell, BlockCell, PixelCell;
  }

  lemma LowCellNamed(p: Plane, m: Macroblock, row: nat, column: nat)
    requires ValidPlane(p) && InWindow(m, p) && row < p.blockRows && column < p.blockColumns
    ensures LowCell(p, m, row * p.blockColumns + column) == BlockCell(p, m, row, column)
  {
    BlockInGrid(p, row, column);
  }

  lemma PixelNamed(p: Plane, m: Macroblock, row: nat, column: nat, y: nat, x: nat)
    requires ValidPlane(p) && InWindow(m, p) && row < p.blockRows && column < p.blockColumns && y < 4 && x < 4
    ensures SampleCell(p, m, row * p.blockColumns + column, y * 4 + x) == PixelCell(p, m, row, column, y, x)
  {
    BlockInGrid(p, row, column);
    assert (y * 4 + x) / 4 == y && (y * 4 + x) % 4 == x;
  }

  lemma GroupBlock(table: seq<nat>, packed: seq<int>, low: seq<int>, m: Macroblock, p: Plane, row: nat, column: nat,
                   block: nat, i: nat)
    requires ValidPlane(p) && InWindow(m, p)
    requires Ready(m, p, |packed|) && IsPermutation(table) && LowPlaneHolds(p, m, |low|)
    requires row < p.blockRows && column < p.blockColumns && block == row * p.blockColumns + column
    requires i / 16 == block && i < BlockCount(p) * 16 && LowCell(p, m, block) == BlockCell(p, m, row, column)
    ensures 0 <= BlockCell(p, m, row, column) < |low|
    ensures GroupExact(table, packed, low, m, p)[i]
      == CoreTransform(table, Dequantized(packed, low[BlockCell(p, m, row, column)], m, p, row, column))[i % 16]
  {
    hide CoreTransform, HighPredicted, SecondInput, Dequantized, BlockCell, LowCell, IsPermutation, GroupExact;
    hide LowPlaneHolds, BlockCount, Ready, ValidPlane, InWindow;
    GroupAt(table, packed, low, m, p, i);
    SecondInputs(packed, low[LowCell(p, m, block)], m, p, row, column);
  }

  lemma GroupAt(table: seq<nat>, packed: seq<int>, low: seq<int>, m: Macroblock, p: Plane, i: nat)
    requires Ready(m, p, |packed|) && IsPermutation(table) && LowPlaneHolds(p, m, |low|) && i < BlockCount(p) * 16
    ensures i / 16 < BlockCount(p) && i / 16 * 16 + 16 <= BlockCount(p) * 16
    ensures LowCell(p, m, i / 16) < |low|
    ensures GroupExact(table, packed, low, m, p)[i] ==
      CoreTransform(table, SecondInput(HighPredicted(packed, m, p), low[LowCell(p, m, i / 16)], m, i / 16))[i % 16]
  {
    hide CoreTransform, HighPredicted, SecondInput, LowCell, IsPermutation, BlockCount;
  }

  lemma CoreAt(table: seq<nat>, v: seq<int>, f: seq<int>, y: nat, x: nat)
    requires IsPermutation(table) && Spectrum(table, v, f) && y < 4 && x < 4
    ensures Near(CoreTransform(table, v)[y * 4 + x], 1024, Synthesis(f, y, x), -2926, 2792)
  {
    CoreFollows(table, v, f);
    hide CoreTransform, Spectrum, Synthesis, IsPermutation;
    assert Follows(CoreTransform(table, v), f, y, x);
  }

  /**
   A completed second stage: sample `x` of line `y` of a block lies within three of the synthesis, at that place, of the
   block's dequantized coefficients, in the frequencies that the table gives them.
   */
  lemma SecondStageSynthesis(job: Job, packed: seq<int>, low: seq<int>, samples: seq<int>, g: nat,
                             row: nat, column: nat, y: nat, x: nat, f: seq<int>)
    requires ValidJob(job, |packed|, |low|, |samples|) && g < |job.macroblocks|
    requires row < job.plane.blockRows && column < job.plane.blockColumns && y < 4 && x < 4
    requires SecondStage(job, packed, low, samples).Some?
    ensures Ready(job.macroblocks[g], job.plane, |packed|)
    ensures 0 <= BlockCell(job.plane, job.macroblocks[g], row, column) < |low|
    ensures 0 <= PixelCell(job.plane, job.macroblocks[g], row, column, y, x) < |samples|
    ensures var m, p := job.macroblocks[g], job.plane;
      Spectrum(job.table, Dequantized(packed, low[BlockCell(p, m, row, column)], m, p, row, column), f) ==>
      Near(SecondStage(job, packed, low, samples).value[PixelCell(p, m, row, column, y, x)], 1024, Synthesis(f, y, x), -2926, 2792)
  {
    hide Synthesis, Spectrum, Dequantized, BlockCell, PixelCell, LowCell, SampleCell, GroupExact, GroupFits, SecondStage, Near;
    var m, p := job.macroblocks[g], job.plane;
    CellsNamed(p, m, row, column, y, x);
    SecondStageAt(job, packed, low, samples, g, (row * p.blockColumns + column) * 16 + y * 4 + x);
    GroupBlock(job.table, packed, low, m, p, row, column, row * p.blockColumns + column, (row * p.blockColumns + column) * 16 + y * 4 + x);
    hide CoreTransform, IsPermutation;
    var v := Dequantized(packed, low[BlockCell(p, m, row, column)], m, p, row, column);
    if Spectrum(job.table, v, f) {
      CoreAt(job.table, v, f, y, x);
    }
  }

  // ---- First stage ----

  /**
   Coefficient `k` of a macroblock's first transform: DC, and with low-pass bands one coefficient of each block, which
   high-pass data space sixteen apart.
   */
  ghost function LowCoefficient(packed: seq<int>, m: Macroblock, p: Plane, k: nat): int
    requires Ready(m, p, |packed|) && k < BlockCount(p)
  {
    if k == 0 then packed[m.offset] * m.quantizerDc
    else if m.bands == 0 then 0
    else if m.bands == 1 then packed[m.offset + k] * m.quantizerLowPass
    else packed[m.offset + 16 * k] * m.quantizerLowPass
  }

  ghost function LowCoefficients(packed: seq<int>, m: Macroblock, p: Plane): (v: seq<int>)
    requires Ready(m, p, |packed|)
    ensures |v| == BlockCount(p)
    ensures forall k :: 0 <= k < |v| ==> v[k] == LowCoefficient(packed, m, p, k)
  {
    seq(BlockCount(p), k requires 0 <= k < BlockCount(p) => LowCoefficient(packed, m, p, k))
  }

  lemma LowInputs(packed: seq<int>, m: Macroblock, p: Plane)
    requires Ready(m, p, |packed|)
    ensures LowInput(packed, m, p)[..BlockCount(p)] == LowCoefficients(packed, m, p)
  {
    var v := LowInput(packed, m, p);
    forall k | 0 <= k < BlockCount(p)
      ensures v[k] == LowCoefficient(packed, m, p, k)
    {
      assert v[k] == LowInputAt(packed, m, p, k);
    }
  }

  /** The linear law of the first transform of a plane, at one block. */
  ghost predicate FirstLaw(table: seq<nat>, p: Plane, v: seq<int>, w: int, row: nat, column: nat)
    requires ValidPlane(p) && |v| == BlockCount(p) && row < p.blockRows && column < p.blockColumns
  {
    if p.blockColumns == 4 then
      forall f: seq<int> :: |f| == 16 && Spectrum(table, v, f) ==> Near(w, 1024, Synthesis(f, row, column), -2926, 2792)
    else if p.blockRows == 2 then Near(w, 2, v[0] + Pattern(v[1], v[2], v[3], row, column), -1, 1)
    else
      Near(w, 4, if row < 2 then 2 * v[0] - v[4] + 2 * Pattern(v[1], v[2], v[3], row, column)
                 else 2 * v[0] + v[4] + 2 * Pattern(v[5], v[6], v[7], row, column), -3, 2)
  }

  lemma TransformedLaw(table: seq<nat>, p: Plane, input: seq<int>, row: nat, column: nat)
    requires ValidPlane(p) && IsPermutation(table) && |input| == 16 && row < p.blockRows && column < p.blockColumns
    ensures row * p.blockColumns + column < BlockCount(p)
    ensures FirstLaw(table, p, input[..BlockCount(p)], FirstTransformed(table, p, input)[row * p.blockColumns + column], row, column)
  {
    hide CoreTransform, Synthesis, Spectrum, IsPermutation, Pattern, Chroma420, Chroma422, Near;
    BlockInGrid(p, row, column);
    if p.blockColumns == 4 {
      assert input[..16] == input;
      forall f: seq<int> | |f| == 16 && Spectrum(table, input, f)
        ensures Near(CoreTransform(table, input)[4 * row + column], 1024, Synthesis(f, row, column), -2926, 2792)
      {
        CoreAt(table, input, f, row, column);
      }
    } else if p.blockRows == 2 {
      Chroma420Law(input[..4], row, column);
    } else {
      Chroma422Law(input[..8], row, column);
    }
  }

  lemma ExactLaw(table: seq<nat>, packed: seq<int>, m: Macroblock, p: Plane, row: nat, column: nat)
    requires Ready(m, p, |packed|) && IsPermutation(table) && row < p.blockRows && column < p.blockColumns
    ensures row * p.blockColumns + column < BlockCount(p)
    ensures var w := FirstExact(table, packed, m, p)[row * p.blockColumns + column];
      && (p.scaled ==> w % 2 == 0)
      && FirstLaw(table, p, LowCoefficients(packed, m, p), if p.scaled then w / 2 else w, row, column)
  {
    hide FirstTransformed, LowInput, LowCoefficients, FirstLaw, IsPermutation;
    LowInputs(packed, m, p);
    TransformedLaw(table, p, LowInput(packed, m, p), row, column);
  }

  /**
   A completed first stage: the low-plane value of every block follows the linear law of the plane's transform on the
   macroblock's dequantized coefficients, doubled in scaled planes.
   */
  lemma FirstStageSynthesis(job: Job, packed: seq<int>, low: seq<int>, samples: nat, g: nat, row: nat, column: nat)
    requires ValidJob(job, |packed|, |low|, samples) && g < |job.macroblocks|
    requires row < job.plane.blockRows && column < job.plane.blockColumns
    requires FirstStage(job, packed, low, samples).Some?
    ensures Ready(job.macroblocks[g], job.plane, |packed|)
    ensures 0 <= BlockCell(job.plane, job.macroblocks[g], row, column) < |low|
    ensures var m, p := job.macroblocks[g], job.plane;
      var w := FirstStage(job, packed, low, samples).value[BlockCell(p, m, row, column)];
      && (p.scaled ==> w % 2 == 0)
      && FirstLaw(job.table, p, LowCoefficients(packed, m, p), if p.scaled then w / 2 else w, row, column)
  {
    hide FirstStage, FirstFits, FirstExact, LowCoefficients, FirstLaw, BlockCell, LowCell, IsPermutation;
    var m, p := job.macroblocks[g], job.plane;
    ExactLaw(job.table, packed, m, p, row, column);
    LowCellNamed(p, m, row, column);
    FirstStageAt(job, packed, low, samples, g, row * p.blockColumns + column);
  }
}
