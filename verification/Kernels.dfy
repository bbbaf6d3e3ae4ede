/**
 The reconstruction kernels: dequantize and first transform, high-pass second transform, and the overlap
 filters, as they load from and store to the device buffers.
 */
module Kernels {
  import opened Arithmetic
  import opened Memory
  import opened Operators
  import opened Blocks
  import opened InPlace
  import opened Prediction
  import opened Overlap
  import opened Regions
  import opened Passes

  /** One macroblock record: bands 0 is DC only, 1 adds the low-pass band, 2 and above the high-pass band. */
  datatype Macroblock = Macroblock(codedX: nat, codedY: nat, offset: nat, bands: nat, prediction: nat,
                                   quantizerDc: nat, quantizerLowPass: nat, quantizerHighPass: nat)

  function Dequantize(value: i32, quantizer: nat): (r: Checked)
    ensures r.Value? <==> FitsI32(value * quantizer)
    ensures r.Value? ==> r.value == value * quantizer
  {
    CheckedI32(value * quantizer)
  }

  // ---- Overlap filters ----

  /** Whether a record's filter completes in 32 bits on the values it loads. */
  ghost predicate FilterFits(kind: nat, v: seq<int>) {
    |v| == |Addresses(Work(0, 0, kind))| &&
    if kind == 0 then Overlap4x4Fits(v)
    else if kind <= 2 then FitsOverlap4(v)
    else if kind == 3 then FitsOverlap2x2(v)
    else if kind == 4 then FitsOverlap2(v)
    else if kind == 5 then FitsI32(v[0] - v[1])
    else if kind == 6 then FitsI32(v[0] + v[1])
    else true
  }

  method Load(memory: array<i32>, at: seq<nat>) returns (values: array<i32>)
    requires Within(at, memory.Length)
    ensures fresh(values) && values[..] == Gather(memory[..], at)
  {
    values := new i32[|at|](k requires 0 <= k < |at| reads memory => memory[at[k]]);
  }

  method Store(memory: array<i32>, at: seq<nat>, values: array<i32>)
    requires Within(at, memory.Length) && values.Length == |at| && memory != values
    modifies memory
    ensures memory[..] == Scatter(old(memory[..]), at, values[..])
  {
    ghost var before, all := memory[..], values[..];
    for k := 0 to |at|
      invariant memory[..] == Scatter(before, at[..k], all[..k])
      invariant values[..] == all
    {
      assert at[..k + 1][..k] == at[..k] && all[..k + 1][..k] == all[..k];
      memory[at[k]] := values[k];
    }
    assert at[..|at|] == at && all[..|at|] == all;
  }

  /** Runs the filter of a 4-by-4, four-sample, 2-by-2 or pair record on values already loaded. */
  method RunFilter(kind: nat, values: array<i32>) returns (r: Outcome)
    requires kind <= 4 && values.Length == |Addresses(Work(0, 0, kind))|
    modifies values
    ensures r.Done? <==> FilterFits(kind, old(values[..]))
    ensures r.Done? ==> values[..] == Filter(kind, old(values[..]))
  {
    hide Overlap4x4Fits, Overlap4x4, FitsOverlap4, InverseOverlap4, FitsOverlap2x2, InverseOverlap2x2, FitsOverlap2,
         InverseOverlap2;
    if kind == 0 {
      r := InverseOverlapFilter4x4(values);
    } else if kind <= 2 {
      r := InverseOverlap4InPlace(values);
    } else if kind == 3 {
      r := InverseOverlap2x2InPlace(values);
    } else {
      r := InverseOverlap2InPlace(values);
    }
  }

  /** One overlap work item: on overflow it stores nothing. */
  method OverlapKernel(samples: array<i32>, w: Work) returns (r: Outcome)
    requires ValidWork(w) && Within(Addresses(w), samples.Length)
    modifies samples
    ensures r.Done? <==> FilterFits(w.kind, Gather(old(samples[..]), Addresses(w)))
    ensures r.Done? ==> samples[..] == Filtered(w, old(samples[..]))
    ensures r.Overflow? ==> samples[..] == old(samples[..])
  {
    hide Filter, Scatter;
    ghost var before := samples[..];
    if w.kind <= 4 {
      hide FilterFits;
      var values := Load(samples, Addresses(w));
      SameShape(w);
      hide Addresses;
      :- RunFilter(w.kind, values);
      Store(samples, Addresses(w), values);
      return Done;
    } else if w.kind <= 6 {
      PairGathered(w, before);
      assert w.first < samples.Length && w.second < samples.Length;
      if w.kind == 5 {
        samples[w.first] :- CheckedSub(samples[w.first], samples[w.second]);
      } else {
        samples[w.first] :- CheckedAdd(samples[w.first], samples[w.second]);
      }
      return Done;
    } else {
      NothingFiltered(w, before);
      return Done;
    }
  }

  lemma SameShape(w: Work)
    ensures |Addresses(w)| == |Addresses(Work(0, 0, w.kind))|
    ensures w.kind <= 4 ==> Destinations(w) == Addresses(w)
  {}

  lemma PairGathered(w: Work, memory: seq<int>)
    requires 5 <= w.kind <= 6 && Within(Addresses(w), |memory|)
    ensures w.first < |memory| && w.second < |memory|
    ensures Gather(memory, Addresses(w)) == [memory[w.first], memory[w.second]]
    ensures Filtered(w, memory) == memory[w.first :=
      if w.kind == 5 then memory[w.first] - memory[w.second] else memory[w.first] + memory[w.second]]
  {
    assert Addresses(w)[0] == w.first && Addresses(w)[1] == w.second;
    ResidualMeaning(w, memory);
  }

  lemma NothingFiltered(w: Work, memory: seq<int>)
    requires w.kind > 6
    ensures Within(Addresses(w), |memory|) && Filtered(w, memory) == memory
    ensures FilterFits(w.kind, Gather(memory, Addresses(w)))
  {}

  // ---- First transform ----

  function BlockCount(p: Plane): nat {
    p.blockColumns * p.blockRows
  }

  predicate InWindow(m: Macroblock, p: Plane) {
    p.originX <= m.codedX < p.originX + p.macroblocksX && p.originY <= m.codedY < p.originY + p.macroblocksY
  }

  /** How many coefficients of a macroblock were transmitted. */
  function Span(bands: nat, count: nat): nat {
    if bands == 0 then 1 else if bands == 1 then count else count * 16
  }

  /** The macroblock lies in the window and its coefficients in the uploaded arena. */
  predicate Ready(m: Macroblock, p: Plane, size: nat) {
    ValidPlane(p) && InWindow(m, p) && m.offset + Span(m.bands, BlockCount(p)) <= size
  }

  /** Where the DC and low-pass coefficient of a block lies. */
  function LowSource(m: Macroblock, block: nat): nat {
    m.offset + if m.bands >= 2 then block * 16 else block
  }

  lemma LowSourceInside(m: Macroblock, p: Plane, size: nat, block: nat)
    requires Ready(m, p, size) && block < BlockCount(p) && (m.bands == 0 ==> block == 0)
    ensures LowSource(m, block) < size
  {}

  /** The dequantized DC and low-pass coefficients of a macroblock. */
  ghost function LowInput(packed: seq<int>, m: Macroblock, p: Plane): (v: seq<int>)
    requires Ready(m, p, |packed|)
    ensures |v| == 16
  {
    seq(16, k requires 0 <= k < 16 => LowInputAt(packed, m, p, k))
  }

  ghost function LowInputAt(packed: seq<int>, m: Macroblock, p: Plane, k: nat): int
    requires Ready(m, p, |packed|)
  {
    if k == 0 then packed[m.offset] * m.quantizerDc
    else if k < BlockCount(p) && m.bands != 0 then
      LowSourceInside(m, p, |packed|, k);
      packed[LowSource(m, k)] * m.quantizerLowPass
    else 0
  }

  ghost predicate AllFit(v: seq<int>) {
    forall k :: 0 <= k < |v| ==> FitsI32(v[k])
  }

  ghost function FirstTransformed(table: seq<nat>, p: Plane, v: seq<int>): (t: seq<int>)
    requires ValidPlane(p) && IsPermutation(table) && |v| == 16
    ensures |t| == BlockCount(p)
  {
    if p.blockColumns == 4 then CoreTransform(table, v)
    else if p.blockRows == 2 then Chroma420(v[..4])
    else Chroma422(v[..8])
  }

  ghost predicate FirstTransformFits(table: seq<nat>, p: Plane, v: seq<int>)
    requires ValidPlane(p) && IsPermutation(table) && |v| == 16
  {
    if p.blockColumns == 4 then CoreFits(table, v)
    else if p.blockRows == 2 then FitsT2x2h(v[..4], 0)
    else Chroma422Fits(v[..8])
  }

  /** Chroma of scaled images is doubled after the first transform. */
  ghost function Doubled(p: Plane, t: seq<int>): (d: seq<int>)
    ensures |d| == |t|
    ensures forall k :: 0 <= k < |t| ==> d[k] == if p.scaled then t[k] * 2 else t[k]
  {
    seq(|t|, k requires 0 <= k < |t| => if p.scaled then t[k] * 2 else t[k])
  }

  ghost function FirstExact(table: seq<nat>, packed: seq<int>, m: Macroblock, p: Plane): (low: seq<int>)
    requires Ready(m, p, |packed|) && IsPermutation(table)
    ensures |low| == BlockCount(p)
  {
    Doubled(p, FirstTransformed(table, p, LowInput(packed, m, p)))
  }

  ghost predicate FirstFits(table: seq<nat>, packed: seq<int>, m: Macroblock, p: Plane)
    requires Ready(m, p, |packed|) && IsPermutation(table)
  {
    && AllFit(LowInput(packed, m, p))
    && FirstTransformFits(table, p, LowInput(packed, m, p))
    && AllFit(FirstExact(table, packed, m, p))
  }

  /** The low-plane cell of block `k`, and all cells of a macroblock in block order. */
  function LowCell(p: Plane, m: Macroblock, k: nat): nat
    requires ValidPlane(p) && InWindow(m, p)
  {
    Index(LowLayout(p), (m.codedX - p.originX) * p.blockColumns + k % p.blockColumns,
          (m.codedY - p.originY) * p.blockRows + k / p.blockColumns)
  }

  function LowCells(p: Plane, m: Macroblock): (cells: seq<nat>)
    requires ValidPlane(p) && InWindow(m, p)
    ensures |cells| == BlockCount(p)
    ensures forall k :: 0 <= k < BlockCount(p) ==> cells[k] == LowCell(p, m, k)
  {
    seq(BlockCount(p), k requires 0 <= k < BlockCount(p) => LowCell(p, m, k))
  }

  method DequantizeLow(packed: array<i32>, m: Macroblock, p: Plane) returns (r: Outcome, low: array<i32>)
    requires Ready(m, p, packed.Length)
    ensures fresh(low) && low.Length == 16
    ensures r.Done? <==> AllFit(LowInput(packed[..], m, p))
    ensures r.Done? ==> low[..] == LowInput(packed[..], m, p)
  {
    hide Dequantize;
    low := new i32[16](_ => 0);
    ghost var input := LowInput(packed[..], m, p);
    var dc := Dequantize(packed[m.offset], m.quantizerDc);
    assert input[0] == packed[m.offset] * m.quantizerDc;
    if dc.Overflowed? {
      return Overflow, low;
    }
    low[0] := dc.value;
    if m.bands != 0 {
      for block := 1 to BlockCount(p)
        invariant forall k :: 0 <= k < block ==> low[k] == input[k]
        invariant forall k :: block <= k < 16 ==> low[k] == 0
      {
        LowSourceInside(m, p, packed.Length, block);
        assert input[block] == packed[LowSource(m, block)] * m.quantizerLowPass;
        var value := Dequantize(packed[LowSource(m, block)], m.quantizerLowPass);
        if value.Overflowed? {
          return Overflow, low;
        }
        low[block] := value.value;
      }
    }
    assert low[..] == input;
    return Done, low;
  }

  method TransformLow(low: array<i32>, table: seq<nat>, p: Plane) returns (r: Outcome)
    requires ValidPlane(p) && IsPermutation(table) && low.Length == 16
    modifies low
    ensures r.Done? <==> FirstTransformFits(table, p, old(low[..]))
    ensures r.Done? ==> low[..BlockCount(p)] == FirstTransformed(table, p, old(low[..]))
  {
    hide CoreFits, CoreTransform, FitsT2x2h, Chroma420, Chroma422Fits, Chroma422;
    ghost var before := low[..];
    if p.blockColumns == 4 {
      :- InverseCoreTransform(low, table);
    } else if p.blockRows == 2 {
      var values := new i32[4] [low[0], low[1], low[2], low[3]];
      assert values[..] == before[..4];
      :- InverseChroma420(values);
      forall k | 0 <= k < 4 { low[k] := values[k]; }
    } else {
      var values := new i32[8] [low[0], low[1], low[2], low[3], low[4], low[5], low[6], low[7]];
      assert values[..] == before[..8];
      :- InverseChroma422(values);
      forall k | 0 <= k < 8 { low[k] := values[k]; }
    }
    return Done;
  }

  method DoubleLow(low: array<i32>, p: Plane, count: nat) returns (r: Outcome)
    requires count <= low.Length
    modifies low
    ensures r.Done? <==> AllFit(Doubled(p, old(low[..count])))
    ensures r.Done? ==> low[..count] == Doubled(p, old(low[..count]))
  {
    ghost var before: seq<int> := low[..count];
    ghost var doubled := Doubled(p, before);
    if p.scaled {
      for block := 0 to count
        invariant forall k :: 0 <= k < block ==> low[k] == doubled[k]
        invariant forall k :: block <= k < count ==> low[k] == before[k]
      {
        assert doubled[block] == before[block] * 2;
        low[block] :- CheckedMul(low[block], 2);
      }
    }
    assert low[..count] == doubled;
    return Done;
  }

  method StoreLow(lowPlane: array<i32>, low: array<i32>, m: Macroblock, p: Plane)
    requires ValidPlane(p) && InWindow(m, p) && low.Length == 16 && low != lowPlane
    requires Within(LowCells(p, m), lowPlane.Length)
    modifies lowPlane
    ensures lowPlane[..] == Scatter(old(lowPlane[..]), LowCells(p, m), low[..BlockCount(p)])
  {
    hide Scatter, LowCells, Within, LowCell;
    ghost var before, cells, values := lowPlane[..], LowCells(p, m), low[..BlockCount(p)];
    StoredNone(before, cells, values);
    var width := p.macroblocksX * p.blockColumns;
    var baseX, baseY := (m.codedX - p.originX) * p.blockColumns, (m.codedY - p.originY) * p.blockRows;
    for row := 0 to p.blockRows
      invariant values == low[..BlockCount(p)]
      invariant Stored(lowPlane[..], before, cells, values, row * p.blockColumns)
    {
      for column := 0 to p.blockColumns
        invariant values == low[..BlockCount(p)]
        invariant Stored(lowPlane[..], before, cells, values, row * p.blockColumns + column)
      {
        var k := row * p.blockColumns + column;
        BlockInGrid(p, row, column);
        LowCellAt(p, m, row, column, lowPlane.Length);
        ScatterNext(before, cells, values, k);
        lowPlane[p.lowOffset + (baseY + row) * width + baseX + column] := low[k];
      }
    }
    ScatterWhole(before, cells, values);
  }

  /** The memory after the first `k` stores of a list. */
  ghost predicate Stored(now: seq<int>, before: seq<int>, at: seq<nat>, values: seq<int>, k: nat) {
    && |at| == |values| && k <= |at| && Within(at[..k], |before|)
    && now == Scatter(before, at[..k], values[..k])
  }

  lemma StoredNone(memory: seq<int>, at: seq<nat>, values: seq<int>)
    requires |at| == |values|
    ensures Stored(memory, memory, at, values, 0)
  {
    assert at[..0] == [] && values[..0] == [];
  }

  lemma LowCellAt(p: Plane, m: Macroblock, row: nat, column: nat, size: nat)
    requires ValidPlane(p) && InWindow(m, p) && row < p.blockRows && column < p.blockColumns
    requires Within(LowCells(p, m), size)
    ensures LowCells(p, m)[row * p.blockColumns + column] == LowCell(p, m, row * p.blockColumns + column) < size
    ensures LowCell(p, m, row * p.blockColumns + column) == p.lowOffset
      + ((m.codedY - p.originY) * p.blockRows + row) * (p.macroblocksX * p.blockColumns)
      + (m.codedX - p.originX) * p.blockColumns + column
  {
    BlockInGrid(p, row, column);
  }

  lemma BlockInGrid(p: Plane, row: nat, column: nat)
    requires ValidPlane(p) && row < p.blockRows && column < p.blockColumns
    ensures var k := row * p.blockColumns + column; k < BlockCount(p) && k / p.blockColumns == row && k % p.blockColumns == column
  {}

  /** One first-transform work item: on overflow it stores nothing. */
  method FirstTransform(packed: array<i32>, macroblocks: seq<Macroblock>, lowPlane: array<i32>, p: Plane,
                        table: seq<nat>, gid: nat)
    returns (r: Outcome)
    requires IsPermutation(table) && packed != lowPlane
    requires p.macroblockOffset + gid < |macroblocks| && Ready(macroblocks[p.macroblockOffset + gid], p, packed.Length)
    requires Within(LowCells(p, macroblocks[p.macroblockOffset + gid]), lowPlane.Length)
    modifies lowPlane
    ensures var m := macroblocks[p.macroblockOffset + gid];
      r.Done? <==> FirstFits(table, packed[..], m, p)
    ensures var m := macroblocks[p.macroblockOffset + gid];
      r.Done? ==> lowPlane[..] == Scatter(old(lowPlane[..]), LowCells(p, m), FirstExact(table, packed[..], m, p))
    ensures r.Overflow? ==> lowPlane[..] == old(lowPlane[..])
  {
    hide LowInput, FirstTransformed, FirstTransformFits, Doubled, AllFit, LowCells, Scatter, Within;
    var m := macroblocks[p.macroblockOffset + gid];
    var dequantized, low := DequantizeLow(packed, m, p);
    :- dequantized;
    :- TransformLow(low, table, p);
    :- DoubleLow(low, p, BlockCount(p));
    StoreLow(lowPlane, low, m, p);
    return Done;
  }

  // ---- High-pass prediction and second transform ----

  /** The high-pass coefficients of a macroblock before prediction; DC and low-pass positions stay empty. */
  ghost function HighInput(packed: seq<int>, m: Macroblock, p: Plane): (h: seq<int>)
    requires Ready(m, p, |packed|)
    ensures |h| == BlockCount(p) * 16
    ensures forall i :: 0 <= i < |h| ==> h[i] == if m.bands < 2 || i % 16 == 0 then 0 else packed[m.offset + i]
  {
    seq(BlockCount(p) * 16, i requires 0 <= i < BlockCount(p) * 16 =>
      if m.bands < 2 || i % 16 == 0 then 0 else packed[m.offset + i])
  }

  function DirectionOf(m: Macroblock): Direction {
    if m.bands >= 2 && m.prediction == 1 then FromLeft
    else if m.bands >= 2 && m.prediction == 2 then FromTop
    else NoPrediction
  }

  ghost function HighPredicted(packed: seq<int>, m: Macroblock, p: Plane): (h: seq<int>)
    requires Ready(m, p, |packed|)
    ensures |h| == BlockCount(p) * 16
  {
    Predicted(DirectionOf(m), p.blockColumns, BlockCount(p), HighInput(packed, m, p))
  }

  ghost predicate HighFits(packed: seq<int>, m: Macroblock, p: Plane)
    requires Ready(m, p, |packed|)
  {
    PredictionFits(DirectionOf(m), p.blockColumns, BlockCount(p), HighInput(packed, m, p))
  }

  /** Fills the shared block of high-pass coefficients and predicts it. */
  method PrepareHigh(packed: array<i32>, m: Macroblock, p: Plane) returns (r: Outcome, high: array<i32>)
    requires Ready(m, p, packed.Length)
    ensures fresh(high) && high.Length == BlockCount(p) * 16
    ensures r.Done? <==> HighFits(packed[..], m, p)
    ensures r.Done? ==> high[..] == HighPredicted(packed[..], m, p)
  {
    hide Predicted, PredictionFits;
    high := new i32[BlockCount(p) * 16];
    for index := 0 to high.Length
      invariant forall i :: 0 <= i < index ==> high[i] == HighInput(packed[..], m, p)[i]
    {
      high[index] := if m.bands < 2 || index % 16 == 0 then 0 else packed[m.offset + index];
    }
    assert high[..] == HighInput(packed[..], m, p);
    r := PredictHigh(high, DirectionOf(m), p.blockColumns, BlockCount(p));
  }

  /** The dequantized coefficients of one block: its DC comes from the low plane. */
  ghost function SecondInput(high: seq<int>, low: int, m: Macroblock, block: nat): (v: seq<int>)
    requires block * 16 + 16 <= |high|
    ensures |v| == 16
    ensures forall k :: 0 <= k < 16 ==> v[k] == if k == 0 then low else high[block * 16 + k] * m.quantizerHighPass
  {
    seq(16, k requires 0 <= k < 16 => if k == 0 then low else high[block * 16 + k] * m.quantizerHighPass)
  }

  ghost predicate SecondFits(table: seq<nat>, high: seq<int>, low: int, m: Macroblock, block: nat)
    requires IsPermutation(table) && block * 16 + 16 <= |high|
  {
    AllFit(SecondInput(high, low, m, block)[1..]) && CoreFits(table, SecondInput(high, low, m, block))
  }

  ghost function SecondExact(table: seq<nat>, high: seq<int>, low: int, m: Macroblock, block: nat): (s: seq<int>)
    requires IsPermutation(table) && block * 16 + 16 <= |high|
    ensures |s| == 16
  {
    CoreTransform(table, SecondInput(high, low, m, block))
  }

  /** The sample cell of coefficient position `k` of a block. */
  function SampleCell(p: Plane, m: Macroblock, block: nat, k: nat): nat
    requires ValidPlane(p) && InWindow(m, p)
  {
    Index(SampleLayout(p), ((m.codedX - p.originX) * p.blockColumns + block % p.blockColumns) * 4 + k % 4,
          ((m.codedY - p.originY) * p.blockRows + block / p.blockColumns) * 4 + k / 4)
  }

  function SampleCells(p: Plane, m: Macroblock, block: nat): (cells: seq<nat>)
    requires ValidPlane(p) && InWindow(m, p)
    ensures |cells| == 16
    ensures forall k :: 0 <= k < 16 ==> cells[k] == SampleCell(p, m, block, k)
  {
    seq(16, k requires 0 <= k < 16 => SampleCell(p, m, block, k))
  }

  method StoreSamples(samples: array<i32>, values: array<i32>, m: Macroblock, p: Plane, block: nat)
    requires ValidPlane(p) && InWindow(m, p) && values.Length == 16 && values != samples
    requires Within(SampleCells(p, m, block), samples.Length)
    modifies samples
    ensures samples[..] == Scatter(old(samples[..]), SampleCells(p, m, block), values[..])
  {
    hide Scatter, SampleCells, Within, SampleCell;
    ghost var before, cells, stored := samples[..], SampleCells(p, m, block), values[..];
    StoredNone(before, cells, stored);
    var outputX := ((m.codedX - p.originX) * p.blockColumns + block % p.blockColumns) * 4;
    var outputY := ((m.codedY - p.originY) * p.blockRows + block / p.blockColumns) * 4;
    for row := 0 to 4
      invariant stored == values[..]
      invariant Stored(samples[..], before, cells, stored, row * 4)
    {
      for column := 0 to 4
        invariant stored == values[..]
        invariant Stored(samples[..], before, cells, stored, row * 4 + column)
      {
        SampleCellAt(p, m, block, row, column, samples.Length);
        ScatterNext(before, cells, stored, row * 4 + column);
        samples[p.sampleOffset + (outputY + row) * p.sampleWidth + outputX + column] := values[row * 4 + column];
      }
    }
    ScatterWhole(before, cells, stored);
  }

  lemma SampleCellAt(p: Plane, m: Macroblock, block: nat, row: nat, column: nat, size: nat)
    requires ValidPlane(p) && InWindow(m, p) && row < 4 && column < 4 && Within(SampleCells(p, m, block), size)
    ensures SampleCells(p, m, block)[row * 4 + column] == SampleCell(p, m, block, row * 4 + column) < size
    ensures SampleCell(p, m, block, row * 4 + column) == p.sampleOffset
      + (((m.codedY - p.originY) * p.blockRows + block / p.blockColumns) * 4 + row) * p.sampleWidth
      + ((m.codedX - p.originX) * p.blockColumns + block % p.blockColumns) * 4 + column
  {
    assert (row * 4 + column) / 4 == row && (row * 4 + column) % 4 == column;
  }

  method DequantizeHigh(high: array<i32>, low: i32, m: Macroblock, block: nat)
    returns (r: Outcome, coefficients: array<i32>)
    requires block * 16 + 16 <= high.Length
    ensures fresh(coefficients) && coefficients.Length == 16
    ensures r.Done? <==> AllFit(SecondInput(high[..], low, m, block)[1..])
    ensures r.Done? ==> coefficients[..] == SecondInput(high[..], low, m, block)
  {
    hide Dequantize;
    ghost var input := SecondInput(high[..], low, m, block);
    coefficients := new i32[16](_ => 0);
    for k := 1 to 16
      invariant forall j :: 1 <= j < k ==> coefficients[j] == input[j]
    {
      assert input[1..][k - 1] == high[block * 16 + k] * m.quantizerHighPass;
      var value := Dequantize(high[block * 16 + k], m.quantizerHighPass);
      if value.Overflowed? {
        return Overflow, coefficients;
      }
      coefficients[k] := value.value;
    }
    coefficients[0] := low;
    assert coefficients[..] == input;
    return Done, coefficients;
  }

  /** One block of the second transform: on overflow it stores nothing. */
  method SecondTransform(high: array<i32>, lowPlane: array<i32>, samples: array<i32>, m: Macroblock, p: Plane,
                         table: seq<nat>, block: nat)
    returns (r: Outcome)
    requires IsPermutation(table) && ValidPlane(p) && InWindow(m, p) && block < BlockCount(p)
    requires high.Length == BlockCount(p) * 16 && samples != high && samples != lowPlane
    requires LowCell(p, m, block) < lowPlane.Length && Within(SampleCells(p, m, block), samples.Length)
    modifies samples
    ensures r.Done? <==> SecondFits(table, high[..], lowPlane[LowCell(p, m, block)], m, block)
    ensures r.Done? ==> samples[..] == Scatter(old(samples[..]), SampleCells(p, m, block),
                                               SecondExact(table, high[..], lowPlane[LowCell(p, m, block)], m, block))
    ensures r.Overflow? ==> samples[..] == old(samples[..])
  {
    hide SecondInput, CoreTransform, CoreFits, SampleCells, Within, Scatter, LowCell, AllFit;
    var low := lowPlane[LowCell(p, m, block)];
    var dequantized, coefficients := DequantizeHigh(high, low, m, block);
    :- dequantized;
    :- InverseCoreTransform(coefficients, table);
    StoreSamples(samples, coefficients, m, p, block);
    return Done;
  }

  // ---- One thread group: all blocks of a macroblock ----

  function GroupCells(p: Plane, m: Macroblock): (cells: seq<nat>)
    requires ValidPlane(p) && InWindow(m, p)
    ensures |cells| == BlockCount(p) * 16
    ensures forall i :: 0 <= i < BlockCount(p) * 16 ==> cells[i] == SampleCell(p, m, i / 16, i % 16)
  {
    seq(BlockCount(p) * 16, i requires 0 <= i < BlockCount(p) * 16 => SampleCell(p, m, i / 16, i % 16))
  }

  /** Every low-plane cell of the macroblock exists. */
  ghost predicate LowPlaneHolds(p: Plane, m: Macroblock, size: nat)
    requires ValidPlane(p) && InWindow(m, p)
  {
    forall k: nat :: k < BlockCount(p) ==> LowCell(p, m, k) < size
  }

  ghost predicate GroupFits(table: seq<nat>, packed: seq<int>, low: seq<int>, m: Macroblock, p: Plane)
    requires Ready(m, p, |packed|) && IsPermutation(table) && LowPlaneHolds(p, m, |low|)
  {
    && HighFits(packed, m, p)
    && forall block: nat :: block < BlockCount(p) ==>
         SecondFits(table, HighPredicted(packed, m, p), low[LowCell(p, m, block)], m, block)
  }

  ghost function GroupExact(table: seq<nat>, packed: seq<int>, low: seq<int>, m: Macroblock, p: Plane): (s: seq<int>)
    requires Ready(m, p, |packed|) && IsPermutation(table) && LowPlaneHolds(p, m, |low|)
    ensures |s| == BlockCount(p) * 16
  {
    seq(BlockCount(p) * 16, i requires 0 <= i < BlockCount(p) * 16 =>
      SecondExact(table, HighPredicted(packed, m, p), low[LowCell(p, m, i / 16)], m, i / 16)[i % 16])
  }

  lemma GroupInside(p: Plane, m: Macroblock, block: nat, size: nat)
    requires ValidPlane(p) && InWindow(m, p) && block < BlockCount(p) && Within(GroupCells(p, m), size)
    ensures Within(SampleCells(p, m, block), size)
  {
    hide SampleCell;
    forall k | 0 <= k < 16
      ensures SampleCells(p, m, block)[k] == GroupCells(p, m)[block * 16 + k]
    {
      assert (block * 16 + k) / 16 == block && (block * 16 + k) % 16 == k;
    }
  }

  lemma GroupNext(table: seq<nat>, packed: seq<int>, low: seq<int>, samples: seq<int>, now: seq<int>,
                  m: Macroblock, p: Plane, block: nat)
    requires Ready(m, p, |packed|) && IsPermutation(table) && LowPlaneHolds(p, m, |low|) && |now| == |samples|
    requires block < BlockCount(p) && Within(GroupCells(p, m), |samples|) && Within(SampleCells(p, m, block), |samples|)
    requires Stored(now, samples, GroupCells(p, m), GroupExact(table, packed, low, m, p), block * 16)
    ensures Stored(Scatter(now, SampleCells(p, m, block),
                           SecondExact(table, HighPredicted(packed, m, p), low[LowCell(p, m, block)], m, block)),
                   samples, GroupCells(p, m), GroupExact(table, packed, low, m, p), block * 16 + 16)
  {
    hide SecondExact, LowCell, SampleCell, HighPredicted, Scatter;
    var cells, values := GroupCells(p, m), GroupExact(table, packed, low, m, p);
    var own, out := SampleCells(p, m, block), SecondExact(table, HighPredicted(packed, m, p), low[LowCell(p, m, block)], m, block);
    forall k | 0 <= k < 16
      ensures cells[block * 16 + k] == own[k] && values[block * 16 + k] == out[k]
    {
      assert (block * 16 + k) / 16 == block && (block * 16 + k) % 16 == k;
    }
    assert cells[..block * 16 + 16] == cells[..block * 16] + own;
    assert values[..block * 16 + 16] == values[..block * 16] + out;
    ScatterConcat(samples, cells[..block * 16], own, values[..block * 16], out);
  }

  /** The high-pass kernel for one macroblock; its lanes own the blocks. */
  method HighpassSecondTransform(packed: array<i32>, macroblocks: seq<Macroblock>, lowPlane: array<i32>,
                                 samples: array<i32>, p: Plane, table: seq<nat>, group: nat)
    returns (r: Outcome)
    requires IsPermutation(table) && samples != packed && samples != lowPlane
    requires p.macroblockOffset + group < |macroblocks| && Ready(macroblocks[p.macroblockOffset + group], p, packed.Length)
    requires LowPlaneHolds(p, macroblocks[p.macroblockOffset + group], lowPlane.Length)
    requires Within(GroupCells(p, macroblocks[p.macroblockOffset + group]), samples.Length)
    modifies samples
    ensures var m := macroblocks[p.macroblockOffset + group];
      r.Done? <==> GroupFits(table, packed[..], lowPlane[..], m, p)
    ensures var m := macroblocks[p.macroblockOffset + group];
      r.Done? ==> samples[..] == Scatter(old(samples[..]), GroupCells(p, m), GroupExact(table, packed[..], lowPlane[..], m, p))
  {
    hide SecondFits, HighFits, HighPredicted, SecondExact, Scatter, LowCell, GroupCells, GroupExact, SampleCells,
         Within, Stored;
    var m := macroblocks[p.macroblockOffset + group];
    var predicted, high := PrepareHigh(packed, m, p);
    :- predicted;
    ghost var before, low, cells := samples[..], lowPlane[..], GroupCells(p, m);
    ghost var values := GroupExact(table, packed[..], low, m, p);
    StoredNone(before, cells, values);
    for block := 0 to BlockCount(p)
      invariant high[..] == HighPredicted(packed[..], m, p) && lowPlane[..] == low
      invariant Stored(samples[..], before, cells, values, block * 16)
      invariant forall b: nat :: b < block ==> SecondFits(table, high[..], low[LowCell(p, m, b)], m, b)
    {
      GroupInside(p, m, block, samples.Length);
      GroupNext(table, packed[..], low, before, samples[..], m, p, block);
      assert lowPlane[LowCell(p, m, block)] == low[LowCell(p, m, block)];
      :- SecondTransform(high, lowPlane, samples, m, p, table, block);
    }
    StoredAll(samples[..], before, cells, values);
    return Done;
  }

  lemma StoredAll(now: seq<int>, before: seq<int>, at: seq<nat>, values: seq<int>)
    requires Within(at, |before|) && Stored(now, before, at, values, |at|)
    ensures now == Scatter(before, at, values)
  {
    ScatterWhole(before, at, values);
  }
}
