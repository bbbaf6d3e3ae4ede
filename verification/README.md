# Verified model of the JPEG XR reconstruction engine

A Dafny model of the part of the repository between entropy-decoded coefficients and finished samples
(clauses 9.9 and 9.10 of ITU-T T.832), of the planners that make its parallel execution correct, and of the
Annex A container. `dafny verify dfyconfig.toml` checks everything.

The layers, each resting on the ones before it:

- **Lifting arithmetic** (`Arithmetic`, `Operators`, `LinearLaws`, `Blocks`, `InPlace`, `Bounds`, `Uniform`, `CoreMap`,
  `CoreBasis`, `OverlapMap`, `ChromaMap`, `Prediction`). Every operator is an exact function over unbounded integers with an
  explicit forward operator, a method on 32-bit words that completes exactly when all intermediate words fit and then
  leaves the exact result, and a rational matrix that it follows but for its roundings. The block transforms follow linear
  maps that are given by frequencies and symmetries, not by their steps.
- **The device** (`Memory`, `Phases`, `Orders`, `Locality`). A phase is a set of threads whose loads and stores interleave
  freely, with a barrier between phases and a status word that any overflow raises. Independent items give the
  sequential result in every interleaving.
- **Overlap scheduling** (`Overlap`, `Regions`, `Tiling`, `TileBoundaries`, `Passes`, `TileMeaning`, `ExactTiling`,
  `OverlapPass`, `Corners`, `PhaseOrder`, `PlanePasses`). The stepping loops emit work lists that touch every sample exactly
  once, each record its tile's cells in reading order, and under hard tiles never cells of two tiles; every pass is
  reversible, and free of order exactly when its regions are wide enough.
- **Reconstruction** (`Window`, `Plans`, `PlaneLaws`, `Kernels`, `PreparedHigh`, `CellGrid`, `Reconstruction`, `StageLaws`, `Lossless`, `Lanes`, `Device`, `Races`,
  `StaleScratch`, `SmallPlanes`, `EmptyPlanes`, `JobRaces`, `Relocation`). From the plan
  constructors' checks to the three main results: every cell is written once and nothing stale is seen, the
  whole chain loses nothing, and every interleaved device run equals the sequential reconstruction, exactly for
  the geometries `JobRaces` names.
- **Batches and caches** (`Rebasing`, `Recency`, `ScheduleCache`, `PlacementLaws`, `Batch`, `Isolation`, `Launches`,
  `Dispatches`, `BatchRun`, `BatchLift`, `StageRaces`, `BatchRaces`, `Descriptors`, `DescriptorLaws`, `DescribedBatch`, `BatchMatches`, `Grouping`, `Pools`). The
  threads of all images interleave, with a status word per image; from the descriptors to the samples every image comes
  out as if it were decoded by itself, exactly for the images `BatchRaces` names.
- **Container and planning** (`Bytes`, `AnnexA`, `AnnexAFields`, `AnnexAWriter`, `AnnexARoundTrip`, `AnnexAFile`, `Packets`,
  `TileGeometry`, `Binary32`).

## What does not hold as one might expect

- The corner phases of a subsampled first pass depend on thread order when a hard tile shows a single
  macroblock column in the window (or the whole window is one macroblock wide): the two corners of a row then
  read each other's destination. `PhaseOrder.CornersOrderFree` and `PlanePasses.FirstPassOrderFree` give the exact
  condition for the 32-bit kernels, `Races.FirstPassDeterministic` says that without it the whole pass is not a
  function of its plane, `JobRaces.JobsDeterministicExactly` that then whole jobs are not a function of their
  coefficients either, and `Races.OneChromaRaces` is one macroblock with two outcomes. The batch results ask for the
  condition, of the image they are about; `BatchRaces.ImagesDeterministicExactly` says that they must.
- The Metal plan checks only that the bounding window has as many cells as macroblocks; the CUDA plan also
  keeps an occupancy bitmap. `Window.BoundingWindowRepeats` is a window the former accepts although a cell stays
  empty, `Window.WindowBijection` says exactly when all cells are filled, and `StaleScratch.ScratchFreeExactly` that
  what the scratch buffers held before shows in the samples exactly when one is not.
- Planes of one image start at multiples of 64 elements. In a concatenated batch the sample planes still do; a
  low plane does exactly when the images before it end at such a multiple (`Descriptors.BatchAlignment`,
  `Descriptors.LowPlaneMisaligned`).
- A BD32F sample whose rebiased exponent ends at exactly 255, that is one of a magnitude from 2^128 up to 2^129, is
  written with all exponent bits set, an infinity or a NaN, instead of being refused (`Binary32.F32Bits`,
  `Binary32.OutcomeByExponent`; 131072 is such a sample, `Binary32.NotRefused`).
- The core transform approximates a separable cosine synthesis but does not stay within a fixed distance of one: its
  odd-odd rotation is rounded to other ratios than its odd-even rotation. `CoreBasis.OnlySynthesis` says which single
  linear map it does stay close to, `CoreBasis.NeverSeparable` that this one is not separable, and
  `CoreBasis.CoreNearCosines` how far a cosine basis is from it.

## Model

| member | source | states |
|---|---|---|
| `Arithmetic.CheckedAdd` | crates/jxr-math/src/arithmetic.rs:58-61 | succeeds exactly when the sum fits 32 bits, and then is the sum |
| `Arithmetic.CheckedSub` | crates/jxr-math/src/arithmetic.rs:65-68 | succeeds exactly when the difference fits 32 bits, and then is the difference |
| `Arithmetic.CheckedMul` | crates/jxr-math/src/arithmetic.rs:72-75 | succeeds exactly when the product fits 32 bits, and then is the product |
| `Arithmetic.CheckedNeg` | crates/jxr-math/src/overlap.rs:259-263 | fails exactly for the smallest 32-bit value |
| `Arithmetic.ShiftRange` | crates/jxr-math/src/overlap.rs:135-137 | an arithmetic shift never leaves the side of zero it starts on and never grows the magnitude |
| `Arithmetic.CheckedShift` | crates/jxr-math/src/transform.rs:156-159 | a scaled, biased shift fails only where one of its two intermediate words overflows; the shift itself cannot |
| `Arithmetic.CheckedLift` | crates/jxr-math/src/transform.rs:160-163 | a lifting step completes exactly when every intermediate word fits, and then adds the floored multiple |
| `Arithmetic.CheckedLower` | crates/jxr-math/src/transform.rs:156-159 | the same for a subtracting step |
| `Arithmetic.CheckedFlip` | crates/jxr-math/src/transform.rs:176-179 | the same for a step that subtracts from the floored multiple |
| `Operators.HadamardReversible` | crates/jxr-math/src/transform.rs:134-145 | the 2-by-2 Hadamard operator with a fixed rounding is its own inverse on all integers |
| `Operators.CheckedHadamardInvolutive` | crates/jxr-math/src/transform.rs:134-145 | in 32 bits too: a run that completes can be run again, completes, and restores its input |
| `Operators.ToddReversible` | crates/jxr-math/src/transform.rs:148-183 | two-sided inverse of the odd-even rotation on all integers |
| `Operators.ToddOddReversible` | crates/jxr-math/src/transform.rs:186-220 | two-sided inverse of the odd-odd rotation |
| `Operators.T2ptReversible` | crates/jxr-math/src/transform.rs:72-79 | two-sided inverse of the two-point transform |
| `Operators.RotateReversible` | crates/jxr-math/src/overlap.rs:146-156 | two-sided inverse of the postfilter rotation |
| `Operators.ScaleReversible` | crates/jxr-math/src/overlap.rs:159-173 | two-sided inverse of the postfilter scaling |
| `Operators.HadamardPostReversible` | crates/jxr-math/src/overlap.rs:176-191 | two-sided inverse of the postfilter Hadamard step |
| `Operators.ToddOddPostReversible` | crates/jxr-math/src/overlap.rs:194-218 | two-sided inverse of the postfilter odd-odd rotation |
| `Operators.Overlap4Undone` | crates/jxr-math/src/overlap.rs:10-55 | the encoder's four-sample filter takes the inverse four-sample filter back |
| `Operators.Overlap4Redone` | crates/jxr-math/src/overlap.rs:10-55 | and the other way round |
| `Operators.Overlap2x2Reversible` | crates/jxr-math/src/overlap.rs:83-120 | two-sided inverse of the 2-by-2 filter of subsampled chroma |
| `Operators.Overlap2Reversible` | crates/jxr-math/src/overlap.rs:126-143 | two-sided inverse of the two-sample filter of subsampled chroma |
| `Operators.OperatorReversible` | crates/jxr-math/src/transform.rs:82-98 | every operator the block transforms apply to a group of values has a two-sided inverse |
| `LinearLaws.HadamardLaw` | crates/jxr-math/src/transform.rs:134-145 | every output lies within one half of the sums and differences of the inputs, halved, on the side the rounding says |
| `LinearLaws.T2ptLaw` | crates/jxr-math/src/transform.rs:72-79 | the outputs are the first input minus and plus half the second, rounded by at most a half |
| `LinearLaws.ToddLaw` | crates/jxr-math/src/transform.rs:148-183 | every output lies within two of a row of one rational matrix in 128ths |
| `LinearLaws.ToddOddLaw` | crates/jxr-math/src/transform.rs:186-220 | every output lies within two of a row of one rational matrix in 512ths |
| `LinearLaws.RotateLaw` | crates/jxr-math/src/overlap.rs:146-156 | every output lies within one half of a row of one rational matrix |
| `LinearLaws.ScaleLaw` | crates/jxr-math/src/overlap.rs:159-173 | the outputs lie within three of the two rows of the scaling matrix |
| `LinearLaws.HadamardPostLaw` | crates/jxr-math/src/overlap.rs:176-191 | every output lies within one of a row of one rational matrix in sixteenths |
| `LinearLaws.ToddOddPostLaw` | crates/jxr-math/src/overlap.rs:194-218 | every output lies within two of a row of one rational matrix in 512ths |
| `LinearLaws.Overlap4Law` | crates/jxr-math/src/overlap.rs:10-55 | mirrored sums of the four samples grow by 383135/262144, their differences turn and shrink, within nine, and hardly anything passes from one to the other |
| `LinearLaws.Overlap2x2Law` | crates/jxr-math/src/overlap.rs:83-120 | every sample lies within three of a row of one rational matrix, the two-sample filter in both directions |
| `LinearLaws.Overlap2Law` | crates/jxr-math/src/overlap.rs:126-143 | both samples lie within four of a row of one rational matrix |
| `Blocks.StepsUndone` | crates/jxr-math/src/transform.rs:82-98 | any list of operators on groups of a block is taken back by their inverses in reverse order |
| `Blocks.StepsRedone` | crates/jxr-math/src/transform.rs:82-98 | and the reverse list is taken back by the list |
| `Blocks.InversePermutationValid` | crates/jxr-math/data/reconstruction.abi:2 | the shipped coefficient table is a permutation of 0..15 |
| `Blocks.PermuteReversible` | crates/jxr-math/build.rs:157-171 | moving coefficients by any table the build accepts loses nothing, in both directions |
| `Blocks.AllReached` | crates/jxr-math/build.rs:161-170 | sixteen distinct values below sixteen reach every position |
| `Blocks.CoreReversible` | crates/jxr-math/src/transform.rs:8-22 | the inverse core transform is a bijection on integer blocks for every permutation table |
| `Blocks.Overlap4x4Reversible` | crates/jxr-math/src/overlap.rs:59-77 | the 4-by-4 overlap filter is a bijection on integer blocks |
| `Blocks.Chroma420Reversible` | crates/jxr-math/src/transform.rs:32-36 | two-sided inverse of the 4:2:0 first transform |
| `Blocks.Chroma422Undone` | crates/jxr-math/src/transform.rs:40-69 | the forward 4:2:2 transform takes the inverse one back |
| `Blocks.Chroma422Redone` | crates/jxr-math/src/transform.rs:40-69 | and the other way round |
| `CoreMap.CoreFollows` | crates/jxr-math/src/transform.rs:8-22 | for every permutation table and block, each sample lies within three of a linear map given frequency by frequency, which mentions no step of the transform |
| `CoreMap.ShippedFollows` | crates/jxr-math/data/reconstruction.abi:2 | with the shipped table the coefficients are those frequencies, row by row |
| `CoreBasis.CoreNearCosines` | crates/jxr-math/src/transform.rs:8-22 | each sample lies within three and a fiftieth of the block's total magnitude of the separable synthesis in a four-point cosine basis |
| `CoreBasis.OnlySynthesis` | crates/jxr-math/src/transform.rs:8-22 | a linear map stays within a fixed distance of the transform on all blocks if and only if it is the map of `CoreMap` |
| `CoreBasis.NeverSeparable` | crates/jxr-math/src/transform.rs:8-22 | no separable map does |
| `OverlapMap.OverlapFollows` | crates/jxr-math/src/overlap.rs:59-77 | on sums and differences of mirrored samples the 4-by-4 filter lies within nine of a linear map that keeps the four symmetries apart but for a few millionths |
| `ChromaMap.Chroma420Law` | crates/jxr-math/src/transform.rs:32-36 | each sample lies within one half of half the mean coefficient and the alternating pattern of the other three |
| `ChromaMap.Chroma422Law` | crates/jxr-math/src/transform.rs:40-69 | each sample lies within one of a linear map: the fifth coefficient tells the upper rows from the lower, each half has a pattern of its own |
| `Uniform.ZeroKept` | crates/jxr-math/src/overlap.rs:272-280 | every operator maps zeros to zeros and never overflows on them |
| `Uniform.ZeroRun` | crates/jxr-math/src/overlap.rs:59-77 | so does every list of operators on groups of a block, the 4-by-4 filter among them |
| `Uniform.DcUniform` | crates/jxr-math/src/transform.rs:8-22 | a block with a DC coefficient only is uniform after the core transform if and only if the coefficient is divisible by four, and then holds its quarter |
| `InPlace.T2x2hInPlace` | crates/jxr-math/src/transform.rs:134-145 | in place on 32-bit words: completes exactly when every intermediate fits, leaving the exact result |
| `InPlace.InverseT2ptInPlace` | crates/jxr-math/src/transform.rs:72-79 | the same for the two-point transform |
| `InPlace.InverseToddInPlace` | crates/jxr-math/src/transform.rs:148-183 | the same for the odd-even rotation |
| `InPlace.InverseToddOddInPlace` | crates/jxr-math/src/transform.rs:186-220 | the same for the odd-odd rotation |
| `InPlace.InverseRotateInPlace` | crates/jxr-math/src/overlap.rs:146-156 | the same for the postfilter rotation |
| `InPlace.InverseScaleInPlace` | crates/jxr-math/src/overlap.rs:159-173 | the same for the postfilter scaling |
| `InPlace.InverseHadamardPostInPlace` | crates/jxr-math/src/overlap.rs:176-191 | the same for the postfilter Hadamard step |
| `InPlace.InverseToddOddPostInPlace` | crates/jxr-math/src/overlap.rs:194-218 | the same for the postfilter odd-odd rotation |
| `InPlace.InverseOverlap4InPlace` | crates/jxr-math/src/overlap.rs:10-55 | the same for the four-sample filter |
| `InPlace.InverseOverlap2x2InPlace` | crates/jxr-math/src/overlap.rs:83-120 | the same for the 2-by-2 filter |
| `InPlace.InverseOverlap2InPlace` | crates/jxr-math/src/overlap.rs:126-143 | the same for the two-sample filter |
| `InPlace.ApplyPair` | crates/jxr-math/src/overlap.rs:245-256 | a pair is copied out, filtered and written back; no other word changes |
| `InPlace.ApplyGroup` | crates/jxr-math/src/overlap.rs:226-242 | a group is copied out, filtered and written back; no other word changes |
| `InPlace.RunStepsInPlace` | crates/jxr-math/src/overlap.rs:59-77 | a list of groups in order, giving up at the first overflow, leaves the exact list's result |
| `InPlace.InverseCoreTransform` | crates/jxr-math/src/transform.rs:8-22 | the whole core transform in place: it completes exactly when all words fit, and then leaves the function whose map `CoreMap.CoreFollows` gives |
| `InPlace.InverseOverlapFilter4x4` | crates/jxr-math/src/overlap.rs:59-77 | the whole 4-by-4 filter in place, with the same guarantee; `OverlapMap.OverlapFollows` gives its map |
| `InPlace.InverseChroma420` | crates/jxr-math/src/transform.rs:32-36 | the 4:2:0 transform in place, with the same guarantee |
| `InPlace.InverseChroma422` | crates/jxr-math/src/transform.rs:40-69 | the 4:2:2 transform in place, with the same guarantee |
| `Bounds.CoreNeverOverflows` | crates/jxr-math/src/transform.rs:8-22 | the core transform never fails on sixteen inputs of magnitude at most 2^24 |
| `Bounds.OverlapNeverOverflows` | crates/jxr-math/src/overlap.rs:59-77 | the 4-by-4 filter never fails on sixteen inputs of magnitude at most 2^20 |
| `Bounds.Overlap4NeverOverflows` | crates/jxr-math/src/overlap.rs:10-55 | the four-sample filter never fails on inputs of magnitude at most 2^18 |
| `Bounds.ChromaFiltersNeverOverflow` | crates/jxr-math/src/overlap.rs:83-143 | nor do the two filters of subsampled planes |
| `Prediction.Predicted` | crates/jxr-math/src/prediction.rs:40-78 | each predicted position holds the sum of the originals along its row or column of blocks; everything else is unchanged |
| `Prediction.PredictionUndone` | crates/jxr-math/src/prediction.rs:40-78 | differencing takes prediction back |
| `Prediction.DifferenceUndone` | crates/jxr-math/src/prediction.rs:40-78 | prediction takes differencing back |
| `Prediction.PredictBlock` | crates/jxr-math/src/prediction.rs:66-78 | one block's three positions, failing only when some predicted value of the macroblock overflows |
| `Prediction.PredictGeometry` | crates/jxr-math/src/prediction.rs:40-64 | the row-by-row loops fail exactly when a predicted value overflows, and else leave the prefix sums |
| `Prediction.PredictHigh` | crates/jxr-cuda/src/kernels/reconstruction.rs:66-108 | the device's loops over block numbers fail alike and leave the same prefix sums, for every geometry |
| `Phases.RunIsPhaseResult` | crates/jxr-cuda/src/kernels/main.rs:175-207 | a sequential run of independent items stores what each computes from the memory the phase began with |
| `Phases.PhaseResultUnique` | crates/jxr-cuda/src/kernels/main.rs:175-207 | that outcome is unique |
| `Phases.InterleavingIsRun` | crates/jxr-cuda/src/kernels/main.rs:102-207 | every interleaving of the loads and stores of independent threads ends with the sequential memory, or with the status raised exactly when some item overflows |
| `Locality.RunLocal` | crates/jxr-metal/src/encode/batch.rs:335-336 | what a run does to a part of memory depends only on that part and the items working there |
| `Locality.RunDecided` | crates/jxr-metal/src/encode/batch.rs:335-336 | a run completes exactly when the items of each separate part complete by themselves |
| `Locality.Exchange` | crates/jxr-metal/src/encode/batch.rs:335-336 | two runs that give every separate part the same items in the same order end alike, overflow included |
| `Overlap.BuildFullSchedule` | crates/jxr-core/src/device_plan/overlap.rs:125-178 | the four nested stepping loops emit exactly the full tile list in order, or refuse when an index exceeds 32 bits |
| `Overlap.BuildSubsampledSchedule` | crates/jxr-core/src/device_plan/overlap.rs:180-228 | prefix, filters and suffix of a subsampled plane, as the loops emit them |
| `Overlap.PushInterior` | crates/jxr-core/src/device_plan/overlap.rs:132-140 | the nested loop over interior 4-by-4 blocks |
| `Overlap.PushSideColumns` | crates/jxr-core/src/device_plan/overlap.rs:141-152 | the loop over the four side columns |
| `Overlap.PushSideRows` | crates/jxr-core/src/device_plan/overlap.rs:153-164 | the loop over the four side rows |
| `Overlap.PushSquares` | crates/jxr-core/src/device_plan/overlap.rs:190-198 | the nested loop over interior 2-by-2 squares |
| `Overlap.PushSides` | crates/jxr-core/src/device_plan/overlap.rs:199-222 | the loops over the boundary pairs |
| `Regions.BuildClippedAxis` | crates/jxr-core/src/device_plan/overlap.rs:102-123 | the boundary loop computes the clipped axis, which `TileBoundaries.AxisExactly` says is that of the tiles' ends |
| `Regions.AxisShape` | crates/jxr-core/src/device_plan/overlap.rs:102-123 | a clipped axis starts at zero, ends at the extent, and lists only boundaries strictly between |
| `TileBoundaries.AxisExactly` | crates/jxr-core/src/device_plan/overlap.rs:102-123 | refused exactly when the window or a tile ends beyond 32 bits or the tiles end inside the window; otherwise a place inside the window is a boundary if and only if a tile of the image ends there |
| `TileBoundaries.RegionsExactly` | crates/jxr-core/src/device_plan/overlap.rs:65-123 | a plane has regions exactly when tiles are soft or the hard tiles cover its window in 32 bits; scaling never fails |
| `TileBoundaries.RegionIsTile` | crates/jxr-core/src/device_plan/overlap.rs:65-100 | two cells of the plane share a region if and only if tiles are soft or their macroblock columns and rows lie in the same tile |
| `TileBoundaries.FirstPassWithinTiles` | crates/jxr-core/src/device_plan/overlap.rs:13-36 | under hard tiles no record of the first pass, in prefix, filters or suffix, addresses cells of two tiles |
| `TileBoundaries.SecondPassWithinTiles` | crates/jxr-core/src/device_plan/overlap.rs:38-56 | nor does any record of the second pass |
| `TileMeaning.FullTilesAre` | crates/jxr-core/src/device_plan/overlap.rs:125-173 | the tiles of a full region are exactly the blocks, edges and corners at the stated places |
| `TileMeaning.SubsampledTilesAre` | crates/jxr-core/src/device_plan/overlap.rs:180-222 | the tiles of a subsampled region are exactly the inner squares and the pairs across its sides at the stated places |
| `TileMeaning.CornerTilesAre` | crates/jxr-core/src/device_plan/overlap.rs:230-253 | the corner records are exactly the four corners, each beside its neighbour in the same row |
| `TileMeaning.EncodedExactly` | crates/jxr-core/src/device_plan/overlap.rs:255-267 | a tile has a record exactly when the index it starts from, or both indices of a pair, fit 32 bits |
| `TileMeaning.AllEncodedExactly` | crates/jxr-core/src/device_plan/overlap.rs:125-228 | a list of tiles is refused exactly when one of them has no record, and otherwise encoded one by one |
| `Regions.BuildGrid` | crates/jxr-core/src/device_plan/overlap.rs:84-98 | the window pairs of both axes, row by row |
| `Regions.BuildRegions` | crates/jxr-core/src/device_plan/overlap.rs:65-100 | one region for soft tiles, the clipped grid for hard tiles |
| `Regions.RegionsLarge` | crates/jxr-core/src/device_plan/overlap.rs:65-100 | no region is too small for the subtractions of the schedule builders |
| `Regions.FirstOverlapSchedule` | crates/jxr-core/src/device_plan/overlap.rs:13-36 | the first pass works on the low plane, full or subsampled by block columns |
| `Regions.SecondOverlapSchedule` | crates/jxr-core/src/device_plan/overlap.rs:38-56 | the second pass works on the sample plane |
| `Tiling.AxisIncreasing` | crates/jxr-core/src/device_plan/overlap.rs:102-123 | positive tile sizes cut the window into non-empty intervals |
| `Tiling.FullRegionCover` | crates/jxr-core/src/device_plan/overlap.rs:125-173 | the tiles of a region cover each of its samples once and nothing outside |
| `Tiling.SubsampledRegionCover` | crates/jxr-core/src/device_plan/overlap.rs:180-228 | the subsampled tiles cover each sample once, except the four corners |
| `Tiling.RegionsPartition` | crates/jxr-core/src/device_plan/overlap.rs:65-123 | for any window and positive tile partition covering it the regions cut up the plane, each sample in exactly one |
| `Passes.EncodedTouches` | crates/jxr-cuda/src/kernels/reconstruction.rs:148-223 | the addresses a record loads are those of the cells its tile covers |
| `TileMeaning.CellsCovered` | crates/jxr-cuda/src/kernels/reconstruction.rs:148-223 | the cells of a filter are those its tile covers, row by row and each row from left to right |
| `TileMeaning.AddressesInOrder` | crates/jxr-cuda/src/kernels/reconstruction.rs:148-223 | address for address, the record of a tile loads the tile's cells in that order |
| `TileMeaning.TileFiltered` | crates/jxr-cuda/src/kernels/reconstruction.rs:148-223 | running a tile's record replaces the samples of its cells, in that order, by its own filter of them and touches nothing else; a corner record changes the corner alone |
| `Passes.AddressesDistinct` | crates/jxr-cuda/src/kernels/reconstruction.rs:148-223 | a planned record never addresses a cell twice |
| `Passes.ResidualMeaning` | crates/jxr-cuda/src/kernels/reconstruction.rs:205-223 | the two corner records subtract and add the neighbour, and touch nothing else |
| `Passes.FilterReversible` | crates/jxr-cuda/src/kernels/reconstruction.rs:148-223 | one record's filter on memory is taken back by the encoder's filter, and the other way round |
| `Passes.PassUndone` | crates/jxr-cuda/src/kernels/reconstruction.rs:148-223 | a list of records that completes in 32 bits is undone by the forward list |
| `Passes.PassRedone` | crates/jxr-cuda/src/kernels/reconstruction.rs:148-223 | over unbounded integers the forward list is a two-sided inverse |
| `ExactTiling.FullTiling` | crates/jxr-core/src/device_plan/overlap.rs:125-178 | a full schedule touches every address of the plane's range exactly once and no other |
| `ExactTiling.SecondPassTiling` | crates/jxr-core/src/device_plan/overlap.rs:38-56 | the second pass touches [offset, offset + width * height) exactly once, for every window, tile partition and tiling mode |
| `ExactTiling.FirstPassTiling` | crates/jxr-core/src/device_plan/overlap.rs:13-36 | so does the first pass of a 4-by-4-block plane on its low plane |
| `ExactTiling.SubsampledTiling` | crates/jxr-core/src/device_plan/overlap.rs:180-228 | the filters of a subsampled schedule touch every address once, except the regions' corners |
| `ExactTiling.ResidualsValid` | crates/jxr-core/src/device_plan/overlap.rs:230-253 | corner records stay in the plane and pair two different cells, whatever the width |
| `ExactTiling.ResidualsSound` | crates/jxr-core/src/device_plan/overlap.rs:230-253 | on regions at least four samples wide no two corner records of a phase meet |
| `ExactTiling.SoundIndependent` | crates/jxr-core/src/device_plan/overlap.rs:125-178 | the records of a sound phase are independent device items inside the buffer |
| `OverlapPass.RunPassUndone` | crates/jxr-cuda/src/kernels/reconstruction.rs:148-223 | a completed pass is undone by the encoder's pass |
| `OverlapPass.RunPassBijective` | crates/jxr-cuda/src/kernels/reconstruction.rs:148-223 | over unbounded integers a pass is a bijection on planes, with the forward pass as its inverse |
| `OverlapPass.DevicePhaseResult` | crates/jxr-cuda/src/kernels/main.rs:175-207 | a sound phase ends with the sequential memory, or raises its status exactly when the sequential run overflows |
| `OverlapPass.DevicePassResult` | crates/jxr-metal/src/encode/batch.rs:335-365 | three device phases with barriers compute the pass |
| `Corners.SuffixMirrorsPrefix` | crates/jxr-core/src/device_plan/overlap.rs:180-228 | the suffix restores exactly the corners the prefix reduced, with the same neighbours |
| `Corners.FiltersSkipCorner` | crates/jxr-core/src/device_plan/overlap.rs:180-228 | no filter between the two stores to a corner |
| `Corners.CornersKeepDistance` | crates/jxr-core/src/device_plan/overlap.rs:180-253 | a pass over regions at least four samples wide keeps the difference between each corner and its neighbour |
| `PhaseOrder.IndependentOrderFree` | crates/jxr-cuda/src/kernels/main.rs:175-207 | independent items give the same memory in every order |
| `PhaseOrder.CornersOrderFree` | crates/jxr-core/src/device_plan/overlap.rs:230-253 | for filters that complete on small samples, the 32-bit kernels among them (`Races.KernelsModest`), the corner phases are free of order if and only if every region is at least four samples wide |
| `PhaseOrder.CrossedOutcomes` | crates/jxr-core/src/device_plan/overlap.rs:230-253 | two records that read each other's destination leave a one or a two in it, as their order has it, from a plane of a single one |
| `PlanePasses.FirstPassOrderFree` | crates/jxr-core/src/device_plan/overlap.rs:13-36 | for a plane this means: if and only if no tile shows a single macroblock column in the window |
| `PlanePasses.FirstPassKeepsDistance` | crates/jxr-core/src/device_plan/overlap.rs:13-36 | on such planes the first pass keeps every corner's distance |
| `PlanePasses.FirstPassInside` | crates/jxr-core/src/device_plan/overlap.rs:13-36 | every record of the first pass addresses only the plane's low range, for all geometries |
| `PlanePasses.SecondPassInside` | crates/jxr-core/src/device_plan/overlap.rs:38-56 | every record of the second pass addresses only the plane's sample range |
| `PlanePasses.RunPassLocal` | crates/jxr-cuda/src/kernels/reconstruction.rs:148-223 | a pass completes alike and leaves the same plane on memories that agree on the plane |
| `PlanePasses.RunPassInjective` | crates/jxr-cuda/src/kernels/reconstruction.rs:148-223 | two memories a completed pass makes agree on the plane agreed there before it |
| `Window.WindowBijection` | crates/jxr-cuda/src/plan.rs:500-562 | in a window with as many cells as macroblocks, all cells are occupied if and only if no coordinate repeats |
| `Window.BuildPlaneWindow` | crates/jxr-cuda/src/plan.rs:500-579 | the occupancy bitmap accepts exactly the bounding windows without repeated coordinates; the out-of-window error is never taken |
| `PlaneLaws.WindowExactly` | crates/jxr-cuda/src/plan.rs:500-579 | the plan accepts coordinates with a window if and only if they fill that rectangle, one macroblock to a cell, and its sides and sample sides fit 32 bits |
| `PlaneLaws.PlaneExactly` | crates/jxr-cuda/src/plan.rs:449-498 | a plane is accepted, and is this one, if and only if geometry, ranges, window, first aligned places and ends are as stated |
| `Window.FindRepeat` | crates/jxr-cuda/src/plan.rs:548-562 | the bitmap loop finds a repetition if and only if there is one |
| `StaleScratch.ScratchFreeExactly` | crates/jxr-metal/src/plan.rs:487-551 | for the windows the Metal plan accepts, a completing reconstruction is independent of what the scratch buffers held if and only if no macroblock is repeated; a repeated one leaves a cell that keeps its old contents |
| `Window.BoundingWindowRepeats` | crates/jxr-metal/src/plan.rs:487-551 | the Metal plan, which has no bitmap, accepts a window with a repeated macroblock and an empty cell |
| `Window.Align` | crates/jxr-cuda/src/plan.rs:679-684 | the next multiple of 64, refused exactly when raising overflows |
| `Window.ReservePlaneRegions` | crates/jxr-cuda/src/plan.rs:581-615 | the two ranges start at the aligned lengths; refused exactly when an end exceeds the address space |
| `Window.BuildPlane` | crates/jxr-cuda/src/plan.rs:449-498 | the constructor's checks and placement of one plane |
| `Window.BuildPlanes` | crates/jxr-cuda/src/plan.rs:405-446 | all planes in order, with the arenas' final lengths |
| `Window.PlaneOfValid` | crates/jxr-cuda/src/plan.rs:449-498 | an accepted plane has the geometry every later stage relies on, at 64-aligned offsets |
| `Window.PlanesPlaced` | crates/jxr-cuda/src/plan.rs:405-446 | each plane starts past the end of the one before it |
| `Window.PlanesDisjoint` | crates/jxr-cuda/src/plan.rs:405-446 | no two planes share a cell of either arena |
| `Window.PlanesInside` | crates/jxr-cuda/src/plan.rs:405-446 | every plane ends within the reserved lengths |
| `Plans.ValidateContract` | crates/jxr-core/src/plan.rs:163-190 | accepts exactly the arenas whose offsets lie inside and whose planes have a supported shape and ranges inside |
| `Plans.ValidateSpans` | crates/jxr-cuda/src/plan.rs:700-723 | accepts exactly the planes whose transmitted spans lie inside the arena |
| `PlaneLaws.SpanExactly` | crates/jxr-cuda/src/plan.rs:700-723 | a macroblock's span ends inside the arena if and only if every coefficient the kernels load for it does |
| `Plans.ValidateArena` | crates/jxr-cuda/src/plan.rs:686-726 | accepts exactly the arenas that meet the contract, predict from one side at most, and hold every plane's spans |
| `Plans.PlannedJobValid` | crates/jxr-cuda/src/plan.rs:449-498 | a plane the constructors accept is a valid job: its macroblocks fill the window and every kernel access is inside a buffer |
| `Kernels.Dequantize` | crates/jxr-cuda/src/kernels/main.rs:48-50 | completes exactly when the product fits 32 bits |
| `Kernels.OverlapKernel` | crates/jxr-cuda/src/kernels/reconstruction.rs:148-225 | completes exactly when the record's filter fits, then leaves the filtered samples `TileMeaning.TileFiltered` describes; on overflow the samples are untouched |
| `Kernels.FirstTransform` | crates/jxr-cuda/src/kernels/reconstruction.rs:6-64 | dequantizes, transforms, doubles scaled chroma and stores each block's value to its own cell, or stores nothing |
| `Kernels.PrepareHigh` | crates/jxr-cuda/src/kernels/main.rs:141-158 | as one lane runs it: fills and predicts the high-pass block; `PreparedHigh.PreparedCoded` says which values it then holds |
| `PreparedHigh.PreparedCoded` | crates/jxr-cuda/src/kernels/reconstruction.rs:66-108 | with high-pass bands and prediction 1, positions 4, 8 and 12 hold the sum along the block row; with 2, positions 1, 2 and 3 the sum down the block column; all else what was transmitted, nothing without high-pass bands or at DC |
| `PreparedHigh.PreparedFits` | crates/jxr-cuda/src/kernels/reconstruction.rs:66-108 | preparing completes if and only if all those values fit 32 bits |
| `Kernels.SecondTransform` | crates/jxr-cuda/src/kernels/reconstruction.rs:110-146 | one block: DC from the low plane, the rest dequantized, stored to its sixteen samples, or nothing stored |
| `Kernels.HighpassSecondTransform` | crates/jxr-cuda/src/kernels/main.rs:125-173 | as one lane runs it: all blocks of a macroblock; fails exactly when prediction or one block overflows |
| `CellGrid.LowCellUnique` | crates/jxr-cuda/src/kernels/reconstruction.rs:52-63 | one low-plane cell belongs to one block of one macroblock |
| `CellGrid.LowCellReached` | crates/jxr-cuda/src/kernels/reconstruction.rs:52-63 | every low-plane cell belongs to some block of a window cell |
| `CellGrid.SampleCellUnique` | crates/jxr-cuda/src/kernels/reconstruction.rs:125-144 | one sample belongs to one position of one block |
| `CellGrid.SampleCellReached` | crates/jxr-cuda/src/kernels/reconstruction.rs:125-144 | every sample belongs to some position of a block |
| `Reconstruction.AcceptedFills` | crates/jxr-cuda/src/plan.rs:500-579 | an accepted window is filled by its macroblocks, one to a cell |
| `Reconstruction.FirstItemsSound` | crates/jxr-cuda/src/kernels/reconstruction.rs:52-63 | the first-transform items are independent and inside the buffer |
| `Reconstruction.SecondItemsSound` | crates/jxr-cuda/src/kernels/reconstruction.rs:125-144 | the second-transform items are independent and inside the buffer |
| `Reconstruction.FirstStageAt` | crates/jxr-cuda/src/kernels/reconstruction.rs:6-64 | a completed first stage left every block's value in its own cell |
| `Reconstruction.SecondStageAt` | crates/jxr-cuda/src/kernels/reconstruction.rs:110-146 | a completed second stage left every transformed sample in its own cell |
| `StageLaws.FirstStageSynthesis` | crates/jxr-cuda/src/kernels/reconstruction.rs:6-64 | a completed first stage leaves at every block's place the linear law of the plane's transform on the dequantized coefficients, doubled in scaled planes |
| `StageLaws.SecondStageSynthesis` | crates/jxr-cuda/src/kernels/reconstruction.rs:110-146 | a completed second stage leaves at every sample's place a value within three of the synthesis of the block's low-plane value and quantized, predicted high-pass coefficients |
| `Lossless.LowWrittenOnce` | crates/jxr-cuda/src/kernels/reconstruction.rs:52-63 | all first transforms together store to each cell of the low plane exactly once and nowhere else |
| `Lossless.SamplesWrittenOnce` | crates/jxr-cuda/src/kernels/reconstruction.rs:125-144 | all second transforms store to each sample exactly once and nowhere else |
| `Lossless.FirstStageCompletes` | crates/jxr-cuda/src/kernels/main.rs:107-122 | the first stage completes exactly when every macroblock's transform fits |
| `Lossless.SecondStageCompletes` | crates/jxr-cuda/src/kernels/main.rs:125-173 | the second stage completes exactly when every macroblock's prediction and blocks fit |
| `Lossless.NoStaleScratch` | crates/jxr-cuda/src/encode.rs:99-137 | the result does not depend on what the recycled buffers held |
| `Lossless.Lossless` | crates/jxr-cuda/src/kernels/reconstruction.rs:6-225 | the chain of dequantization, both transforms, both overlap passes and prediction is injective on transmitted coefficients, for every geometry, window, tile partition, overlap mode, band set and prediction mode |
| `Lanes.LanesPartition` | crates/jxr-cuda/src/kernels/main.rs:142-150 | the strided loops of any number of lanes together visit every index exactly once |
| `Lanes.FillLane` | crates/jxr-cuda/src/kernels/main.rs:142-150 | one lane fills its stride of the shared coefficients and touches nothing else |
| `Lanes.HighFilled` | crates/jxr-cuda/src/kernels/main.rs:139-151 | at the barrier the shared coefficients are the macroblock's, for any number of lanes, any interleaving and whatever they held before |
| `Lanes.TransformLane` | crates/jxr-cuda/src/kernels/main.rs:159-172 | one lane's strided loop runs its blocks in turn and gives up exactly when one of them overflows |
| `Lanes.BlocksAreGroups` | crates/jxr-cuda/src/kernels/main.rs:125-173 | all blocks of a plane, as threads of one phase, do what the macroblocks' groups do one after the other |
| `Device.EndsAsRun` | crates/jxr-cuda/src/encode.rs:104-129 | any device run of phases of independent items raises the status exactly when the sequential phases overflow, and otherwise leaves their memory |
| `Device.DeviceReconstructs` | crates/jxr-cuda/src/encode.rs:104-129 | however the threads of the eight phases interleave, down to the lanes' blocks, the run ends with the status raised exactly when the sequential reconstruction overflows, and otherwise with its samples; a subsampled plane that runs the first pass must not show a tile of one macroblock column |
| `SmallPlanes.FirstStageLeaves` | crates/jxr-cuda/src/kernels/reconstruction.rs:6-64 | every low plane of small even values of a subsampled plane is what the first stage makes of some coefficients, transmitted with quantizers of one |
| `JobRaces.JobsDeterministicExactly` | crates/jxr-cuda/src/encode.rs:104-129 | whole jobs with both passes are deterministic on the device if and only if no tile of a subsampled plane shows a single macroblock column; every other geometry has a job and coefficients from which two runs end with different samples, neither raising an error |
| `Orders.OrderExecutes` | crates/jxr-cuda/src/kernels/main.rs:175-207 | every order of a phase's items that completes is an execution of the device, with its memory and a clear status |
| `Races.FirstPassDeterministic` | crates/jxr-cuda/src/encode.rs:104-129 | the device's first pass is a function of the plane it starts from if and only if no tile of a subsampled plane shows a single macroblock column, and exactly otherwise two runs from one plane, neither raising an error, end differently |
| `Races.OneChromaRaces` | crates/jxr-core/src/device_plan/overlap.rs:230-253 | for one macroblock of 4:2:0 chroma, with its schedule: from [1, 0, 0, 0] the device ends with [0, -1, 0, 0] or [1, 0, 0, 0] |
| `Rebasing.MaxAccessedIsMaximum` | crates/jxr-metal/src/overlap_plan.rs:158-167 | the computed index is the largest address of the record, and exists exactly when all addresses fit 32 bits |
| `Rebasing.FindMaxIndex` | crates/jxr-metal/src/overlap_plan.rs:136-143 | the running maximum over a work list |
| `Rebasing.RebasedIsAbsolute` | crates/jxr-metal/src/overlap_plan.rs:28-50 | a relative schedule moved to a base where its largest index fits is the schedule planned for the plane itself |
| `Rebasing.RebasedFits` | crates/jxr-metal/src/overlap_plan.rs:40-50 | every address of a rebased record fits 32 bits |
| `ScheduleCache.KeyDetermines` | crates/jxr-metal/src/overlap_plan.rs:52-70 | requests with one key upload the same schedule, though the key leaves out origin and tiles for soft tiling |
| `PlacementLaws.SharedExactly` | crates/jxr-metal/src/overlap_plan.rs:52-70 | two requests share an entry if and only if they agree on pass and shape and, for hard tiles, on origin and tile sizes |
| `PlacementLaws.UploadExactly` | crates/jxr-metal/src/overlap_plan.rs:117-149 | what is uploaded is the schedule of the plane moved to the start of its arenas, with the largest index any record touches |
| `ScheduleCache.OverlapScheduleCache.GetOrUpload` | crates/jxr-metal/src/overlap_plan.rs:84-155 | whatever was asked before, the answer is a fresh upload's, in the retained object or in a new one; an object once handed out stays the same schedule, evicted or not; the entry moves to the back, the oldest of a full list goes |
| `ScheduleCache.BuildResident` | crates/jxr-metal/src/overlap_plan.rs:117-149 | the relative schedule of a request with its largest index |
| `ScheduleCache.AnswerIsAbsolute` | crates/jxr-metal/src/overlap_plan.rs:40-50 | an answer rebased by an accepted base is the plane's own schedule |
| `ScheduleCache.RunRetainsLatest` | crates/jxr-metal/src/overlap_plan.rs:107-154 | after any run the cache holds exactly the 64 latest distinct keys, least recent first |
| `Batch.BatchIsSequential` | crates/jxr-metal/src/encode/batch.rs:332-367 | on the device with one status word, the threads of each stage over all planes interleaving freely: all prefixes, then all filters, then all suffixes end as one plane's pass after the other, overflow included; no two records of a phase of one plane may meet |
| `Isolation.PartAlone` | crates/jxr-metal/src/encode/batch.rs:335-367 | one phase of a batch with a status word per image, any interleaving: an image's word ends raised exactly when it was raised before or its own items overflow run alone, and otherwise its cells hold what they leave, even if other images overflow, give up or race |
| `Isolation.ImagePhases` | crates/jxr-metal/src/encode/batch.rs:60-66 | the same over all phases of a run, status words carried from phase to phase |
| `Launches.ImageAlone` | crates/jxr-metal/src/encode/batch.rs:335-367 | for any launches over the planes of a batch: an image's word ends raised exactly when one of its planes' own items overflow by themselves, and otherwise each of its planes holds what its own items leave; only this image's items must be independent |
| `Launches.PassesAlone` | crates/jxr-metal/src/encode/batch.rs:335-367 | an image's word ends raised exactly when one of its planes' own overlap passes overflows, and otherwise its planes hold what those leave, however the threads of all images interleave |
| `BatchRun.ImageReconstructed` | crates/jxr-metal/src/encode/batch.rs:60-80 | the whole batch, all transforms and overlap passes of every plane of every image as interleaving threads: an image's word ends raised exactly when the reconstruction of one of its planes by itself overflows, and otherwise each of its planes holds that reconstruction; its own subsampled planes must not run a first pass over a tile of one macroblock column |
| `Launches.ImageParts` | crates/jxr-metal/src/encode/batch.rs:332-334 | items that work in planes lying apart complete exactly when each plane's own do, and leave each plane what those leave |
| `BatchLift.CompletedRuns` | crates/jxr-metal/src/encode/batch.rs:60-80 | a batch whose planes all complete by themselves has a run that raises no status word |
| `StageRaces.WholeCrossed` | crates/jxr-metal/src/encode/batch.rs:338-366 | records of different planes never meet, so one plane's corner records that read each other's destination do so in the batch's pass as well |
| `EmptyPlanes.EmptyListIdle` | crates/jxr-cuda/src/kernels/reconstruction.rs:6-64 | from zero coefficients the first transforms of a plane complete and leave an empty low plane empty |
| `BatchRaces.ImagesDeterministicExactly` | crates/jxr-metal/src/encode/batch.rs:60-80 | an image of a batch is decoded deterministically if and only if none of its own planes runs a first pass over a tile of one macroblock column, whatever the other images are; every other image has a batch and coefficients from which two device runs, raising no status word, leave it different samples |
| `Descriptors.DescribeImage` | crates/jxr-metal/src/encode/batch.rs:200-258 | one image's coefficients, own or shared, its macroblocks and planes moved past the images before, or refused |
| `Descriptors.BuildDescriptors` | crates/jxr-metal/src/encode/batch.rs:184-274 | the concatenation loops describe exactly the moved coefficients, macroblocks and planes, or refuse |
| `DescriptorLaws.DescribedExactly` | crates/jxr-metal/src/encode/batch.rs:184-274 | a batch is described if and only if every reference of every image, moved by what the images before it take up, fits the device's words and alignment |
| `DescriptorLaws.DescribedListed` | crates/jxr-metal/src/encode/batch.rs:184-274 | and then lists every image's planes, offsets and coefficients, moved by exactly that |
| `Descriptors.CoefficientsFound` | crates/jxr-metal/src/encode/batch.rs:203-224 | through its moved offset every macroblock finds its own coefficients in the buffer the batch binds, concatenated or shared |
| `Descriptors.BatchPlanesApart` | crates/jxr-metal/src/encode/batch.rs:225-258 | no two planes of a batch share a cell |
| `Descriptors.PlaneWithinImage` | crates/jxr-metal/src/encode/batch.rs:225-258 | every plane stays in its image's share of the arenas |
| `Descriptors.BatchAlignment` | crates/jxr-metal/src/abi.rs:121-130 | sample planes of a batch always start at multiples of 64, so the alignment error is never returned; low planes if and only if the images before end at one |
| `Descriptors.OnePlanesPlanned` | crates/jxr-metal/src/plan.rs:437-484 | the plan of one plane of one macroblock places it at the start of both arenas |
| `Descriptors.LowPlaneMisaligned` | crates/jxr-metal/src/encode/batch.rs:241-254 | the image so planned leaves the low plane of a second one behind it at 16 |
| `Dispatches.CollectOverlaps` | crates/jxr-metal/src/encode/batch.rs:381-407 | whatever the cache held, the planes of the images that run the pass come with the resident and base a fresh upload gives, or the pass is refused; the cache ends as these look-ups leave it, and planes that hold the same resident object have the same schedule, even over evictions |
| `Dispatches.CollectedIsOwn` | crates/jxr-metal/src/encode/batch.rs:394-406 | a collected plane's schedule moved to its base is the plane's own schedule |
| `PlacementLaws.CollectedExactly` | crates/jxr-metal/src/encode/batch.rs:394-406 | a plane is collected if and only if its relative schedule exists and every index it touches, moved to the plane, fits 32 bits |
| `PlacementLaws.PassExactly` | crates/jxr-metal/src/encode/batch.rs:381-407 | a pass is refused exactly when an image that runs it has no 32-bit status slot or a plane that cannot be placed |
| `Dispatches.CollectedAnswers` | crates/jxr-metal/src/encode/batch.rs:381-407 | the collected planes answer the requests of all images that run the pass one by one, each with its own schedule, base and status slot |
| `Dispatches.GroupPlanes` | crates/jxr-metal/src/encode/batch.rs:406-412 | every collected plane is dispatched exactly once, with its base and status slot, in the group of its resident object, in plane order there; no two groups share an object |
| `Dispatches.OverlapGroups` | crates/jxr-metal/src/encode/batch.rs:370-416 | from any cache the groups hold the planes of the images that run the pass, each exactly once, with its own schedule's object, base and status slot, or the pass is refused exactly when one of them cannot be placed; nothing is asked of the objects |
| `Dispatches.BatchOverlaps` | crates/jxr-metal/src/encode/batch.rs:320-367 | the grouped, staged dispatch of a pass, threads interleaving freely: an image's word ends raised exactly when the pass of one of its own planes overflows, and otherwise each of its planes holds what its own planned pass leaves; narrow tiles of its subsampled planes excepted |
| `DescribedBatch.DescribedRequests` | crates/jxr-metal/src/encode/batch.rs:225-258 | in a described batch whose planes could be placed, the requests of a pass follow each other in its buffer and can all be planned there: `BatchOverlaps` applies |
| `DescribedBatch.DescribedJobs` | crates/jxr-metal/src/encode/batch.rs:200-258 | the moved jobs of all planes are a valid batch on the bound coefficients and concatenated arenas when each plane's own job is valid: `ImageReconstructed` applies |
| `DescribedBatch.RecordsFound` | crates/jxr-metal/src/encode/batch.rs:215-222 | every moved macroblock record is the one uploaded at its plane's moved offset |
| `DescribedBatch.GroupsList` | crates/jxr-metal/src/encode/batch.rs:377-416 | the groups of a pass list every plane that runs it exactly once among the planes of the batch |
| `DescribedBatch.BatchDecodes` | crates/jxr-metal/src/encode/batch.rs:51-92 | a described batch on the device: each image's word and planes as `ImageReconstructed` says, in the image's share of the arenas |
| `Relocation.ReconstructMoved` | crates/jxr-metal/src/encode/batch.rs:215-246 | a job moved with its coefficients to other places of larger buffers overflows alike and leaves the same samples there |
| `Relocation.PlacedAnywhere` | crates/jxr-metal/src/encode/batch.rs:215-246 | whatever the scratch buffers of either place held |
| `BatchMatches.BatchMatchesImages` | crates/jxr-metal/src/encode/batch.rs:51-92 | a batch matches decoding every image by itself: the word of an image ends raised exactly when one of its planes overflows in buffers of the image's own, and otherwise the image's share of the samples, from its sample base, holds what those reconstructions leave |
| `Bytes.Read32` | crates/jxr-native/src/annex_a.rs:334-337 | a little-endian word is read back where it was written |
| `AnnexA.ParseDirectory` | crates/jxr-native/src/annex_a.rs:86-125 | the entry loop accepts exactly non-empty directories inside the file with strictly increasing tags |
| `AnnexA.ParseAnnexA` | crates/jxr-native/src/annex_a.rs:60-71 | header, directory and image in order; `AnnexAFields.ParsedExactly` says which files have which image |
| `AnnexAFields.ParsedExactly` | crates/jxr-native/src/annex_a.rs:60-347 | a file is parsed to an image if and only if its bytes form a container whose entries describe that image, field by field: tags, element types 1, 3 and 4 of one, two and four bytes, a byte count of zero that runs to the end of the file |
| `AnnexAFields.ScalarRead` | crates/jxr-native/src/annex_a.rs:274-298 | a scalar is one element: of type 1 the first value byte, of type 3 two bytes, of type 4 four, low byte first; nothing else is one |
| `AnnexA.ParsedRangesInside` | crates/jxr-native/src/annex_a.rs:127-174 | every range of a parsed image lies inside the file and the two codestreams do not overlap |
| `AnnexAWriter.OrientationRead` | crates/jxr-native/src/annex_a/writer.rs:336-347 | the decoder's reading of the orientation code is the orientation written |
| `AnnexAWriter.NewLayout` | crates/jxr-native/src/annex_a/writer.rs:115-167 | the cursor walk yields the planned layout, refused exactly when the file exceeds 32 bits |
| `AnnexAWriter.PlannedShape` | crates/jxr-native/src/annex_a/writer.rs:115-167 | directory and payloads follow each other without overlap up to the file's end |
| `AnnexAWriter.EntriesFit` | crates/jxr-native/src/annex_a/writer.rs:184-250 | the pushed entries are in increasing tag order and fit their words |
| `AnnexAWriter.DirectoryEntries.Push` | crates/jxr-native/src/annex_a/writer.rs:264-270 | one more entry of twelve bytes, everything else kept |
| `AnnexAWriter.WriteDirectory` | crates/jxr-native/src/annex_a/writer.rs:170-252 | the buffer begins with exactly the bytes of header and entries, the rest unchanged |
| `AnnexAWriter.WritePayloads` | crates/jxr-native/src/annex_a/writer.rs:273-288 | identifier, profile, codestream and alpha at their offsets, the rest unchanged |
| `AnnexAWriter.WriteAnnexA` | crates/jxr-native/src/annex_a/writer.rs:91-102 | succeeds exactly for valid options that fit, and writes the one container they determine |
| `AnnexAFile.OptionsExactly` | crates/jxr-native/src/annex_a/writer.rs:290-334 | the writer's conditions: signed codestreams, a profile that is not empty, resolutions that are positive finite numbers |
| `AnnexAFile.LayoutExactly` | crates/jxr-native/src/annex_a/writer.rs:115-167 | a layout exists if and only if the payloads, each at the next multiple of four in file order, end within 32 bits, and is that arrangement |
| `AnnexAFile.FileExactly` | crates/jxr-native/src/annex_a/writer.rs:91-288 | the file holds exactly the stated fields with their types, the payloads at those places, and zeros everywhere else |
| `AnnexARoundTrip.DirectoryRead` | crates/jxr-native/src/annex_a.rs:86-125 | a file that begins with the bytes of a sorted directory has that directory |
| `AnnexARoundTrip.RoundTrip` | crates/jxr-native/src/annex_a.rs:60-174 | parsing a written file returns width, height, identifier, orientation and resolutions, and ranges holding exactly the payloads |
| `Binary32.F32Bits` | crates/jxr-cuda/src/kernels/output.rs:186-222 | the word denotes exactly the sample's number if and only if its magnitude is below 2^128; from there up to 2^129 it has all exponent bits set; larger samples, and only those, are refused |
| `Binary32.Normalise` | crates/jxr-cuda/src/kernels/output.rs:208-211 | the loop ends with the same value, a leading bit or the smallest exponent |
| `Binary32.Assemble` | crates/jxr-cuda/src/kernels/output.rs:212-222 | normal, subnormal or zero words with the value; the fraction check never fires |
| `Binary32.RangeByExponent` | crates/jxr-cuda/src/kernels/output.rs:200-207 | for a non-zero exponent a power-of-two range is a bound on the rebiased exponent |
| `Binary32.OutcomeByExponent` | crates/jxr-cuda/src/kernels/output.rs:200-220 | a number, a word with all exponent bits set, or a refusal, exactly as the rebiased exponent is below, at or above 255 |
| `Binary32.NotRefused` | crates/jxr-cuda/src/kernels/output.rs:216-220 | the sample 131072 with ten fraction bits and no bias is one of the words with all exponent bits set |
| `Grouping.BatchGroups` | crates/jxr-metal/src/session.rs:716-745 | refused exactly when one image exceeds the budget; else consecutive non-empty groups within it, none able to take the next image |
| `Grouping.BatchGroupsOptimal` | crates/jxr-metal/src/session.rs:716-745 | no partition into consecutive groups within the budget has fewer groups |
| `Grouping.DenseGroupEnd` | crates/jxr-metal/src/encode.rs:166-183 | always advances; at most 16 images, over the budget only alone, and one more would not fit; refused exactly when adding up the group exceeds the address space |
| `Grouping.DenseGroups` | crates/jxr-metal/src/encode.rs:142-161 | the grouping loop covers the images in order; refused exactly when the greedy groups reach an image where a group's byte count overflows |
| `Grouping.DenseGroupsOptimal` | crates/jxr-metal/src/encode.rs:142-183 | no grouping under the same rules has fewer groups |
| `Packets.IndexedTilePacketRanges` | crates/jxr-native/src/prepare.rs:377-429 | one range per tile, in either mode, and exactly the stated refusals |
| `Packets.RangesExactly` | crates/jxr-native/src/prepare.rs:377-429 | an index is accepted with these ranges if and only if it lists equally many entries per tile and each range runs from the tile's first entry to the next larger start of any tile, or is the whole codestream in frequency mode |
| `Packets.NextEntry` | crates/jxr-native/src/prepare.rs:410-422 | in the sorted, deduplicated list the next entry is the smallest larger start |
| `Packets.RangesSharedOrApart` | crates/jxr-native/src/prepare.rs:413-428 | tiles with equal starts share one range, different starts have disjoint ranges |
| `Packets.RangesCover` | crates/jxr-native/src/prepare.rs:413-428 | the ranges together cover exactly the bytes from the smallest start to the codestream's end |
| `TileGeometry.CompleteTiles` | crates/jxr-native/src/metadata.rs:121-147 | the explicit sizes and the rest, refused when a tile would be empty |
| `TileGeometry.GridFills` | crates/jxr-native/src/metadata.rs:94-104 | the completed tiles are not empty and sum to the extended image |
| `TileGeometry.GridExactly` | crates/jxr-native/src/metadata.rs:94-147 | a header's tile sizes complete to a grid if and only if that grid adds one tile to each side, has none empty, and fills the extended image in 32 bits |
| `TileGeometry.RegionsPartitionImage` | crates/jxr-native/src/prepare.rs:431-455 | every pixel of the image is shown by exactly one tile |
| `TileGeometry.RegionInsideImage` | crates/jxr-native/src/prepare.rs:431-455 | and no tile shows anything beyond the image |
| `TileGeometry.TilePlans` | crates/jxr-native/src/prepare.rs:261-298 | each tile starts at the number of macroblocks before it; refused exactly when the image has more than 32 bits count |
| `TileGeometry.SideBounds` | crates/jxr-native/src/prepare.rs:343-348 | the bounds hold exactly the macroblocks within the halo of the requested extent |
| `TileGeometry.BoundsExactly` | crates/jxr-native/src/prepare.rs:320-349 | the bounds are refused exactly when the region ends beyond 32 bits, and hold exactly the macroblocks within the halo, one macroblock where filters or upsampling reach over |
| `TileGeometry.RequiredMeaning` | crates/jxr-native/src/prepare.rs:284-287 | a tile is required if and only if one of its macroblocks lies within the bounds |
| `TileGeometry.NearIsRequired` | crates/jxr-native/src/prepare.rs:284-349 | every macroblock within the halo of a requested region lies in a required tile |
| `Pools.EvictedIsLongest` | crates/jxr-metal/src/buffer_pool/state.rs:116-136 | eviction keeps the newest buffers, as many as fit beside the new one |
| `Pools.MetalPool.constructor` | crates/jxr-metal/src/buffer_pool/state.rs:82-89 | an empty pool within the device's limits |
| `Pools.MetalPool.Take` | crates/jxr-metal/src/buffer_pool/state.rs:91-104 | the first buffer of exactly the requested size, or none; the byte count never underflows |
| `Pools.MetalPool.EvictOldest` | crates/jxr-metal/src/buffer_pool/state.rs:123-135 | the oldest goes; only the counter can fail |
| `Pools.MetalPool.Recycle` | crates/jxr-metal/src/buffer_pool/state.rs:106-147 | keeps limits and the books: recycled = cached + hits + evictions + rejections; fails only by counter overflow |
| `Pools.CudaPool.Take` | crates/jxr-cuda/src/buffer_pool.rs:50-86 | the first buffer of the size and context, or on a counted miss what the driver allocates; the answer always has the requested size and context |
| `Pools.CudaPool.EvictOldest` | crates/jxr-cuda/src/buffer_pool.rs:103-119 | the oldest goes; counts stay exact |
| `Pools.CudaPool.Recycle` | crates/jxr-cuda/src/buffer_pool.rs:88-129 | keeps the byte bound and the books; the invariant errors are never reached |

Members that only support these are documented where they are declared. The exact functions of the operators
follow the statements of the cited sources one by one; what they mean is what the linear laws of `LinearLaws`, `CoreMap`,
`OverlapMap` and `ChromaMap` and the reversibility, bound, zero and uniformity lemmas state about them.

## Left out

- Entropy decoding, header parsing, tile decoding, the CPU reconstruction pipeline and its SIMD paths are not part of this model.
- GPU plumbing: streams, events, pipelines, command buffers, mutex poisoning and the Metal shader text; only phases, items and barriers remain.
- Other output formatting: `scale`, RGBE and half-float packing, chroma upsampling and premultiplication are not part of this model; `F32Bits` starts from the scaled sample.
- Error payloads: an error return is `None` or `Overflow`; which of several errors a call reports is not modelled.
- Integer widths: `usize` is 64 bits; 32-bit coordinates and counts are naturals with the source's checks written out, and sums the source cannot overflow stay unbounded.
- Schedule preconditions: tile sizes are taken to be positive, as the completed tile grid guarantees.
- Quantizers of zero: the decoder's quantizer tables start at one, and `Lossless` asks for it; a zero quantizer loses its coefficient.
- ScheduleCache.OverlapScheduleCache.GetOrUpload: uploading cannot fail beyond the size checks, because device allocation is not modelled.
- AnnexAWriter.WriteAnnexA: assumes of the codestreams only their signature; parsing their headers and re-parsing the finished file's codestream is not part of this model.
- Packets.IndexedTilePacketRanges: the branch for images without a tile index returns one range and is left out.
- Sample origins of planes, alpha flags and arena indices only label planes and are left out of `Plane`.
