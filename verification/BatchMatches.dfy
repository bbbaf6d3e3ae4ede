/**
 A batch matches decoding each image by itself: what the device leaves of an image in the shared arenas is what the
 reconstruction of the image in buffers of its own leaves, in the image's share.
 */
module BatchMatches {
  import opened Wrappers
  import opened Regions
  import opened Window
  import opened PlanePasses
  import opened Reconstruction
  import opened Relocation
  import opened Descriptors
  import opened BatchRun
  import opened DescribedBatch
  import L = Locality

  /** Scratch buffers of the lengths an image's plan asks for. */
  ghost predicate OwnBuffers(b: BatchImage, low: seq<int>, samples: seq<int>) {
    |low| == b.image.lowLen && |samples| == b.image.sampleLen
  }

  /** One plane reconstructed in buffers of its image. */
  ghost function OwnDecode(b: BatchImage, a: nat, low: seq<int>, samples: seq<int>): (after: Option<seq<int>>)
    requires ValidImage(b) && a < |b.image.planes| && OwnBuffers(b, low, samples)
    ensures after.Some? ==> |after.value| == |samples|
  {
    Reconstruct(OwnJob(b, a), b.image.coefficients, low, samples)
  }

  /** The bound buffer holds an image's coefficients from its base on. */
  lemma CoefficientsEmbedded(images: seq<Image>, buffer: seq<int>, i: nat)
    requires Describe(images).Some? && Compatible(images) && Descriptors.Holds(buffer, images) && i < |images|
    ensures Describe(images[..i]).Some?
    ensures Embedded(images[i].coefficients, Bound(images, Describe(images).value, buffer),
                     CoefficientBase(images[i], Describe(images[..i]).value))
  {
    hide Describe, ImageFits, Descriptors.Holds, MovedOffsets, MovedPlanes;
    var before := AppendedFirst(images, i);
    assert images[i].shared.Some? == images[0].shared.Some?;
    if images[i].shared.Some? {
      HeldAt(buffer, images, i);
      var from := images[i].shared.value;
      forall k | 0 <= k < |images[i].coefficients|
        ensures buffer[from + k] == images[i].coefficients[k]
      {
        assert buffer[from..from + |images[i].coefficients|][k] == buffer[from + k];
      }
    } else {
      var packed := Append(images[i], before).packed;
      forall k | 0 <= k < |images[i].coefficients|
        ensures Describe(images).value.packed[|before.packed| + k] == images[i].coefficients[k]
      {
        assert packed[|before.packed| + k] == images[i].coefficients[k];
      }
    }
  }

  /** The image's shares of the arenas. */
  ghost predicate InShare(batch: seq<BatchImage>, i: nat, low: seq<int>, samples: seq<int>)
    requires Describe(ImageList(batch)).Some? && i < |batch|
  {
    && StartOf(batch, i).lowLen + batch[i].image.lowLen <= |low|
    && StartOf(batch, i).sampleLen + batch[i].image.sampleLen <= |samples|
  }

  lemma SharesFit(batch: seq<BatchImage>, i: nat, low: seq<int>, samples: seq<int>)
    requires Describe(ImageList(batch)).Some? && i < |batch| && Sized(batch, low, samples)
    ensures InShare(batch, i, low, samples)
  {
    var before := AppendedLast(ImageList(batch), i);
    DescribeKeeps(ImageList(batch), i + 1);
    ImagesBefore(batch, i);
    hide Describe, ImageFits, MovedOffsets, MovedPlanes;
  }

  ghost function ShiftOf(batch: seq<BatchImage>, i: nat): Shift
    requires Describe(ImageList(batch)).Some? && i < |batch|
  {
    var start := StartOf(batch, i);
    Shift(CoefficientBase(batch[i].image, start), start.lowLen, start.sampleLen)
  }

  lemma MovedIsMoved(batch: seq<BatchImage>, i: nat, a: nat)
    requires Describe(ImageList(batch)).Some? && i < |batch| && a < |batch[i].image.planes| == |batch[i].records|
    ensures JobMoved(OwnJob(batch[i], a), MovedJob(batch[i], a, StartOf(batch, i)), ShiftOf(batch, i))
  {
    hide StartOf, CoefficientBase;
  }

  /** The plane's jobs in the batch's buffers and in the image's own. */
  lemma PlaneMoves(batch: seq<BatchImage>, buffer: seq<int>, low: seq<int>, samples: seq<int>, i: nat, a: nat)
    requires BatchReady(batch, buffer) && Sized(batch, low, samples) && i < |batch| && a < |batch[i].image.planes|
    ensures |batch[i].image.planes| == |batch[i].records|
    ensures BothValid(OwnJob(batch[i], a), MovedJob(batch[i], a, StartOf(batch, i)), ShiftOf(batch, i), batch[i].image.coefficients,
                      BoundBuffer(batch, buffer), batch[i].image.lowLen, |low|, batch[i].image.sampleLen, |samples|)
  {
    hide Describe, ValidJob, Placeable, Descriptors.Holds, Compatible, StartOf, MovedJob, OwnJob, JobMoved, Embedded,
         Contained, ShiftOf;
    assert ValidImage(batch[i]);
    MovedIsMoved(batch, i, a);
    MovedJobValid(batch, buffer, i, a);
    BoundEmbedded(batch, buffer, i);
    OwnJobValid(batch[i], a);
  }

  /** A plane reconstructed in the batch's buffers and in the image's own. */
  lemma PlaneMatches(batch: seq<BatchImage>, buffer: seq<int>, low: seq<int>, samples: seq<int>, i: nat, a: nat,
                     ownLow: seq<int>, ownSamples: seq<int>)
    requires BatchReady(batch, buffer) && Sized(batch, low, samples) && i < |batch| && a < |batch[i].image.planes|
    requires ValidImage(batch[i]) && OwnBuffers(batch[i], ownLow, ownSamples)
    ensures PlaneAlone(batch, buffer, low, samples, i, a).Some? <==> OwnDecode(batch[i], a, ownLow, ownSamples).Some?
    ensures PlaneAlone(batch, buffer, low, samples, i, a).Some? ==>
      HoldsDecode(PlaneAlone(batch, buffer, low, samples, i, a).value, StartOf(batch, i).sampleLen, batch[i].image.planes[a],
                  OwnDecode(batch[i], a, ownLow, ownSamples))
  {
    var own, moved := OwnJob(batch[i], a), MovedJob(batch[i], a, StartOf(batch, i));
    SharesFit(batch, i, low, samples);
    PlaneMoves(batch, buffer, low, samples, i, a);
    OwnJobValid(batch[i], a);
    JobAlone(batch, buffer, low, samples, i, a, moved);
    hide Describe, ValidJob, ValidImage, BatchReady, Reconstruct, StartOf, MovedJob, OwnJob, BoundBuffer, PlaneAlone,
         Sized, BothValid, HoldsDecode;
    PlacedAnywhere(own, moved, ShiftOf(batch, i), batch[i].image.coefficients, BoundBuffer(batch, buffer), low, samples,
                   ownLow, ownSamples);
  }

  lemma OwnJobValid(b: BatchImage, a: nat)
    requires ValidImage(b) && a < |b.image.planes|
    ensures ValidJob(OwnJob(b, a), |b.image.coefficients|, b.image.lowLen, b.image.sampleLen)
    ensures OwnJob(b, a).plane == b.image.planes[a]
  {
    hide ValidJob, Contained;
  }

  lemma BoundEmbedded(batch: seq<BatchImage>, buffer: seq<int>, i: nat)
    requires BatchReady(batch, buffer) && i < |batch|
    ensures Embedded(batch[i].image.coefficients, BoundBuffer(batch, buffer), ShiftOf(batch, i).base)
  {
    hide Describe, Placeable, ValidImage, Embedded, Descriptors.Holds, Compatible, CoefficientBase, Bound;
    ImagesBefore(batch, i);
    CoefficientsEmbedded(ImageList(batch), buffer, i);
  }

  /** Samples that agree on the moved plane hold the same of its own decode. */
  lemma RangeHeld(after: seq<int>, alone: seq<int>, from: nat, own: seq<int>, low: nat, high: nat)
    requires HoldsRange(alone, from, own, low, high) && L.Agree(after, alone, Range(low + from, high + from))
    ensures HoldsRange(after, from, own, low, high)
  {
    assert |after| == |alone|;
    forall cell: nat | low + from <= cell < high + from && cell < |after|
      ensures after[cell] == alone[cell]
    {
      assert Range(low + from, high + from)(cell);
    }
    hide L.Agree;
  }

  /**
   A batch on the device matches decoding every image by itself: however the threads interleave, the status word of
   image `i` ends raised exactly when one of its planes overflows when reconstructed in buffers of the image's own, of
   any content, and otherwise the image's share of the samples holds, plane by plane, what those reconstructions leave.
   */
  lemma BatchMatchesImages(batch: seq<BatchImage>, buffer: seq<int>, low: seq<int>, samples: seq<int>, t: BatchTrace,
                           after: seq<int>, raised: set<nat>, i: nat, ownLow: seq<int>, ownSamples: seq<int>)
    requires BatchReady(batch, buffer) && Sized(batch, low, samples) && i < |batch| && WideImage(batch[i])
    requires DecodeRuns(batch, buffer, low, samples, t, after, raised)
    requires ValidImage(batch[i]) && OwnBuffers(batch[i], ownLow, ownSamples)
    ensures i in raised <==> exists a: nat :: a < |batch[i].image.planes| && OwnDecode(batch[i], a, ownLow, ownSamples).None?
    ensures i !in raised ==> forall a: nat :: a < |batch[i].image.planes| ==>
      HoldsDecode(after, StartOf(batch, i).sampleLen, batch[i].image.planes[a], OwnDecode(batch[i], a, ownLow, ownSamples))
  {
    hide Describe, ValidImage, DecodeRuns, Placeable, Descriptors.Holds, Compatible, PlaneAlone, OwnDecode, StartOf,
         L.Agree, WideImage, OwnBuffers, Sized, SampleEnd, Range, HoldsRange;
    BatchDecodes(batch, buffer, low, samples, t, after, raised, i);
    forall a: nat | a < |batch[i].image.planes|
      ensures PlaneAlone(batch, buffer, low, samples, i, a).Some? <==> OwnDecode(batch[i], a, ownLow, ownSamples).Some?
      ensures i !in raised ==>
        HoldsDecode(after, StartOf(batch, i).sampleLen, batch[i].image.planes[a], OwnDecode(batch[i], a, ownLow, ownSamples))
    {
      PlaneMatches(batch, buffer, low, samples, i, a, ownLow, ownSamples);
      if i !in raised {
        var p := batch[i].image.planes[a];
        EndMoved(p, StartOf(batch, i));
        RangeHeld(after, PlaneAlone(batch, buffer, low, samples, i, a).value, StartOf(batch, i).sampleLen,
                  OwnDecode(batch[i], a, ownLow, ownSamples).value, p.sampleOffset, SampleEnd(p));
      }
    }
  }

  lemma EndMoved(p: Plane, d: Described)
    ensures Moved(p, d).sampleOffset == p.sampleOffset + d.sampleLen && SampleEnd(Moved(p, d)) == SampleEnd(p) + d.sampleLen
  {}
}
