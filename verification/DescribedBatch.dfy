/**
 From the descriptors to the device: in a described batch the requests of both overlap passes follow each other
 in their buffers, and the moved jobs of all planes lie side by side, as the batch results ask.
 */
module DescribedBatch {
  import opened Wrappers
  import opened Memory
  import opened Overlap
  import opened Regions
  import opened Blocks
  import opened ExactTiling
  import opened PlanePasses
  import opened PhaseOrder
  import opened Window
  import opened Rebasing
  import opened ScheduleCache
  import opened Kernels
  import opened Reconstruction
  import opened Launches
  import opened Descriptors
  import opened Dispatches
  import opened BatchRun
  import L = Locality

  /** An image of a batch as its plan holds it: what is described, its tiling and mode, and each plane's macroblock records. */
  datatype BatchImage = BatchImage(image: Image, overlap: OverlapMode, hard: bool, tileColumns: seq<nat>, tileRows: seq<nat>,
                                   records: seq<seq<Macroblock>>, table: seq<nat>)

  /** A plane's job in the image's own buffers. */
  function OwnJob(b: BatchImage, a: nat): Job
    requires a < |b.image.planes| == |b.records|
  {
    Job(b.image.planes[a], b.records[a], b.overlap, b.hard, b.tileColumns, b.tileRows, b.table)
  }

  /** Every plane's job is valid in the image's own coefficients and arenas, and the planes follow each other there. */
  ghost predicate ValidImage(b: BatchImage) {
    && Contained(b.image) && |b.records| == |b.image.planes|
    && forall a :: 0 <= a < |b.records| ==> ValidJob(OwnJob(b, a), |b.image.coefficients|, b.image.lowLen, b.image.sampleLen)
  }

  ghost predicate ValidImages(batch: seq<BatchImage>) {
    forall i :: 0 <= i < |batch| ==> ValidImage(batch[i])
  }

  function ImageList(batch: seq<BatchImage>): (images: seq<Image>)
    ensures |images| == |batch| && forall i :: 0 <= i < |batch| ==> images[i] == batch[i].image
  {
    seq(|batch|, i requires 0 <= i < |batch| => batch[i].image)
  }

  /** Macroblock records with their coefficients found from `base`. */
  function MovedRecords(ms: seq<Macroblock>, base: nat): (moved: seq<Macroblock>)
    ensures |moved| == |ms| && forall g :: 0 <= g < |ms| ==> moved[g] == ms[g].(offset := ms[g].offset + base)
  {
    seq(|ms|, g requires 0 <= g < |ms| => ms[g].(offset := ms[g].offset + base))
  }

  /** The job of a plane in a batch in which `start` is described before the image. */
  function MovedJob(b: BatchImage, a: nat, start: Described): Job
    requires a < |b.image.planes| == |b.records|
  {
    Job(Moved(b.image.planes[a], start), MovedRecords(b.records[a], CoefficientBase(b.image, start)),
        b.overlap, b.hard, b.tileColumns, b.tileRows, b.table)
  }

  function MovedJobs(b: BatchImage, start: Described): (jobs: seq<Job>)
    requires |b.image.planes| == |b.records|
    ensures |jobs| == |b.image.planes| && forall a :: 0 <= a < |jobs| ==> jobs[a] == MovedJob(b, a, start)
  {
    seq(|b.image.planes|, a requires 0 <= a < |b.image.planes| => MovedJob(b, a, start))
  }

  lemma ImagesBefore(batch: seq<BatchImage>, n: nat)
    requires n <= |batch| && Describe(ImageList(batch)).Some?
    ensures ImageList(batch)[..n] == ImageList(batch[..n]) && Describe(ImageList(batch[..n])).Some?
  {
    assert ImageList(batch)[..n] == ImageList(batch[..n]);
    DescribePrefix(ImageList(batch), n);
  }

  /** What describes all images of a batch. */
  function Whole(batch: seq<BatchImage>): Described
    requires Describe(ImageList(batch)).Some?
  {
    Describe(ImageList(batch)).value
  }

  /** What is described before the image after the first `n`. */
  function StartOf(batch: seq<BatchImage>, n: nat): Described
    requires n <= |batch| && Describe(ImageList(batch)).Some?
  {
    ImagesBefore(batch, n);
    Describe(ImageList(batch[..n])).value
  }

  /** The jobs of the first `n` images of a batch, image by image. */
  ghost function JobsOf(batch: seq<BatchImage>, n: nat): seq<Job>
    requires n <= |batch| && ValidImages(batch) && Describe(ImageList(batch)).Some?
  {
    if n == 0 then []
    else
      JobsOf(batch, n - 1) + MovedJobs(batch[n - 1], StartOf(batch, n - 1))
  }

  /** The image each of those jobs belongs to. */
  ghost function TagsOf(batch: seq<BatchImage>, n: nat): (tags: seq<nat>)
    requires n <= |batch|
  {
    if n == 0 then [] else TagsOf(batch, n - 1) + seq(|batch[n - 1].image.planes|, a => n - 1)
  }

  /** What the batch's two passes collect their planes from. */
  ghost function Overlaps(batch: seq<BatchImage>, d: Described): (images: seq<OverlapImage>)
    requires |d.planes| == |batch|
    ensures |images| == |batch|
    ensures forall i :: 0 <= i < |batch| ==>
      images[i] == OverlapImage(batch[i].overlap, batch[i].hard, batch[i].tileColumns, batch[i].tileRows, d.planes[i])
  {
    seq(|batch|, i requires 0 <= i < |batch| =>
      OverlapImage(batch[i].overlap, batch[i].hard, batch[i].tileColumns, batch[i].tileRows, d.planes[i]))
  }

  // ---- Where an image's planes lie ----

  /** Where the image after the first `n` begins in the buffer of a pass. */
  ghost function Share(batch: seq<BatchImage>, n: nat, pass: Pass): nat
    requires n <= |batch| && Describe(ImageList(batch)).Some?
  {
    if pass.First? then StartOf(batch, n).lowLen else StartOf(batch, n).sampleLen
  }

  /** A plane of an image, moved, lies in the image's share of both buffers. */
  lemma PlaneShare(batch: seq<BatchImage>, i: nat, a: nat)
    requires ValidImages(batch) && Describe(ImageList(batch)).Some? && i < |batch| && a < |batch[i].image.planes|
    ensures var d := Whole(batch);
      && |d.planes| == |batch| && |d.planes[i]| == |batch[i].image.planes|
      && d.planes[i][a] == Moved(batch[i].image.planes[a], StartOf(batch, i))
      && ValidPlane(d.planes[i][a])
    ensures var p := Whole(batch).planes[i][a];
      forall pass: Pass ::
        Share(batch, i, pass) <= BaseOf(pass, p) && EndOf(pass, p) <= Share(batch, i + 1, pass) <= Share(batch, |batch|, pass)
  {
    hide Describe, LowEnd, SampleEnd, FillsWindow, AllReady;
    var images := ImageList(batch);
    ImagesBefore(batch, i);
    ImagesBefore(batch, i + 1);
    assert ValidImage(batch[i]) && ValidJob(OwnJob(batch[i], a), |batch[i].image.coefficients|, batch[i].image.lowLen, batch[i].image.sampleLen);
    PlaneWithinImage(images, i, a);
    MovedValid(batch[i].image.planes[a], Describe(images[..i]).value);
    assert batch[..|batch|] == batch;
  }

  /** Planes of one image follow each other. */
  lemma PlanesFollow(batch: seq<BatchImage>, i: nat, a: nat, b: nat)
    requires ValidImages(batch) && Describe(ImageList(batch)).Some? && i < |batch| && a < b < |batch[i].image.planes|
    ensures var d := Whole(batch);
      && |d.planes| == |batch| && |d.planes[i]| == |batch[i].image.planes|
      && forall pass: Pass :: EndOf(pass, d.planes[i][a]) <= BaseOf(pass, d.planes[i][b])
  {
    hide Describe, LowEnd, SampleEnd, Contained;
    BatchPlanesApart(ImageList(batch), i, a, i, b) by {
      assert ValidImage(batch[i]);
    }
  }

  /** Through its moved plane every moved record is the one the batch uploads. */
  lemma RecordsFound(batch: seq<BatchImage>, i: nat, a: nat, g: nat)
    requires Describe(ImageList(batch)).Some? && i < |batch| && a < |batch[i].image.planes| == |batch[i].records|
    requires g < |batch[i].records[a]| && batch[i].image.planes[a].macroblockOffset + g < |batch[i].image.offsets|
    requires batch[i].records[a][g].offset == batch[i].image.offsets[batch[i].image.planes[a].macroblockOffset + g]
    ensures var job := MovedJob(batch[i], a, StartOf(batch, i));
      && job.plane.macroblockOffset + g < |Whole(batch).offsets|
      && Whole(batch).offsets[job.plane.macroblockOffset + g] == job.macroblocks[g].offset
  {
    hide Describe, CoefficientBase, MovedPlanes;
    var image := batch[i].image;
    ImagesBefore(batch, i);
    var before := AppendedFirst(ImageList(batch), i);
    var at := image.planes[a].macroblockOffset + g;
    assert Append(image, before).offsets[|before.offsets| + at] == image.offsets[at] + CoefficientBase(image, before);
  }

  // ---- What was collected could be planned ----

  lemma {:induction false} PlaneCollected(pass: Pass, image: OverlapImage, planes: seq<Plane>, status: nat, a: nat)
    requires forall k :: 0 <= k < |planes| ==> ValidPlane(planes[k])
    requires CollectedPlanes(pass, image, planes, status).Some? && a < |planes|
    ensures Planned(pass, planes[a], image.hard, image.tileColumns, image.tileRows).Some?
    decreases |planes|
  {
    hide Planned, ValidPlane, CollectedPlane;
    var last := |planes| - 1;
    if a < last {
      PlaneCollected(pass, image, planes[..last], status, a);
    } else {
      CollectedIsOwn(pass, image, planes[last], status);
    }
  }

  lemma {:induction false} ImageCollected(pass: Pass, images: seq<OverlapImage>, i: nat)
    requires forall j, k :: 0 <= j < |images| && 0 <= k < |images[j].planes| ==> ValidPlane(images[j].planes[k])
    requires Collected(pass, images).Some? && i < |images| && Enabled(pass, images[i].overlap)
    ensures CollectedPlanes(pass, images[i], images[i].planes, i).Some?
    decreases |images|
  {
    hide CollectedPlanes, ValidPlane, Enabled;
    if i < |images| - 1 {
      ImageCollected(pass, images[..|images| - 1], i);
    }
  }

  /** All planes of the batch, moved, are valid. */
  lemma AllPlanesValid(batch: seq<BatchImage>)
    requires ValidImages(batch) && Describe(ImageList(batch)).Some?
    ensures |Whole(batch).planes| == |batch|
    ensures var images := Overlaps(batch, Whole(batch));
      forall i, a :: 0 <= i < |images| && 0 <= a < |images[i].planes| ==> ValidPlane(images[i].planes[a])
  {
    hide Describe, ValidImage, ValidPlane;
    var images := Overlaps(batch, Whole(batch));
    forall i, a | 0 <= i < |images| && 0 <= a < |images[i].planes|
      ensures ValidPlane(images[i].planes[a])
    {
      SamePlanes(batch, i);
      PlaneShare(batch, i, a);
    }
  }

  lemma SamePlanes(batch: seq<BatchImage>, i: nat)
    requires Describe(ImageList(batch)).Some? && i < |batch|
    ensures |Whole(batch).planes| == |batch|
    ensures |Whole(batch).planes[i]| == |batch[i].image.planes|
  {
    var images := ImageList(batch);
    var start := AppendedLast(images, i);
    DescribeKeeps(images, i + 1);
    hide Describe, ImageFits;
    assert Append(images[i], start).planes[|start.planes|] == MovedPlanes(images[i].planes, start);
  }

  /** The encoder placed every plane of the pass. */
  ghost predicate Placeable(batch: seq<BatchImage>, pass: Pass)
    requires ValidImages(batch) && Describe(ImageList(batch)).Some?
  {
    AllPlanesValid(batch);
    Collected(pass, Overlaps(batch, Whole(batch))).Some?
  }

  lemma PlanePlanned(batch: seq<BatchImage>, pass: Pass, i: nat, a: nat)
    requires ValidImages(batch) && Describe(ImageList(batch)).Some? && Placeable(batch, pass)
    requires i < |batch| && Enabled(pass, batch[i].overlap) && a < |batch[i].image.planes|
    ensures var d := Whole(batch);
      && |d.planes| == |batch| && |d.planes[i]| == |batch[i].image.planes| && ValidPlane(d.planes[i][a])
      && Planned(pass, d.planes[i][a], batch[i].hard, batch[i].tileColumns, batch[i].tileRows).Some?
  {
    hide Describe, ValidImage, ValidPlane, Planned, Collected, CollectedPlanes;
    AllPlanesValid(batch);
    SamePlanes(batch, i);
    var images := Overlaps(batch, Whole(batch));
    ImageCollected(pass, images, i);
    PlaneCollected(pass, images[i], images[i].planes, i, a);
  }

  // ---- The requests of a pass ----

  /** Requests that lie in the share of the first `n` images. */
  ghost predicate Before(asked: seq<Asked>, bound: nat) {
    forall k :: 0 <= k < |asked| ==> EndOf(asked[k].request.pass, asked[k].request.plane) <= bound
  }

  lemma OrderConcat(a: seq<Asked>, b: seq<Asked>, bound: nat)
    requires InOrder(a) && InOrder(b) && Before(a, bound)
    requires forall k :: 0 <= k < |b| ==> bound <= BaseOf(b[k].request.pass, b[k].request.plane)
    ensures InOrder(a + b)
  {
    hide EndOf, BaseOf;
  }

  /** The requests of one image: in order, in its share, and planned. */
  lemma ImageRequests(batch: seq<BatchImage>, pass: Pass, i: nat)
    requires ValidImages(batch) && Describe(ImageList(batch)).Some? && Placeable(batch, pass)
    requires i < |batch| && Enabled(pass, batch[i].overlap)
    ensures |Whole(batch).planes| == |batch|
    ensures var images := Overlaps(batch, Whole(batch));
      var asked := PlaneRequests(pass, images[i], images[i].planes, i);
      && InOrder(asked) && Before(asked, Share(batch, i + 1, pass))
      && AllPlannable(asked, Share(batch, |batch|, pass))
      && forall k :: 0 <= k < |asked| ==> Share(batch, i, pass) <= BaseOf(asked[k].request.pass, asked[k].request.plane)
  {
    hide Describe, ValidPlane, Planned, EndOf, BaseOf, Placeable, Share, ValidJob, Contained;
    SamePlanes(batch, i);
    var images := Overlaps(batch, Whole(batch));
    var asked := PlaneRequests(pass, images[i], images[i].planes, i);
    forall k | 0 <= k < |asked|
      ensures Share(batch, i, pass) <= BaseOf(asked[k].request.pass, asked[k].request.plane)
      ensures EndOf(asked[k].request.pass, asked[k].request.plane) <= Share(batch, i + 1, pass)
      ensures Plannable(asked[k].request, Share(batch, |batch|, pass))
    {
      PlaneShare(batch, i, k);
      PlanePlanned(batch, pass, i, k);
      JobTiles(batch[i], k);
    }
    forall j, k | 0 <= j < k < |asked|
      ensures EndOf(asked[j].request.pass, asked[j].request.plane) <= BaseOf(asked[k].request.pass, asked[k].request.plane)
    {
      PlanesFollow(batch, i, j, k);
    }
  }

  lemma JobTiles(b: BatchImage, a: nat)
    requires ValidImage(b) && a < |b.image.planes|
    ensures TileGrid(b.tileColumns, b.tileRows) && IsPermutation(b.table)
  {
    assert ValidJob(OwnJob(b, a), |b.image.coefficients|, b.image.lowLen, b.image.sampleLen);
    hide FillsWindow, LowEnd, SampleEnd, FirstSchedule, SecondSchedule;
  }

  lemma {:induction false} RequestsOrdered(batch: seq<BatchImage>, pass: Pass, n: nat)
    requires ValidImages(batch) && Describe(ImageList(batch)).Some? && Placeable(batch, pass) && n <= |batch|
    ensures |Whole(batch).planes| == |batch|
    ensures var asked := AllRequests(pass, Overlaps(batch, Whole(batch))[..n]);
      InOrder(asked) && Before(asked, Share(batch, n, pass)) && AllPlannable(asked, Share(batch, |batch|, pass))
  {
    hide Describe, ValidImage, Planned, EndOf, BaseOf, Placeable, Share, Enabled, PlaneRequests, Plannable;
    var images := Overlaps(batch, Whole(batch));
    if n > 0 {
      RequestsOrdered(batch, pass, n - 1);
      assert images[..n][..n - 1] == images[..n - 1];
      if Enabled(pass, images[n - 1].overlap) {
        ImageRequests(batch, pass, n - 1);
        var before, own := AllRequests(pass, images[..n - 1]), PlaneRequests(pass, images[n - 1], images[n - 1].planes, n - 1);
        assert AllRequests(pass, images[..n]) == before + own;
        OrderConcat(before, own, Share(batch, n - 1, pass));
        ShareGrows(batch, n - 1, pass);
      } else {
        assert AllRequests(pass, images[..n]) == AllRequests(pass, images[..n - 1]);
        ShareGrows(batch, n - 1, pass);
      }
    }
  }

  lemma ShareGrows(batch: seq<BatchImage>, n: nat, pass: Pass)
    requires n < |batch| && Describe(ImageList(batch)).Some?
    ensures Share(batch, n, pass) <= Share(batch, n + 1, pass)
  {
    ImagesBefore(batch, n);
    ImagesBefore(batch, n + 1);
    var before := AppendedLast(ImageList(batch), n);
    hide Describe, ImageFits, MovedPlanes, MovedOffsets;
  }

  /**
   In a described batch whose planes the encoder could place, the requests of a pass over all planes follow each
   other in the pass's buffer, and each can be planned there: what `BatchOverlaps` asks for.
   */
  lemma DescribedRequests(batch: seq<BatchImage>, pass: Pass)
    requires ValidImages(batch) && Describe(ImageList(batch)).Some? && Placeable(batch, pass)
    ensures |Whole(batch).planes| == |batch|
    ensures var d := Whole(batch); var asked := AllRequests(pass, Overlaps(batch, d));
      InOrder(asked) && AllPlannable(asked, if pass.First? then d.lowLen else d.sampleLen)
  {
    hide Describe, ValidImage, Placeable, AllRequests;
    RequestsOrdered(batch, pass, |batch|);
    var images := Overlaps(batch, Whole(batch));
    assert images[..|batch|] == images && batch[..|batch|] == batch;
  }

  // ---- The jobs of a batch ----

  /** An image's coefficients, found from its base, lie in the buffer the batch binds. */
  lemma CoefficientsFit(images: seq<Image>, buffer: seq<int>, i: nat)
    requires Describe(images).Some? && Compatible(images) && Holds(buffer, images) && i < |images|
    ensures Describe(images[..i]).Some?
    ensures CoefficientBase(images[i], Describe(images[..i]).value) + |images[i].coefficients|
      <= |Bound(images, Describe(images).value, buffer)|
  {
    hide Describe, ImageFits, Holds;
    var before := AppendedFirst(images, i);
    if images[i].shared.Some? {
      HeldAt(buffer, images, i);
    }
    assert images[i].shared.Some? == images[0].shared.Some?;
  }

  lemma MovedFills(ms: seq<Macroblock>, p: Plane, base: nat, d: Described)
    requires FillsWindow(ms, p)
    ensures FillsWindow(MovedRecords(ms, base), Moved(p, d))
  {
    var moved := MovedRecords(ms, base);
    assert CodedX(moved) == CodedX(ms) && CodedY(moved) == CodedY(ms);
    forall x: nat, y: nat | x < p.macroblocksX && y < p.macroblocksY
      ensures HasMacroblock(moved, Moved(p, d), x, y)
    {
      assert HasMacroblock(ms, p, x, y);
      var g :| 0 <= g < |ms| && ms[g].codedX == p.originX + x && ms[g].codedY == p.originY + y;
      assert moved[g].codedX == ms[g].codedX;
    }
  }

  lemma MovedReady(b: BatchImage, a: nat, start: Described, packed: nat)
    requires a < |b.image.planes| == |b.records| && AllReady(OwnJob(b, a), |b.image.coefficients|)
    requires CoefficientBase(b.image, start) + |b.image.coefficients| <= packed
    ensures AllReady(MovedJob(b, a, start), packed)
  {
    var own, job := OwnJob(b, a), MovedJob(b, a, start);
    hide IsPermutation;
    forall g | 0 <= g < |job.macroblocks|
      ensures Ready(job.macroblocks[g], job.plane, packed)
    {
      assert Ready(own.macroblocks[g], own.plane, |b.image.coefficients|);
    }
  }

  /** A plane's moved job is valid in the buffers of the batch. */
  lemma MovedJobValid(batch: seq<BatchImage>, buffer: seq<int>, i: nat, a: nat)
    requires ValidImages(batch) && Describe(ImageList(batch)).Some? && Placeable(batch, First) && Placeable(batch, Second)
    requires Compatible(ImageList(batch)) && Holds(buffer, ImageList(batch))
    requires i < |batch| && a < |batch[i].image.planes|
    ensures var d := Whole(batch);
      ValidJob(MovedJob(batch[i], a, StartOf(batch, i)), |Bound(ImageList(batch), d, buffer)|, d.lowLen, d.sampleLen)
  {
    hide Describe, FillsWindow, AllReady, FirstSchedule, SecondSchedule, Placeable, Holds, Compatible, Contained,
         CoefficientBase, LowEnd, SampleEnd;
    var b, d := batch[i], Whole(batch);
    ImagesBefore(batch, i);
    var start := StartOf(batch, i);
    assert ValidImage(b) && ValidJob(OwnJob(b, a), |b.image.coefficients|, b.image.lowLen, b.image.sampleLen);
    PlaneShare(batch, i, a);
    assert batch[..|batch|] == batch && Share(batch, |batch|, First) == d.lowLen && Share(batch, |batch|, Second) == d.sampleLen;
    assert EndOf(First, d.planes[i][a]) <= d.lowLen && EndOf(Second, d.planes[i][a]) <= d.sampleLen;
    CoefficientsFit(ImageList(batch), buffer, i);
    MovedReady(b, a, start, |Bound(ImageList(batch), d, buffer)|);
    MovedFills(b.records[a], b.image.planes[a], CoefficientBase(b.image, start), start);
    if b.overlap.Two? {
      PlanePlanned(batch, First, i, a);
    }
    if !b.overlap.NoOverlap? {
      PlanePlanned(batch, Second, i, a);
    }
  }

  lemma JobsNext(batch: seq<BatchImage>, n: nat)
    requires 0 < n <= |batch| && ValidImages(batch) && Describe(ImageList(batch)).Some?
    ensures |batch[n - 1].image.planes| == |batch[n - 1].records|
    ensures JobsOf(batch, n) == JobsOf(batch, n - 1) + MovedJobs(batch[n - 1], StartOf(batch, n - 1))
    ensures |TagsOf(batch, n)| == |TagsOf(batch, n - 1)| + |batch[n - 1].image.planes|
    ensures TagsOf(batch, n)[..|TagsOf(batch, n - 1)|] == TagsOf(batch, n - 1)
    ensures forall k: nat :: |TagsOf(batch, n - 1)| <= k < |TagsOf(batch, n)| ==> TagsOf(batch, n)[k] == n - 1
  {
    hide Describe, ValidJob, Contained, MovedJob, MovedJobs, StartOf;
    assert ValidImage(batch[n - 1]);
  }

  /** Which plane of which image a job of the batch is. */
  lemma {:induction false} JobAt(batch: seq<BatchImage>, n: nat, k: nat) returns (i: nat, a: nat)
    requires n <= |batch| && ValidImages(batch) && Describe(ImageList(batch)).Some? && k < |JobsOf(batch, n)|
    ensures |TagsOf(batch, n)| == |JobsOf(batch, n)| && TagsOf(batch, n)[k] == i < n
    ensures a < |batch[i].image.planes|
    ensures JobsOf(batch, n)[k] == MovedJob(batch[i], a, StartOf(batch, i))
  {
    hide Describe, ValidImage, MovedJob, MovedJobs, StartOf;
    SameCounts(batch, n - 1);
    JobsNext(batch, n);
    hide JobsOf, TagsOf;
    if k < |JobsOf(batch, n - 1)| {
      i, a := JobAt(batch, n - 1, k);
    } else {
      i, a := n - 1, k - |JobsOf(batch, n - 1)|;
    }
  }

  lemma {:induction false} SameCounts(batch: seq<BatchImage>, n: nat)
    requires n <= |batch| && ValidImages(batch) && Describe(ImageList(batch)).Some?
    ensures |TagsOf(batch, n)| == |JobsOf(batch, n)|
  {
    if n > 0 {
      hide Describe, ValidImage, MovedJob;
      SameCounts(batch, n - 1);
    }
  }

  /** Each job's plane ends, in both buffers, before the next one's begins. */
  ghost predicate Follow(jobs: seq<Job>) {
    forall j, k, pass: Pass :: 0 <= j < k < |jobs| ==> EndOf(pass, jobs[j].plane) <= BaseOf(pass, jobs[k].plane)
  }

  ghost predicate EndBefore(jobs: seq<Job>, low: nat, samples: nat) {
    forall k :: 0 <= k < |jobs| ==> EndOf(First, jobs[k].plane) <= low && EndOf(Second, jobs[k].plane) <= samples
  }

  ghost predicate BeginAfter(jobs: seq<Job>, low: nat, samples: nat) {
    forall k :: 0 <= k < |jobs| ==> low <= BaseOf(First, jobs[k].plane) && samples <= BaseOf(Second, jobs[k].plane)
  }

  lemma FollowConcat(a: seq<Job>, b: seq<Job>, low: nat, samples: nat)
    requires Follow(a) && Follow(b) && EndBefore(a, low, samples) && BeginAfter(b, low, samples)
    ensures Follow(a + b)
  {
    hide EndOf, BaseOf;
    forall j, k, pass: Pass | 0 <= j < k < |a + b|
      ensures EndOf(pass, (a + b)[j].plane) <= BaseOf(pass, (a + b)[k].plane)
    {
      if j < |a| && k >= |a| {
        assert pass == First || pass == Second;
        assert (a + b)[j] == a[j] && (a + b)[k] == b[k - |a|];
      }
    }
  }

  lemma BeforeConcat(a: seq<Job>, b: seq<Job>, low: nat, samples: nat, nextLow: nat, nextSamples: nat)
    requires EndBefore(a, low, samples) && EndBefore(b, nextLow, nextSamples) && low <= nextLow && samples <= nextSamples
    ensures EndBefore(a + b, nextLow, nextSamples)
  {
    hide EndOf;
  }

  lemma ImageJobs(batch: seq<BatchImage>, i: nat)
    requires ValidImages(batch) && Describe(ImageList(batch)).Some? && i < |batch|
    ensures |batch[i].image.planes| == |batch[i].records|
    ensures var jobs := MovedJobs(batch[i], StartOf(batch, i));
      && Follow(jobs) && EndBefore(jobs, Share(batch, i + 1, First), Share(batch, i + 1, Second))
      && BeginAfter(jobs, Share(batch, i, First), Share(batch, i, Second))
  {
    hide Describe, EndOf, BaseOf, Share, ValidJob, Contained;
    ImagesBefore(batch, i);
    assert ValidImage(batch[i]);
    var jobs := MovedJobs(batch[i], StartOf(batch, i));
    forall k | 0 <= k < |jobs|
      ensures EndOf(First, jobs[k].plane) <= Share(batch, i + 1, First) && EndOf(Second, jobs[k].plane) <= Share(batch, i + 1, Second)
      ensures Share(batch, i, First) <= BaseOf(First, jobs[k].plane) && Share(batch, i, Second) <= BaseOf(Second, jobs[k].plane)
    {
      PlaneShare(batch, i, k);
    }
    forall j, k, pass: Pass | 0 <= j < k < |jobs|
      ensures EndOf(pass, jobs[j].plane) <= BaseOf(pass, jobs[k].plane)
    {
      PlaneShare(batch, i, j);
      PlaneShare(batch, i, k);
      PlanesFollow(batch, i, j, k);
    }
  }

  lemma {:induction false} JobsFollow(batch: seq<BatchImage>, n: nat)
    requires n <= |batch| && ValidImages(batch) && Describe(ImageList(batch)).Some?
    ensures Follow(JobsOf(batch, n)) && EndBefore(JobsOf(batch, n), Share(batch, n, First), Share(batch, n, Second))
  {
    if n > 0 {
      hide Describe, ValidImage, Share, Follow, EndBefore, BeginAfter, MovedJobs;
      JobsFollow(batch, n - 1);
      ImageJobs(batch, n - 1);
      ShareGrows(batch, n - 1, First);
      ShareGrows(batch, n - 1, Second);
      var before, own := JobsOf(batch, n - 1), MovedJobs(batch[n - 1], StartOf(batch, n - 1));
      FollowConcat(before, own, Share(batch, n - 1, First), Share(batch, n - 1, Second));
      BeforeConcat(before, own, Share(batch, n - 1, First), Share(batch, n - 1, Second), Share(batch, n, First), Share(batch, n, Second));
    }
  }

  /**
   In a described batch whose planes the encoder could place, the moved jobs of all planes, if each plane's own job
   is valid, are a valid batch on the bound coefficients and the concatenated arenas: what `ImageReconstructed` asks
   for. That a plan of the Metal backend has valid own jobs takes its window to be filled: its check alone lets
   repeated coordinates pass (`Window.BoundingWindowRepeats`), and `Window.WindowBijection` says that they are all
   that is missing.
   */
  lemma DescribedJobs(batch: seq<BatchImage>, buffer: seq<int>)
    requires ValidImages(batch) && Describe(ImageList(batch)).Some? && Placeable(batch, First) && Placeable(batch, Second)
    requires Compatible(ImageList(batch)) && Holds(buffer, ImageList(batch))
    ensures |TagsOf(batch, |batch|)| == |JobsOf(batch, |batch|)|
    ensures var d := Whole(batch);
      ValidBatch(JobsOf(batch, |batch|), |Bound(ImageList(batch), d, buffer)|, d.lowLen, d.sampleLen)
  {
    hide Describe, ValidJob, ValidImage, Placeable, Holds, Compatible, JobsOf, TagsOf, LowEnd, SampleEnd;
    var jobs, d := JobsOf(batch, |batch|), Whole(batch);
    SameCounts(batch, |batch|);
    JobsFollow(batch, |batch|);
    forall k | 0 <= k < |jobs|
      ensures ValidJob(jobs[k], |Bound(ImageList(batch), d, buffer)|, d.lowLen, d.sampleLen)
    {
      var i, a := JobAt(batch, |batch|, k);
      MovedJobValid(batch, buffer, i, a);
    }
    forall j, k | 0 <= j < |jobs| && 0 <= k < |jobs| && j != k
      ensures PlanesApart(jobs[j].plane, jobs[k].plane)
    {
      var first, second := if j < k then j else k, if j < k then k else j;
      assert EndOf(First, jobs[first].plane) <= BaseOf(First, jobs[second].plane);
      assert EndOf(Second, jobs[first].plane) <= BaseOf(Second, jobs[second].plane);
    }
  }

  // ---- The groups of a pass list its planes ----

  /** The jobs of the first `n` images that run the pass, by number. */
  ghost function Running(batch: seq<BatchImage>, n: nat, pass: Pass): (own: seq<nat>)
    requires n <= |batch|
  {
    if n == 0 then []
    else
      Running(batch, n - 1, pass)
      + if Enabled(pass, batch[n - 1].overlap) then seq(|batch[n - 1].image.planes|, a requires 0 <= a => |TagsOf(batch, n - 1)| + a) else []
  }

  /** A request is made for a job. */
  ghost predicate AsksFor(a: Asked, pass: Pass, job: Job, image: nat) {
    a == Asked(Request(pass, job.plane, job.hard, job.tileColumns, job.tileRows), image)
  }

  /** Requests made for the jobs that run a pass, in order, and for all of them. */
  ghost predicate Matches(asked: seq<Asked>, own: seq<nat>, pass: Pass, jobs: seq<Job>, tags: seq<nat>) {
    && |tags| == |jobs| && |asked| == |own| && Within(own, |jobs|)
    && (forall i, j :: 0 <= i < j < |own| ==> own[i] < own[j])
    && (forall j :: 0 <= j < |own| ==> AsksFor(asked[j], pass, jobs[own[j]], tags[own[j]]))
    && forall k: nat :: k < |jobs| && Enabled(pass, jobs[k].overlap) ==> k in own
  }

  lemma MatchesMore(asked: seq<Asked>, own: seq<nat>, pass: Pass, jobs: seq<Job>, tags: seq<nat>,
                    more: seq<Asked>, next: seq<Job>, image: nat, running: bool)
    requires Matches(asked, own, pass, jobs, tags)
    requires forall a :: 0 <= a < |next| ==> (Enabled(pass, next[a].overlap) <==> running)
    requires if running then |more| == |next| && forall a :: 0 <= a < |next| ==> AsksFor(more[a], pass, next[a], image) else more == []
    ensures Matches(asked + more, own + (if running then seq(|next|, a requires 0 <= a => |tags| + a) else []), pass,
                    jobs + next, tags + seq(|next|, a => image))
  {
    hide Enabled, AsksFor;
    var numbers := if running then seq(|next|, a requires 0 <= a => |tags| + a) else [];
    var longer, all, marks := own + numbers, jobs + next, tags + seq(|next|, a => image);
    forall j | 0 <= j < |longer|
      ensures longer[j] < |all| && AsksFor((asked + more)[j], pass, all[longer[j]], marks[longer[j]])
    {
      if j < |own| {
        assert longer[j] == own[j] < |jobs| && all[own[j]] == jobs[own[j]] && marks[own[j]] == tags[own[j]];
      } else {
        assert longer[j] == |tags| + (j - |own|) && all[longer[j]] == next[j - |own|] && marks[longer[j]] == image;
      }
    }
    forall k: nat | k < |all| && Enabled(pass, all[k].overlap)
      ensures k in longer
    {
      if k < |jobs| {
        assert all[k] == jobs[k];
      } else {
        assert all[k] == next[k - |jobs|];
        assert longer[|own| + (k - |jobs|)] == k;
      }
    }
  }

  /** The requests of an image are made for its moved jobs. */
  lemma ImageAsks(batch: seq<BatchImage>, i: nat, pass: Pass)
    requires ValidImages(batch) && Describe(ImageList(batch)).Some? && i < |batch|
    ensures |Whole(batch).planes| == |batch|
    ensures |batch[i].image.planes| == |batch[i].records|
    ensures var image := Overlaps(batch, Whole(batch))[i];
      var asked, jobs := PlaneRequests(pass, image, image.planes, i), MovedJobs(batch[i], StartOf(batch, i));
      && |asked| == |jobs| && (forall a :: 0 <= a < |jobs| ==> AsksFor(asked[a], pass, jobs[a], i))
      && forall a :: 0 <= a < |jobs| ==> jobs[a].overlap == batch[i].overlap
  {
    hide Describe, ValidJob, Contained;
    SamePlanes(batch, i);
    ImagesBefore(batch, i);
    assert ValidImage(batch[i]);
    forall a | 0 <= a < |batch[i].image.planes|
      ensures Whole(batch).planes[i][a] == Moved(batch[i].image.planes[a], StartOf(batch, i))
    {
      PlaneShare(batch, i, a);
    }
  }

  lemma {:induction false} RequestsMatch(batch: seq<BatchImage>, n: nat, pass: Pass)
    requires n <= |batch| && ValidImages(batch) && Describe(ImageList(batch)).Some?
    ensures |Whole(batch).planes| == |batch|
    ensures Matches(AllRequests(pass, Overlaps(batch, Whole(batch))[..n]), Running(batch, n, pass), pass,
                    JobsOf(batch, n), TagsOf(batch, n))
  {
    hide Describe, ValidImage, Enabled, Matches, PlaneRequests, MovedJobs, AsksFor, Overlaps, StartOf;
    if n == 0 {
      SameCount(batch);
      NothingMatches(pass);
    } else {
      hide AllRequests;
      RequestsMatch(batch, n - 1, pass);
      ImageAsks(batch, n - 1, pass);
      var image := Overlaps(batch, Whole(batch))[n - 1];
      var running := Enabled(pass, batch[n - 1].overlap);
      var next := MovedJobs(batch[n - 1], StartOf(batch, n - 1));
      var before := AllRequests(pass, Overlaps(batch, Whole(batch))[..n - 1]);
      var more := if running then PlaneRequests(pass, image, image.planes, n - 1) else [];
      MatchesMore(before, Running(batch, n - 1, pass), pass, JobsOf(batch, n - 1), TagsOf(batch, n - 1), more, next, n - 1, running);
      RequestsNext(batch, n, pass);
    }
  }

  lemma SameCount(batch: seq<BatchImage>)
    requires Describe(ImageList(batch)).Some?
    ensures |Whole(batch).planes| == |batch|
  {}

  lemma NothingMatches(pass: Pass)
    ensures Matches([], [], pass, [], [])
  {}

  lemma RequestsNext(batch: seq<BatchImage>, n: nat, pass: Pass)
    requires 0 < n <= |batch| && Describe(ImageList(batch)).Some?
    ensures |Whole(batch).planes| == |batch|
    ensures var images := Overlaps(batch, Whole(batch));
      AllRequests(pass, images[..n]) == AllRequests(pass, images[..n - 1])
        + if Enabled(pass, batch[n - 1].overlap) then PlaneRequests(pass, images[n - 1], images[n - 1].planes, n - 1) else []
  {
    SameCount(batch);
    hide Describe, Enabled, PlaneRequests;
    var images := Overlaps(batch, Whole(batch));
    assert images[..n][..n - 1] == images[..n - 1];
  }

  /** The jobs a pass lists, when its requests are taken in `order`. */
  ghost function ListedJobs(order: seq<nat>, own: seq<nat>): (listed: seq<nat>)
    requires Within(order, |own|)
    ensures |listed| == |order| && forall j :: 0 <= j < |order| ==> listed[j] == own[order[j]]
  {
    seq(|order|, j requires 0 <= j < |order| => own[order[j]])
  }

  lemma ListedAll(order: seq<nat>, own: seq<nat>, n: nat)
    requires Within(own, n) && IsOrder(order, |own|) && forall i, j :: 0 <= i < j < |own| ==> own[i] < own[j]
    ensures Within(ListedJobs(order, own), n) && Distinct(ListedJobs(order, own))
    ensures forall k: nat :: k in own ==> k in ListedJobs(order, own)
  {
    OrderReaches(order, |own|);
    var listed := ListedJobs(order, own);
    forall i, j | 0 <= i < j < |listed|
      ensures listed[i] != listed[j]
    {
      assert order[i] != order[j];
    }
    forall k: nat | k in own
      ensures k in listed
    {
      var i: nat :| i < |own| && own[i] == k;
      assert i in order;
      var j :| 0 <= j < |order| && order[j] == i;
      assert listed[j] == k;
    }
  }

  /** What the batch results ask of the images that are described together. */
  ghost predicate BatchReady(batch: seq<BatchImage>, buffer: seq<int>) {
    && ValidImages(batch) && Describe(ImageList(batch)).Some? && Placeable(batch, First) && Placeable(batch, Second)
    && Compatible(ImageList(batch)) && Holds(buffer, ImageList(batch))
  }

  /** The buffer with the coefficients, and the lengths of the two arenas. */
  function BoundBuffer(batch: seq<BatchImage>, buffer: seq<int>): seq<int>
    requires Describe(ImageList(batch)).Some?
  {
    Bound(ImageList(batch), Whole(batch), buffer)
  }

  /** The groups of a pass over a described batch list every job that runs the pass, and none twice. */
  lemma GroupsList(batch: seq<BatchImage>, buffer: seq<int>, pass: Pass, members: seq<seq<nat>>)
    requires BatchReady(batch, buffer) && |Whole(batch).planes| == |batch|
    requires IsOrder(Flatten(members), |AllRequests(pass, Overlaps(batch, Whole(batch)))|)
    ensures |Running(batch, |batch|, pass)| == |Flatten(members)|
    ensures Within(Flatten(members), |Running(batch, |batch|, pass)|)
    ensures var d, jobs, packed := Whole(batch), JobsOf(batch, |batch|), |BoundBuffer(batch, buffer)|;
      var listed := ListedJobs(Flatten(members), Running(batch, |batch|, pass));
      && ValidBatch(jobs, packed, d.lowLen, d.sampleLen)
      && Listed(listed, if pass.First? then LowPlacements(jobs, packed, d.lowLen, d.sampleLen)
                        else SamplePlacements(jobs, packed, d.lowLen, d.sampleLen))
  {
    hide Describe, ValidJob, ValidImage, Placeable, Holds, Compatible, JobsOf, TagsOf, LowEnd, SampleEnd, AllRequests,
         Running, Flatten, AsksFor, PlanesApart;
    var d, jobs, packed := Whole(batch), JobsOf(batch, |batch|), |BoundBuffer(batch, buffer)|;
    DescribedJobs(batch, buffer);
    RequestsMatch(batch, |batch|, pass);
    assert Overlaps(batch, d)[..|batch|] == Overlaps(batch, d);
    var own := Running(batch, |batch|, pass);
    ListedAll(Flatten(members), own, |jobs|);
    forall k: nat | k < |jobs| && k !in ListedJobs(Flatten(members), own)
      ensures (if pass.First? then LowPlacement(jobs[k], packed, d.lowLen, d.sampleLen)
               else SamplePlacement(jobs[k], packed, d.lowLen, d.sampleLen)).schedule == Schedule([], [], [])
    {
      assert !Enabled(pass, jobs[k].overlap);
      NotRunning(jobs[k], packed, d.lowLen, d.sampleLen);
    }
  }

  lemma NotRunning(job: Job, packed: nat, low: nat, samples: nat)
    requires ValidJob(job, packed, low, samples)
    ensures !Enabled(First, job.overlap) ==> LowPlacement(job, packed, low, samples).schedule == Schedule([], [], [])
    ensures !Enabled(Second, job.overlap) ==> SamplePlacement(job, packed, low, samples).schedule == Schedule([], [], [])
  {
    hide FirstSchedule, SecondSchedule, LowEnd, SampleEnd, FillsWindow, AllReady;
  }

  // ---- The images of a described batch ----

  lemma {:induction false} JobOf(batch: seq<BatchImage>, n: nat, i: nat, a: nat) returns (k: nat)
    requires n <= |batch| && ValidImages(batch) && Describe(ImageList(batch)).Some?
    requires i < n && a < |batch[i].image.planes|
    ensures k < |JobsOf(batch, n)| == |TagsOf(batch, n)| && TagsOf(batch, n)[k] == i
    ensures JobsOf(batch, n)[k] == MovedJob(batch[i], a, StartOf(batch, i))
  {
    hide Describe, ValidImage, MovedJob, MovedJobs, StartOf;
    SameCounts(batch, n - 1);
    JobsNext(batch, n);
    hide JobsOf, TagsOf;
    if i < n - 1 {
      k := JobOf(batch, n - 1, i, a);
    } else {
      k := |JobsOf(batch, n - 1)| + a;
    }
  }

  lemma WideMoved(p: Plane, d: Described, hard: bool, tileColumns: seq<nat>)
    ensures WideTiles(Moved(p, d), hard, tileColumns) <==> WideTiles(p, hard, tileColumns)
  {
    hide ClippedAxis, Spaced;
  }

  /** The image's planes do not run a first pass over a tile of one macroblock column. */
  ghost predicate WideImage(b: BatchImage) {
    forall a :: 0 <= a < |b.image.planes| && b.overlap.Two? && b.image.planes[a].blockColumns == 2 ==>
      WideTiles(b.image.planes[a], b.hard, b.tileColumns)
  }

  /** Buffers as long as the description says. */
  ghost predicate Sized(batch: seq<BatchImage>, low: seq<int>, samples: seq<int>)
    requires Describe(ImageList(batch)).Some?
  {
    |low| == Whole(batch).lowLen && |samples| == Whole(batch).sampleLen
  }

  /** What the reconstruction of one plane by itself leaves in the buffers of the batch. */
  ghost function PlaneAlone(batch: seq<BatchImage>, buffer: seq<int>, low: seq<int>, samples: seq<int>,
                            i: nat, a: nat): (after: Option<seq<int>>)
    requires BatchReady(batch, buffer) && Sized(batch, low, samples) && i < |batch| && a < |batch[i].image.planes|
    ensures after.Some? ==> |after.value| == |samples|
  {
    MovedJobValid(batch, buffer, i, a);
    Reconstruct(MovedJob(batch[i], a, StartOf(batch, i)), BoundBuffer(batch, buffer), low, samples)
  }

  /** A device run of the whole batch. */
  ghost predicate DecodeRuns(batch: seq<BatchImage>, buffer: seq<int>, low: seq<int>, samples: seq<int>, t: BatchTrace,
                             after: seq<int>, raised: set<nat>)
    requires BatchReady(batch, buffer) && Sized(batch, low, samples)
  {
    DescribedJobs(batch, buffer);
    BatchRuns(JobsOf(batch, |batch|), TagsOf(batch, |batch|), BoundBuffer(batch, buffer), low, samples, t, after, raised)
  }

  /** The samples hold what the plane's own reconstruction leaves, in the plane's place in the arena. */
  ghost predicate HoldsPlane(after: seq<int>, batch: seq<BatchImage>, i: nat, a: nat, own: Option<seq<int>>)
    requires Describe(ImageList(batch)).Some? && i < |batch| && a < |batch[i].image.planes|
  {
    var p := Moved(batch[i].image.planes[a], StartOf(batch, i));
    own.Some? && L.Agree(after, own.value, Range(p.sampleOffset, SampleEnd(p)))
  }

  lemma JobAlone(batch: seq<BatchImage>, buffer: seq<int>, low: seq<int>, samples: seq<int>, i: nat, a: nat, job: Job)
    requires BatchReady(batch, buffer) && Sized(batch, low, samples) && i < |batch| && a < |batch[i].image.planes|
    requires ValidImage(batch[i]) && job == MovedJob(batch[i], a, StartOf(batch, i))
    ensures ValidJob(job, |BoundBuffer(batch, buffer)|, |low|, |samples|)
    ensures PlaneAlone(batch, buffer, low, samples, i, a) == Reconstruct(job, BoundBuffer(batch, buffer), low, samples)
  {
    hide Describe, ValidJob, Placeable, Holds, Compatible, Reconstruct, StartOf;
    MovedJobValid(batch, buffer, i, a);
  }

  lemma WideJob(b: BatchImage, a: nat, start: Described)
    requires WideImage(b) && a < |b.image.planes| == |b.records|
    ensures var job := MovedJob(b, a, start);
      job.overlap.Two? && job.plane.blockColumns == 2 ==> WideTiles(job.plane, job.hard, job.tileColumns)
  {
    hide WideTiles;
    WideMoved(b.image.planes[a], start, b.hard, b.tileColumns);
  }

  /**
   A described batch on the device: however the threads interleave, the status word of image `i` ends raised exactly
   when one of its planes overflows when reconstructed by itself, and otherwise every plane of it holds that
   reconstruction's samples, in its own share of the arena.
   */
  lemma BatchDecodes(batch: seq<BatchImage>, buffer: seq<int>, low: seq<int>, samples: seq<int>, t: BatchTrace,
                     after: seq<int>, raised: set<nat>, i: nat)
    requires BatchReady(batch, buffer) && Sized(batch, low, samples) && i < |batch| && WideImage(batch[i])
    requires DecodeRuns(batch, buffer, low, samples, t, after, raised)
    ensures i in raised <==> exists a: nat :: a < |batch[i].image.planes| && PlaneAlone(batch, buffer, low, samples, i, a).None?
    ensures i !in raised ==> forall a: nat :: a < |batch[i].image.planes| ==>
      HoldsPlane(after, batch, i, a, PlaneAlone(batch, buffer, low, samples, i, a))
  {
    hide Describe, ValidJob, ValidImage, Placeable, Holds, Compatible, JobsOf, TagsOf, Reconstruct, BatchRuns,
         PlaneAlone, LowEnd, SampleEnd, L.Agree, Range, PlanesApart, WideTiles, WideImage, StartOf, MovedJob;
    var jobs, tags, packed := JobsOf(batch, |batch|), TagsOf(batch, |batch|), BoundBuffer(batch, buffer);
    SameCounts(batch, |batch|);
    DescribedJobs(batch, buffer);
    forall k | 0 <= k < |jobs| && tags[k] == i && jobs[k].overlap.Two? && jobs[k].plane.blockColumns == 2
      ensures WideTiles(jobs[k].plane, jobs[k].hard, jobs[k].tileColumns)
    {
      var j, a := JobAt(batch, |batch|, k);
      SameRecords(batch, i);
      WideJob(batch[i], a, StartOf(batch, i));
    }
    ImageReconstructed(jobs, tags, packed, low, samples, t, after, raised, i);
    if i in raised {
      var k :| 0 <= k < |jobs| && tags[k] == i && Reconstruct(jobs[k], packed, low, samples).None?;
      var j, a := JobAt(batch, |batch|, k);
      SameRecords(batch, i);
      JobAlone(batch, buffer, low, samples, i, a, jobs[k]);
    } else {
      forall a: nat | a < |batch[i].image.planes|
        ensures HoldsPlane(after, batch, i, a, PlaneAlone(batch, buffer, low, samples, i, a))
      {
        var k := JobOf(batch, |batch|, i, a);
        SameRecords(batch, i);
        JobAlone(batch, buffer, low, samples, i, a, jobs[k]);
        MovedPlane(batch[i], a, StartOf(batch, i));
      }
    }
  }

  lemma SameRecords(batch: seq<BatchImage>, i: nat)
    requires ValidImages(batch) && i < |batch|
    ensures ValidImage(batch[i]) && |batch[i].image.planes| == |batch[i].records|
  {
    hide ValidJob, Contained;
  }

  lemma MovedPlane(b: BatchImage, a: nat, start: Described)
    requires a < |b.image.planes| == |b.records|
    ensures MovedJob(b, a, start).plane == Moved(b.image.planes[a], start)
  {}
}
