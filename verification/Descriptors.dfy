/**
 Batch descriptors: the images of a batch share one coefficient buffer and two arenas, each image moved
 past the ones before it.
 */
module Descriptors {
  import opened Wrappers
  import opened Words
  import opened Regions
  import opened Window

  /**
   One image: its coefficients, and where they lie if a device buffer shared by the batch already holds them; its
   macroblocks' offsets, its planes and arena lengths.
   */
  datatype Image = Image(coefficients: seq<int>, shared: Option<nat>, offsets: seq<nat>, planes: seq<Plane>,
                         lowLen: nat, sampleLen: nat)

  /** What the batch uploads: all coefficients, all macroblock offsets, all planes, and the arena lengths. */
  datatype Described = Described(packed: seq<int>, offsets: seq<nat>, planes: seq<seq<Plane>>, sampleBases: seq<nat>,
                                 lowLen: nat, sampleLen: nat)

  function Moved(p: Plane, d: Described): Plane {
    p.(macroblockOffset := p.macroblockOffset + |d.offsets|, lowOffset := p.lowOffset + d.lowLen,
       sampleOffset := p.sampleOffset + d.sampleLen)
  }

  /** The plane record of the kernels: 32-bit fields, and samples aligned for four-sample stores. */
  predicate PlaneRecordFits(p: Plane) {
    && p.sampleOffset % 4 == 0 && p.sampleWidth % 4 == 0
    && p.macroblockOffset <= U32_MAX && p.macroblockCount <= U32_MAX
    && p.lowOffset <= U32_MAX && p.macroblocksX * p.blockColumns <= U32_MAX && p.sampleOffset <= U32_MAX
  }

  function MovedOffsets(offsets: seq<nat>, base: nat): (r: seq<nat>)
    ensures |r| == |offsets| && forall k :: 0 <= k < |offsets| ==> r[k] == offsets[k] + base
  {
    seq(|offsets|, k requires 0 <= k < |offsets| => offsets[k] + base)
  }

  function MovedPlanes(planes: seq<Plane>, d: Described): (r: seq<Plane>)
    ensures |r| == |planes| && forall k :: 0 <= k < |planes| ==> r[k] == Moved(planes[k], d)
  {
    seq(|planes|, k requires 0 <= k < |planes| => Moved(planes[k], d))
  }

  /** Where an image's coefficients begin in the buffer the batch reads. */
  function CoefficientBase(image: Image, d: Described): nat {
    match image.shared
    case None => |d.packed|
    case Some(offset) => offset
  }

  /** Whether an image can follow what is described so far. */
  predicate ImageFits(image: Image, d: Described) {
    && CoefficientBase(image, d) <= U32_MAX && d.sampleLen <= U32_MAX
    && (forall k :: 0 <= k < |image.offsets| ==> image.offsets[k] + CoefficientBase(image, d) <= U32_MAX)
    && (forall k :: 0 <= k < |image.planes| ==> PlaneRecordFits(Moved(image.planes[k], d)))
    && d.lowLen + image.lowLen <= USIZE_MAX && d.sampleLen + image.sampleLen <= USIZE_MAX
  }

  function Append(image: Image, d: Described): Described {
    Described(if image.shared.None? then d.packed + image.coefficients else d.packed,
              d.offsets + MovedOffsets(image.offsets, CoefficientBase(image, d)),
              d.planes + [MovedPlanes(image.planes, d)], d.sampleBases + [d.sampleLen],
              d.lowLen + image.lowLen, d.sampleLen + image.sampleLen)
  }

  const NOTHING := Described([], [], [], [], 0, 0)

  /** The descriptors of a batch, or `None` when a reference exceeds the device's words. */
  function Describe(images: seq<Image>): (r: Option<Described>)
    ensures r.Some? ==> |r.value.planes| == |r.value.sampleBases| == |images|
  {
    if images == [] then Some(NOTHING)
    else
      var d :- Describe(images[..|images| - 1]);
      if ImageFits(images[|images| - 1], d) then Some(Append(images[|images| - 1], d)) else None
  }

  lemma {:induction false} DescribeFails(images: seq<Image>, k: nat)
    requires k <= |images| && Describe(images[..k]).None?
    ensures Describe(images).None?
    decreases |images|
  {
    if k < |images| {
      assert images[..|images| - 1][..k] == images[..k];
      DescribeFails(images[..|images| - 1], k);
    } else {
      assert images[..k] == images;
    }
  }

  method MoveOffsets(offsets: seq<nat>, base: nat) returns (r: Option<seq<nat>>)
    ensures r == if forall k :: 0 <= k < |offsets| ==> offsets[k] + base <= U32_MAX then Some(MovedOffsets(offsets, base)) else None
  {
    var moved: seq<nat> := [];
    for k := 0 to |offsets|
      invariant |moved| == k && forall j :: 0 <= j < k ==> moved[j] == offsets[j] + base <= U32_MAX
    {
      if offsets[k] + base > U32_MAX {
        return None;
      }
      moved := moved + [offsets[k] + base];
    }
    assert moved == MovedOffsets(offsets, base);
    return Some(moved);
  }

  method MovePlanes(planes: seq<Plane>, d: Described) returns (r: Option<seq<Plane>>)
    ensures r == if forall k :: 0 <= k < |planes| ==> PlaneRecordFits(Moved(planes[k], d)) then Some(MovedPlanes(planes, d)) else None
  {
    hide Moved, PlaneRecordFits;
    var adjusted: seq<Plane> := [];
    for k := 0 to |planes|
      invariant |adjusted| == k
      invariant forall j :: 0 <= j < k ==> adjusted[j] == Moved(planes[j], d) && PlaneRecordFits(adjusted[j])
    {
      var plane := Moved(planes[k], d);
      if !PlaneRecordFits(plane) {
        return None;
      }
      adjusted := adjusted + [plane];
    }
    assert adjusted == MovedPlanes(planes, d);
    return Some(adjusted);
  }

  lemma DescribeNext(images: seq<Image>, k: nat, d: Described)
    requires k < |images| && Describe(images[..k]) == Some(d)
    ensures Describe(images[..k + 1]) == if ImageFits(images[k], d) then Some(Append(images[k], d)) else None
    ensures !ImageFits(images[k], d) ==> Describe(images).None?
  {
    hide Describe, ImageFits, Append;
    var part := images[..k + 1];
    assert part[..|part| - 1] == images[..k] && part[|part| - 1] == images[k];
    DescribeLast(part);
    if !ImageFits(images[k], d) {
      DescribeFails(images, k + 1);
    }
  }

  lemma DescribeLast(images: seq<Image>)
    requires images != [] && Describe(images[..|images| - 1]).Some?
    ensures var d, last := Describe(images[..|images| - 1]).value, images[|images| - 1];
      Describe(images) == if ImageFits(last, d) then Some(Append(last, d)) else None
  {
    hide ImageFits, Append;
  }

  /** One image described after the others, or refused. */
  method DescribeImage(image: Image, d: Described) returns (r: Option<Described>)
    ensures r == if ImageFits(image, d) then Some(Append(image, d)) else None
  {
    hide PlaneRecordFits, Moved, MovedOffsets, MovedPlanes;
    var base := CoefficientBase(image, d);
    if base > U32_MAX || d.sampleLen > U32_MAX {
      return None;
    }
    var offsets :- MoveOffsets(image.offsets, base);
    var planes :- MovePlanes(image.planes, d);
    if d.lowLen + image.lowLen > USIZE_MAX || d.sampleLen + image.sampleLen > USIZE_MAX {
      return None;
    }
    var packed := if image.shared.None? then d.packed + image.coefficients else d.packed;
    return Some(Described(packed, d.offsets + offsets, d.planes + [planes],
                          d.sampleBases + [d.sampleLen], d.lowLen + image.lowLen, d.sampleLen + image.sampleLen));
  }

  method BuildDescriptors(images: seq<Image>) returns (r: Option<Described>)
    ensures r == Describe(images)
  {
    hide ImageFits, Append;
    var d := NOTHING;
    for k := 0 to |images|
      invariant Describe(images[..k]) == Some(d)
    {
      hide Describe;
      DescribeNext(images, k, d);
      d :- DescribeImage(images[k], d);
    }
    assert images[..|images|] == images;
    return Some(d);
  }

  // ---- Every image keeps its own coefficients and its own cells ----

  lemma DescribePrefix(images: seq<Image>, k: nat)
    requires k <= |images| && Describe(images).Some?
    ensures Describe(images[..k]).Some?
  {
    if Describe(images[..k]).None? {
      DescribeFails(images, k);
    }
  }

  /** What a shorter batch described stays in place when images follow. */
  lemma {:induction false} DescribeKeeps(images: seq<Image>, k: nat)
    requires k <= |images| && Describe(images).Some? && Describe(images[..k]).Some?
    ensures var small, big := Describe(images[..k]).value, Describe(images).value;
      && small.packed <= big.packed && small.offsets <= big.offsets && small.planes <= big.planes
      && small.lowLen <= big.lowLen && small.sampleLen <= big.sampleLen
    decreases |images|
  {
    if k < |images| {
      var init := images[..|images| - 1];
      assert init[..k] == images[..k];
      DescribeKeeps(init, k);
    } else {
      assert images[..k] == images;
    }
  }

  /** The images of a batch all own their coefficients, or all have them in one shared buffer. */
  predicate Compatible(images: seq<Image>) {
    forall k :: 0 <= k < |images| ==> images[k].shared.Some? == images[0].shared.Some?
  }

  /** A buffer holds the coefficients of every image whose coefficients are already on the device. */
  ghost predicate Holds(buffer: seq<int>, images: seq<Image>) {
    forall k :: 0 <= k < |images| && images[k].shared.Some? ==>
      var from := images[k].shared.value;
      from + |images[k].coefficients| <= |buffer| && buffer[from..from + |images[k].coefficients|] == images[k].coefficients
  }

  /** The coefficient buffer a batch binds. */
  function Bound(images: seq<Image>, d: Described, buffer: seq<int>): seq<int> {
    if images != [] && images[0].shared.Some? then buffer else d.packed
  }

  /**
   Through its moved offset every macroblock of every image finds its own coefficients in the buffer the batch
   binds, be it concatenated from the images or shared by them.
   */
  lemma CoefficientsFound(images: seq<Image>, buffer: seq<int>, k: nat, g: nat, i: nat)
    requires Describe(images).Some? && Compatible(images) && Holds(buffer, images) && k < |images| && g < |images[k].offsets|
    requires images[k].offsets[g] + i < |images[k].coefficients|
    ensures Describe(images[..k]).Some?
    ensures var d, start := Describe(images).value, |Describe(images[..k]).value.offsets|;
      var bound := Bound(images, d, buffer);
      && start + g < |d.offsets| && d.offsets[start + g] + i < |bound|
      && bound[d.offsets[start + g] + i] == images[k].coefficients[images[k].offsets[g] + i]
  {
    hide Describe, ImageFits, Append, Holds;
    var before := AppendedFirst(images, k);
    if images[k].shared.Some? {
      HeldAt(buffer, images, k);
    }
    assert images[k].shared.Some? == images[0].shared.Some?;
    hide Compatible;
    if images[k].shared.None? {
      AppendedCoefficient(images[k], before, Describe(images).value, g, i);
    } else {
      SharedCoefficient(images[k], before, Describe(images).value, buffer, g, i);
    }
  }

  lemma AppendedFirst(images: seq<Image>, k: nat) returns (before: Described)
    requires Describe(images).Some? && k < |images|
    ensures Describe(images[..k]) == Some(before)
    ensures Append(images[k], before).packed <= Describe(images).value.packed
    ensures Append(images[k], before).offsets <= Describe(images).value.offsets
  {
    hide Describe, Append;
    before := AppendedLast(images, k);
    DescribeKeeps(images, k + 1);
  }

  lemma HeldAt(buffer: seq<int>, images: seq<Image>, k: nat)
    requires Holds(buffer, images) && k < |images| && images[k].shared.Some?
    ensures var from := images[k].shared.value;
      from + |images[k].coefficients| <= |buffer| && buffer[from..from + |images[k].coefficients|] == images[k].coefficients
  {}

  lemma SharedCoefficient(image: Image, before: Described, d: Described, buffer: seq<int>, g: nat, i: nat)
    requires image.shared.Some? && Append(image, before).offsets <= d.offsets
    requires g < |image.offsets| && image.offsets[g] + i < |image.coefficients|
    requires image.shared.value + |image.coefficients| <= |buffer|
    requires buffer[image.shared.value..image.shared.value + |image.coefficients|] == image.coefficients
    ensures |before.offsets| + g < |d.offsets| && d.offsets[|before.offsets| + g] + i < |buffer|
    ensures buffer[d.offsets[|before.offsets| + g] + i] == image.coefficients[image.offsets[g] + i]
  {
    hide MovedPlanes;
    var after := Append(image, before);
    assert after.offsets[|before.offsets| + g] == image.offsets[g] + image.shared.value;
    assert buffer[image.shared.value..image.shared.value + |image.coefficients|][image.offsets[g] + i]
      == buffer[image.shared.value + image.offsets[g] + i];
  }

  lemma AppendedLast(images: seq<Image>, k: nat) returns (before: Described)
    requires Describe(images).Some? && k < |images|
    ensures Describe(images[..k]) == Some(before) && Describe(images[..k + 1]) == Some(Append(images[k], before))
  {
    hide ImageFits, Append;
    DescribePrefix(images, k);
    DescribePrefix(images, k + 1);
    assert images[..k + 1][..k] == images[..k];
    before := Describe(images[..k]).value;
  }

  lemma AppendedCoefficient(image: Image, before: Described, d: Described, g: nat, i: nat)
    requires image.shared.None? && Append(image, before).packed <= d.packed && Append(image, before).offsets <= d.offsets
    requires g < |image.offsets| && image.offsets[g] + i < |image.coefficients|
    ensures |before.offsets| + g < |d.offsets| && d.offsets[|before.offsets| + g] + i < |d.packed|
    ensures d.packed[d.offsets[|before.offsets| + g] + i] == image.coefficients[image.offsets[g] + i]
  {
    hide MovedPlanes;
    var after := Append(image, before);
    assert after.offsets[|before.offsets| + g] == image.offsets[g] + |before.packed|;
    assert after.packed[image.offsets[g] + |before.packed| + i] == image.coefficients[image.offsets[g] + i];
  }

  /** The planes of an image lie within its own share of the arenas. */
  ghost predicate Contained(image: Image) {
    && Placed(image.planes, 0, 0)
    && ArenaEnd(image.planes, 0, true) <= image.lowLen && ArenaEnd(image.planes, 0, false) <= image.sampleLen
  }

  lemma PlaneWithinImage(images: seq<Image>, k: nat, i: nat)
    requires Describe(images).Some? && k < |images| && i < |images[k].planes| && Contained(images[k])
    ensures Describe(images[..k]).Some? && Describe(images[..k + 1]).Some?
    ensures |Describe(images).value.planes[k]| == |images[k].planes|
    ensures var d, start, end := Describe(images).value, Describe(images[..k]).value, Describe(images[..k + 1]).value;
      var p := d.planes[k][i];
      && p == Moved(images[k].planes[i], start)
      && start.lowLen <= p.lowOffset && LowEnd(p) <= end.lowLen <= d.lowLen
      && start.sampleLen <= p.sampleOffset && SampleEnd(p) <= end.sampleLen <= d.sampleLen
  {
    var start := AppendedLast(images, k);
    DescribeKeeps(images, k + 1);
    var end := Append(images[k], start);
    hide Describe, Placed, ImageFits;
    PlanesInside(images[k].planes, 0, 0, i);
    assert end.planes[k] == MovedPlanes(images[k].planes, start);
  }

  /** Planes of different images have no cell in common, and neither have two planes of one image. */
  lemma BatchPlanesApart(images: seq<Image>, j: nat, a: nat, k: nat, b: nat)
    requires Describe(images).Some? && j <= k < |images| && Contained(images[j]) && Contained(images[k])
    requires a < |images[j].planes| && b < |images[k].planes| && (j == k ==> a < b)
    ensures |Describe(images).value.planes[j]| == |images[j].planes| && |Describe(images).value.planes[k]| == |images[k].planes|
    ensures var p, q := Describe(images).value.planes[j][a], Describe(images).value.planes[k][b];
      LowEnd(p) <= q.lowOffset && SampleEnd(p) <= q.sampleOffset
  {
    PlaneWithinImage(images, j, a);
    PlaneWithinImage(images, k, b);
    if j < k {
      DescribePrefix(images, k);
      assert images[..k][..j + 1] == images[..j + 1];
      DescribeKeeps(images[..k], j + 1);
    } else {
      PlanesDisjoint(images[j].planes, 0, 0, a, b);
    }
  }

  // ---- Alignment ----

  predicate Aligned(value: nat) {
    value % ALIGNMENT == 0
  }

  lemma AlignedSum(a: nat, b: nat)
    requires Aligned(b)
    ensures Aligned(b + a) <==> Aligned(a)
  {}

  lemma SampleCountAligned(p: Plane)
    requires ValidPlane(p)
    ensures Aligned(SampleCount(p))
  {
    var cells := p.macroblocksX * p.macroblocksY;
    var quarter := p.blockColumns * p.blockRows / 4;
    assert p.blockColumns * p.blockRows == quarter * 4;
    Rectangle(p.macroblocksX, p.macroblocksY, p.blockColumns * 4, p.blockRows * 4);
    assert p.blockColumns * 4 * (p.blockRows * 4) == quarter * 64;
    assert SampleCount(p) == cells * (quarter * 64) == cells * quarter * 64;
  }

  lemma Rectangle(a: nat, b: nat, c: nat, d: nat)
    ensures (a * c) * (b * d) == (a * b) * (c * d)
  {}

  /** An image as its plan was built: the arena lengths are where its planes end. */
  ghost predicate Built(image: Image) {
    && Placed(image.planes, 0, 0)
    && image.lowLen == ArenaEnd(image.planes, 0, true) && image.sampleLen == ArenaEnd(image.planes, 0, false)
  }

  lemma BuiltPlane(image: Image, i: nat)
    requires Built(image) && i < |image.planes|
    ensures Contained(image) && ValidPlane(image.planes[i])
    ensures Aligned(image.planes[i].lowOffset) && Aligned(image.planes[i].sampleOffset)
  {
    hide ArenaEnd;
  }

  lemma ImageSamplesAligned(image: Image)
    requires Built(image)
    ensures Aligned(image.sampleLen)
  {
    if image.planes != [] {
      var last := |image.planes| - 1;
      BuiltPlane(image, last);
      SampleCountAligned(image.planes[last]);
      hide SampleCount, ValidPlane, Aligned, Placed;
      AlignedSum(SampleCount(image.planes[last]), image.planes[last].sampleOffset);
      assert image.sampleLen == SampleEnd(image.planes[last]);
    }
  }

  lemma {:induction false} BaseAligned(images: seq<Image>)
    requires Describe(images).Some? && forall k :: 0 <= k < |images| ==> Built(images[k])
    ensures Aligned(Describe(images).value.sampleLen)
  {
    if images != [] {
      hide Built, ImageFits, Aligned, MovedPlanes, MovedOffsets;
      BaseAligned(images[..|images| - 1]);
      ImageSamplesAligned(images[|images| - 1]);
      AlignedSum(Describe(images[..|images| - 1]).value.sampleLen, images[|images| - 1].sampleLen);
    } else {
      assert Aligned(0);
    }
  }

  lemma AlignedForStores(p: Plane)
    requires Aligned(p.sampleOffset) && ValidPlane(p)
    ensures p.sampleOffset % 4 == 0 && p.sampleWidth % 4 == 0
  {
    FourTimes(16 * (p.sampleOffset / 64));
    FourTimes(p.macroblocksX * p.blockColumns);
    assert p.sampleWidth == (p.macroblocksX * p.blockColumns) * 4;
  }

  lemma FourTimes(n: nat)
    ensures n * 4 % 4 == 0
  {}

  /**
   In a described batch every sample plane starts at a multiple of 64, so the kernels' alignment check
   never refuses a plane. A low plane does so exactly when the images before it end at a multiple of 64.
   */
  lemma BatchAlignment(images: seq<Image>, k: nat, i: nat)
    requires Describe(images).Some? && forall j :: 0 <= j < |images| ==> Built(images[j])
    requires k < |images| && i < |images[k].planes|
    ensures Describe(images[..k]).Some? && |Describe(images).value.planes[k]| == |images[k].planes|
    ensures var p := Describe(images).value.planes[k][i];
      && Aligned(p.sampleOffset) && p.sampleOffset % 4 == 0 && p.sampleWidth % 4 == 0
      && (Aligned(p.lowOffset) <==> Aligned(Describe(images[..k]).value.lowLen))
  {
    hide Describe, ArenaEnd, Built, Aligned, LowEnd, SampleEnd, ValidPlane;
    BuiltPlane(images[k], i);
    PlaneWithinImage(images, k, i);
    BaseAligned(images[..k]);
    var p, start := images[k].planes[i], Describe(images[..k]).value;
    AlignedSum(start.sampleLen, p.sampleOffset);
    AlignedSum(start.lowLen, p.lowOffset);
    MovedValid(p, start);
    AlignedForStores(Moved(p, start));
  }

  lemma MovedValid(p: Plane, d: Described)
    requires ValidPlane(p)
    ensures ValidPlane(Moved(p, d))
  {}

  /** Where the first plane of a second copy of an image starts in the shared low arena. */
  function SecondLowOffset(image: Image): Option<nat> {
    var d :- Describe([image, image]);
    if |d.planes[1]| == 0 then None else Some(d.planes[1][0].lowOffset)
  }

  /** The plan of an image of a single macroblock of luma. */
  function OnePlane(): Plane {
    Plane(0, 1, 4, 4, 0, 0, 1, 1, 16, 16, 0, 0, false)
  }

  lemma OneBuilt(image: Image)
    requires image.planes == [OnePlane()] && image.lowLen == 16 && image.sampleLen == 256
    ensures Built(image)
  {
    var p := Plane(0, 1, 4, 4, 0, 0, 1, 1, 16, 16, 0, 0, false);
    assert [p][..0] == [];
    assert Placed(image.planes, 0, 0);
  }

  /** One macroblock of luma at the origin. */
  predicate OneSource(s: Source) {
    && |s.codedX| == |s.codedY| == s.count == 1 && s.codedX[0] == 0 && s.codedY[0] == 0 && s.offset == 0
    && s.blockColumns == 4 && s.blockRows == 4 && !s.scaled
  }

  lemma OnePlanned(s: Source, lowLen: nat, sampleLen: nat)
    requires OneSource(s) && lowLen == 0 && sampleLen == 0
    ensures PlaneOf(s, lowLen, sampleLen) == Some(OnePlane())
  {}

  lemma FitsFirst(image: Image)
    requires image == Image(image.coefficients, None, [0], [OnePlane()], 16, 256)
    ensures ImageFits(image, NOTHING)
  {}

  lemma FitsAgain(image: Image)
    requires |image.coefficients| == 256 && image == Image(image.coefficients, None, [0], [OnePlane()], 16, 256)
    ensures ImageFits(image, Append(image, NOTHING))
    ensures Append(image, Append(image, NOTHING)).planes[1] == [Moved(OnePlane(), Append(image, NOTHING))]
    ensures Append(image, NOTHING).lowLen == 16
  {}

  lemma SecondAtSixteen(image: Image)
    requires |image.coefficients| == 256 && image == Image(image.coefficients, None, [0], [OnePlane()], 16, 256)
    ensures SecondLowOffset(image) == Some(16)
  {
    FitsFirst(image);
    FitsAgain(image);
    hide ImageFits, Append;
    assert [image, image][..1] == [image] && [image][..0] == [];
    assert Describe([image]) == Some(Append(image, NOTHING));
    assert Describe([image, image]) == Some(Append(image, Append(image, NOTHING)));
  }

  /** Its plan is that one plane, at the start of both arenas. */
  lemma OnePlanesPlanned(s: Source, lowLen: nat, sampleLen: nat)
    requires OneSource(s) && lowLen == 0 && sampleLen == 0
    ensures PlanesOf([s], lowLen, sampleLen) == Some([OnePlane()])
  {
    OnePlanned(s, lowLen, sampleLen);
    hide PlaneOf, LowEnd, SampleEnd;
    assert [s][1..] == [] && [OnePlane()] + [] == [OnePlane()];
  }

  /**
   The plan of an image of one macroblock reserves 16 low cells, so a second such image has its low plane
   at 16, not at a multiple of 64.
   */
  lemma LowPlaneMisaligned(image: Image)
    requires |image.coefficients| == 256 && image == Image(image.coefficients, None, [0], [OnePlane()], 16, 256)
    ensures Built(image) && SecondLowOffset(image) == Some(16)
  {
    OneBuilt(image);
    SecondAtSixteen(image);
    hide Built, SecondLowOffset;
  }
}
