/**
 Batch descriptors in closed form: every reference of every image is moved by what the images before it take up, and a
 batch is refused exactly when one of the moved references does not fit the device's words.
 */
module DescriptorLaws {
  import opened Regions
  import opened Descriptors

  // ---- What comes before an image ----

  type Measure = Image -> nat

  /** What the first `k` images take up together. */
  ghost function Before(images: seq<Image>, k: nat, measure: Measure): nat
    requires k <= |images|
  {
    if k == 0 then 0 else Before(images, k - 1, measure) + measure(images[k - 1])
  }

  /** Coefficients are uploaded unless a shared buffer holds them already. */
  function Coefficients(image: Image): nat {
    if image.shared.None? then |image.coefficients| else 0
  }

  function Macroblocks(image: Image): nat {
    |image.offsets|
  }

  function LowCells(image: Image): nat {
    image.lowLen
  }

  function SampleCells(image: Image): nat {
    image.sampleLen
  }

  /** Where an image's coefficients start. */
  ghost function Start(images: seq<Image>, k: nat): nat
    requires k < |images|
  {
    if images[k].shared.Some? then images[k].shared.value else Before(images, k, Coefficients)
  }

  /** A plane of the `k`-th image, behind the macroblocks and cells of the images before it. */
  ghost function Behind(images: seq<Image>, k: nat, p: Plane): Plane
    requires k < |images|
  {
    p.(macroblockOffset := Before(images, k, Macroblocks) + p.macroblockOffset,
       lowOffset := Before(images, k, LowCells) + p.lowOffset, sampleOffset := Before(images, k, SampleCells) + p.sampleOffset)
  }

  /** Every field of a plane's record is a 32-bit word, and four samples at a time are aligned. */
  predicate RecordOf(p: Plane) {
    && p.macroblockOffset <= 0xFFFF_FFFF && p.macroblockCount <= 0xFFFF_FFFF
    && p.lowOffset <= 0xFFFF_FFFF && p.macroblocksX * p.blockColumns <= 0xFFFF_FFFF
    && p.sampleOffset <= 0xFFFF_FFFF && p.sampleOffset % 4 == 0 && p.sampleWidth % 4 == 0
  }

  /** All references of the `k`-th image fit. */
  ghost predicate Referable(images: seq<Image>, k: nat)
    requires k < |images|
  {
    && Start(images, k) <= 0xFFFF_FFFF && Before(images, k, SampleCells) <= 0xFFFF_FFFF
    && (forall g :: 0 <= g < |images[k].offsets| ==> images[k].offsets[g] + Start(images, k) <= 0xFFFF_FFFF)
    && (forall i :: 0 <= i < |images[k].planes| ==> RecordOf(Behind(images, k, images[k].planes[i])))
    && Before(images, k + 1, LowCells) <= 0xFFFF_FFFF_FFFF_FFFF && Before(images, k + 1, SampleCells) <= 0xFFFF_FFFF_FFFF_FFFF
  }

  lemma {:induction false} BeforePrefix(images: seq<Image>, n: nat, k: nat, measure: Measure)
    requires k <= n <= |images|
    ensures Before(images[..n], k, measure) == Before(images, k, measure)
  {
    if k > 0 {
      BeforePrefix(images, n, k - 1, measure);
    }
  }

  // ---- The closed form ----

  /** The lengths of a description are what all its images take up. */
  ghost predicate Measured(images: seq<Image>, d: Described) {
    var n := |images|;
    && |d.packed| == Before(images, n, Coefficients) && |d.offsets| == Before(images, n, Macroblocks)
    && d.lowLen == Before(images, n, LowCells) && d.sampleLen == Before(images, n, SampleCells)
    && |d.planes| == |d.sampleBases| == n
  }

  lemma AppendedMeasured(images: seq<Image>, before: Described)
    requires images != [] && Measured(images[..|images| - 1], before)
    ensures Measured(images, Append(images[|images| - 1], before))
    ensures ImageFits(images[|images| - 1], before) <==> Referable(images, |images| - 1)
  {
    var n := |images| - 1;
    var image := images[n];
    BeforePrefix(images, n, n, Coefficients);
    BeforePrefix(images, n, n, Macroblocks);
    BeforePrefix(images, n, n, LowCells);
    BeforePrefix(images, n, n, SampleCells);
    assert CoefficientBase(image, before) == Start(images, n);
    forall i | 0 <= i < |image.planes|
      ensures Moved(image.planes[i], before) == Behind(images, n, image.planes[i])
      ensures PlaneRecordFits(Moved(image.planes[i], before)) <==> RecordOf(Behind(images, n, image.planes[i]))
    {}
  }

  lemma ReferablePrefix(images: seq<Image>, n: nat, k: nat)
    requires k < n <= |images|
    ensures Start(images[..n], k) == Start(images, k)
    ensures forall p: Plane :: Behind(images[..n], k, p) == Behind(images, k, p)
    ensures Referable(images[..n], k) <==> Referable(images, k)
  {
    BeforePrefix(images, n, k, Coefficients);
    BeforePrefix(images, n, k, Macroblocks);
    BeforePrefix(images, n, k, LowCells);
    BeforePrefix(images, n, k, SampleCells);
    BeforePrefix(images, n, k + 1, LowCells);
    BeforePrefix(images, n, k + 1, SampleCells);
    hide Before, RecordOf;
  }

  /** A batch is described exactly when every reference of every image fits, and then all lengths add up. */
  lemma {:induction false} DescribedExactly(images: seq<Image>)
    ensures Describe(images).Some? <==> forall k: nat :: k < |images| ==> Referable(images, k)
    ensures Describe(images).Some? ==> Measured(images, Describe(images).value)
  {
    if images != [] {
      hide Referable, Measured, ImageFits, Append;
      var n := |images| - 1;
      DescribedExactly(images[..n]);
      forall k: nat | k < n
        ensures Referable(images[..n], k) <==> Referable(images, k)
      {
        ReferablePrefix(images, n, k);
      }
      if Describe(images[..n]).Some? {
        AppendedMeasured(images, Describe(images[..n]).value);
      }
    }
  }

  /** The share of one image in a description: its planes, its offsets and its coefficients, each in its place. */
  ghost predicate Listed(images: seq<Image>, k: nat, d: Described)
    requires k < |images|
  {
    var image := images[k];
    && k < |d.planes| && k < |d.sampleBases| && d.sampleBases[k] == Before(images, k, SampleCells)
    && |d.planes[k]| == |image.planes|
    && (forall i :: 0 <= i < |image.planes| ==> d.planes[k][i] == Behind(images, k, image.planes[i]))
    && Before(images, k, Macroblocks) + |image.offsets| <= |d.offsets|
    && (forall g :: 0 <= g < |image.offsets| ==>
          d.offsets[Before(images, k, Macroblocks) + g] == image.offsets[g] + Start(images, k))
    && (image.shared.None? ==>
          Start(images, k) + |image.coefficients| <= |d.packed|
          && d.packed[Start(images, k)..Start(images, k) + |image.coefficients|] == image.coefficients)
  }

  lemma AppendedListed(images: seq<Image>, before: Described)
    requires images != [] && Measured(images[..|images| - 1], before)
    ensures Listed(images, |images| - 1, Append(images[|images| - 1], before))
  {
    var n := |images| - 1;
    BeforePrefix(images, n, n, Coefficients);
    BeforePrefix(images, n, n, Macroblocks);
    BeforePrefix(images, n, n, LowCells);
    BeforePrefix(images, n, n, SampleCells);
    hide Before;
    assert CoefficientBase(images[n], before) == Start(images, n);
  }

  lemma ListedStays(images: seq<Image>, k: nat, before: Described)
    requires k < |images| - 1 && Listed(images[..|images| - 1], k, before)
    ensures Listed(images, k, Append(images[|images| - 1], before))
  {
    var n := |images| - 1;
    ReferablePrefix(images, n, k);
    BeforePrefix(images, n, k, Macroblocks);
    BeforePrefix(images, n, k, SampleCells);
    hide Before, Referable, Behind, Start;
    var d := Append(images[n], before);
    assert before.packed <= d.packed && before.offsets <= d.offsets;
    if images[k].shared.None? {
      var from, to := Start(images, k), Start(images, k) + |images[k].coefficients|;
      assert d.packed[from..to] == before.packed[from..to];
    }
  }

  /** Every image of a described batch has its share, moved by what the images before it take up. */
  lemma {:induction false} DescribedListed(images: seq<Image>, k: nat)
    requires Describe(images).Some? && k < |images|
    ensures Listed(images, k, Describe(images).value)
  {
    hide Listed, Measured, ImageFits, Append, Referable;
    var n := |images| - 1;
    DescribedExactly(images[..n]);
    if k < n {
      DescribedListed(images[..n], k);
      ListedStays(images, k, Describe(images[..n]).value);
    } else {
      AppendedListed(images, Describe(images[..n]).value);
    }
  }
}
