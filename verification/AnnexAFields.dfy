/** What a parsed container says, read off its bytes: every field of the image against the entry that holds it. */
module AnnexAFields {
  import opened Wrappers
  import opened Words
  import opened Bytes
  import opened AnnexA

  // ---- The bytes of the directory ----

  /** A container whose first directory lies inside the file and lists its tags in increasing order. */
  ghost predicate Container(bytes: seq<byte>) {
    && 8 <= |bytes| && bytes[0] == 0x49 && bytes[1] == 0x49 && bytes[2] == 0xBC && bytes[3] == 1
    && U32At(bytes, 4) % 2 == 0 && U32At(bytes, 4) + 2 <= |bytes|
    && 0 < U16At(bytes, U32At(bytes, 4)) && U32At(bytes, 4) + 2 + 12 * U16At(bytes, U32At(bytes, 4)) <= |bytes|
    && forall j: nat, k: nat :: j < k < U16At(bytes, U32At(bytes, 4)) ==> TagOf(bytes, j) < TagOf(bytes, k)
  }

  /** Where entry `k` starts: after the entry count, twelve bytes an entry. */
  function EntryPlace(bytes: seq<byte>, k: nat): nat
    requires 8 <= |bytes|
  {
    U32At(bytes, 4) + 2 + 12 * k
  }

  function TagOf(bytes: seq<byte>, k: nat): nat
    requires 8 <= |bytes| && EntryPlace(bytes, k) + 12 <= |bytes|
  {
    U16At(bytes, EntryPlace(bytes, k))
  }

  /** Entry `k` of the directory carries the tag. */
  ghost predicate Tagged(bytes: seq<byte>, k: nat, tag: nat)
    requires Container(bytes)
  {
    k < U16At(bytes, U32At(bytes, 4)) && TagOf(bytes, k) == tag
  }

  ghost predicate HasTag(bytes: seq<byte>, tag: nat)
    requires Container(bytes)
  {
    exists k: nat :: Tagged(bytes, k, tag)
  }

  /** Element type `kind`, with `count` elements. */
  predicate Typed(bytes: seq<byte>, o: nat, kind: nat, count: nat)
    requires o + 12 <= |bytes|
  {
    U16At(bytes, o + 2) == kind && U32At(bytes, o + 4) == count
  }

  /**
   The scalar of the entry at `o`: one element, of type 1 in its first value byte, of type 3 in two, of type 4 in four,
   low byte first; an entry of any other shape has none.
   */
  ghost predicate Scalar(bytes: seq<byte>, o: nat, v: nat)
    requires o + 12 <= |bytes|
  {
    || (Typed(bytes, o, 1, 1) && v == bytes[o + 8])
    || (Typed(bytes, o, 3, 1) && v == bytes[o + 8] as int + 0x100 * bytes[o + 9] as int)
    || (Typed(bytes, o, 4, 1) && v == bytes[o + 8] as int + 0x100 * bytes[o + 9] as int + 0x1_0000 * bytes[o + 10] as int
                                      + 0x100_0000 * bytes[o + 11] as int)
  }

  /** The field with this tag is present and holds the scalar. */
  ghost predicate Holds(bytes: seq<byte>, tag: nat, v: nat)
    requires Container(bytes)
  {
    exists k: nat :: Tagged(bytes, k, tag) && Scalar(bytes, EntryPlace(bytes, k), v)
  }

  // ---- The fields ----

  /** `length` bytes from `offset` on; an even length may count one pad byte past the end of the file. */
  ghost predicate Stretch(size: nat, offset: nat, length: nat, span: Span) {
    && span.start == offset <= size
    && (span.end == offset + length <= size || (length % 2 == 0 && offset + length == size + 1 && span.end == size))
  }

  /** The pixel format: sixteen single bytes, stored where the entry's value says. */
  ghost predicate PixelFormat(bytes: seq<byte>, guid: seq<byte>)
    requires Container(bytes)
  {
    exists k: nat :: Tagged(bytes, k, 0xBC01) && Typed(bytes, EntryPlace(bytes, k), 1, 16) &&
      var start := U32At(bytes, EntryPlace(bytes, k) + 8); start + 16 <= |bytes| && guid == bytes[start..start + 16]
  }

  /** The primary codestream; a byte count of zero means that it runs to the end of the file. */
  ghost predicate Primary(bytes: seq<byte>, span: Span)
    requires Container(bytes)
  {
    exists offset: nat, count: nat :: PrimaryAt(bytes, offset, count, span)
  }

  ghost predicate PrimaryAt(bytes: seq<byte>, offset: nat, count: nat, span: Span)
    requires Container(bytes)
  {
    && Holds(bytes, 0xBCC0, offset) && Holds(bytes, 0xBCC1, count)
    && if count == 0 then span.start == offset <= |bytes| && span.end == |bytes| else Stretch(|bytes|, offset, count, span)
  }

  /** The alpha codestream: absent when both fields are, or when both are zero; never over the primary one. */
  ghost predicate Alpha(bytes: seq<byte>, primary: Span, alpha: Option<Span>)
    requires Container(bytes)
  {
    match alpha
    case None =>
      (!HasTag(bytes, 0xBCC2) && !HasTag(bytes, 0xBCC3)) || (Holds(bytes, 0xBCC2, 0) && Holds(bytes, 0xBCC3, 0))
    case Some(span) =>
      && (span.end <= primary.start || primary.end <= span.start)
      && exists offset: nat, count: nat :: AlphaAt(bytes, offset, count, span)
  }

  ghost predicate AlphaAt(bytes: seq<byte>, offset: nat, count: nat, span: Span)
    requires Container(bytes)
  {
    && Holds(bytes, 0xBCC2, offset) && Holds(bytes, 0xBCC3, count)
    && (offset != 0 || count != 0) && Stretch(|bytes|, offset, count, span)
  }

  ghost predicate Transformation(bytes: seq<byte>, transformation: Option<nat>)
    requires Container(bytes)
  {
    match transformation
    case None => !HasTag(bytes, 0xBC02)
    case Some(v) => Holds(bytes, 0xBC02, v)
  }

  /** A resolution is a single-precision value, kept as its word. */
  ghost predicate Resolutions(bytes: seq<byte>, dpi: Option<(nat, nat)>)
    requires Container(bytes)
  {
    match dpi
    case None => !HasTag(bytes, 0xBC82) && !HasTag(bytes, 0xBC83)
    case Some((horizontal, vertical)) => FloatAt(bytes, 0xBC82, horizontal) && FloatAt(bytes, 0xBC83, vertical)
  }

  ghost predicate FloatAt(bytes: seq<byte>, tag: nat, word: nat)
    requires Container(bytes)
  {
    exists k: nat :: Tagged(bytes, k, tag) && Typed(bytes, EntryPlace(bytes, k), 11, 1) &&
      word == U32At(bytes, EntryPlace(bytes, k) + 8)
  }

  /** The colour profile: as many bytes as its elements take, from where the entry's value says. */
  ghost predicate Profile(bytes: seq<byte>, icc: Option<Span>)
    requires Container(bytes)
  {
    match icc
    case None => !HasTag(bytes, 0x8773)
    case Some(span) =>
      exists k: nat, width: nat :: Tagged(bytes, k, 0x8773) && Wide(bytes, EntryPlace(bytes, k), width) &&
        span.start == U32At(bytes, EntryPlace(bytes, k) + 8) &&
        span.end == span.start + width * U32At(bytes, EntryPlace(bytes, k) + 4) <= |bytes|
  }

  lemma WideRead(bytes: seq<byte>, o: nat)
    requires o + 12 <= |bytes|
    ensures forall width: nat :: Wide(bytes, o, width) <==> ElementSize(U16At(bytes, o + 2)) == Some(width)
    ensures forall width: nat :: Wide(bytes, o, width) ==> width * U32At(bytes, o + 4) <= 8 * 0xFFFF_FFFF
  {
    hide U16At, U32At;
    forall width: nat | Wide(bytes, o, width)
      ensures width * U32At(bytes, o + 4) <= 8 * 0xFFFF_FFFF
    {
      assert width <= 8 && U32At(bytes, o + 4) <= 0xFFFF_FFFF;
    }
  }

  /** The twelve element types and how many bytes each takes. */
  predicate Wide(bytes: seq<byte>, o: nat, width: nat)
    requires o + 12 <= |bytes|
  {
    match U16At(bytes, o + 2)
    case 1 => width == 1 case 2 => width == 1 case 3 => width == 2 case 4 => width == 4
    case 5 => width == 8 case 6 => width == 1 case 7 => width == 1 case 8 => width == 2
    case 9 => width == 4 case 10 => width == 8 case 11 => width == 4 case 12 => width == 8
    case _ => false
  }

  ghost predicate Describes(bytes: seq<byte>, image: Image)
    requires Container(bytes)
  {
    && PixelFormat(bytes, image.guid)
    && Holds(bytes, 0xBC80, image.width) && Holds(bytes, 0xBC81, image.height)
    && Primary(bytes, image.codestream) && Alpha(bytes, image.codestream, image.alpha)
    && Transformation(bytes, image.transformation) && Resolutions(bytes, image.dpi) && Profile(bytes, image.icc)
  }

  // ---- Entries ----

  lemma {:induction false} TagsIncrease(entries: seq<Entry>, j: nat, k: nat)
    requires Increasing(entries) && j < k < |entries|
    ensures entries[j].tag < entries[k].tag
    decreases k
  {
    if j < k - 1 {
      TagsIncrease(entries, j, k - 1);
    }
  }

  ghost function Entries(bytes: seq<byte>): (entries: seq<Entry>)
    requires Container(bytes)
    ensures |entries| == U16At(bytes, U32At(bytes, 4))
    ensures forall k :: 0 <= k < |entries| ==> entries[k] == EntryAt(bytes, EntryPlace(bytes, k))
  {
    EntriesAt(bytes, U32At(bytes, 4) + 2, U16At(bytes, U32At(bytes, 4)))
  }

  lemma ContainerRead(bytes: seq<byte>)
    requires Container(bytes)
    ensures Parsed(bytes) == BuildImage(bytes, Entries(bytes)) && Increasing(Entries(bytes))
  {
    hide U16At, U32At, BuildImage;
    var entries := Entries(bytes);
    forall k | 0 <= k < |entries| - 1
      ensures entries[k].tag < entries[k + 1].tag
    {
      assert TagOf(bytes, k) < TagOf(bytes, k + 1);
    }
    assert bytes[..4] == MAGIC;
  }

  lemma OnlyContainers(bytes: seq<byte>)
    requires Parsed(bytes).Some?
    ensures Container(bytes)
  {
    hide U16At, U32At, BuildImage;
    assert bytes[0] == bytes[..4][0] && bytes[1] == bytes[..4][1] && bytes[2] == bytes[..4][2] && bytes[3] == bytes[..4][3];
    var start := U32At(bytes, 4);
    var entries := EntriesAt(bytes, start + 2, U16At(bytes, start));
    assert Directory(bytes, start) == Some(entries);
    forall j: nat, k: nat | j < k < |entries|
      ensures TagOf(bytes, j) < TagOf(bytes, k)
    {
      TagsIncrease(entries, j, k);
    }
  }

  /** Looking a tag up finds its one entry. */
  lemma FoundEntry(bytes: seq<byte>, tag: nat)
    requires Container(bytes)
    ensures Find(Entries(bytes), tag).Some? <==> HasTag(bytes, tag)
    ensures forall k: nat :: Tagged(bytes, k, tag) ==> Find(Entries(bytes), tag) == Some(EntryAt(bytes, EntryPlace(bytes, k)))
  {
    hide U16At, U32At;
    var entries, r := Entries(bytes), Find(Entries(bytes), tag);
    if r.Some? {
      var k: nat :| k < |entries| && entries[k] == r.value;
      assert Tagged(bytes, k, tag);
    }
    forall k: nat | Tagged(bytes, k, tag)
      ensures r == Some(entries[k])
    {
      assert entries[k].tag == tag;
      var j: nat :| j < |entries| && entries[j] == r.value;
      assert TagOf(bytes, j) == TagOf(bytes, k);
    }
  }

  lemma ScalarRead(bytes: seq<byte>, o: nat, v: nat)
    requires o + 12 <= |bytes|
    ensures ScalarValue(EntryAt(bytes, o)) == Some(v) <==> Scalar(bytes, o, v)
  {
    var low, high := bytes[o + 8] as int + bytes[o + 9] as int * 0x100, bytes[o + 10] as int + bytes[o + 11] as int * 0x100;
    assert U32At(bytes, o + 8) == low + high * 0x1_0000;
    assert (low + high * 0x1_0000) % 0x1_0000 == low;
    assert (bytes[o + 8] as int + (bytes[o + 9] as int + high * 0x100) * 0x100) % 0x100 == bytes[o + 8] as int;
  }

  lemma HeldRead(bytes: seq<byte>, tag: nat, v: nat)
    requires Container(bytes)
    ensures RequiredScalar(Entries(bytes), tag) == Some(v) <==> Holds(bytes, tag, v)
  {
    hide Scalar, ScalarValue, U16At, U32At, Find;
    FoundEntry(bytes, tag);
    forall k: nat | Tagged(bytes, k, tag)
      ensures Scalar(bytes, EntryPlace(bytes, k), v) <==> RequiredScalar(Entries(bytes), tag) == Some(v)
    {
      ScalarRead(bytes, EntryPlace(bytes, k), v);
    }
  }

  // ---- One field after another ----

  lemma HeldIsWord(bytes: seq<byte>, tag: nat, v: nat)
    requires Container(bytes) && Holds(bytes, tag, v)
    ensures IsU32(v)
  {}

  lemma StretchRead(size: nat, offset: nat, length: nat, span: Span)
    requires size <= USIZE_MAX && IsU32(offset) && IsU32(length)
    ensures CheckedCodestreamRange(size, offset, length) == Some(span) <==> Stretch(size, offset, length, span)
  {}

  lemma PixelFormatRead(bytes: seq<byte>, guid: seq<byte>)
    requires Container(bytes) && |bytes| <= USIZE_MAX
    ensures var pixel := Find(Entries(bytes), TAG_PIXEL_FORMAT);
      PixelFormat(bytes, guid) <==>
        pixel.Some? && pixel.value.elementType == 1 && pixel.value.count == 16 && pixel.value.value + 16 <= |bytes|
        && guid == bytes[pixel.value.value..pixel.value.value + 16]
  {
    hide U16At, U32At, Find, Entries, TagOf;
    FoundEntry(bytes, 0xBC01);
  }

  lemma PrimaryRead(bytes: seq<byte>, span: Span)
    requires Container(bytes) && |bytes| <= USIZE_MAX
    ensures PrimaryRange(|bytes|, Entries(bytes)) == Some(span) <==> Primary(bytes, span)
  {
    hide Container, Holds, RequiredScalar, Stretch, CheckedCodestreamRange, Entries;
    var start, length := RequiredScalar(Entries(bytes), TAG_IMAGE_OFFSET), RequiredScalar(Entries(bytes), TAG_IMAGE_BYTE_COUNT);
    forall v: nat
      ensures start == Some(v) <==> Holds(bytes, 0xBCC0, v)
      ensures length == Some(v) <==> Holds(bytes, 0xBCC1, v)
    {
      HeldRead(bytes, 0xBCC0, v);
      HeldRead(bytes, 0xBCC1, v);
    }
    if start.Some? && length.Some? {
      HeldIsWord(bytes, 0xBCC0, start.value);
      HeldIsWord(bytes, 0xBCC1, length.value);
      StretchRead(|bytes|, start.value, length.value, span);
      if start.value <= |bytes| {
        RestOfFile(|bytes|, start.value, span);
      }
      assert PrimaryAt(bytes, start.value, length.value, span) <==> PrimaryRange(|bytes|, Entries(bytes)) == Some(span);
    }
  }

  lemma RestOfFile(size: nat, offset: nat, span: Span)
    requires size <= USIZE_MAX && offset <= size
    ensures CheckedCodestreamRange(size, offset, size - offset) == Some(span) <==> span.start == offset && span.end == size
  {}

  /** An optional scalar is absent without its tag, and otherwise what its entry holds. */
  lemma OptionalRead(bytes: seq<byte>, tag: nat)
    requires Container(bytes)
    ensures OptionalScalar(Entries(bytes), tag).Absent? <==> !HasTag(bytes, tag)
    ensures forall v: nat :: OptionalScalar(Entries(bytes), tag) == Present(v) <==> Holds(bytes, tag, v)
  {
    hide Container, Holds, HasTag, Scalar, ScalarValue, Find, Entries;
    FoundEntry(bytes, tag);
    forall v: nat
      ensures OptionalScalar(Entries(bytes), tag) == Present(v) <==> Holds(bytes, tag, v)
    {
      HeldRead(bytes, tag, v);
    }
  }

  lemma AlphaRead(bytes: seq<byte>, primary: Span, alpha: Option<Span>)
    requires Container(bytes) && |bytes| <= USIZE_MAX
    ensures var r := AlphaRange(|bytes|, Entries(bytes));
      Alpha(bytes, primary, alpha) <==>
        !r.Malformed? && !(r.Present? && SpansMeet(r.value, primary)) && FieldOption(r) == alpha
  {
    hide Container, Holds, HasTag, Stretch, CheckedCodestreamRange, Entries, OptionalScalar;
    var start, length := OptionalScalar(Entries(bytes), TAG_ALPHA_OFFSET), OptionalScalar(Entries(bytes), TAG_ALPHA_BYTE_COUNT);
    OptionalRead(bytes, 0xBCC2);
    OptionalRead(bytes, 0xBCC3);
    if start.Present? && length.Present? {
      HeldIsWord(bytes, 0xBCC2, start.value);
      HeldIsWord(bytes, 0xBCC3, length.value);
      forall span
        ensures CheckedCodestreamRange(|bytes|, start.value, length.value) == Some(span)
          <==> Stretch(|bytes|, start.value, length.value, span)
      {
        StretchRead(|bytes|, start.value, length.value, span);
      }
      if alpha.Some? {
        assert AlphaAt(bytes, start.value, length.value, alpha.value) <==>
          AlphaRange(|bytes|, Entries(bytes)) == Present(alpha.value);
      }
    }
  }

  lemma ResolutionsRead(bytes: seq<byte>, dpi: Option<(nat, nat)>)
    requires Container(bytes)
    ensures var r := Resolution(Entries(bytes)); Resolutions(bytes, dpi) <==> !r.Malformed? && FieldOption(r) == dpi
  {
    hide U16At, U32At, Find, Entries, TagOf;
    FoundEntry(bytes, 0xBC82);
    FoundEntry(bytes, 0xBC83);
  }

  lemma TransformationRead(bytes: seq<byte>, transformation: Option<nat>)
    requires Container(bytes)
    ensures var r := OptionalScalar(Entries(bytes), TAG_TRANSFORMATION);
      Transformation(bytes, transformation) <==> !r.Malformed? && FieldOption(r) == transformation
  {
    hide Container, Holds, HasTag, OptionalScalar, Entries;
    OptionalRead(bytes, 0xBC02);
  }

  lemma ProfileRead(bytes: seq<byte>, icc: Option<Span>)
    requires Container(bytes) && |bytes| <= USIZE_MAX
    ensures var r := OptionalBlob(|bytes|, Entries(bytes), TAG_ICC_PROFILE);
      Profile(bytes, icc) <==> !r.Malformed? && FieldOption(r) == icc
  {
    hide U16At, U32At, Find, Entries, TagOf, Wide, ElementSize;
    FoundEntry(bytes, 0x8773);
    if HasTag(bytes, 0x8773) {
      var k: nat :| Tagged(bytes, k, 0x8773);
      assert EntryPlace(bytes, k) + 12 <= |bytes|;
      WideRead(bytes, EntryPlace(bytes, k));
    }
  }

  lemma ImageBuilt(bytes: seq<byte>, entries: seq<Entry>, image: Image)
    requires |bytes| <= USIZE_MAX
    ensures
      var pixel, alpha := Find(entries, TAG_PIXEL_FORMAT), AlphaRange(|bytes|, entries);
      var turn, dpi, icc := OptionalScalar(entries, TAG_TRANSFORMATION), Resolution(entries),
        OptionalBlob(|bytes|, entries, TAG_ICC_PROFILE);
      BuildImage(bytes, entries) == Some(image) <==>
        && pixel.Some? && pixel.value.elementType == 1 && pixel.value.count == 16 && pixel.value.value + 16 <= |bytes|
        && image.guid == bytes[pixel.value.value..pixel.value.value + 16]
        && RequiredScalar(entries, TAG_IMAGE_WIDTH) == Some(image.width)
        && RequiredScalar(entries, TAG_IMAGE_HEIGHT) == Some(image.height)
        && PrimaryRange(|bytes|, entries) == Some(image.codestream)
        && !alpha.Malformed? && !(alpha.Present? && SpansMeet(alpha.value, image.codestream)) && FieldOption(alpha) == image.alpha
        && !turn.Malformed? && FieldOption(turn) == image.transformation
        && !dpi.Malformed? && FieldOption(dpi) == image.dpi && !icc.Malformed? && FieldOption(icc) == image.icc
  {
    hide Find, RequiredScalar, PrimaryRange, AlphaRange, OptionalScalar, Resolution, OptionalBlob, SpansMeet;
  }

  /**
   The parser accepts a file with an image exactly when the file is a container whose entries describe that image, field
   by field.
   */
  lemma ParsedExactly(bytes: seq<byte>, image: Image)
    requires |bytes| <= USIZE_MAX
    ensures Parsed(bytes) == Some(image) <==> Container(bytes) && Describes(bytes, image)
  {
    if Parsed(bytes).Some? {
      OnlyContainers(bytes);
    }
    hide Container, Parsed;
    if Container(bytes) {
      ContainerRead(bytes);
      PixelFormatRead(bytes, image.guid);
      HeldRead(bytes, 0xBC80, image.width);
      HeldRead(bytes, 0xBC81, image.height);
      PrimaryRead(bytes, image.codestream);
      AlphaRead(bytes, image.codestream, image.alpha);
      TransformationRead(bytes, image.transformation);
      ResolutionsRead(bytes, image.dpi);
      ProfileRead(bytes, image.icc);
      ImageBuilt(bytes, Entries(bytes), image);
      hide PixelFormat, Holds, Primary, Alpha, Transformation, Resolutions, Profile, Find, Entries, BuildImage;
      hide RequiredScalar, PrimaryRange, AlphaRange, OptionalScalar, Resolution, OptionalBlob, FieldOption, SpansMeet;
    }
  }
}
