/** What the Annex A writer writes, the parser reads back. */
module AnnexARoundTrip {
  import opened Wrappers
  import opened Bytes
  import opened AnnexA
  import opened AnnexAWriter

  // ---- Finding entries ----

  lemma {:induction false} TagsApart(entries: seq<Entry>, j: nat, k: nat)
    requires Increasing(entries) && j < k < |entries|
    ensures entries[j].tag < entries[k].tag
    decreases k
  {
    assert entries[k - 1].tag < entries[k - 1 + 1].tag;
    if j < k - 1 {
      TagsApart(entries, j, k - 1);
    }
  }

  lemma {:induction false} FindFirst(entries: seq<Entry>, k: nat)
    requires k < |entries| && forall j :: 0 <= j < k ==> entries[j].tag != entries[k].tag
    ensures Find(entries, entries[k].tag) == Some(entries[k])
  {
    if k > 0 {
      FindFirst(entries[1..], k - 1);
    }
  }

  /** In a sorted directory every entry is found by its tag. */
  lemma FindSorted(entries: seq<Entry>, k: nat)
    requires Increasing(entries) && k < |entries|
    ensures Find(entries, entries[k].tag) == Some(entries[k])
  {
    forall j | 0 <= j < k
      ensures entries[j].tag != entries[k].tag
    {
      TagsApart(entries, j, k);
    }
    FindFirst(entries, k);
  }

  lemma FindMissing(entries: seq<Entry>, tag: nat)
    requires forall k :: 0 <= k < |entries| ==> entries[k].tag != tag
    ensures Find(entries, tag) == None
  {}

  // ---- Reading the directory back ----

  lemma {:induction false} EntrySlice(entries: seq<Entry>, k: nat)
    requires AllWordsFit(entries) && k < |entries|
    ensures EntriesBytes(entries)[12 * k..12 * k + 12] == EntryBytes(entries[k])
  {
    hide EntryBytes;
    var init := entries[..|entries| - 1];
    if k < |init| {
      EntrySlice(init, k);
      assert EntriesBytes(entries)[12 * k..12 * k + 12] == EntriesBytes(init)[12 * k..12 * k + 12];
    }
  }

  lemma SubSlice(bytes: seq<byte>, offset: nat, n: nat, a: nat, b: nat)
    requires a <= b <= n && offset + n <= |bytes|
    ensures bytes[offset + a..offset + b] == bytes[offset..offset + n][a..b]
  {
    var one, two := bytes[offset + a..offset + b], bytes[offset..offset + n][a..b];
    forall i | 0 <= i < |one|
      ensures one[i] == two[i]
    {}
  }

  /** The words of an entry, read where its bytes lie. */
  lemma EntryRead(bytes: seq<byte>, offset: nat, entry: Entry)
    requires WordsFit(entry) && offset + 12 <= |bytes| && bytes[offset..offset + 12] == EntryBytes(entry)
    ensures EntryAt(bytes, offset) == entry
  {
    EntryParts(entry);
    var b := EntryBytes(entry);
    hide EntryBytes, Le16, Le32, U16At, U32At;
    SubSlice(bytes, offset, 12, 0, 2);
    SubSlice(bytes, offset, 12, 2, 4);
    SubSlice(bytes, offset, 12, 4, 8);
    SubSlice(bytes, offset, 12, 8, 12);
    assert b[0..2] == Le16(entry.tag) && b[2..4] == Le16(entry.elementType);
    assert b[4..8] == Le32(entry.count) && b[8..12] == Le32(entry.value);
    Read16(bytes, offset, entry.tag);
    Read16(bytes, offset + 2, entry.elementType);
    Read32(bytes, offset + 4, entry.count);
    Read32(bytes, offset + 8, entry.value);
  }

  lemma HeadRead(bytes: seq<byte>, count: nat)
    requires IsU16(count) && |bytes| >= 10 && bytes[..10] == HeadBytes(count)
    ensures bytes[..4] == MAGIC && U32At(bytes, 4) == 8 && U16At(bytes, 8) == count
  {
    var b := HeadBytes(count);
    assert bytes[..4] == b[..4] == MAGIC;
    assert bytes[4..8] == b[4..8] == Le32(8);
    assert bytes[8..10] == b[8..10] == Le16(count);
    hide HeadBytes, Le16, Le32, U16At, U32At;
    Read32(bytes, 4, 8);
    Read16(bytes, 8, count);
  }

  /** A file that begins with the bytes of a sorted directory has that directory. */
  lemma DirectoryRead(bytes: seq<byte>, entries: seq<Entry>)
    requires 0 < |entries| <= 11 && AllWordsFit(entries) && Increasing(entries)
    requires |bytes| >= 10 + 12 * |entries| && bytes[..10 + 12 * |entries|] == DirectoryBytes(entries)
    ensures |bytes| >= 8 && bytes[..4] == MAGIC && U32At(bytes, 4) == 8
    ensures Directory(bytes, 8) == Some(entries)
  {
    hide HeadBytes, EntriesBytes, EntryBytes, U16At, U32At, EntryAt;
    var d, size := DirectoryBytes(entries), 12 * |entries|;
    assert bytes[..10] == d[..10] == HeadBytes(|entries|);
    HeadRead(bytes, |entries|);
    assert bytes[10..10 + size] == d[10..] == EntriesBytes(entries);
    forall k | 0 <= k < |entries|
      ensures EntryAt(bytes, 10 + k * 12) == entries[k]
    {
      EntrySlice(entries, k);
      SubSlice(bytes, 10, size, 12 * k, 12 * k + 12);
      EntryRead(bytes, 10 + 12 * k, entries[k]);
    }
    assert EntriesAt(bytes, 10, |entries|) == entries;
  }

  // ---- The payloads lie where the directory says ----

  /** The last two payloads keep what lies before the codestream. */
  lemma HeadKept(buffer: seq<byte>, primary: seq<byte>, o: Options, l: Layout, from: nat, to: nat)
    requires TypedOptions(o) && LayoutOf(primary, o) == Some(l) && |buffer| == l.outputLength
    requires from <= to <= l.pixelFormatOffset + 16
    ensures l.pixelFormatOffset + 16 <= l.outputLength
    ensures Payloads(buffer, primary, o)[from..to] == Place(buffer, l.pixelFormatOffset, o.guid)[from..to]
  {
    PlannedShape(primary, o);
    hide LayoutOf, Planned, Place;
    var pixel := Place(buffer, l.pixelFormatOffset, o.guid);
    var profile := PlaceOptional(pixel, l.iccOffset, o.icc);
    var image := Place(profile, l.primaryOffset, primary);
    PlaceKeeps(profile, l.primaryOffset, primary, from, to);
    if o.icc.Some? {
      PlaceKeeps(pixel, l.iccOffset.value, o.icc.value, from, to);
    }
    if o.alpha.Some? {
      PlaceKeeps(image, l.alphaOffset.value, o.alpha.value, from, to);
    }
  }

  lemma PayloadSlices(buffer: seq<byte>, primary: seq<byte>, o: Options, l: Layout)
    requires TypedOptions(o) && LayoutOf(primary, o) == Some(l) && |buffer| == l.outputLength
    ensures 10 + 12 * l.entryCount <= l.pixelFormatOffset && l.pixelFormatOffset + 16 <= l.primaryOffset
    ensures l.primaryOffset + |primary| <= l.outputLength
    ensures var file := Payloads(buffer, primary, o);
      && file[..10 + 12 * l.entryCount] == buffer[..10 + 12 * l.entryCount]
      && file[l.pixelFormatOffset..l.pixelFormatOffset + 16] == o.guid
      && file[l.primaryOffset..l.primaryOffset + |primary|] == primary
  {
    PlannedShape(primary, o);
    hide LayoutOf, Planned, Place;
    var head := 10 + 12 * l.entryCount;
    HeadKept(buffer, primary, o, l, 0, head);
    HeadKept(buffer, primary, o, l, l.pixelFormatOffset, l.pixelFormatOffset + 16);
    PlaceKeeps(buffer, l.pixelFormatOffset, o.guid, 0, head);
    if o.alpha.Some? {
      var profile := PlaceOptional(Place(buffer, l.pixelFormatOffset, o.guid), l.iccOffset, o.icc);
      PlaceKeeps(Place(profile, l.primaryOffset, primary), l.alphaOffset.value, o.alpha.value,
                 l.primaryOffset, l.primaryOffset + |primary|);
    }
  }

  lemma OptionalSlices(buffer: seq<byte>, primary: seq<byte>, o: Options, l: Layout)
    requires TypedOptions(o) && LayoutOf(primary, o) == Some(l) && |buffer| == l.outputLength
    ensures o.icc.Some? ==> l.iccOffset.Some? && SliceIs(Payloads(buffer, primary, o), l.iccOffset.value, o.icc.value)
    ensures o.alpha.Some? ==> l.alphaOffset.Some? && SliceIs(Payloads(buffer, primary, o), l.alphaOffset.value, o.alpha.value)
  {
    PlannedShape(primary, o);
    hide LayoutOf, Planned, Place;
    var pixel := Place(buffer, l.pixelFormatOffset, o.guid);
    var profile := PlaceOptional(pixel, l.iccOffset, o.icc);
    var image := Place(profile, l.primaryOffset, primary);
    if o.icc.Some? {
      var end := l.iccOffset.value + |o.icc.value|;
      PlaceKeeps(profile, l.primaryOffset, primary, l.iccOffset.value, end);
      if o.alpha.Some? {
        PlaceKeeps(image, l.alphaOffset.value, o.alpha.value, l.iccOffset.value, end);
      }
    }
  }

  /** The file holds `data` at `offset`. */
  predicate SliceIs(file: seq<byte>, offset: nat, data: seq<byte>) {
    offset + |data| <= |file| && file[offset..offset + |data|] == data
  }

  // ---- The round trip ----

  lemma EntryOfImage(primary: seq<byte>, o: Options, l: Layout, j: nat)
    requires j < 8
    ensures var p, entries := |ProfileEntries(o, l)|, Entries(primary, o, l);
      p + j < |entries| && entries[p + j] == ImageEntries(primary, o, l)[j]
  {
    hide ImageEntries;
    assert |ImageEntries(primary, o, l)| == 8 by { ImageEntryCount(primary, o, l); }
  }

  lemma ImageEntryCount(primary: seq<byte>, o: Options, l: Layout)
    ensures |ImageEntries(primary, o, l)| == 8
  {}

  lemma FindImage(primary: seq<byte>, o: Options, l: Layout, j: nat)
    requires j < 8 && Increasing(Entries(primary, o, l))
    ensures |ImageEntries(primary, o, l)| == 8
    ensures var e := ImageEntries(primary, o, l)[j]; Find(Entries(primary, o, l), e.tag) == Some(e)
  {
    EntryOfImage(primary, o, l, j);
    hide Entries, ImageEntries;
    FindSorted(Entries(primary, o, l), |ProfileEntries(o, l)| + j);
  }

  /** What the parser finds of the entries every file has. */
  lemma ImageFields(primary: seq<byte>, o: Options, l: Layout)
    requires Increasing(Entries(primary, o, l))
    ensures var entries := Entries(primary, o, l);
      && Find(entries, TAG_PIXEL_FORMAT) == Some(Entry(TAG_PIXEL_FORMAT, TYPE_BYTE, 16, l.pixelFormatOffset))
      && OptionalScalar(entries, TAG_TRANSFORMATION) == Present(OrientationCode(o.orientation))
      && RequiredScalar(entries, TAG_IMAGE_WIDTH) == Some(o.width)
      && RequiredScalar(entries, TAG_IMAGE_HEIGHT) == Some(o.height)
      && Resolution(entries) == Present((o.horizontalDpi, o.verticalDpi))
      && RequiredScalar(entries, TAG_IMAGE_OFFSET) == Some(l.primaryOffset)
      && RequiredScalar(entries, TAG_IMAGE_BYTE_COUNT) == Some(|primary|)
  {
    FindImage(primary, o, l, 0);
    FindImage(primary, o, l, 1);
    FindImage(primary, o, l, 2);
    FindImage(primary, o, l, 3);
    FindImage(primary, o, l, 4);
    FindImage(primary, o, l, 5);
    FindImage(primary, o, l, 6);
    FindImage(primary, o, l, 7);
    hide Entries, Find;
  }

  lemma AlphaFields(primary: seq<byte>, o: Options, l: Layout)
    requires Increasing(Entries(primary, o, l)) && (o.alpha.Some? <==> l.alphaOffset.Some?)
    ensures var entries := Entries(primary, o, l);
      && OptionalScalar(entries, TAG_ALPHA_OFFSET) == (if o.alpha.Some? then Present(l.alphaOffset.value) else Absent)
      && OptionalScalar(entries, TAG_ALPHA_BYTE_COUNT) == (if o.alpha.Some? then Present(|o.alpha.value|) else Absent)
  {
    var entries := Entries(primary, o, l);
    if o.alpha.Some? {
      FindSorted(entries, |entries| - 2);
      FindSorted(entries, |entries| - 1);
    } else {
      FindMissing(entries, TAG_ALPHA_OFFSET);
      FindMissing(entries, TAG_ALPHA_BYTE_COUNT);
    }
  }

  lemma ProfileField(primary: seq<byte>, o: Options, l: Layout, size: nat)
    requires Increasing(Entries(primary, o, l)) && (o.icc.Some? <==> l.iccOffset.Some?) && IsU32(size)
    requires o.icc.Some? ==> l.iccOffset.value + |o.icc.value| <= size
    ensures OptionalBlob(size, Entries(primary, o, l), TAG_ICC_PROFILE) ==
      if o.icc.Some? then Present(Span(l.iccOffset.value, l.iccOffset.value + |o.icc.value|)) else Absent
  {
    var entries := Entries(primary, o, l);
    if o.icc.Some? {
      FindSorted(entries, 0);
    } else {
      FindMissing(entries, TAG_ICC_PROFILE);
    }
  }

  /** The image the parser must return for a written file. */
  function Expected(primary: seq<byte>, o: Options, l: Layout): Image
    requires (o.icc.Some? <==> l.iccOffset.Some?) && (o.alpha.Some? <==> l.alphaOffset.Some?)
  {
    Image(o.width, o.height, o.guid, Span(l.primaryOffset, l.primaryOffset + |primary|),
          if o.alpha.Some? then Some(Span(l.alphaOffset.value, l.alphaOffset.value + |o.alpha.value|)) else None,
          Some(OrientationCode(o.orientation)), Some((o.horizontalDpi, o.verticalDpi)),
          if o.icc.Some? then Some(Span(l.iccOffset.value, l.iccOffset.value + |o.icc.value|)) else None)
  }

  lemma RangeAccepted(size: nat, offset: nat, length: nat)
    requires offset + length <= size && IsU32(size)
    ensures CheckedRange(size, offset, length) == Some(Span(offset, offset + length))
    ensures CheckedCodestreamRange(size, offset, length) == Some(Span(offset, offset + length))
  {}

  lemma NotEmpty(primary: seq<byte>, o: Options)
    requires ValidOptions(primary, o)
    ensures |primary| > 0 && (o.alpha.Some? ==> |o.alpha.value| > 0)
  {}

  /** The primary range is accepted. */
  lemma PrimaryAccepted(primary: seq<byte>, o: Options, l: Layout)
    requires Increasing(Entries(primary, o, l)) && |primary| > 0 && IsU32(l.outputLength)
    requires l.primaryOffset + |primary| <= l.outputLength
    ensures PrimaryRange(l.outputLength, Entries(primary, o, l)) == Some(Span(l.primaryOffset, l.primaryOffset + |primary|))
  {
    hide Entries, OptionalScalar, RequiredScalar, Resolution, CheckedCodestreamRange, Increasing, Find;
    ImageFields(primary, o, l);
    RangeAccepted(l.outputLength, l.primaryOffset, |primary|);
  }

  /** So is the alpha range, when there is one. */
  lemma AlphaAccepted(primary: seq<byte>, o: Options, l: Layout)
    requires Increasing(Entries(primary, o, l)) && IsU32(l.outputLength) && (o.alpha.Some? <==> l.alphaOffset.Some?)
    requires o.alpha.Some? ==> |o.alpha.value| > 0 && l.alphaOffset.value + |o.alpha.value| <= l.outputLength
    ensures AlphaRange(l.outputLength, Entries(primary, o, l)) ==
      if o.alpha.Some? then Present(Span(l.alphaOffset.value, l.alphaOffset.value + |o.alpha.value|)) else Absent
  {
    hide Entries, OptionalScalar, CheckedCodestreamRange, Increasing, Find;
    AlphaFields(primary, o, l);
    if o.alpha.Some? {
      RangeAccepted(l.outputLength, l.alphaOffset.value, |o.alpha.value|);
    }
  }

  lemma BuiltImage(file: seq<byte>, primary: seq<byte>, o: Options, l: Layout)
    requires TypedOptions(o) && ValidOptions(primary, o) && LayoutOf(primary, o) == Some(l) && |file| == l.outputLength
    requires SliceIs(file, l.pixelFormatOffset, o.guid)
    ensures (o.icc.Some? <==> l.iccOffset.Some?) && (o.alpha.Some? <==> l.alphaOffset.Some?)
    ensures BuildImage(file, Entries(primary, o, l)) == Some(Expected(primary, o, l))
  {
    hide LayoutOf, Planned, ValidOptions, Entries, OptionalScalar, RequiredScalar, Resolution, OptionalBlob;
    hide PrimaryRange, AlphaRange, Increasing, AllWordsFit, CheckedCodestreamRange;
    PlannedShape(primary, o);
    EntriesFit(primary, o);
    NotEmpty(primary, o);
    PrimaryAccepted(primary, o, l);
    AlphaAccepted(primary, o, l);
    ImageFields(primary, o, l);
    ProfileField(primary, o, l, |file|);
    RangeAccepted(|file|, l.pixelFormatOffset, 16);
  }

  /** Directory and payloads of a written file. */
  lemma ContainerSlices(primary: seq<byte>, o: Options, l: Layout)
    requires TypedOptions(o) && LayoutOf(primary, o) == Some(l)
    ensures (o.icc.Some? <==> l.iccOffset.Some?) && (o.alpha.Some? <==> l.alphaOffset.Some?)
    ensures var entries := Entries(primary, o, l);
      && 0 < |entries| <= 11 && AllWordsFit(entries) && Increasing(entries)
      && SliceIs(Container(primary, o), 0, DirectoryBytes(entries))
    ensures SliceIs(Container(primary, o), l.pixelFormatOffset, o.guid)
    ensures SliceIs(Container(primary, o), l.primaryOffset, primary)
    ensures o.icc.Some? ==> SliceIs(Container(primary, o), l.iccOffset.value, o.icc.value)
    ensures o.alpha.Some? ==> SliceIs(Container(primary, o), l.alphaOffset.value, o.alpha.value)
  {
    hide LayoutOf, Planned, Place, Payloads, DirectoryBytes, Entries, AllWordsFit, Increasing, Container;
    PlannedShape(primary, o);
    EntriesFit(primary, o);
    var start := ContainerStart(primary, o, l);
    PayloadSlices(start, primary, o, l);
    OptionalSlices(start, primary, o, l);
  }

  /** The file before its payloads: the directory over zeros. */
  lemma ContainerStart(primary: seq<byte>, o: Options, l: Layout) returns (start: seq<byte>)
    requires TypedOptions(o) && LayoutOf(primary, o) == Some(l)
    ensures |start| == l.outputLength && Container(primary, o) == Payloads(start, primary, o)
    ensures var entries := Entries(primary, o, l);
      |entries| == l.entryCount <= 11 && AllWordsFit(entries) && SliceIs(start, 0, DirectoryBytes(entries))
  {
    PlannedShape(primary, o);
    EntriesFit(primary, o);
    var zeros := seq(l.outputLength, _ => 0 as byte);
    start := Place(zeros, 0, DirectoryBytes(Entries(primary, o, l)));
    hide LayoutOf, Planned, Place, Payloads, DirectoryBytes, Entries;
  }

  predicate SpanHolds(file: seq<byte>, span: Span, data: seq<byte>) {
    span.start <= span.end <= |file| && file[span.start..span.end] == data
  }

  /** Everything a reader gets back of what was written. */
  ghost predicate Faithful(file: seq<byte>, image: Image, primary: seq<byte>, o: Options) {
    && image.width == o.width && image.height == o.height && image.guid == o.guid
    && image.transformation.Some? && OrientationOf(image.transformation.value) == Some(o.orientation)
    && image.dpi == Some((o.horizontalDpi, o.verticalDpi))
    && SpanHolds(file, image.codestream, primary)
    && (image.alpha.Some? <==> o.alpha.Some?) && (o.alpha.Some? ==> SpanHolds(file, image.alpha.value, o.alpha.value))
    && (image.icc.Some? <==> o.icc.Some?) && (o.icc.Some? ==> SpanHolds(file, image.icc.value, o.icc.value))
  }

  /**
   The round trip: parsing the written file returns the image's size, identifier, orientation and
   resolutions, and ranges that hold exactly the codestreams and the profile that were written.
   */
  lemma RoundTrip(primary: seq<byte>, o: Options)
    requires TypedOptions(o) && ValidOptions(primary, o) && LayoutOf(primary, o).Some?
    ensures Parsed(Container(primary, o)).Some?
    ensures Faithful(Container(primary, o), Parsed(Container(primary, o)).value, primary, o)
  {
    hide Container, LayoutOf, Planned, Entries, DirectoryBytes, Directory, BuildImage, U32At, ValidOptions,
         AllWordsFit, Increasing;
    var l := LayoutOf(primary, o).value;
    var file := Container(primary, o);
    ContainerSlices(primary, o, l);
    DirectoryRead(file, Entries(primary, o, l));
    BuiltImage(file, primary, o, l);
    OrientationRead(o.orientation);
  }
}
