/** The Annex A writer, and the round trip through the parser. */
module AnnexAWriter {
  import opened Wrappers
  import opened Bytes
  import opened AnnexA

  const TYPE_BYTE: nat := 1
  const TYPE_LONG: nat := 4
  const TYPE_UNDEFINED: nat := 7
  const TYPE_FLOAT: nat := 11

  const SIGNATURE: seq<byte> := [0x57, 0x4D, 0x50, 0x48, 0x4F, 0x54, 0x4F, 0]

  datatype Orientation = Identity | MirrorVertical | MirrorHorizontal | Rotate180 | Rotate90 | Transverse | Transpose | Rotate270

  /** Container metadata; resolutions are binary32 bit patterns. */
  datatype Options = Options(width: nat, height: nat, guid: seq<byte>, orientation: Orientation,
                             horizontalDpi: nat, verticalDpi: nat, icc: Option<seq<byte>>, alpha: Option<seq<byte>>)

  datatype Layout = Layout(entryCount: nat, pixelFormatOffset: nat, iccOffset: Option<nat>, primaryOffset: nat,
                           alphaOffset: Option<nat>, outputLength: nat)

  function OrientationCode(orientation: Orientation): (code: nat)
    ensures code < 8
  {
    match orientation
    case Identity => 0
    case MirrorVertical => 1
    case MirrorHorizontal => 2
    case Rotate180 => 3
    case Rotate90 => 4
    case Transverse => 5
    case Transpose => 6
    case Rotate270 => 7
  }

  /** The decoder's reading of a transformation code. */
  function OrientationOf(code: nat): Option<Orientation> {
    if code >= 8 then None
    else Some([Identity, MirrorVertical, MirrorHorizontal, Rotate180, Rotate90, Transverse, Transpose, Rotate270][code])
  }

  lemma OrientationRead(orientation: Orientation)
    ensures OrientationOf(OrientationCode(orientation)) == Some(orientation)
  {}

  predicate RawCodestream(bytes: seq<byte>) {
    |bytes| >= 8 && bytes[..8] == SIGNATURE
  }

  /** A positive finite binary32 bit pattern. */
  predicate PositiveFinite(bits: nat) {
    0 < bits < 0x7F80_0000
  }

  /** What the writer checks before it lays the file out, the codestreams' own headers aside. */
  predicate ValidOptions(primary: seq<byte>, o: Options) {
    && RawCodestream(primary)
    && PositiveFinite(o.horizontalDpi) && PositiveFinite(o.verticalDpi)
    && (o.icc.Some? ==> o.icc.value != [])
    && (o.alpha.Some? ==> RawCodestream(o.alpha.value))
  }

  /** What the types of the options guarantee. */
  predicate TypedOptions(o: Options) {
    IsU32(o.width) && IsU32(o.height) && |o.guid| == 16 && IsU32(o.horizontalDpi) && IsU32(o.verticalDpi)
  }

  // ---- Layout ----

  function AlignFour(value: nat): (r: nat)
    ensures value <= r < value + 4 && r % 4 == 0
  {
    value + 3 - (value + 3) % 4
  }

  function Length(data: Option<seq<byte>>): nat {
    match data case None => 0 case Some(d) => |d|
  }

  function EntryCount(o: Options): nat {
    8 + (if o.icc.Some? then 1 else 0) + (if o.alpha.Some? then 2 else 0)
  }

  /** The payload positions: each aligned to four bytes, in file order. */
  function Planned(primary: seq<byte>, o: Options): Layout {
    var count := EntryCount(o);
    var pixel := AlignFour(8 + (2 + count * 12 + 4));
    var icc := AlignFour(pixel + |o.guid|);
    var afterIcc := if o.icc.Some? then icc + Length(o.icc) else pixel + |o.guid|;
    var image := AlignFour(afterIcc);
    var alpha := AlignFour(image + |primary|);
    Layout(count, pixel, if o.icc.Some? then Some(icc) else None, image, if o.alpha.Some? then Some(alpha) else None,
           if o.alpha.Some? then alpha + Length(o.alpha) else image + |primary|)
  }

  /** The layout of a file whose length fits 32 bits. */
  function LayoutOf(primary: seq<byte>, o: Options): Option<Layout> {
    if IsU32(Planned(primary, o).outputLength) then Some(Planned(primary, o)) else None
  }

  method NewLayout(primary: seq<byte>, o: Options) returns (r: Option<Layout>)
    ensures r == LayoutOf(primary, o)
  {
    var count := 8 + (if o.icc.Some? then 1 else 0) + 2 * (if o.alpha.Some? then 1 else 0);
    var pixel := AlignFour(8 + (2 + count * 12 + 4));
    var cursor := pixel + |o.guid|;
    var iccOffset: Option<nat> := None;
    if o.icc.Some? {
      cursor := AlignFour(cursor);
      iccOffset := Some(cursor);
      cursor := cursor + |o.icc.value|;
    }
    var image := AlignFour(cursor);
    cursor := image + |primary|;
    var alphaOffset: Option<nat> := None;
    if o.alpha.Some? {
      cursor := AlignFour(cursor);
      alphaOffset := Some(cursor);
      cursor := cursor + |o.alpha.value|;
    }
    if !IsU32(|primary|) || (o.icc.Some? && !IsU32(|o.icc.value|)) || (o.alpha.Some? && !IsU32(|o.alpha.value|)) || !IsU32(cursor) {
      return None;
    }
    return Some(Layout(count, pixel, iccOffset, image, alphaOffset, cursor));
  }

  // ---- The file ----

  predicate WordsFit(e: Entry) {
    IsU16(e.tag) && IsU16(e.elementType) && IsU32(e.count) && IsU32(e.value)
  }

  function EntryBytes(e: Entry): (b: seq<byte>)
    requires WordsFit(e)
    ensures |b| == 12
  {
    Le16(e.tag) + Le16(e.elementType) + Le32(e.count) + Le32(e.value)
  }

  function ProfileEntries(o: Options, l: Layout): seq<Entry> {
    if o.icc.Some? && l.iccOffset.Some? then [Entry(TAG_ICC_PROFILE, TYPE_UNDEFINED, |o.icc.value|, l.iccOffset.value)] else []
  }

  function ImageEntries(primary: seq<byte>, o: Options, l: Layout): seq<Entry> {
    [Entry(TAG_PIXEL_FORMAT, TYPE_BYTE, 16, l.pixelFormatOffset),
     Entry(TAG_TRANSFORMATION, TYPE_LONG, 1, OrientationCode(o.orientation)),
     Entry(TAG_IMAGE_WIDTH, TYPE_LONG, 1, o.width),
     Entry(TAG_IMAGE_HEIGHT, TYPE_LONG, 1, o.height),
     Entry(TAG_HORIZONTAL_RESOLUTION, TYPE_FLOAT, 1, o.horizontalDpi),
     Entry(TAG_VERTICAL_RESOLUTION, TYPE_FLOAT, 1, o.verticalDpi),
     Entry(TAG_IMAGE_OFFSET, TYPE_LONG, 1, l.primaryOffset),
     Entry(TAG_IMAGE_BYTE_COUNT, TYPE_LONG, 1, |primary|)]
  }

  function AlphaEntries(o: Options, l: Layout): seq<Entry> {
    if o.alpha.Some? && l.alphaOffset.Some?
    then [Entry(TAG_ALPHA_OFFSET, TYPE_LONG, 1, l.alphaOffset.value), Entry(TAG_ALPHA_BYTE_COUNT, TYPE_LONG, 1, |o.alpha.value|)]
    else []
  }

  /** The directory entries in tag order. */
  function Entries(primary: seq<byte>, o: Options, l: Layout): seq<Entry> {
    ProfileEntries(o, l) + ImageEntries(primary, o, l) + AlphaEntries(o, l)
  }

  /** The file header and the entry count. */
  function HeadBytes(count: nat): (b: seq<byte>)
    requires IsU16(count)
    ensures |b| == 10
  {
    MAGIC + Le32(8) + Le16(count)
  }

  predicate AllWordsFit(entries: seq<Entry>) {
    forall k :: 0 <= k < |entries| ==> WordsFit(entries[k])
  }

  function EntriesBytes(entries: seq<Entry>): (b: seq<byte>)
    requires AllWordsFit(entries)
    ensures |b| == 12 * |entries|
  {
    if entries == [] then [] else EntriesBytes(entries[..|entries| - 1]) + EntryBytes(entries[|entries| - 1])
  }

  function DirectoryBytes(entries: seq<Entry>): (b: seq<byte>)
    requires IsU16(|entries|) && AllWordsFit(entries)
    ensures |b| == 10 + 12 * |entries|
  {
    HeadBytes(|entries|) + EntriesBytes(entries)
  }

  /** Everything the payloads and offsets of a planned file satisfy. */
  lemma PlannedShape(primary: seq<byte>, o: Options)
    requires TypedOptions(o) && LayoutOf(primary, o).Some?
    ensures var l := LayoutOf(primary, o).value;
      && 10 + 12 * l.entryCount <= l.pixelFormatOffset
      && (o.icc.Some? <==> l.iccOffset.Some?) && (o.alpha.Some? <==> l.alphaOffset.Some?)
      && (o.icc.Some? ==> l.pixelFormatOffset + 16 <= l.iccOffset.value && l.iccOffset.value + |o.icc.value| <= l.primaryOffset)
      && l.pixelFormatOffset + 16 <= l.primaryOffset
      && (o.alpha.Some? ==> l.primaryOffset + |primary| <= l.alphaOffset.value
                            && l.alphaOffset.value + |o.alpha.value| == l.outputLength)
      && l.primaryOffset + |primary| <= l.outputLength && IsU32(l.outputLength)
      && l == Planned(primary, o) && l.entryCount == EntryCount(o)
  {}

  lemma EntriesFit(primary: seq<byte>, o: Options)
    requires TypedOptions(o) && LayoutOf(primary, o).Some?
    ensures var entries := Entries(primary, o, LayoutOf(primary, o).value);
      |entries| == EntryCount(o) <= 11 && Increasing(entries) && AllWordsFit(entries)
  {
    PlannedShape(primary, o);
    hide Planned, LayoutOf;
  }

  function PlaceOptional(buffer: seq<byte>, offset: Option<nat>, data: Option<seq<byte>>): (r: seq<byte>)
    requires offset.Some? && data.Some? ==> offset.value + |data.value| <= |buffer|
    ensures |r| == |buffer|
  {
    if offset.Some? && data.Some? then Place(buffer, offset.value, data.value) else buffer
  }

  /** The whole file: directory, pixel format, profile, codestream and alpha over zeros. */
  function Container(primary: seq<byte>, o: Options): (file: seq<byte>)
    requires TypedOptions(o) && LayoutOf(primary, o).Some?
    ensures |file| == LayoutOf(primary, o).value.outputLength
  {
    PlannedShape(primary, o);
    EntriesFit(primary, o);
    var l := LayoutOf(primary, o).value;
    var zeros := seq(l.outputLength, _ => 0 as byte);
    Payloads(Place(zeros, 0, DirectoryBytes(Entries(primary, o, l))), primary, o)
  }

  function Payloads(buffer: seq<byte>, primary: seq<byte>, o: Options): (r: seq<byte>)
    requires TypedOptions(o) && LayoutOf(primary, o).Some? && |buffer| == LayoutOf(primary, o).value.outputLength
    ensures |r| == |buffer|
  {
    PlannedShape(primary, o);
    var l := LayoutOf(primary, o).value;
    var pixel := Place(buffer, l.pixelFormatOffset, o.guid);
    var profile := PlaceOptional(pixel, l.iccOffset, o.icc);
    var image := Place(profile, l.primaryOffset, primary);
    PlaceOptional(image, l.alphaOffset, o.alpha)
  }

  /** The directory being written, entry by entry. */
  class DirectoryEntries {
    const output: array<byte>
    var offset: nat
    ghost const before: seq<byte>
    ghost const count: nat
    ghost var written: seq<Entry>

    ghost predicate Valid()
      reads this, output
    {
      && IsU16(count) && AllWordsFit(written) && |before| == output.Length
      && offset == 10 + 12 * |written| <= output.Length
      && output[..] == Place(before, 0, HeadBytes(count) + EntriesBytes(written))
    }

    constructor (output: array<byte>, ghost before: seq<byte>, ghost count: nat)
      requires IsU16(count) && |before| == output.Length >= 10
      requires output[..] == Place(before, 0, HeadBytes(count))
      ensures Valid() && written == [] && offset == 10
      ensures this.output == output && this.before == before && this.count == count
    {
      this.output := output;
      offset := 10;
      this.before := before;
      this.count := count;
      written := [];
      new;
      assert HeadBytes(count) + [] == HeadBytes(count);
    }

    method Push(tag: nat, elementType: nat, elements: nat, value: nat)
      requires Valid() && WordsFit(Entry(tag, elementType, elements, value)) && offset + 12 <= output.Length
      modifies this, output
      ensures Valid() && written == old(written) + [Entry(tag, elementType, elements, value)]
      ensures offset == old(offset) + 12
    {
      hide Le16, Le32, HeadBytes, Place, EntryBytes, EntriesBytes;
      ghost var entry := Entry(tag, elementType, elements, value);
      ghost var now := output[..];
      WriteAt(output, offset, Le16(tag));
      WriteAt(output, offset + 2, Le16(elementType));
      WriteAt(output, offset + 4, Le32(elements));
      WriteAt(output, offset + 8, Le32(value));
      EntryPlaced(before, count, written, entry, now);
      written := written + [entry];
      offset := offset + 12;
    }
  }

  lemma Finished(entries: DirectoryEntries)
    requires entries.Valid()
    ensures IsU16(entries.count) && AllWordsFit(entries.written) && |entries.before| == entries.output.Length
    ensures 10 + 12 * |entries.written| <= entries.output.Length
    ensures entries.output[..] == Place(entries.before, 0, HeadBytes(entries.count) + EntriesBytes(entries.written))
  {}

  /** Four scalar writes are one entry more. */
  lemma EntryPlaced(before: seq<byte>, count: nat, written: seq<Entry>, entry: Entry, now: seq<byte>)
    requires IsU16(count) && AllWordsFit(written) && WordsFit(entry) && 10 + 12 * |written| + 12 <= |before|
    requires now == Place(before, 0, HeadBytes(count) + EntriesBytes(written))
    ensures AllWordsFit(written + [entry])
    ensures var at := 10 + 12 * |written|;
      Place(Place(Place(Place(now, at, Le16(entry.tag)), at + 2, Le16(entry.elementType)), at + 4, Le32(entry.count)),
            at + 8, Le32(entry.value))
      == Place(before, 0, HeadBytes(count) + EntriesBytes(written + [entry]))
  {
    hide HeadBytes, Place, EntryBytes, EntriesBytes, Le16, Le32, AllWordsFit;
    var head, done := HeadBytes(count), EntriesBytes(written);
    EntriesNext(written, entry);
    EntryParts(entry);
    PlacedAfter(before, head + done, now, Le16(entry.tag), Le16(entry.elementType), Le32(entry.count), Le32(entry.value));
    Regrouped(head, done, EntryBytes(entry));
  }

  lemma PlacedAfter(before: seq<byte>, done: seq<byte>, now: seq<byte>, a: seq<byte>, b: seq<byte>, c: seq<byte>, d: seq<byte>)
    requires |a| == |b| == 2 && |c| == |d| == 4 && |done| + 12 <= |before| && now == Place(before, 0, done)
    ensures var at := |done|;
      Place(Place(Place(Place(now, at, a), at + 2, b), at + 4, c), at + 8, d) == Place(before, 0, done + (a + b + c + d))
  {
    hide Place;
    FourPlaced(now, |done|, a, b, c, d);
    PlaceNext(before, 0, done, a + b + c + d);
  }

  lemma EntriesNext(written: seq<Entry>, entry: Entry)
    requires AllWordsFit(written) && WordsFit(entry)
    ensures AllWordsFit(written + [entry])
    ensures EntriesBytes(written + [entry]) == EntriesBytes(written) + EntryBytes(entry)
  {
    hide EntryBytes;
    assert (written + [entry])[..|written|] == written;
  }

  lemma EntryParts(entry: Entry)
    requires WordsFit(entry)
    ensures EntryBytes(entry) == Le16(entry.tag) + Le16(entry.elementType) + Le32(entry.count) + Le32(entry.value)
  {}

  lemma Regrouped(a: seq<byte>, b: seq<byte>, c: seq<byte>)
    ensures a + (b + c) == a + b + c
  {}

  lemma FourPlaced(buffer: seq<byte>, offset: nat, a: seq<byte>, b: seq<byte>, c: seq<byte>, d: seq<byte>)
    requires |a| == |b| == 2 && |c| == |d| == 4 && offset + 12 <= |buffer|
    ensures Place(Place(Place(Place(buffer, offset, a), offset + 2, b), offset + 4, c), offset + 8, d)
      == Place(buffer, offset, a + b + c + d)
  {
    hide Place;
    PlaceNext(buffer, offset, a, b);
    PlaceNext(buffer, offset, a + b, c);
    PlaceNext(buffer, offset, a + b + c, d);
  }

  /** The entries every file has. */
  method PushImage(entries: DirectoryEntries, primary: seq<byte>, o: Options, l: Layout)
    requires entries.Valid() && entries.offset + 96 <= entries.output.Length
    requires TypedOptions(o) && IsU32(l.pixelFormatOffset) && IsU32(l.primaryOffset) && IsU32(|primary|)
    modifies entries, entries.output
    ensures entries.Valid() && entries.written == old(entries.written) + ImageEntries(primary, o, l)
    ensures entries.offset == old(entries.offset) + 96
  {
    hide DirectoryEntries.Valid;
    entries.Push(TAG_PIXEL_FORMAT, TYPE_BYTE, 16, l.pixelFormatOffset);
    entries.Push(TAG_TRANSFORMATION, TYPE_LONG, 1, OrientationCode(o.orientation));
    entries.Push(TAG_IMAGE_WIDTH, TYPE_LONG, 1, o.width);
    entries.Push(TAG_IMAGE_HEIGHT, TYPE_LONG, 1, o.height);
    entries.Push(TAG_HORIZONTAL_RESOLUTION, TYPE_FLOAT, 1, o.horizontalDpi);
    entries.Push(TAG_VERTICAL_RESOLUTION, TYPE_FLOAT, 1, o.verticalDpi);
    entries.Push(TAG_IMAGE_OFFSET, TYPE_LONG, 1, l.primaryOffset);
    entries.Push(TAG_IMAGE_BYTE_COUNT, TYPE_LONG, 1, |primary|);
    assert entries.written == old(entries.written) + ImageEntries(primary, o, l);
  }

  method WriteDirectory(output: array<byte>, primary: seq<byte>, o: Options, l: Layout)
    requires TypedOptions(o) && LayoutOf(primary, o) == Some(l) && output.Length == l.outputLength
    modifies output
    ensures |Entries(primary, o, l)| <= 11 && AllWordsFit(Entries(primary, o, l))
    ensures 10 + 12 * |Entries(primary, o, l)| <= output.Length
    ensures output[..] == Place(old(output[..]), 0, DirectoryBytes(Entries(primary, o, l)))
  {
    EntriesFit(primary, o);
    PlannedShape(primary, o);
    hide LayoutOf, Planned, Place, Le16, Le32, HeadBytes, EntriesBytes, DirectoryEntries.Valid, AllWordsFit, ImageEntries;
    ghost var before := output[..];
    WriteAt(output, 0, MAGIC);
    WriteAt(output, 4, Le32(8));
    WriteAt(output, 8, Le16(l.entryCount));
    HeadPlaced(before, l.entryCount);
    var entries := new DirectoryEntries(output, before, l.entryCount);
    if o.icc.Some? {
      entries.Push(TAG_ICC_PROFILE, TYPE_UNDEFINED, |o.icc.value|, l.iccOffset.value);
    }
    assert entries.written == ProfileEntries(o, l);
    PushImage(entries, primary, o, l);
    if o.alpha.Some? {
      entries.Push(TAG_ALPHA_OFFSET, TYPE_LONG, 1, l.alphaOffset.value);
      entries.Push(TAG_ALPHA_BYTE_COUNT, TYPE_LONG, 1, |o.alpha.value|);
    }
    assert entries.written == Entries(primary, o, l);
    Finished(entries);
  }

  lemma HeadPlaced(buffer: seq<byte>, count: nat)
    requires IsU16(count) && |buffer| >= 10
    ensures Place(Place(Place(buffer, 0, MAGIC), 4, Le32(8)), 8, Le16(count)) == Place(buffer, 0, HeadBytes(count))
  {
    hide Place, Le16, Le32;
    PlaceNext(buffer, 0, MAGIC, Le32(8));
    PlaceNext(buffer, 0, MAGIC + Le32(8), Le16(count));
  }

  method WritePayloads(output: array<byte>, primary: seq<byte>, o: Options, l: Layout)
    requires TypedOptions(o) && LayoutOf(primary, o) == Some(l) && output.Length == l.outputLength
    modifies output
    ensures output[..] == Payloads(old(output[..]), primary, o)
  {
    PlannedShape(primary, o);
    hide LayoutOf, Planned, Place;
    WriteAt(output, l.pixelFormatOffset, o.guid);
    if o.icc.Some? {
      WriteAt(output, l.iccOffset.value, o.icc.value);
    }
    WriteAt(output, l.primaryOffset, primary);
    if o.alpha.Some? {
      WriteAt(output, l.alphaOffset.value, o.alpha.value);
    }
  }

  /** The writer, up to its check of the finished file. */
  method WriteAnnexA(primary: seq<byte>, o: Options) returns (r: Option<array<byte>>)
    requires TypedOptions(o)
    ensures r.Some? <==> ValidOptions(primary, o) && LayoutOf(primary, o).Some?
    ensures r.Some? ==> fresh(r.value) && r.value[..] == Container(primary, o)
  {
    hide LayoutOf, Place, DirectoryBytes, Payloads, Entries;
    if !ValidOptions(primary, o) {
      return None;
    }
    var layout := NewLayout(primary, o);
    if layout.None? {
      return None;
    }
    var output := new byte[layout.value.outputLength](_ => 0);
    assert output[..] == seq(layout.value.outputLength, _ => 0 as byte);
    WriteDirectory(output, primary, o, layout.value);
    WritePayloads(output, primary, o, layout.value);
    return Some(output);
  }
}
