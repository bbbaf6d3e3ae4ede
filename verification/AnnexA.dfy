/** The Annex A tag container: the parser of its first image file directory. */
module AnnexA {
  import opened Wrappers
  import opened Words
  import opened Bytes

  const TAG_ICC_PROFILE: nat := 0x8773
  const TAG_PIXEL_FORMAT: nat := 0xBC01
  const TAG_TRANSFORMATION: nat := 0xBC02
  const TAG_IMAGE_WIDTH: nat := 0xBC80
  const TAG_IMAGE_HEIGHT: nat := 0xBC81
  const TAG_HORIZONTAL_RESOLUTION: nat := 0xBC82
  const TAG_VERTICAL_RESOLUTION: nat := 0xBC83
  const TAG_IMAGE_OFFSET: nat := 0xBCC0
  const TAG_IMAGE_BYTE_COUNT: nat := 0xBCC1
  const TAG_ALPHA_OFFSET: nat := 0xBCC2
  const TAG_ALPHA_BYTE_COUNT: nat := 0xBCC3

  const MAGIC: seq<byte> := [0x49, 0x49, 0xBC, 1]

  datatype Entry = Entry(tag: nat, elementType: nat, count: nat, value: nat)

  datatype Span = Span(start: nat, end: nat)

  datatype Image = Image(width: nat, height: nat, guid: seq<byte>, codestream: Span, alpha: Option<Span>,
                         transformation: Option<nat>, dpi: Option<(nat, nat)>, icc: Option<Span>)

  function CheckedRange(size: nat, offset: nat, length: nat): (r: Option<Span>)
    ensures r.Some? ==> r.value.start <= r.value.end <= size
  {
    if offset + length > USIZE_MAX || offset + length > size then None else Some(Span(offset, offset + length))
  }

  /** A codestream range; an even length may count one pad byte that is not there. */
  function CheckedCodestreamRange(size: nat, offset: nat, length: nat): (r: Option<Span>)
    ensures r.Some? ==> r.value.start <= r.value.end <= size
  {
    if CheckedRange(size, offset, length).Some? then CheckedRange(size, offset, length)
    else if offset + length <= USIZE_MAX && length % 2 == 0 && offset <= size && size - offset + 1 == length
    then Some(Span(offset, size))
    else None
  }

  // ---- The directory ----

  function EntryAt(bytes: seq<byte>, offset: nat): Entry
    requires offset + 12 <= |bytes|
  {
    Entry(U16At(bytes, offset), U16At(bytes, offset + 2), U32At(bytes, offset + 4), U32At(bytes, offset + 8))
  }

  function EntriesAt(bytes: seq<byte>, start: nat, count: nat): (entries: seq<Entry>)
    requires start + count * 12 <= |bytes|
    ensures |entries| == count && forall k :: 0 <= k < count ==> entries[k] == EntryAt(bytes, start + k * 12)
  {
    seq(count, k requires 0 <= k < count => EntryAt(bytes, start + k * 12))
  }

  /** Tags must increase from entry to entry. */
  predicate Increasing(entries: seq<Entry>) {
    forall k :: 0 <= k < |entries| - 1 ==> entries[k].tag < entries[k + 1].tag
  }

  function Directory(bytes: seq<byte>, offset: nat): Option<seq<Entry>> {
    if offset + 2 > |bytes| then None
    else
      var count := U16At(bytes, offset);
      if count == 0 || offset + 2 + count * 12 > |bytes| then None
      else if Increasing(EntriesAt(bytes, offset + 2, count)) then Some(EntriesAt(bytes, offset + 2, count))
      else None
  }

  method ParseDirectory(bytes: seq<byte>, offset: nat) returns (r: Option<seq<Entry>>)
    requires |bytes| <= USIZE_MAX
    ensures r == Directory(bytes, offset)
  {
    if offset + 2 > |bytes| {
      return None;
    }
    var count := U16At(bytes, offset);
    if count == 0 {
      return None;
    }
    var start := offset + 2;
    var range := CheckedRange(|bytes|, start, count * 12);
    if range.None? {
      return None;
    }
    ghost var all := EntriesAt(bytes, start, count);
    var entries: seq<Entry> := [];
    var previous: Option<nat> := None;
    for index := 0 to count
      invariant entries == all[..index]
      invariant previous == if index == 0 then None else Some(all[index - 1].tag)
      invariant forall k :: 0 <= k < index - 1 ==> all[k].tag < all[k + 1].tag
    {
      hide U16At, U32At;
      var entry := EntryAt(bytes, start + index * 12);
      if previous.Some? && entry.tag <= previous.value {
        assert !(all[index - 1].tag < all[index - 1 + 1].tag);
        return None;
      }
      previous := Some(entry.tag);
      entries := entries + [entry];
    }
    assert all[..count] == all;
    return Some(entries);
  }

  // ---- Fields ----

  function Find(entries: seq<Entry>, tag: nat): (r: Option<Entry>)
    ensures r.Some? ==> r.value in entries && r.value.tag == tag
    ensures r.None? ==> forall k :: 0 <= k < |entries| ==> entries[k].tag != tag
  {
    if entries == [] then None
    else if entries[0].tag == tag then Some(entries[0])
    else Find(entries[1..], tag)
  }

  function ScalarValue(entry: Entry): Option<nat> {
    if entry.count != 1 then None
    else if entry.elementType == 1 then Some(entry.value % 0x100)
    else if entry.elementType == 3 then Some(entry.value % 0x1_0000)
    else if entry.elementType == 4 then Some(entry.value)
    else None
  }

  function RequiredScalar(entries: seq<Entry>, tag: nat): Option<nat> {
    var entry :- Find(entries, tag);
    ScalarValue(entry)
  }

  /** An optional field: absent, or a scalar that must be well formed. */
  datatype Field<T> = Absent | Present(value: T) | Malformed

  function OptionalScalar(entries: seq<Entry>, tag: nat): Field<nat> {
    match Find(entries, tag)
    case None => Absent
    case Some(entry) => match ScalarValue(entry) case None => Malformed case Some(v) => Present(v)
  }

  function Resolution(entries: seq<Entry>): Field<(nat, nat)> {
    match (Find(entries, TAG_HORIZONTAL_RESOLUTION), Find(entries, TAG_VERTICAL_RESOLUTION))
    case (None, None) => Absent
    case (Some(h), Some(v)) =>
      if h.elementType == 11 && h.count == 1 && v.elementType == 11 && v.count == 1
      then Present((h.value, v.value)) else Malformed
    case _ => Malformed
  }

  function ElementSize(elementType: nat): Option<nat> {
    if elementType in {1, 2, 6, 7} then Some(1)
    else if elementType in {3, 8} then Some(2)
    else if elementType in {4, 9, 11} then Some(4)
    else if elementType in {5, 10, 12} then Some(8)
    else None
  }

  function OptionalBlob(size: nat, entries: seq<Entry>, tag: nat): Field<Span> {
    match Find(entries, tag)
    case None => Absent
    case Some(entry) =>
      match ElementSize(entry.elementType)
      case None => Malformed
      case Some(element) =>
        match CheckedRange(size, entry.value, element * entry.count)
        case None => Malformed
        case Some(span) => Present(span)
  }

  function AlphaRange(size: nat, entries: seq<Entry>): Field<Span> {
    match (OptionalScalar(entries, TAG_ALPHA_OFFSET), OptionalScalar(entries, TAG_ALPHA_BYTE_COUNT))
    case (Absent, Absent) => Absent
    case (Present(offset), Present(count)) =>
      if offset == 0 && count == 0 then Absent
      else (match CheckedCodestreamRange(size, offset, count) case None => Malformed case Some(span) => Present(span))
    case _ => Malformed
  }

  function FieldOption<T>(f: Field<T>): Option<T>
    requires !f.Malformed?
  {
    if f.Absent? then None else Some(f.value)
  }

  predicate SpansMeet(a: Span, b: Span) {
    a.start < b.end && b.start < a.end
  }

  function PrimaryRange(size: nat, entries: seq<Entry>): Option<Span> {
    var offset :- RequiredScalar(entries, TAG_IMAGE_OFFSET);
    var count :- RequiredScalar(entries, TAG_IMAGE_BYTE_COUNT);
    if count != 0 then CheckedCodestreamRange(size, offset, count)
    else if size < offset then None
    else CheckedCodestreamRange(size, offset, size - offset)
  }

  function BuildImage(bytes: seq<byte>, entries: seq<Entry>): Option<Image> {
    var pixel :- Find(entries, TAG_PIXEL_FORMAT);
    if pixel.elementType != 1 || pixel.count != 16 then None
    else
      var guid :- CheckedRange(|bytes|, pixel.value, 16);
      var width :- RequiredScalar(entries, TAG_IMAGE_WIDTH);
      var height :- RequiredScalar(entries, TAG_IMAGE_HEIGHT);
      var codestream :- PrimaryRange(|bytes|, entries);
      var alpha := AlphaRange(|bytes|, entries);
      var transformation := OptionalScalar(entries, TAG_TRANSFORMATION);
      var dpi, icc := Resolution(entries), OptionalBlob(|bytes|, entries, TAG_ICC_PROFILE);
      if alpha.Malformed? || (alpha.Present? && SpansMeet(alpha.value, codestream))
         || transformation.Malformed? || dpi.Malformed? || icc.Malformed?
      then None
      else Some(Image(width, height, bytes[guid.start..guid.end], codestream, FieldOption(alpha),
                      FieldOption(transformation), FieldOption(dpi), FieldOption(icc)))
  }

  /** The first image of a container. */
  function Parsed(bytes: seq<byte>): Option<Image> {
    if |bytes| < 8 || bytes[..4] != MAGIC then None
    else
      var offset := U32At(bytes, 4);
      if offset % 2 != 0 then None
      else
        var entries :- Directory(bytes, offset);
        BuildImage(bytes, entries)
  }

  method ParseAnnexA(bytes: seq<byte>) returns (r: Option<Image>)
    requires |bytes| <= USIZE_MAX
    ensures r == Parsed(bytes)
  {
    hide Directory;
    if |bytes| < 8 || bytes[..4] != MAGIC {
      return None;
    }
    var offset := U32At(bytes, 4);
    if offset % 2 != 0 {
      return None;
    }
    var entries :- ParseDirectory(bytes, offset);
    return BuildImage(bytes, entries);
  }

  /** Every range of a parsed image lies inside the file, and the two codestreams do not overlap. */
  lemma ParsedRangesInside(bytes: seq<byte>)
    requires Parsed(bytes).Some?
    ensures var image := Parsed(bytes).value;
      && |image.guid| == 16
      && image.codestream.start <= image.codestream.end <= |bytes|
      && (image.alpha.Some? ==> image.alpha.value.start <= image.alpha.value.end <= |bytes|)
      && (image.alpha.Some? ==> !SpansMeet(image.alpha.value, image.codestream))
      && (image.icc.Some? ==> image.icc.value.start <= image.icc.value.end <= |bytes|)
  {
    hide Find, Directory;
  }
}
