/** What the writer writes, byte for byte: the fields with their types, the places of the payloads, and zeros between. */
module AnnexAFile {
  import opened Wrappers
  import opened Bytes
  import opened AnnexA
  import opened AnnexAWriter
  import opened AnnexARoundTrip
  import Fields = AnnexAFields

  // ---- What is accepted ----

  /** A codestream with its own header: the letters of its signature and a zero. */
  predicate Signed(bytes: seq<byte>) {
    && |bytes| >= 8 && bytes[0] == 0x57 && bytes[1] == 0x4D && bytes[2] == 0x50 && bytes[3] == 0x48
    && bytes[4] == 0x4F && bytes[5] == 0x54 && bytes[6] == 0x4F && bytes[7] == 0
  }

  lemma SignedExactly(bytes: seq<byte>)
    ensures RawCodestream(bytes) <==> Signed(bytes)
  {
    if |bytes| >= 8 {
      var b := bytes[..8];
      assert b[0] == bytes[0] && b[1] == bytes[1] && b[2] == bytes[2] && b[3] == bytes[3];
      assert b[4] == bytes[4] && b[5] == bytes[5] && b[6] == bytes[6] && b[7] == bytes[7];
      if Signed(bytes) {
        assert b == SIGNATURE;
      }
    }
  }

  /** A single-precision word without its sign bit, not zero, and with an exponent field that is not full. */
  predicate PositiveNumber(word: nat) {
    word % 0x8000_0000 != 0 && word / 0x8000_0000 == 0 && word / 0x80_0000 != 0xFF
  }

  /**
   The writer's own conditions: signed codestreams, a profile that is not empty, and resolutions that are positive
   finite numbers.
   */
  lemma OptionsExactly(primary: seq<byte>, o: Options)
    requires TypedOptions(o)
    ensures ValidOptions(primary, o) <==> (
      && Signed(primary) && PositiveNumber(o.horizontalDpi) && PositiveNumber(o.verticalDpi)
      && (o.icc.Some? ==> |o.icc.value| > 0) && (o.alpha.Some? ==> Signed(o.alpha.value)))
  {
    SignedExactly(primary);
    if o.alpha.Some? {
      SignedExactly(o.alpha.value);
    }
    hide RawCodestream, Signed;
  }

  // ---- Fields ----

  /** The directory has an entry of this tag, element type and count whose value word is `value`. */
  ghost predicate Field(file: seq<byte>, tag: nat, kind: nat, count: nat, value: nat)
    requires Fields.Container(file)
  {
    exists k: nat :: Fields.Tagged(file, k, tag) && Fields.Typed(file, Fields.EntryPlace(file, k), kind, count) &&
      U32At(file, Fields.EntryPlace(file, k) + 8) == value
  }

  /** How many entries a file has: eight, one for a profile, two for alpha. */
  function EntryNumber(o: Options): nat {
    (if o.icc.Some? then 9 else 8) + if o.alpha.Some? then 2 else 0
  }

  /** Every entry of a file, with its element type. */
  ghost predicate FieldsWritten(file: seq<byte>, primary: seq<byte>, o: Options, l: Layout)
    requires Fields.Container(file)
  {
    && U32At(file, 4) == 8 && U16At(file, 8) == EntryNumber(o)
    && Field(file, 0xBC01, 1, 16, l.pixelFormatOffset) && Field(file, 0xBC02, 4, 1, OrientationCode(o.orientation))
    && Field(file, 0xBC80, 4, 1, o.width) && Field(file, 0xBC81, 4, 1, o.height)
    && Field(file, 0xBC82, 11, 1, o.horizontalDpi) && Field(file, 0xBC83, 11, 1, o.verticalDpi)
    && Field(file, 0xBCC0, 4, 1, l.primaryOffset) && Field(file, 0xBCC1, 4, 1, |primary|)
    && (o.icc.Some? ==> l.iccOffset.Some? && Field(file, 0x8773, 7, |o.icc.value|, l.iccOffset.value))
    && (o.alpha.Some? ==>
          l.alphaOffset.Some? && Field(file, 0xBCC2, 4, 1, l.alphaOffset.value) && Field(file, 0xBCC3, 4, 1, |o.alpha.value|))
  }

  lemma FieldFound(file: seq<byte>, tag: nat, e: Entry)
    requires Fields.Container(file) && Find(Fields.Entries(file), tag) == Some(e)
    ensures Field(file, tag, e.elementType, e.count, e.value)
  {
    hide U16At, U32At, Find, Fields.Entries;
    Fields.FoundEntry(file, tag);
    var k: nat :| Fields.Tagged(file, k, tag);
    assert e == EntryAt(file, Fields.EntryPlace(file, k));
  }

  /** The parser's directory of a written file is the writer's list of entries. */
  lemma SameEntries(primary: seq<byte>, o: Options, l: Layout)
    requires TypedOptions(o) && ValidOptions(primary, o) && LayoutOf(primary, o) == Some(l)
    ensures var file := Container(primary, o);
      && Fields.Container(file) && U32At(file, 4) == 8 && U16At(file, 8) == EntryNumber(o)
      && Fields.Entries(file) == Entries(primary, o, l)
  {
    hide Container, LayoutOf, Planned, Entries, DirectoryBytes, ValidOptions, AllWordsFit, Increasing, Faithful, Parsed;
    hide U16At, U32At, EntryAt;
    var file, entries := Container(primary, o), Entries(primary, o, l);
    RoundTrip(primary, o);
    Fields.OnlyContainers(file);
    ContainerSlices(primary, o, l);
    EntriesFit(primary, o);
    DirectoryRead(file, entries);
    hide Fields.Container, BuildImage;
    assert EntriesAt(file, 10, U16At(file, 8)) == entries;
  }

  lemma WrittenField(primary: seq<byte>, o: Options, l: Layout, j: nat)
    requires TypedOptions(o) && ValidOptions(primary, o) && LayoutOf(primary, o) == Some(l) && j < 8
    ensures |ImageEntries(primary, o, l)| == 8 && Fields.Container(Container(primary, o))
    ensures var e := ImageEntries(primary, o, l)[j]; Field(Container(primary, o), e.tag, e.elementType, e.count, e.value)
  {
    SameEntries(primary, o, l);
    EntriesFit(primary, o);
    hide Container, LayoutOf, Planned, Fields.Container, Fields.Entries, Field, Entries, ImageEntries, Find, Increasing,
         ValidOptions, AllWordsFit;
    FindImage(primary, o, l, j);
    FieldFound(Container(primary, o), ImageEntries(primary, o, l)[j].tag, ImageEntries(primary, o, l)[j]);
  }

  lemma ImageWords(primary: seq<byte>, o: Options, l: Layout)
    ensures |ImageEntries(primary, o, l)| == 8
    ensures var e := ImageEntries(primary, o, l);
      && e[0] == Entry(0xBC01, 1, 16, l.pixelFormatOffset) && e[1] == Entry(0xBC02, 4, 1, OrientationCode(o.orientation))
      && e[2] == Entry(0xBC80, 4, 1, o.width) && e[3] == Entry(0xBC81, 4, 1, o.height)
      && e[4] == Entry(0xBC82, 11, 1, o.horizontalDpi) && e[5] == Entry(0xBC83, 11, 1, o.verticalDpi)
      && e[6] == Entry(0xBCC0, 4, 1, l.primaryOffset) && e[7] == Entry(0xBCC1, 4, 1, |primary|)
  {}

  /** Every entry that the writer pushes is in the file, and no other. */
  lemma WrittenFields(primary: seq<byte>, o: Options, l: Layout)
    requires TypedOptions(o) && ValidOptions(primary, o) && LayoutOf(primary, o) == Some(l)
    ensures Fields.Container(Container(primary, o)) && FieldsWritten(Container(primary, o), primary, o, l)
  {
    SameEntries(primary, o, l);
    OptionalFields(primary, o, l);
    ImageWords(primary, o, l);
    hide Container, LayoutOf, Fields.Container, Fields.Entries, Field, Entries, ImageEntries, ValidOptions;
    WrittenField(primary, o, l, 0);
    WrittenField(primary, o, l, 1);
    WrittenField(primary, o, l, 2);
    WrittenField(primary, o, l, 3);
    WrittenField(primary, o, l, 4);
    WrittenField(primary, o, l, 5);
    WrittenField(primary, o, l, 6);
    WrittenField(primary, o, l, 7);
  }

  lemma OptionalFields(primary: seq<byte>, o: Options, l: Layout)
    requires TypedOptions(o) && ValidOptions(primary, o) && LayoutOf(primary, o) == Some(l)
    ensures Fields.Container(Container(primary, o))
    ensures var file := Container(primary, o);
      && (o.icc.Some? ==> l.iccOffset.Some? && Field(file, 0x8773, 7, |o.icc.value|, l.iccOffset.value))
      && (o.alpha.Some? ==>
            l.alphaOffset.Some? && Field(file, 0xBCC2, 4, 1, l.alphaOffset.value) && Field(file, 0xBCC3, 4, 1, |o.alpha.value|))
  {
    SameEntries(primary, o, l);
    EntriesFit(primary, o);
    PlannedShape(primary, o);
    var file, entries := Container(primary, o), Entries(primary, o, l);
    hide Container, LayoutOf, Planned, Fields.Container, Fields.Entries, Field, Find, Increasing, ValidOptions, AllWordsFit,
         ImageEntries;
    if o.icc.Some? {
      FindSorted(entries, 0);
      FieldFound(file, 0x8773, entries[0]);
    }
    if o.alpha.Some? {
      FindSorted(entries, |entries| - 2);
      FindSorted(entries, |entries| - 1);
      FieldFound(file, 0xBCC2, entries[|entries| - 2]);
      FieldFound(file, 0xBCC3, entries[|entries| - 1]);
    }
  }

  // ---- Places ----

  /** The first multiple of four from a position on. */
  predicate NextFour(v: nat, from: nat) {
    from <= v < from + 4 && v % 4 == 0
  }

  /**
   After the directory and the zero that ends it come the pixel format, the profile, the codestream and the alpha
   codestream, each at the next multiple of four; the file ends with the last.
   */
  predicate Arranged(primary: seq<byte>, o: Options, l: Layout) {
    && NextFour(l.pixelFormatOffset, 8 + 2 + 12 * EntryNumber(o) + 4)
    && (o.icc.Some? <==> l.iccOffset.Some?) && (o.alpha.Some? <==> l.alphaOffset.Some?)
    && (o.icc.Some? ==> NextFour(l.iccOffset.value, l.pixelFormatOffset + 16))
    && NextFour(l.primaryOffset, if o.icc.Some? then l.iccOffset.value + |o.icc.value| else l.pixelFormatOffset + 16)
    && (o.alpha.Some? ==> NextFour(l.alphaOffset.value, l.primaryOffset + |primary|))
    && l.outputLength == if o.alpha.Some? then l.alphaOffset.value + |o.alpha.value| else l.primaryOffset + |primary|
  }

  /** A layout exists exactly when a file arranged like this has a 32-bit length, and then it is that arrangement. */
  lemma LayoutExactly(primary: seq<byte>, o: Options, l: Layout)
    requires TypedOptions(o)
    ensures LayoutOf(primary, o) == Some(l) <==>
      Arranged(primary, o, l) && l.entryCount == EntryNumber(o) && l.outputLength <= 0xFFFF_FFFF
  {
    PlannedArranged(primary, o);
    hide Planned;
    if Arranged(primary, o, l) && l.entryCount == EntryNumber(o) {
      ArrangedAlike(primary, o, Planned(primary, o), l);
    }
    hide Arranged;
  }

  lemma PlannedArranged(primary: seq<byte>, o: Options)
    requires TypedOptions(o)
    ensures Arranged(primary, o, Planned(primary, o)) && Planned(primary, o).entryCount == EntryNumber(o)
  {
    hide AlignFour;
  }

  lemma ArrangedAlike(primary: seq<byte>, o: Options, a: Layout, b: Layout)
    requires Arranged(primary, o, a) && Arranged(primary, o, b) && a.entryCount == b.entryCount
    ensures a == b
  {
    hide NextFour;
    SameFour(a.pixelFormatOffset, b.pixelFormatOffset, 8 + 2 + 12 * EntryNumber(o) + 4);
    if o.icc.Some? {
      SameFour(a.iccOffset.value, b.iccOffset.value, a.pixelFormatOffset + 16);
    }
    SameFour(a.primaryOffset, b.primaryOffset,
             if o.icc.Some? then a.iccOffset.value + |o.icc.value| else a.pixelFormatOffset + 16);
    if o.alpha.Some? {
      SameFour(a.alphaOffset.value, b.alphaOffset.value, a.primaryOffset + |primary|);
    }
  }

  lemma SameFour(v: nat, w: nat, from: nat)
    ensures NextFour(v, from) && NextFour(w, from) ==> v == w
  {}

  predicate Within(i: nat, from: nat, length: nat) {
    from <= i < from + length
  }

  /** A byte behind the entries that belongs to none of the payloads. */
  predicate Between(primary: seq<byte>, o: Options, l: Layout, i: nat)
    requires Arranged(primary, o, l)
  {
    && 10 + 12 * EntryNumber(o) <= i < l.outputLength
    && !Within(i, l.pixelFormatOffset, 16) && !Within(i, l.primaryOffset, |primary|)
    && (o.icc.Some? ==> !Within(i, l.iccOffset.value, |o.icc.value|))
    && (o.alpha.Some? ==> !Within(i, l.alphaOffset.value, |o.alpha.value|))
  }

  lemma OutsideKept(buffer: seq<byte>, offset: nat, data: seq<byte>, i: nat)
    requires offset + |data| <= |buffer| && i < |buffer| && !Within(i, offset, |data|)
    ensures Place(buffer, offset, data)[i] == buffer[i]
  {}

  lemma PaddingKept(buffer: seq<byte>, primary: seq<byte>, o: Options, l: Layout, i: nat)
    requires TypedOptions(o) && LayoutOf(primary, o) == Some(l) && |buffer| == l.outputLength
    requires Arranged(primary, o, l) && Between(primary, o, l, i)
    ensures Payloads(buffer, primary, o)[i] == buffer[i]
  {
    PlannedShape(primary, o);
    hide LayoutOf, Planned, Place, Arranged, Within;
    var pixel := Place(buffer, l.pixelFormatOffset, o.guid);
    var profile := PlaceOptional(pixel, l.iccOffset, o.icc);
    var image := Place(profile, l.primaryOffset, primary);
    OutsideKept(buffer, l.pixelFormatOffset, o.guid, i);
    OutsideKept(profile, l.primaryOffset, primary, i);
    if o.icc.Some? {
      OutsideKept(pixel, l.iccOffset.value, o.icc.value, i);
    }
    if o.alpha.Some? {
      OutsideKept(image, l.alphaOffset.value, o.alpha.value, i);
    }
  }

  /** The next directory's offset is zero, and so is all padding. */
  lemma PaddingZero(primary: seq<byte>, o: Options, l: Layout, i: nat)
    requires TypedOptions(o) && LayoutOf(primary, o) == Some(l) && Arranged(primary, o, l) && Between(primary, o, l, i)
    ensures Container(primary, o)[i] == 0
  {
    PlannedShape(primary, o);
    EntriesFit(primary, o);
    hide LayoutOf, Planned, Payloads, DirectoryBytes, Entries, Place, Arranged;
    var zeros := seq(l.outputLength, _ => 0 as byte);
    var directory := DirectoryBytes(Entries(primary, o, l));
    PaddingKept(Place(zeros, 0, directory), primary, o, l, i);
    OutsideKept(zeros, 0, directory, i);
  }

  /**
   The writer succeeds exactly on acceptable options whose arrangement fits 32 bits, and its file then has exactly these
   fields, these payloads at these places, and zeros everywhere else.
   */
  lemma FileExactly(primary: seq<byte>, o: Options, l: Layout)
    requires TypedOptions(o) && ValidOptions(primary, o)
    requires Arranged(primary, o, l) && l.entryCount == EntryNumber(o) && l.outputLength <= 0xFFFF_FFFF
    ensures LayoutOf(primary, o) == Some(l) && |Container(primary, o)| == l.outputLength
    ensures Fields.Container(Container(primary, o)) && FieldsWritten(Container(primary, o), primary, o, l)
    ensures SliceIs(Container(primary, o), l.pixelFormatOffset, o.guid)
    ensures SliceIs(Container(primary, o), l.primaryOffset, primary)
    ensures o.icc.Some? ==> SliceIs(Container(primary, o), l.iccOffset.value, o.icc.value)
    ensures o.alpha.Some? ==> SliceIs(Container(primary, o), l.alphaOffset.value, o.alpha.value)
    ensures forall i: nat :: Between(primary, o, l, i) ==> Container(primary, o)[i] == 0
  {
    LayoutExactly(primary, o, l);
    hide LayoutOf, Container, Fields.Container, FieldsWritten, ValidOptions, Arranged, AllWordsFit, Increasing;
    WrittenFields(primary, o, l);
    ContainerSlices(primary, o, l);
    forall i: nat | Between(primary, o, l, i)
      ensures Container(primary, o)[i] == 0
    {
      PaddingZero(primary, o, l, i);
    }
  }
}
