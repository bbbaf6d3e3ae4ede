/**
 Packet ranges of the tile index: in spatial mode each tile's packet runs from its own start to the next
 larger start, whatever order the index lists them in.
 */
module Packets {
  import opened Wrappers
  import opened Words
  import opened Recency

  datatype ByteRange = ByteRange(offset: nat, length: nat)

  function NewRange(offset: nat, length: nat, inputLength: nat): Option<ByteRange> {
    if offset + length > USIZE_MAX || offset + length > inputLength then None else Some(ByteRange(offset, length))
  }

  predicate InRange(r: ByteRange, position: nat) {
    r.offset <= position < r.offset + r.length
  }

  // ---- Sorting and deduplication ----

  ghost predicate StrictlyIncreasing(s: seq<nat>) {
    forall j, k :: 0 <= j < k < |s| ==> s[j] < s[k]
  }

  function Insert(s: seq<nat>, x: nat): (r: seq<nat>)
    ensures forall v :: v in r <==> v == x || v in s
  {
    if s == [] then [x]
    else if x < s[0] then [x] + s
    else if x == s[0] then s
    else [s[0]] + Insert(s[1..], x)
  }

  lemma {:induction false} InsertIncreasing(s: seq<nat>, x: nat)
    requires StrictlyIncreasing(s)
    ensures StrictlyIncreasing(Insert(s, x))
  {
    if s != [] && x > s[0] {
      InsertIncreasing(s[1..], x);
      var rest := Insert(s[1..], x);
      forall k | 0 <= k < |rest|
        ensures s[0] < rest[k]
      {
        assert rest[k] in rest;
      }
    }
  }

  /** The distinct starts in increasing order. */
  function Physical(starts: seq<nat>): (r: seq<nat>)
    ensures forall v :: v in r <==> v in starts
  {
    if starts == [] then [] else Insert(Physical(starts[1..]), starts[0])
  }

  lemma {:induction false} PhysicalIncreasing(starts: seq<nat>)
    ensures StrictlyIncreasing(Physical(starts))
  {
    if starts != [] {
      PhysicalIncreasing(starts[1..]);
      InsertIncreasing(Physical(starts[1..]), starts[0]);
    }
  }

  // ---- Where a packet ends ----

  /** The smallest listed start beyond `start`. */
  function Following(starts: seq<nat>, start: nat): (r: Option<nat>)
    ensures r.Some? ==> r.value in starts && r.value > start && forall v :: v in starts && v > start ==> r.value <= v
    ensures r.None? ==> forall v :: v in starts ==> v <= start
  {
    if starts == [] then None
    else
      var rest := Following(starts[1..], start);
      assert forall v :: v in starts <==> v == starts[0] || v in starts[1..];
      if starts[0] > start && (rest.None? || starts[0] < rest.value) then Some(starts[0]) else rest
  }

  function PacketEnd(starts: seq<nat>, start: nat, end: nat): nat {
    match Following(starts, start)
    case None => end
    case Some(next) => next
  }

  /** In the sorted list the following start is the next entry. */
  lemma NextEntry(starts: seq<nat>, k: nat)
    requires k < |Physical(starts)|
    ensures var physical := Physical(starts);
      Following(starts, physical[k]) == if k + 1 < |physical| then Some(physical[k + 1]) else None
  {
    var physical := Physical(starts);
    PhysicalIncreasing(starts);
    var start := physical[k];
    forall v | v in starts && v > start
      ensures k + 1 < |physical| && physical[k + 1] <= v
    {
      assert v in physical;
      var j :| 0 <= j < |physical| && physical[j] == v;
      assert j > k;
    }
    if k + 1 < |physical| {
      assert physical[k + 1] in physical;
    }
  }

  function Starts(base: nat, offsets: seq<nat>, bands: nat, tiles: nat): (starts: seq<nat>)
    requires bands * tiles <= |offsets| && bands > 0
    ensures |starts| == tiles
  {
    seq(tiles, t requires 0 <= t < tiles =>
      assert t * bands < |offsets| by { assert (t + 1) * bands <= tiles * bands; }
      base + offsets[t * bands])
  }

  function SpatialRanges(starts: seq<nat>, end: nat): (ranges: seq<ByteRange>)
    requires forall t :: 0 <= t < |starts| ==> starts[t] <= end
    ensures |ranges| == |starts|
    ensures forall t :: 0 <= t < |starts| ==>
      ranges[t].offset == starts[t] && ranges[t].offset + ranges[t].length == PacketEnd(starts, starts[t], end)
  {
    seq(|starts|, t requires 0 <= t < |starts| =>
      assert PacketEnd(starts, starts[t], end) >= starts[t];
      ByteRange(starts[t], PacketEnd(starts, starts[t], end) - starts[t]))
  }

  /** The packet ranges of an index, or `None` for an empty or ragged index and for packets beyond the end. */
  function PacketRanges(base: nat, end: nat, offsets: seq<nat>, tiles: nat, frequencyMode: bool): Option<seq<ByteRange>> {
    if tiles == 0 || |offsets| / tiles == 0 || |offsets| / tiles * tiles != |offsets| then None
    else if frequencyMode then
      if base <= end then Some(seq(tiles, t => ByteRange(base, end - base))) else None
    else
      var starts := Starts(base, offsets, |offsets| / tiles, tiles);
      if forall t :: 0 <= t < tiles ==> starts[t] <= end then Some(SpatialRanges(starts, end)) else None
  }

  method SortDistinct(starts: seq<nat>) returns (physical: seq<nat>)
    ensures physical == Physical(starts)
  {
    physical := [];
    for k := |starts| downto 0
      invariant physical == Physical(starts[k..])
    {
      assert starts[k..][0] == starts[k] && starts[k..][1..] == starts[k + 1..];
      physical := Insert(physical, starts[k]);
    }
    assert starts[0..] == starts;
  }

  lemma StartAt(base: nat, offsets: seq<nat>, bands: nat, tiles: nat, t: nat)
    requires bands > 0 && bands * tiles <= |offsets| && t < tiles
    ensures t * bands < |offsets| && Starts(base, offsets, bands, tiles)[t] == base + offsets[t * bands]
  {
    assert (t + 1) * bands <= tiles * bands;
  }

  method CollectStarts(base: nat, offsets: seq<nat>, bands: nat, tiles: nat) returns (r: Option<seq<nat>>)
    requires bands > 0 && bands * tiles == |offsets|
    ensures r == if forall t :: 0 <= t < tiles ==> Starts(base, offsets, bands, tiles)[t] <= USIZE_MAX
                 then Some(Starts(base, offsets, bands, tiles)) else None
  {
    hide Starts;
    ghost var all := Starts(base, offsets, bands, tiles);
    var starts: seq<nat> := [];
    for tile := 0 to tiles
      invariant starts == all[..tile]
      invariant forall t :: 0 <= t < tile ==> all[t] <= USIZE_MAX
    {
      StartAt(base, offsets, bands, tiles, tile);
      var start := base + offsets[tile * bands];
      if start > USIZE_MAX {
        return None;
      }
      starts := starts + [start];
    }
    assert all[..tiles] == all;
    return Some(starts);
  }

  /** The range of one packet, found through the sorted starts. */
  method PacketRange(physical: seq<nat>, start: nat, codestreamEnd: nat, ghost starts: seq<nat>) returns (r: Option<ByteRange>)
    requires physical == Physical(starts) && start in starts && codestreamEnd <= USIZE_MAX
    requires forall v :: v in starts ==> v <= USIZE_MAX
    ensures r == if start <= codestreamEnd && PacketEnd(starts, start, codestreamEnd) <= codestreamEnd
                 then Some(ByteRange(start, PacketEnd(starts, start, codestreamEnd) - start)) else None
  {
    var position := IndexOf(physical, start).value;
    NextEntry(starts, position);
    var end := if position + 1 < |physical| then physical[position + 1] else codestreamEnd;
    if end < start {
      return None;
    }
    r := NewRange(start, end - start, codestreamEnd);
  }

  method CollectRanges(starts: seq<nat>, codestreamEnd: nat) returns (r: Option<seq<ByteRange>>)
    requires codestreamEnd <= USIZE_MAX && forall v :: v in starts ==> v <= USIZE_MAX
    ensures r == if forall t :: 0 <= t < |starts| ==> starts[t] <= codestreamEnd
                 then Some(SpatialRanges(starts, codestreamEnd)) else None
  {
    hide Physical, PacketEnd, SpatialRanges;
    var physical := SortDistinct(starts);
    var ranges: seq<ByteRange> := [];
    for t := 0 to |starts|
      invariant |ranges| == t
      invariant forall k :: 0 <= k < t ==> starts[k] <= codestreamEnd
      invariant forall k :: 0 <= k < t ==> ranges[k].offset == starts[k]
      invariant forall k :: 0 <= k < t ==> ranges[k].offset + ranges[k].length == PacketEnd(starts, starts[k], codestreamEnd)
    {
      EndBeyond(starts, starts[t], codestreamEnd);
      var range := PacketRange(physical, starts[t], codestreamEnd, starts);
      if range.None? {
        Rejected(starts, t, codestreamEnd);
        return None;
      }
      ranges := ranges + [range.value];
    }
    assert ranges == SpatialRanges(starts, codestreamEnd);
    return Some(ranges);
  }

  lemma EndBeyond(starts: seq<nat>, start: nat, end: nat)
    ensures start <= end ==> PacketEnd(starts, start, end) >= start
  {}

  lemma Rejected(starts: seq<nat>, t: nat, end: nat)
    requires t < |starts| && (starts[t] > end || PacketEnd(starts, starts[t], end) > end)
    ensures exists k :: 0 <= k < |starts| && starts[k] > end
  {
    if starts[t] <= end {
      var next := PacketEnd(starts, starts[t], end);
      assert next in starts;
    }
  }

  method IndexedTilePacketRanges(base: nat, codestreamEnd: nat, offsets: seq<nat>, tileCount: nat, frequencyMode: bool)
    returns (r: Option<seq<ByteRange>>)
    requires codestreamEnd <= USIZE_MAX
    ensures r == PacketRanges(base, codestreamEnd, offsets, tileCount, frequencyMode)
  {
    if tileCount == 0 {
      return None;
    }
    var bands := |offsets| / tileCount;
    if bands == 0 || bands * tileCount != |offsets| {
      return None;
    }
    if frequencyMode {
      var range :- NewRange(base, if codestreamEnd >= base then codestreamEnd - base else 0, codestreamEnd);
      return Some(seq(tileCount, t => range));
    }
    hide Starts, SpatialRanges;
    var starts := CollectStarts(base, offsets, bands, tileCount);
    if starts.None? {
      return None;
    }
    r := CollectRanges(starts.value, codestreamEnd);
  }

  // ---- What the ranges of a spatial index are ----

  /** Tiles listed at the same start share one range; ranges of different starts do not overlap. */
  lemma RangesSharedOrApart(starts: seq<nat>, end: nat, s: nat, t: nat)
    requires (forall k :: 0 <= k < |starts| ==> starts[k] <= end) && s < |starts| && t < |starts|
    ensures var ranges := SpatialRanges(starts, end);
      && (starts[s] == starts[t] ==> ranges[s] == ranges[t])
      && (starts[s] < starts[t] ==> ranges[s].offset + ranges[s].length <= ranges[t].offset)
  {
    var ranges := SpatialRanges(starts, end);
    if starts[s] < starts[t] {
      assert starts[t] in starts;
    }
  }

  function Smallest(starts: seq<nat>): (m: nat)
    requires starts != []
    ensures m in starts && forall v :: v in starts ==> m <= v
  {
    if |starts| == 1 then starts[0]
    else
      var rest := Smallest(starts[1..]);
      assert forall v :: v in starts <==> v == starts[0] || v in starts[1..];
      if starts[0] < rest then starts[0] else rest
  }

  /** The ranges together hold exactly the bytes from the smallest start to the end of the codestream. */
  lemma RangesCover(starts: seq<nat>, end: nat, position: nat)
    requires (forall k :: 0 <= k < |starts| ==> starts[k] <= end) && starts != []
    ensures var ranges := SpatialRanges(starts, end);
      (exists t :: 0 <= t < |ranges| && InRange(ranges[t], position)) <==> Smallest(starts) <= position < end
  {
    var ranges := SpatialRanges(starts, end);
    forall t | 0 <= t < |ranges| && InRange(ranges[t], position)
      ensures Smallest(starts) <= position < end
    {
      InsideEnd(starts, end, t);
      assert starts[t] in starts;
    }
    if Smallest(starts) <= position < end {
      var start := LastStart(starts, position);
      var t :| 0 <= t < |starts| && starts[t] == start;
      assert InRange(ranges[t], position);
    }
  }

  lemma InsideEnd(starts: seq<nat>, end: nat, t: nat)
    requires (forall k :: 0 <= k < |starts| ==> starts[k] <= end) && t < |starts|
    ensures PacketEnd(starts, starts[t], end) <= end
  {}

  /** The largest start not beyond a position. */
  lemma LastStart(starts: seq<nat>, position: nat) returns (start: nat)
    requires exists v :: v in starts && v <= position
    ensures start in starts && start <= position
    ensures Following(starts, start).Some? ==> Following(starts, start).value > position
  {
    start := Largest(starts, position);
  }

  lemma {:induction false} Largest(starts: seq<nat>, position: nat) returns (start: nat)
    requires exists v :: v in starts && v <= position
    ensures start in starts && start <= position && forall v :: v in starts && v <= position ==> v <= start
  {
    assert forall v :: v in starts <==> v == starts[0] || v in starts[1..];
    if exists v :: v in starts[1..] && v <= position {
      var rest := Largest(starts[1..], position);
      start := if starts[0] <= position && starts[0] > rest then starts[0] else rest;
    } else {
      start := starts[0];
    }
  }

  // ---- Which index gives which ranges ----

  /** Where a tile's first packet starts: the first of its `bands` entries, counted from the base. */
  ghost predicate StartsAt(base: nat, offsets: seq<nat>, bands: nat, tile: nat, start: nat) {
    bands * tile < |offsets| && start == base + offsets[bands * tile]
  }

  /** Some tile starts at `start`. */
  ghost predicate Started(base: nat, offsets: seq<nat>, bands: nat, tiles: nat, start: nat) {
    exists t: nat :: t < tiles && StartsAt(base, offsets, bands, t, start)
  }

  /** A range from its tile's start to the next larger start of any tile, or to the end of the codestream. */
  ghost predicate SpatialRange(base: nat, end: nat, offsets: seq<nat>, bands: nat, tiles: nat, tile: nat, r: ByteRange) {
    && StartsAt(base, offsets, bands, tile, r.offset) && r.offset + r.length <= end
    && (r.offset + r.length == end || (r.length > 0 && Started(base, offsets, bands, tiles, r.offset + r.length)))
    && forall v: nat :: Started(base, offsets, bands, tiles, v) ==> !(r.offset < v < r.offset + r.length)
  }

  lemma StartListed(base: nat, offsets: seq<nat>, bands: nat, tiles: nat, t: nat, v: nat)
    requires bands > 0 && bands * tiles == |offsets| && t < tiles
    ensures StartsAt(base, offsets, bands, t, v) <==> Starts(base, offsets, bands, tiles)[t] == v
  {
    StartAt(base, offsets, bands, tiles, t);
  }

  lemma StartedListed(base: nat, offsets: seq<nat>, bands: nat, tiles: nat, v: nat)
    requires bands > 0 && bands * tiles == |offsets|
    ensures Started(base, offsets, bands, tiles, v) <==> v in Starts(base, offsets, bands, tiles)
  {
    var starts := Starts(base, offsets, bands, tiles);
    hide Starts, StartsAt;
    forall t: nat | t < tiles
      ensures StartsAt(base, offsets, bands, t, v) <==> starts[t] == v
    {
      StartListed(base, offsets, bands, tiles, t, v);
    }
  }

  /** The end of a packet: the next listed start, or the end of the codestream. */
  lemma EndExactly(starts: seq<nat>, start: nat, end: nat, stop: nat)
    requires start <= end && forall v :: v in starts ==> v <= end
    ensures PacketEnd(starts, start, end) == stop <==> (
      && start <= stop <= end && (stop == end || (stop > start && stop in starts))
      && forall v :: v in starts ==> !(start < v < stop))
  {
    var next := Following(starts, start);
    hide Following;
    if next.Some? {
      assert next.value in starts && start < next.value <= end;
    }
  }

  /** The range in terms of the collected starts. */
  ghost predicate RunsToNext(starts: seq<nat>, end: nat, r: ByteRange) {
    && r.offset + r.length <= end
    && (r.offset + r.length == end || (r.length > 0 && r.offset + r.length in starts))
    && forall v :: v in starts ==> !(r.offset < v < r.offset + r.length)
  }

  lemma SpatialStarts(base: nat, end: nat, offsets: seq<nat>, bands: nat, tiles: nat, t: nat, r: ByteRange)
    requires bands > 0 && bands * tiles == |offsets| && t < tiles
    ensures var starts := Starts(base, offsets, bands, tiles);
      SpatialRange(base, end, offsets, bands, tiles, t, r) <==> starts[t] == r.offset && RunsToNext(starts, end, r)
  {
    var starts := Starts(base, offsets, bands, tiles);
    StartListed(base, offsets, bands, tiles, t, r.offset);
    forall v: nat
      ensures Started(base, offsets, bands, tiles, v) <==> v in starts
    {
      StartedListed(base, offsets, bands, tiles, v);
    }
    hide Starts, StartsAt, Started;
  }

  lemma SpatialExactly(base: nat, end: nat, offsets: seq<nat>, bands: nat, tiles: nat, t: nat, r: ByteRange)
    requires bands > 0 && bands * tiles == |offsets| && t < tiles
    requires var starts := Starts(base, offsets, bands, tiles); forall k :: 0 <= k < tiles ==> starts[k] <= end
    ensures SpatialRange(base, end, offsets, bands, tiles, t, r) <==>
      SpatialRanges(Starts(base, offsets, bands, tiles), end)[t] == r
  {
    SpatialStarts(base, end, offsets, bands, tiles, t, r);
    hide Starts, SpatialRange, SpatialRanges, PacketEnd;
    var starts := Starts(base, offsets, bands, tiles);
    if starts[t] == r.offset {
      EndExactly(starts, r.offset, end, r.offset + r.length);
    }
  }

  /** The index's shape: the same positive number of entries for every tile. */
  ghost predicate Regular(offsets: seq<nat>, tiles: nat, bands: nat) {
    tiles > 0 && bands > 0 && bands * tiles == |offsets|
  }

  lemma SpatialListed(base: nat, end: nat, offsets: seq<nat>, bands: nat, tiles: nat, ranges: seq<ByteRange>)
    requires Regular(offsets, tiles, bands) && |ranges| == tiles
    ensures (forall t: nat :: t < tiles ==> SpatialRange(base, end, offsets, bands, tiles, t, ranges[t])) <==> (
      && (forall t :: 0 <= t < tiles ==> Starts(base, offsets, bands, tiles)[t] <= end)
      && SpatialRanges(Starts(base, offsets, bands, tiles), end) == ranges)
  {
    var starts := Starts(base, offsets, bands, tiles);
    hide Starts, SpatialRanges;
    if forall t: nat :: t < tiles ==> SpatialRange(base, end, offsets, bands, tiles, t, ranges[t]) {
      forall t | 0 <= t < tiles
        ensures starts[t] <= end
      {
        StartListed(base, offsets, bands, tiles, t, ranges[t].offset);
      }
    }
    hide SpatialRange;
    if forall t :: 0 <= t < tiles ==> starts[t] <= end {
      forall t: nat | t < tiles
        ensures SpatialRange(base, end, offsets, bands, tiles, t, ranges[t]) <==> SpatialRanges(starts, end)[t] == ranges[t]
      {
        SpatialExactly(base, end, offsets, bands, tiles, t, ranges[t]);
      }
    }
  }

  lemma WholeListed(base: nat, end: nat, tiles: nat, ranges: seq<ByteRange>)
    requires tiles > 0 && |ranges| == tiles
    ensures (forall t: nat :: t < tiles ==> ranges[t].offset == base && base + ranges[t].length == end) <==>
      base <= end && ranges == seq(tiles, t => ByteRange(base, end - base))
  {
    if base <= end {
      var whole := seq(tiles, t => ByteRange(base, end - base));
      assert ranges == whole <==> forall t: nat :: t < tiles ==> ranges[t] == whole[t];
    } else {
      assert ranges[0].offset == base && base + ranges[0].length == end ==> base <= end;
    }
  }

  /**
   An index is accepted with these ranges exactly when it lists equally many entries for every tile and, in frequency
   mode, every range is the whole codestream, in spatial mode each tile's range is the one its first entry starts.
   */
  lemma RangesExactly(base: nat, end: nat, offsets: seq<nat>, tiles: nat, frequencyMode: bool, bands: nat, ranges: seq<ByteRange>)
    requires tiles > 0 ==> bands == |offsets| / tiles
    ensures PacketRanges(base, end, offsets, tiles, frequencyMode) == Some(ranges) <==> (
      && Regular(offsets, tiles, bands) && |ranges| == tiles
      && forall t: nat :: t < tiles ==>
           if frequencyMode then ranges[t].offset == base && base + ranges[t].length == end
           else SpatialRange(base, end, offsets, bands, tiles, t, ranges[t]))
  {
    hide Starts, SpatialRanges, SpatialRange;
    if Regular(offsets, tiles, bands) && |ranges| == tiles {
      if frequencyMode {
        WholeListed(base, end, tiles, ranges);
      } else {
        SpatialListed(base, end, offsets, bands, tiles, ranges);
      }
    }
  }
}
