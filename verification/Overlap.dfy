/**
 Overlap scheduling: the work lists that cover the tile regions of a plane, in the order the planner
 emits them. Every builder is a loop proved against the list it builds, as a function of its inputs.
 */
module Overlap {
  import opened Wrappers
  import opened Words

  /** One work record: first index, second index or stride, kind (the reserved word is always zero). */
  datatype Work = Work(first: nat, second: nat, kind: nat)

  /** A rectangle of samples, right and bottom excluded. */
  datatype Region = Region(left: nat, right: nat, top: nat, bottom: nat)

  /** Where a plane lies in the sample buffer. */
  datatype Layout = Layout(offset: nat, stride: nat)

  datatype Schedule = Schedule(prefix: seq<Work>, filters: seq<Work>, suffix: seq<Work>)

  /** One filter placed in plane coordinates. */
  datatype Tile =
    | Block(x: nat, y: nat)
    | Column(x: nat, y: nat)
    | Row(x: nat, y: nat)
    | Corner(x: nat, y: nat)
    | Square(x: nat, y: nat)
    | Upright(x: nat, y: nat)
    | Level(x: nat, y: nat)
    | Residual(x: nat, y: nat, source: nat)
    | Restore(x: nat, y: nat, source: nat)

  function Index(at: Layout, x: nat, y: nat): nat {
    at.offset + y * at.stride + x
  }

  /** An index that the device's 32-bit words can hold. */
  function Absolute(at: Layout, x: nat, y: nat): Option<nat> {
    if Index(at, x, y) <= U32_MAX then Some(Index(at, x, y)) else None
  }

  function Encode(at: Layout, t: Tile): Option<Work> {
    var first :- Absolute(at, t.x, t.y);
    match t
    case Block(_, _) => Some(Work(first, at.stride, 0))
    case Column(_, _) => Some(Work(first, at.stride, 1))
    case Row(_, _) => Some(Work(first, 1, 1))
    case Corner(_, _) => Some(Work(first, at.stride, 2))
    case Square(_, _) => Some(Work(first, at.stride, 3))
    case Upright(x, y) => var second :- Absolute(at, x, y + 1); Some(Work(first, second, 4))
    case Level(x, y) => var second :- Absolute(at, x + 1, y); Some(Work(first, second, 4))
    case Residual(_, y, source) => var second :- Absolute(at, source, y); Some(Work(first, second, 5))
    case Restore(_, y, source) => var second :- Absolute(at, source, y); Some(Work(first, second, 6))
  }

  /** The records of a list of tiles, or `None` when one of them has no 32-bit index. */
  function EncodeAll(at: Layout, tiles: seq<Tile>): (r: Option<seq<Work>>)
    ensures r.Some? ==> |r.value| == |tiles|
  {
    if forall k :: 0 <= k < |tiles| ==> Encode(at, tiles[k]).Some?
    then Some(seq(|tiles|, k requires 0 <= k < |tiles| && Encode(at, tiles[k]).Some? => Encode(at, tiles[k]).value))
    else None
  }

  // ---- Full schedule ----

  function Interior(r: Region, x: nat, y: nat): seq<Tile>
    decreases r.bottom - y, r.right - x
  {
    if y + 2 >= r.bottom then []
    else if x + 2 < r.right then [Block(x, y)] + Interior(r, x + 4, y)
    else Interior(r, r.left + 2, y + 4)
  }

  function SideColumns(r: Region, y: nat): seq<Tile>
    requires r.right >= 2
    decreases r.bottom - y
  {
    if y + 2 >= r.bottom then []
    else [Column(r.left, y), Column(r.left + 1, y), Column(r.right - 2, y), Column(r.right - 1, y)] + SideColumns(r, y + 4)
  }

  function SideRows(r: Region, x: nat): seq<Tile>
    requires r.bottom >= 2
    decreases r.right - x
  {
    if x + 2 >= r.right then []
    else [Row(x, r.top), Row(x, r.top + 1), Row(x, r.bottom - 2), Row(x, r.bottom - 1)] + SideRows(r, x + 4)
  }

  function Corners(r: Region): seq<Tile>
    requires r.right >= 2 && r.bottom >= 2
  {
    [Corner(r.left, r.top), Corner(r.right - 2, r.top), Corner(r.left, r.bottom - 2), Corner(r.right - 2, r.bottom - 2)]
  }

  function FullTiles(r: Region): seq<Tile>
    requires r.right >= 2 && r.bottom >= 2
  {
    Interior(r, r.left + 2, r.top + 2) + SideColumns(r, r.top + 2) + SideRows(r, r.left + 2) + Corners(r)
  }

  predicate LargeEnough(regions: seq<Region>) {
    forall k :: 0 <= k < |regions| ==> regions[k].right >= 2 && regions[k].bottom >= 2
  }

  function AllFullTiles(regions: seq<Region>): seq<Tile>
    requires LargeEnough(regions)
  {
    if regions == [] then [] else FullTiles(regions[0]) + AllFullTiles(regions[1..])
  }

  function FullSchedule(at: Layout, regions: seq<Region>): Option<Schedule>
    requires LargeEnough(regions)
  {
    var filters :- EncodeAll(at, AllFullTiles(regions));
    Some(Schedule([], filters, []))
  }

  /** The work list under construction: what has been pushed is the head of the list still to come. */
  ghost predicate Building(at: Layout, filters: seq<Work>, done: seq<Tile>, rest: seq<Tile>, all: seq<Tile>) {
    EncodeAll(at, done) == Some(filters) && done + rest == all
  }

  /** Pushes the records of `tiles`; on an index beyond 32 bits the whole schedule is refused. */
  method Push(at: Layout, filters: seq<Work>, tiles: seq<Tile>,
              ghost done: seq<Tile>, ghost rest: seq<Tile>, ghost all: seq<Tile>)
    returns (r: Option<seq<Work>>)
    requires Building(at, filters, done, tiles + rest, all)
    ensures r.Some? ==> Building(at, r.value, done + tiles, rest, all)
    ensures r.None? ==> EncodeAll(at, all).None?
  {
    hide Encode;
    var out := filters;
    for k := 0 to |tiles|
      invariant |out| == |done| + k
      invariant forall i :: 0 <= i < |done| + k ==> Encode(at, all[i]) == Some(out[i])
    {
      assert all[|done| + k] == tiles[k];
      var w :- Encode(at, tiles[k]);
      out := out + [w];
    }
    assert all == done + tiles + rest;
    forall i | 0 <= i < |done + tiles|
      ensures Encode(at, (done + tiles)[i]) == Some(out[i])
    {
      assert (done + tiles)[i] == all[i];
    }
    assert EncodeAll(at, done + tiles).value == out;
    return Some(out);
  }

  lemma BuildingEnd(at: Layout, filters: seq<Work>, sofar: seq<Tile>, done: seq<Tile>, part: seq<Tile>,
                    rest: seq<Tile>, all: seq<Tile>)
    requires Building(at, filters, sofar, [] + rest, all)
    requires exists start :: Building(at, start, done, part + rest, all)
    ensures Building(at, filters, done + part, rest, all)
  {
    assert done + part + rest == all;
    assert [] + rest == rest;
    assert sofar == all[..|all| - |rest|] == done + part;
  }

  lemma InteriorStep(region: Region, x: nat, y: nat, rest: seq<Tile>)
    requires y + 2 < region.bottom && x + 2 < region.right
    ensures Interior(region, x, y) + rest == [Block(x, y)] + (Interior(region, x + 4, y) + rest)
  {}

  lemma InteriorRow(region: Region, x: nat, y: nat)
    requires y + 2 < region.bottom && x + 2 >= region.right
    ensures Interior(region, x, y) == Interior(region, region.left + 2, y + 4)
  {}

  lemma InteriorEnd(region: Region, x: nat, y: nat)
    requires y + 2 >= region.bottom
    ensures Interior(region, x, y) == []
  {}

  method PushInterior(at: Layout, region: Region, filters: seq<Work>,
                      ghost done: seq<Tile>, ghost rest: seq<Tile>, ghost all: seq<Tile>)
    returns (r: Option<seq<Work>>)
    requires Building(at, filters, done, Interior(region, region.left + 2, region.top + 2) + rest, all)
    ensures r.Some? ==> Building(at, r.value, done + Interior(region, region.left + 2, region.top + 2), rest, all)
    ensures r.None? ==> EncodeAll(at, all).None?
  {
    hide EncodeAll, Building, Interior;
    var out := filters;
    ghost var sofar := done;
    var y := region.top + 2;
    while y + 2 < region.bottom
      invariant Building(at, out, sofar, Interior(region, region.left + 2, y) + rest, all)
    {
      var x := region.left + 2;
      while x + 2 < region.right
        invariant Building(at, out, sofar, Interior(region, x, y) + rest, all)
      {
        InteriorStep(region, x, y, rest);
        out :- Push(at, out, [Block(x, y)], sofar, Interior(region, x + 4, y) + rest, all);
        sofar := sofar + [Block(x, y)];
        x := x + 4;
      }
      InteriorRow(region, x, y);
      y := y + 4;
    }
    InteriorEnd(region, region.left + 2, y);
    BuildingEnd(at, out, sofar, done, Interior(region, region.left + 2, region.top + 2), rest, all);
    return Some(out);
  }

  method PushSideColumns(at: Layout, region: Region, filters: seq<Work>,
                         ghost done: seq<Tile>, ghost rest: seq<Tile>, ghost all: seq<Tile>)
    returns (r: Option<seq<Work>>)
    requires region.right >= 2
    requires Building(at, filters, done, SideColumns(region, region.top + 2) + rest, all)
    ensures r.Some? ==> Building(at, r.value, done + SideColumns(region, region.top + 2), rest, all)
    ensures r.None? ==> EncodeAll(at, all).None?
  {
    hide EncodeAll, Building;
    var out := filters;
    ghost var sofar := done;
    var y := region.top + 2;
    while y + 2 < region.bottom
      invariant Building(at, out, sofar, SideColumns(region, y) + rest, all)
    {
      var four := [Column(region.left, y), Column(region.left + 1, y),
                   Column(region.right - 2, y), Column(region.right - 1, y)];
      assert SideColumns(region, y) + rest == four + (SideColumns(region, y + 4) + rest);
      out :- Push(at, out, four, sofar, SideColumns(region, y + 4) + rest, all);
      sofar := sofar + four;
      y := y + 4;
    }
    BuildingEnd(at, out, sofar, done, SideColumns(region, region.top + 2), rest, all);
    return Some(out);
  }

  method PushSideRows(at: Layout, region: Region, filters: seq<Work>,
                      ghost done: seq<Tile>, ghost rest: seq<Tile>, ghost all: seq<Tile>)
    returns (r: Option<seq<Work>>)
    requires region.bottom >= 2
    requires Building(at, filters, done, SideRows(region, region.left + 2) + rest, all)
    ensures r.Some? ==> Building(at, r.value, done + SideRows(region, region.left + 2), rest, all)
    ensures r.None? ==> EncodeAll(at, all).None?
  {
    hide EncodeAll, Building;
    var out := filters;
    ghost var sofar := done;
    var x := region.left + 2;
    while x + 2 < region.right
      invariant Building(at, out, sofar, SideRows(region, x) + rest, all)
    {
      var four := [Row(x, region.top), Row(x, region.top + 1), Row(x, region.bottom - 2), Row(x, region.bottom - 1)];
      assert SideRows(region, x) + rest == four + (SideRows(region, x + 4) + rest);
      out :- Push(at, out, four, sofar, SideRows(region, x + 4) + rest, all);
      sofar := sofar + four;
      x := x + 4;
    }
    BuildingEnd(at, out, sofar, done, SideRows(region, region.left + 2), rest, all);
    return Some(out);
  }

  method PushFullRegion(at: Layout, region: Region, filters: seq<Work>,
                        ghost done: seq<Tile>, ghost rest: seq<Tile>, ghost all: seq<Tile>)
    returns (r: Option<seq<Work>>)
    requires region.right >= 2 && region.bottom >= 2
    requires Building(at, filters, done, FullTiles(region) + rest, all)
    ensures r.Some? ==> Building(at, r.value, done + FullTiles(region), rest, all)
    ensures r.None? ==> EncodeAll(at, all).None?
  {
    hide EncodeAll, Interior, SideColumns, SideRows, Corners;
    ghost var interior := Interior(region, region.left + 2, region.top + 2);
    ghost var columns := SideColumns(region, region.top + 2);
    ghost var rows := SideRows(region, region.left + 2);
    ghost var corners := Corners(region);
    assert FullTiles(region) + rest == interior + (columns + (rows + (corners + rest)));
    var out :- PushInterior(at, region, filters, done, columns + (rows + (corners + rest)), all);
    out :- PushSideColumns(at, region, out, done + interior, rows + (corners + rest), all);
    out :- PushSideRows(at, region, out, done + interior + columns, corners + rest, all);
    out :- Push(at, out, Corners(region), done + interior + columns + rows, rest, all);
    assert done + interior + columns + rows + corners == done + FullTiles(region);
    return Some(out);
  }

  method BuildFullSchedule(at: Layout, regions: seq<Region>) returns (r: Option<Schedule>)
    requires LargeEnough(regions)
    ensures r == FullSchedule(at, regions)
  {
    hide EncodeAll, FullTiles;
    var filters: seq<Work> := [];
    ghost var done: seq<Tile> := [];
    ghost var all := AllFullTiles(regions);
    EncodeNothing(at);
    for k := 0 to |regions|
      invariant Building(at, filters, done, AllFullTiles(regions[k..]), all)
    {
      assert regions[k..][1..] == regions[k + 1..];
      filters :- PushFullRegion(at, regions[k], filters, done, AllFullTiles(regions[k + 1..]), all);
      done := done + FullTiles(regions[k]);
    }
    assert done + [] == done;
    return Some(Schedule([], filters, []));
  }

  lemma EncodeNothing(at: Layout)
    ensures EncodeAll(at, []) == Some([])
  {}

  // ---- Subsampled schedule ----

  function Squares(r: Region, x: nat, y: nat): seq<Tile>
    requires x >= 1 && y >= 1
    decreases r.bottom - y, r.right - x
  {
    if y >= r.bottom then []
    else if x < r.right then [Square(x - 1, y - 1)] + Squares(r, x + 2, y)
    else Squares(r, r.left + 2, y + 2)
  }

  function Uprights(r: Region, y: nat): seq<Tile>
    requires y >= 1 && r.right >= 1
    decreases r.bottom - y
  {
    if y >= r.bottom then []
    else [Upright(r.left, y - 1), Upright(r.right - 1, y - 1)] + Uprights(r, y + 2)
  }

  function Levels(r: Region, x: nat): seq<Tile>
    requires x >= 1 && r.bottom >= 1
    decreases r.right - x
  {
    if x >= r.right then []
    else [Level(x - 1, r.top), Level(x - 1, r.bottom - 1)] + Levels(r, x + 2)
  }

  function SubsampledTiles(r: Region): seq<Tile>
    requires r.right >= 1 && r.bottom >= 1
  {
    Squares(r, r.left + 2, r.top + 2) + Uprights(r, r.top + 2) + Levels(r, r.left + 2)
  }

  /** The corner samples, each paired with its horizontal neighbour. */
  function Residuals(r: Region): seq<Tile>
    requires r.right >= 2 && r.bottom >= 1
  {
    [Residual(r.left, r.top, r.left + 1), Residual(r.right - 1, r.top, r.right - 2),
     Residual(r.left, r.bottom - 1, r.left + 1), Residual(r.right - 1, r.bottom - 1, r.right - 2)]
  }

  function Restores(r: Region): seq<Tile>
    requires r.right >= 2 && r.bottom >= 1
  {
    [Restore(r.left, r.top, r.left + 1), Restore(r.right - 1, r.top, r.right - 2),
     Restore(r.left, r.bottom - 1, r.left + 1), Restore(r.right - 1, r.bottom - 1, r.right - 2)]
  }

  function AllSubsampledTiles(regions: seq<Region>): seq<Tile>
    requires LargeEnough(regions)
  {
    if regions == [] then [] else SubsampledTiles(regions[0]) + AllSubsampledTiles(regions[1..])
  }

  function AllResiduals(regions: seq<Region>): seq<Tile>
    requires LargeEnough(regions)
  {
    if regions == [] then [] else Residuals(regions[0]) + AllResiduals(regions[1..])
  }

  function AllRestores(regions: seq<Region>): seq<Tile>
    requires LargeEnough(regions)
  {
    if regions == [] then [] else Restores(regions[0]) + AllRestores(regions[1..])
  }

  function SubsampledSchedule(at: Layout, regions: seq<Region>): Option<Schedule>
    requires LargeEnough(regions)
  {
    var prefix :- EncodeAll(at, AllResiduals(regions));
    var filters :- EncodeAll(at, AllSubsampledTiles(regions));
    var suffix :- EncodeAll(at, AllRestores(regions));
    Some(Schedule(prefix, filters, suffix))
  }

  method PushSubsampledRegion(at: Layout, region: Region, filters: seq<Work>,
                              ghost done: seq<Tile>, ghost rest: seq<Tile>, ghost all: seq<Tile>)
    returns (r: Option<seq<Work>>)
    requires region.right >= 1 && region.bottom >= 1
    requires Building(at, filters, done, SubsampledTiles(region) + rest, all)
    ensures r.Some? ==> Building(at, r.value, done + SubsampledTiles(region), rest, all)
    ensures r.None? ==> EncodeAll(at, all).None?
  {
    hide EncodeAll, Building, Squares, Uprights, Levels;
    ghost var uprights, levels := Uprights(region, region.top + 2), Levels(region, region.left + 2);
    ghost var squares := Squares(region, region.left + 2, region.top + 2);
    assert SubsampledTiles(region) + rest == squares + (uprights + (levels + rest));
    var out :- PushSquares(at, region, filters, done, uprights + (levels + rest), all);
    out :- PushSides(at, region, out, done + squares, rest, all);
    assert done + squares + uprights + levels == done + SubsampledTiles(region);
    return Some(out);
  }

  method PushSquares(at: Layout, region: Region, filters: seq<Work>,
                     ghost done: seq<Tile>, ghost rest: seq<Tile>, ghost all: seq<Tile>)
    returns (r: Option<seq<Work>>)
    requires Building(at, filters, done, Squares(region, region.left + 2, region.top + 2) + rest, all)
    ensures r.Some? ==> Building(at, r.value, done + Squares(region, region.left + 2, region.top + 2), rest, all)
    ensures r.None? ==> EncodeAll(at, all).None?
  {
    hide EncodeAll, Building;
    var out := filters;
    ghost var sofar := done;
    var y := region.top + 2;
    while y < region.bottom
      invariant y >= 1
      invariant Building(at, out, sofar, Squares(region, region.left + 2, y) + rest, all)
    {
      var x := region.left + 2;
      while x < region.right
        invariant x >= 1
        invariant Building(at, out, sofar, Squares(region, x, y) + rest, all)
      {
        assert Squares(region, x, y) + rest == [Square(x - 1, y - 1)] + (Squares(region, x + 2, y) + rest);
        out :- Push(at, out, [Square(x - 1, y - 1)], sofar, Squares(region, x + 2, y) + rest, all);
        sofar := sofar + [Square(x - 1, y - 1)];
        x := x + 2;
      }
      y := y + 2;
    }
    BuildingEnd(at, out, sofar, done, Squares(region, region.left + 2, region.top + 2), rest, all);
    return Some(out);
  }

  method PushSides(at: Layout, region: Region, filters: seq<Work>,
                   ghost done: seq<Tile>, ghost rest: seq<Tile>, ghost all: seq<Tile>)
    returns (r: Option<seq<Work>>)
    requires region.right >= 1 && region.bottom >= 1
    requires Building(at, filters, done, Uprights(region, region.top + 2) + (Levels(region, region.left + 2) + rest), all)
    ensures r.Some? ==>
      Building(at, r.value, done + Uprights(region, region.top + 2) + Levels(region, region.left + 2), rest, all)
    ensures r.None? ==> EncodeAll(at, all).None?
  {
    hide EncodeAll, Building;
    var out := filters;
    ghost var sofar := done;
    ghost var uprights, levels := Uprights(region, region.top + 2), Levels(region, region.left + 2);
    var y := region.top + 2;
    while y < region.bottom
      invariant y >= 1
      invariant Building(at, out, sofar, Uprights(region, y) + (levels + rest), all)
    {
      var two := [Upright(region.left, y - 1), Upright(region.right - 1, y - 1)];
      assert Uprights(region, y) + (levels + rest) == two + (Uprights(region, y + 2) + (levels + rest));
      out :- Push(at, out, two, sofar, Uprights(region, y + 2) + (levels + rest), all);
      sofar := sofar + two;
      y := y + 2;
    }
    BuildingEnd(at, out, sofar, done, uprights, levels + rest, all);
    sofar := done + uprights;
    var x := region.left + 2;
    while x < region.right
      invariant x >= 1
      invariant Building(at, out, sofar, Levels(region, x) + rest, all)
    {
      var two := [Level(x - 1, region.top), Level(x - 1, region.bottom - 1)];
      assert Levels(region, x) + rest == two + (Levels(region, x + 2) + rest);
      out :- Push(at, out, two, sofar, Levels(region, x + 2) + rest, all);
      sofar := sofar + two;
      x := x + 2;
    }
    BuildingEnd(at, out, sofar, done + uprights, levels, rest, all);
    return Some(out);
  }

  method BuildSubsampledSchedule(at: Layout, regions: seq<Region>) returns (r: Option<Schedule>)
    requires LargeEnough(regions)
    ensures r == SubsampledSchedule(at, regions)
  {
    hide EncodeAll, SubsampledTiles, Residuals, Restores;
    var prefix: seq<Work>, filters: seq<Work>, suffix: seq<Work> := [], [], [];
    ghost var corners: seq<Tile>, tiles: seq<Tile>, restored: seq<Tile> := [], [], [];
    EncodeNothing(at);
    for k := 0 to |regions|
      invariant Building(at, prefix, corners, AllResiduals(regions[k..]), AllResiduals(regions))
      invariant Building(at, filters, tiles, AllSubsampledTiles(regions[k..]), AllSubsampledTiles(regions))
      invariant Building(at, suffix, restored, AllRestores(regions[k..]), AllRestores(regions))
    {
      assert regions[k..][1..] == regions[k + 1..];
      ghost var later := regions[k + 1..];
      prefix :- Push(at, prefix, Residuals(regions[k]), corners, AllResiduals(later), AllResiduals(regions));
      filters :- PushSubsampledRegion(at, regions[k], filters, tiles, AllSubsampledTiles(later), AllSubsampledTiles(regions));
      suffix :- Push(at, suffix, Restores(regions[k]), restored, AllRestores(later), AllRestores(regions));
      corners := corners + Residuals(regions[k]);
      tiles := tiles + SubsampledTiles(regions[k]);
      restored := restored + Restores(regions[k]);
    }
    assert corners + [] == corners && tiles + [] == tiles && restored + [] == restored;
    return Some(Schedule(prefix, filters, suffix));
  }
}
