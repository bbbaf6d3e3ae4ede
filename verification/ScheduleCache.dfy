/**
 The least-recently-used cache of uploaded plane-relative schedules. Its key leaves out the window's
 origin and the tile grid when tiling is soft, and the plane's position in the arenas always.
 */
module ScheduleCache {
  import opened Wrappers
  import opened Words
  import opened Overlap
  import opened Regions
  import opened Rebasing
  import opened Recency

  const RETAINED_SCHEDULES: nat := 64

  datatype HardTileKey = HardTileKey(originX: nat, originY: nat, tileColumns: seq<nat>, tileRows: seq<nat>)

  datatype Key = Key(pass: Pass, blockColumns: nat, blockRows: nat, macroblocksX: nat, macroblocksY: nat,
                     sampleWidth: nat, hardTiles: Option<HardTileKey>)

  /** An uploaded schedule and the largest relative index any of its records touches. */
  datatype Resident = Resident(schedule: Schedule, maxIndex: nat)

  /**
   A shared resident schedule. Holders of the same object are told apart from holders of an equal one by the
   number of the upload that made it: an object lives as long as anyone holds it, and no number is used twice.
   */
  datatype Shared = Shared(resident: Resident, number: nat)

  datatype Entry = Entry(key: Key, shared: Shared)

  function KeyOf(pass: Pass, p: Plane, hard: bool, tileColumns: seq<nat>, tileRows: seq<nat>): Key {
    Key(pass, p.blockColumns, p.blockRows, p.macroblocksX, p.macroblocksY, p.sampleWidth,
        if hard then Some(HardTileKey(p.originX, p.originY, tileColumns, tileRows)) else None)
  }

  /** Work counts are 32-bit words. */
  predicate Uploadable(s: Schedule) {
    |s.prefix| <= U32_MAX && |s.filters| <= U32_MAX && |s.suffix| <= U32_MAX
  }

  /** What a plane uploads when nothing is cached. */
  function Uploaded(pass: Pass, p: Plane, hard: bool, tileColumns: seq<nat>, tileRows: seq<nat>): Option<Resident>
    requires ValidPlane(p)
  {
    var s :- Planned(pass, AtZero(p), hard, tileColumns, tileRows);
    var top :- ScheduleMax(s);
    if Uploadable(s) then Some(Resident(s, top)) else None
  }

  function CheckedBase(r: Resident, base: nat): Option<nat> {
    if base <= U32_MAX && base + r.maxIndex <= U32_MAX then Some(base) else None
  }

  /** Two requests with the same key upload the same schedule. */
  lemma KeyDetermines(pass: Pass, p: Plane, hard: bool, columns: seq<nat>, rows: seq<nat>,
                      pass2: Pass, q: Plane, hard2: bool, columns2: seq<nat>, rows2: seq<nat>)
    requires ValidPlane(p) && ValidPlane(q)
    requires KeyOf(pass, p, hard, columns, rows) == KeyOf(pass2, q, hard2, columns2, rows2)
    ensures Uploaded(pass, p, hard, columns, rows) == Uploaded(pass2, q, hard2, columns2, rows2)
  {
    hide FullSchedule, SubsampledSchedule, ClippedAxis, ScaleFits, RegionGrid, ScheduleMax;
    assert Planned(pass, AtZero(p), hard, columns, rows) == Planned(pass2, AtZero(q), hard2, columns2, rows2);
  }

  // ---- The retained list ----

  function Position(entries: seq<Entry>, key: Key): (r: Option<nat>)
    ensures r.Some? ==> r.value < |entries| && entries[r.value].key == key
    ensures r.Some? ==> forall k :: 0 <= k < r.value ==> entries[k].key != key
    ensures r.None? ==> forall k :: 0 <= k < |entries| ==> entries[k].key != key
  {
    if entries == [] then None
    else if entries[0].key == key then Some(0)
    else
      var rest :- Position(entries[1..], key);
      Some(rest + 1)
  }

  /** The list after `entry` was used: at the back, in place of an older copy or of the oldest entry of a full list. */
  function Used(entries: seq<Entry>, entry: Entry): seq<Entry> {
    match Position(entries, entry.key)
    case Some(k) => entries[..k] + entries[k + 1..] + [entries[k]]
    case None => (if |entries| == RETAINED_SCHEDULES then entries[1..] else entries) + [entry]
  }

  ghost predicate DistinctKeys(entries: seq<Entry>) {
    forall j, k :: 0 <= j < k < |entries| ==> entries[j].key != entries[k].key
  }

  /** A request as the encoder makes it. */
  datatype Request = Request(pass: Pass, plane: Plane, hard: bool, tileColumns: seq<nat>, tileRows: seq<nat>)

  function RequestKey(q: Request): Key {
    KeyOf(q.pass, q.plane, q.hard, q.tileColumns, q.tileRows)
  }

  function Upload(q: Request): Option<Resident>
    requires ValidPlane(q.plane)
  {
    Uploaded(q.pass, q.plane, q.hard, q.tileColumns, q.tileRows)
  }

  /** The retained entries and the number of uploads made so far. */
  datatype Cache = Cache(entries: seq<Entry>, uploads: nat)

  /** The object a look-up hands out: the retained one, or a new upload. */
  function Answered(c: Cache, q: Request): Option<Shared>
    requires ValidPlane(q.plane)
  {
    var r :- Upload(q);
    match Position(c.entries, RequestKey(q))
    case Some(k) => Some(c.entries[k].shared)
    case None => Some(Shared(r, c.uploads))
  }

  /** The cache after a look-up. */
  function LookedUp(c: Cache, q: Request): Cache
    requires ValidPlane(q.plane)
  {
    match Upload(q)
    case None => c
    case Some(r) =>
      Cache(Used(c.entries, Entry(RequestKey(q), Shared(r, c.uploads))),
            if Position(c.entries, RequestKey(q)).Some? then c.uploads else c.uploads + 1)
  }

  /** An entry holds what any request with its key uploads. */
  ghost predicate Faithful(e: Entry) {
    forall q: Request :: ValidPlane(q.plane) && RequestKey(q) == e.key ==> Upload(q) == Some(e.shared.resident)
  }

  /** The object is the one made by the upload of its number. */
  ghost predicate MadeAs(shared: Shared, made: seq<Resident>) {
    shared.number < |made| && made[shared.number] == shared.resident
  }

  lemma UploadFaithful(q: Request, number: nat)
    requires ValidPlane(q.plane) && Upload(q).Some?
    ensures Faithful(Entry(RequestKey(q), Shared(Upload(q).value, number)))
  {
    hide Uploaded;
    forall r: Request | ValidPlane(r.plane) && RequestKey(r) == RequestKey(q)
      ensures Upload(r) == Upload(q)
    {
      KeyDetermines(r.pass, r.plane, r.hard, r.tileColumns, r.tileRows, q.pass, q.plane, q.hard, q.tileColumns, q.tileRows);
    }
  }

  class OverlapScheduleCache {
    var entries: seq<Entry>
    var uploads: nat
    ghost var made: seq<Resident>

    ghost predicate Valid()
      reads this
    {
      && |entries| <= RETAINED_SCHEDULES && DistinctKeys(entries) && |made| == uploads
      && forall k :: 0 <= k < |entries| ==> Faithful(entries[k]) && MadeAs(entries[k].shared, made)
    }

    function State(): Cache
      reads this
    {
      Cache(entries, uploads)
    }

    constructor ()
      ensures Valid() && State() == Cache([], 0)
    {
      entries, uploads, made := [], 0, [];
    }

    /**
     Whatever was asked for before, the answer is what a fresh upload would give, and an object handed out once
     is the same schedule ever after, evicted or not.
     */
    method GetOrUpload(q: Request) returns (r: Option<Shared>)
      requires Valid() && ValidPlane(q.plane)
      modifies this
      ensures Valid()
      ensures r.Some? <==> Upload(q).Some?
      ensures r.Some? ==> r.value.resident == Upload(q).value && MadeAs(r.value, made)
      ensures r == Answered(old(State()), q) && State() == LookedUp(old(State()), q)
      ensures old(made) <= made
    {
      hide Faithful, Uploaded;
      var key := RequestKey(q);
      var position := Position(entries, key);
      if position.Some? {
        var k := position.value;
        var entry := entries[k];
        HitAnswers(entry, q);
        entries := entries[..k] + entries[k + 1..];
        entries := entries + [entry];
        return Some(entry.shared);
      }
      var resident :- BuildResident(q);
      var shared := Shared(resident, uploads);
      uploads, made := uploads + 1, made + [resident];
      UploadFaithful(q, shared.number);
      if |entries| == RETAINED_SCHEDULES {
        entries := entries[1..];
      }
      entries := entries + [Entry(key, shared)];
      return Some(shared);
    }
  }

  lemma HitAnswers(e: Entry, q: Request)
    requires Faithful(e) && ValidPlane(q.plane) && RequestKey(q) == e.key
    ensures Upload(q) == Some(e.shared.resident)
  {}

  method BuildResident(q: Request) returns (r: Option<Resident>)
    requires ValidPlane(q.plane)
    ensures r == Upload(q)
  {
    hide FirstSchedule, SecondSchedule, MaxIndex;
    var relative := AtZero(q.plane);
    var s: Schedule;
    if q.pass.First? {
      s :- FirstOverlapSchedule(relative, q.hard, q.tileColumns, q.tileRows);
    } else {
      s :- SecondOverlapSchedule(relative, q.hard, q.tileColumns, q.tileRows);
    }
    var one :- FindMaxIndex(s.prefix, 0);
    var two :- FindMaxIndex(s.filters, one);
    var top :- FindMaxIndex(s.suffix, two);
    if !Uploadable(s) {
      return None;
    }
    return Some(Resident(s, top));
  }

  /**
   The answer to a request, moved to a base the resident accepts, is the schedule planned directly for the
   requesting plane.
   */
  lemma AnswerIsAbsolute(q: Request)
    requires ValidPlane(q.plane) && Upload(q).Some?
    requires CheckedBase(Upload(q).value, BaseOf(q.pass, q.plane)).Some?
    ensures Planned(q.pass, q.plane, q.hard, q.tileColumns, q.tileRows)
      == Some(RebaseSchedule(Upload(q).value.schedule, BaseOf(q.pass, q.plane)))
  {
    hide Planned, ScheduleMax;
    var r := Upload(q).value;
    RebasedIsAbsolute(q.pass, q.plane, q.hard, q.tileColumns, q.tileRows, r.schedule, r.maxIndex);
  }

  // ---- Which schedules stay resident ----

  function Keys(entries: seq<Entry>): (keys: seq<Key>)
    ensures |keys| == |entries| && forall k :: 0 <= k < |entries| ==> keys[k] == entries[k].key
  {
    seq(|entries|, k requires 0 <= k < |entries| => entries[k].key)
  }

  /** One successful request takes the latest keys of a history to the latest keys of the longer history. */
  lemma UsedKeys(entries: seq<Entry>, entry: Entry, history: seq<Key>)
    requires Keys(entries) == Latest(Recent(history), RETAINED_SCHEDULES)
    ensures Keys(Used(entries, entry)) == Latest(Recent(history + [entry.key]), RETAINED_SCHEDULES)
  {
    var keys, key := Keys(entries), entry.key;
    hide Recent, Latest;
    match Position(entries, key)
    case Some(k) =>
      assert keys[k] == key;
      NextRetained(history, k, RETAINED_SCHEDULES);
      assert Keys(Used(entries, entry)) == Dropped(keys, k) + [key];
    case None =>
      assert key !in keys;
      NextNew(history, key, RETAINED_SCHEDULES);
      assert Keys(Used(entries, entry)) == (if |keys| == RETAINED_SCHEDULES then keys[1..] else keys) + [key];
  }

  /** The cache after a list of requests, those that could not be planned leaving it as it is. */
  function AfterRequests(requests: seq<Request>): Cache
    requires forall k :: 0 <= k < |requests| ==> ValidPlane(requests[k].plane)
  {
    if requests == [] then Cache([], 0)
    else LookedUp(AfterRequests(requests[..|requests| - 1]), requests[|requests| - 1])
  }

  function Successes(requests: seq<Request>): seq<Key>
    requires forall k :: 0 <= k < |requests| ==> ValidPlane(requests[k].plane)
  {
    if requests == [] then []
    else
      var q := requests[|requests| - 1];
      Successes(requests[..|requests| - 1]) + if Upload(q).Some? then [RequestKey(q)] else []
  }

  /**
   After any run of requests the cache holds exactly the keys of the 64 latest distinct successful
   requests, the least recently used first.
   */
  lemma {:induction false} RunRetainsLatest(requests: seq<Request>)
    requires forall k :: 0 <= k < |requests| ==> ValidPlane(requests[k].plane)
    ensures Keys(AfterRequests(requests).entries) == Latest(Recent(Successes(requests)), 64)
    ensures |AfterRequests(requests).entries| <= 64
  {
    if requests != [] {
      hide Used, Latest, Recent, Uploaded, RequestKey;
      RunRetainsLatest(requests[..|requests| - 1]);
      var q := requests[|requests| - 1];
      var history := Successes(requests[..|requests| - 1]);
      if Upload(q).Some? {
        var before := AfterRequests(requests[..|requests| - 1]);
        UsedKeys(before.entries, Entry(RequestKey(q), Shared(Upload(q).value, before.uploads)), history);
      } else {
        assert history + [] == history;
      }
    } else {
      assert Keys([]) == [];
      assert Latest(Recent<Key>([]), RETAINED_SCHEDULES) == [];
    }
  }
}
