/** The exact-size buffer pools of the two device backends. */
module Pools {
  import opened Wrappers
  import opened Words

  const DEFAULT_RETAINED_BYTES: nat := 256 * 1024 * 1024
  const DEFAULT_RETAINED_BUFFERS: nat := 64
  const MAX_BUFFER_BYTES: nat := 128 * 1024 * 1024

  /** A device buffer: which one it is, its size, and the context it belongs to. */
  datatype Buffer = Buffer(id: nat, bytes: nat, context: nat)

  function TotalBytes(entries: seq<Buffer>): nat {
    if entries == [] then 0 else entries[0].bytes + TotalBytes(entries[1..])
  }

  lemma {:induction false} TotalConcat(a: seq<Buffer>, b: seq<Buffer>)
    ensures TotalBytes(a + b) == TotalBytes(a) + TotalBytes(b)
  {
    if a == [] {
      assert a + b == b;
    } else {
      assert (a + b)[1..] == a[1..] + b;
      TotalConcat(a[1..], b);
    }
  }

  function Removed(entries: seq<Buffer>, k: nat): (r: seq<Buffer>)
    requires k < |entries|
    ensures |r| == |entries| - 1
  {
    entries[..k] + entries[k + 1..]
  }

  lemma TotalRemoved(entries: seq<Buffer>, k: nat)
    requires k < |entries|
    ensures TotalBytes(Removed(entries, k)) == TotalBytes(entries) - entries[k].bytes
  {
    var front, own, back := entries[..k], [entries[k]], entries[k + 1..];
    assert TotalBytes(own) == entries[k].bytes by { assert own[1..] == []; }
    Split(entries, k);
    hide TotalBytes;
    TotalConcat(front, own + back);
    TotalConcat(own, back);
    TotalConcat(front, back);
  }

  lemma Split(entries: seq<Buffer>, k: nat)
    requires k < |entries|
    ensures entries == entries[..k] + ([entries[k]] + entries[k + 1..])
  {}

  lemma TotalPushed(entries: seq<Buffer>, b: Buffer)
    ensures TotalBytes(entries + [b]) == TotalBytes(entries) + b.bytes
  {
    TotalConcat(entries, [b]);
  }

  /** The first retained buffer of exactly this size and context. */
  function Match(entries: seq<Buffer>, bytes: nat, context: nat): (r: Option<nat>)
    ensures r.Some? ==> r.value < |entries| && entries[r.value].bytes == bytes && entries[r.value].context == context
    ensures r.Some? ==> forall j :: 0 <= j < r.value ==> entries[j].bytes != bytes || entries[j].context != context
    ensures r.None? ==> forall j :: 0 <= j < |entries| ==> entries[j].bytes != bytes || entries[j].context != context
  {
    if entries == [] then None
    else if entries[0].bytes == bytes && entries[0].context == context then Some(0)
    else
      var rest :- Match(entries[1..], bytes, context);
      Some(rest + 1)
  }

  /** Whether one more buffer may join. */
  predicate Room(entries: seq<Buffer>, bytes: nat, maxBytes: nat, maxBuffers: nat) {
    |entries| < maxBuffers && TotalBytes(entries) + bytes <= maxBytes
  }

  /** What is left after the oldest buffers made room. */
  function Evicted(entries: seq<Buffer>, bytes: nat, maxBytes: nat, maxBuffers: nat): (r: seq<Buffer>)
    ensures |r| <= |entries|
  {
    if entries == [] || Room(entries, bytes, maxBytes, maxBuffers) then entries
    else Evicted(entries[1..], bytes, maxBytes, maxBuffers)
  }

  /** While there is no room the oldest buffer exists and goes. */
  lemma EvictStep(entries: seq<Buffer>, bytes: nat, maxBytes: nat, maxBuffers: nat)
    requires bytes <= maxBytes && maxBuffers > 0
    ensures !Room(entries, bytes, maxBytes, maxBuffers) ==> entries != []
    ensures !Room(entries, bytes, maxBytes, maxBuffers) ==>
      Evicted(entries, bytes, maxBytes, maxBuffers) == Evicted(entries[1..], bytes, maxBytes, maxBuffers)
    ensures !Room(entries, bytes, maxBytes, maxBuffers) ==> TotalBytes(entries) == entries[0].bytes + TotalBytes(entries[1..])
    ensures Room(entries, bytes, maxBytes, maxBuffers) ==> Evicted(entries, bytes, maxBytes, maxBuffers) == entries
  {}

  /** Eviction keeps the newest buffers, as many as can stay beside the new one. */
  lemma {:induction false} EvictedIsLongest(entries: seq<Buffer>, bytes: nat, maxBytes: nat, maxBuffers: nat, k: nat)
    requires bytes <= maxBytes && maxBuffers > 0 && k <= |entries|
    ensures var kept := Evicted(entries, bytes, maxBytes, maxBuffers);
      && |kept| < maxBuffers && TotalBytes(kept) + bytes <= maxBytes && kept == entries[|entries| - |kept|..]
      && (|entries[k..]| < maxBuffers && TotalBytes(entries[k..]) + bytes <= maxBytes ==> |entries[k..]| <= |kept|)
    decreases |entries|
  {
    if entries != [] && !Room(entries, bytes, maxBytes, maxBuffers) {
      EvictedIsLongest(entries[1..], bytes, maxBytes, maxBuffers, if k > 0 then k - 1 else 0);
      if k > 0 {
        assert entries[1..][k - 1..] == entries[k..];
      } else {
        assert entries[k..] == entries;
      }
    } else {
      assert entries[0..] == entries;
    }
  }

  function Highest(a: nat, b: nat): (r: nat)
    ensures r >= a && r >= b && (r == a || r == b)
  {
    if a > b then a else b
  }

  // ---- Metal ----

  /** A pool with a bound on bytes and on buffers; failures are counter overflows only. */
  class MetalPool {
    const maxBytes: nat
    const maxBuffers: nat
    var entries: seq<Buffer>
    var retainedBytes: nat
    var peakBytes: nat
    var peakBuffers: nat
    var evictions: nat
    var rejections: nat
    ghost var recycled: nat
    ghost var hits: nat

    ghost predicate Valid()
      reads this
    {
      && maxBytes <= DEFAULT_RETAINED_BYTES
      && retainedBytes == TotalBytes(entries) <= maxBytes && |entries| <= maxBuffers
      && retainedBytes <= peakBytes <= maxBytes && |entries| <= peakBuffers <= maxBuffers
      && evictions <= USIZE_MAX && rejections <= USIZE_MAX
      && forall k :: 0 <= k < |entries| ==> entries[k].context == 0
    }

    /** Every buffer ever recycled is cached, was handed out again, was evicted, or was turned away. */
    ghost predicate Accounted()
      reads this
    {
      recycled == |entries| + hits + evictions + rejections
    }

    constructor (maxBufferLength: nat)
      ensures Valid() && Accounted() && entries == []
      ensures maxBuffers == 64 && maxBytes == if maxBufferLength < 0x1000_0000 then maxBufferLength else 0x1000_0000
      ensures peakBytes == peakBuffers == evictions == rejections == 0
    {
      maxBytes := if maxBufferLength < DEFAULT_RETAINED_BYTES then maxBufferLength else DEFAULT_RETAINED_BYTES;
      maxBuffers := DEFAULT_RETAINED_BUFFERS;
      entries, retainedBytes, peakBytes, peakBuffers, evictions, rejections := [], 0, 0, 0, 0, 0;
      recycled, hits := 0, 0;
    }

    /** A hit has exactly the requested size; the byte count never underflows. */
    method Take(bytes: nat) returns (r: Option<Buffer>)
      requires Valid() && Accounted()
      modifies this
      ensures Valid() && Accounted()
      ensures match Match(old(entries), bytes, 0)
        case None => r.None? && entries == old(entries)
        case Some(k) => r == Some(old(entries)[k]) && r.value.bytes == bytes && entries == Removed(old(entries), k)
      ensures evictions == old(evictions) && rejections == old(rejections) && recycled == old(recycled)
      ensures peakBytes == old(peakBytes) && peakBuffers == old(peakBuffers)
    {
      var index := Match(entries, bytes, 0);
      if index.None? {
        return None;
      }
      var entry := entries[index.value];
      TotalRemoved(entries, index.value);
      entries := Removed(entries, index.value);
      retainedBytes := retainedBytes - entry.bytes;
      hits := hits + 1;
      return Some(entry);
    }

    /** Drops the oldest buffer; with a buffer waiting for room the pool is not empty. */
    method EvictOldest() returns (ok: bool)
      requires Valid() && entries != []
      modifies this`entries, this`retainedBytes, this`evictions
      ensures Valid() && entries == old(entries)[1..]
      ensures ok <==> old(evictions) < USIZE_MAX
      ensures evictions == if ok then old(evictions) + 1 else old(evictions)
    {
      var oldest := entries[0];
      entries := entries[1..];
      retainedBytes := retainedBytes - oldest.bytes;
      if evictions == USIZE_MAX {
        return false;
      }
      evictions := evictions + 1;
      return true;
    }

    method Recycle(b: Buffer) returns (ok: bool)
      requires Valid() && Accounted() && b.context == 0
      modifies this
      ensures Valid() && recycled == old(recycled) + 1 && hits == old(hits)
      ensures ok ==> Accounted()
      ensures !ok ==> old(rejections) == USIZE_MAX || old(evictions) + |old(entries)| > USIZE_MAX
      ensures ok ==> entries == if b.bytes > maxBytes || maxBuffers == 0 then old(entries)
        else Evicted(old(entries), b.bytes, maxBytes, maxBuffers) + [b]
      ensures ok ==> rejections == old(rejections) + if b.bytes > maxBytes || maxBuffers == 0 then 1 else 0
      ensures ok ==> peakBytes == Highest(old(peakBytes), retainedBytes) && peakBuffers == Highest(old(peakBuffers), |entries|)
    {
      hide TotalBytes, Evicted;
      recycled := recycled + 1;
      if b.bytes > maxBytes || maxBuffers == 0 {
        if rejections == USIZE_MAX {
          return false;
        }
        rejections := rejections + 1;
        return true;
      }
      while |entries| >= maxBuffers || retainedBytes + b.bytes > maxBytes
        invariant Valid() && recycled == old(recycled) + 1 && hits == old(hits) && rejections == old(rejections)
        invariant peakBytes == old(peakBytes) && peakBuffers == old(peakBuffers)
        invariant Evicted(entries, b.bytes, maxBytes, maxBuffers) == Evicted(old(entries), b.bytes, maxBytes, maxBuffers)
        invariant |entries| + evictions == |old(entries)| + old(evictions)
        decreases |entries|
      {
        EvictStep(entries, b.bytes, maxBytes, maxBuffers);
        var evicted := EvictOldest();
        if !evicted {
          return false;
        }
      }
      EvictStep(entries, b.bytes, maxBytes, maxBuffers);
      TotalPushed(entries, b);
      retainedBytes := retainedBytes + b.bytes;
      entries := entries + [b];
      peakBytes := if retainedBytes > peakBytes then retainedBytes else peakBytes;
      peakBuffers := if |entries| > peakBuffers then |entries| else peakBuffers;
      return true;
    }
  }

  // ---- CUDA ----

  function Saturating(counter: nat): nat {
    if counter < USIZE_MAX then counter + 1 else counter
  }

  /** A pool with a bound on bytes alone; its counters saturate. */
  class CudaPool {
    var buffers: seq<Buffer>
    var retainedBuffers: nat
    var retainedBytes: nat
    var highWaterBytes: nat
    var hits: nat
    var misses: nat
    var evictions: nat
    ghost var recycled: nat
    ghost var taken: nat
    ghost var dropped: nat

    ghost predicate Valid()
      reads this
    {
      && retainedBuffers == |buffers|
      && retainedBytes == TotalBytes(buffers) <= 0x1000_0000
      && retainedBytes <= highWaterBytes <= 0x1000_0000
      && (forall k :: 0 <= k < |buffers| ==> buffers[k].bytes <= 0x800_0000)
      && recycled == |buffers| + taken + dropped
      && hits == (if taken <= USIZE_MAX then taken else USIZE_MAX)
      && evictions == (if dropped <= USIZE_MAX then dropped else USIZE_MAX)
    }

    constructor ()
      ensures Valid() && buffers == [] && highWaterBytes == hits == misses == evictions == 0
    {
      buffers, retainedBuffers, retainedBytes, highWaterBytes, hits, misses, evictions := [], 0, 0, 0, 0, 0, 0;
      recycled, taken, dropped := 0, 0, 0;
    }

    /**
     A hit is the first retained buffer of the same context with exactly the requested four-byte elements. On a
     miss the answer is what the driver allocates, if anything; the pool then only counts.
     */
    method Take(elements: nat, context: nat, supplied: Option<Buffer>) returns (r: Option<Buffer>)
      requires Valid() && (supplied.Some? ==> supplied.value.bytes == elements * 4 && supplied.value.context == context)
      modifies this
      ensures Valid()
      ensures match Match(old(buffers), elements * 4, context)
        case None => r == supplied && buffers == old(buffers) && misses == Saturating(old(misses)) && taken == old(taken)
        case Some(k) =>
          && r == Some(old(buffers)[k]) && buffers == Removed(old(buffers), k)
          && misses == old(misses) && taken == old(taken) + 1
      ensures r.Some? ==> r.value.bytes == elements * 4 && r.value.context == context
      ensures recycled == old(recycled) && dropped == old(dropped) && highWaterBytes == old(highWaterBytes)
    {
      var index := Match(buffers, elements * 4, context);
      if index.None? {
        misses := Saturating(misses);
        return supplied;
      }
      hide TotalBytes, Match;
      var buffer := buffers[index.value];
      TotalRemoved(buffers, index.value);
      buffers := Removed(buffers, index.value);
      retainedBuffers := retainedBuffers - 1;
      retainedBytes := retainedBytes - buffer.bytes;
      hits := Saturating(hits);
      taken := taken + 1;
      return Some(buffer);
    }

    /** Drops the oldest buffer; with a buffer waiting for room the pool is not empty. */
    method EvictOldest()
      requires Valid() && buffers != []
      modifies this`buffers, this`retainedBuffers, this`retainedBytes, this`evictions, this`dropped
      ensures Valid() && buffers == old(buffers)[1..] && dropped == old(dropped) + 1
    {
      var evicted := buffers[0];
      buffers := buffers[1..];
      retainedBuffers := retainedBuffers - 1;
      retainedBytes := retainedBytes - evicted.bytes;
      evictions := Saturating(evictions);
      dropped := dropped + 1;
    }

    method Recycle(b: Buffer)
      requires Valid()
      modifies this
      ensures Valid() && recycled == old(recycled) + 1 && taken == old(taken)
      ensures buffers == if b.bytes > 0x800_0000 then old(buffers)
        else Evicted(old(buffers), b.bytes, 0x1000_0000, |old(buffers)| + 1) + [b]
      ensures highWaterBytes == Highest(old(highWaterBytes), retainedBytes) && misses == old(misses)
    {
      hide TotalBytes, Evicted;
      if b.bytes > MAX_BUFFER_BYTES || b.bytes > DEFAULT_RETAINED_BYTES {
        evictions := Saturating(evictions);
        dropped := dropped + 1;
        recycled := recycled + 1;
        return;
      }
      ghost var most := |buffers| + 1;
      while retainedBytes + b.bytes > DEFAULT_RETAINED_BYTES
        invariant Valid() && recycled == old(recycled) && taken == old(taken) && |buffers| < most
        invariant highWaterBytes == old(highWaterBytes) && misses == old(misses)
        invariant Evicted(buffers, b.bytes, DEFAULT_RETAINED_BYTES, most) == Evicted(old(buffers), b.bytes, DEFAULT_RETAINED_BYTES, most)
        decreases |buffers|
      {
        EvictStep(buffers, b.bytes, DEFAULT_RETAINED_BYTES, most);
        EvictOldest();
      }
      EvictStep(buffers, b.bytes, DEFAULT_RETAINED_BYTES, most);
      TotalPushed(buffers, b);
      retainedBytes := retainedBytes + b.bytes;
      retainedBuffers := retainedBuffers + 1;
      highWaterBytes := if retainedBytes > highWaterBytes then retainedBytes else highWaterBytes;
      buffers := buffers + [b];
      recycled := recycled + 1;
    }
  }
}
