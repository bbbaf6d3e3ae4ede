/** Least-recently-used order: what a bounded list of latest uses looks like after each use. */
module Recency {
  import opened Wrappers

  function IndexOf<T(==)>(keys: seq<T>, key: T): (r: Option<nat>)
    ensures r.Some? ==> r.value < |keys| && keys[r.value] == key
    ensures r.Some? <==> key in keys
  {
    if keys == [] then None
    else if keys[0] == key then Some(0)
    else
      var rest :- IndexOf(keys[1..], key);
      Some(rest + 1)
  }

  function Dropped<T>(keys: seq<T>, k: nat): (r: seq<T>)
    requires k < |keys|
    ensures |r| == |keys| - 1
  {
    keys[..k] + keys[k + 1..]
  }

  function Without<T(==)>(keys: seq<T>, key: T): (r: seq<T>)
    ensures |r| == if key in keys then |keys| - 1 else |keys|
  {
    match IndexOf(keys, key)
    case None => keys
    case Some(k) => Dropped(keys, k)
  }

  /** The values of a history, each at its last use, the latest last. */
  function Recent<T(==)>(history: seq<T>): seq<T> {
    if history == [] then []
    else Without(Recent(history[..|history| - 1]), history[|history| - 1]) + [history[|history| - 1]]
  }

  function Latest<T>(keys: seq<T>, capacity: nat): (r: seq<T>)
    ensures |r| == if |keys| <= capacity then |keys| else capacity
  {
    if |keys| <= capacity then keys else keys[|keys| - capacity..]
  }

  ghost predicate NoTwice<T>(keys: seq<T>) {
    forall j, k :: 0 <= j < k < |keys| ==> keys[j] != keys[k]
  }

  /** Using a value keeps the list free of repetitions. */
  lemma UsedNoTwice<T>(keys: seq<T>, key: T)
    requires NoTwice(keys)
    ensures NoTwice(Without(keys, key) + [key])
  {
    var used := Without(keys, key) + [key];
    if key in keys {
      var p := IndexOf(keys, key).value;
      forall j, k | 0 <= j < k < |used|
        ensures used[j] != used[k]
      {
        var source := if j < p then j else j + 1;
        var other := if k == |used| - 1 then p else if k < p then k else k + 1;
        assert used[j] == keys[source] && used[k] == keys[other];
      }
    }
  }

  lemma {:induction false} RecentNoTwice<T>(history: seq<T>)
    ensures NoTwice(Recent(history))
  {
    if history != [] {
      hide Without, NoTwice;
      RecentNoTwice(history[..|history| - 1]);
      UsedNoTwice(Recent(history[..|history| - 1]), history[|history| - 1]);
    } else {
      assert NoTwice(Recent(history));
    }
  }

  lemma WithoutAt<T>(keys: seq<T>, k: nat)
    requires NoTwice(keys) && k < |keys|
    ensures Without(keys, keys[k]) == Dropped(keys, k)
  {
    assert IndexOf(keys, keys[k]).value == k;
  }

  lemma LatestSplit<T>(keys: seq<T>, capacity: nat) returns (head: seq<T>)
    ensures keys == head + Latest(keys, capacity)
    ensures |Latest(keys, capacity)| < capacity ==> head == []
  {
    head := keys[..|keys| - |Latest(keys, capacity)|];
  }

  lemma LatestOfConcat<T>(head: seq<T>, tail: seq<T>, capacity: nat)
    requires |tail| == capacity || (head == [] && |tail| <= capacity)
    ensures Latest(head + tail, capacity) == tail
  {
    assert (head + tail)[|head|..] == tail;
  }

  lemma TailNoTwice<T>(head: seq<T>, tail: seq<T>)
    requires NoTwice(head + tail)
    ensures NoTwice(tail)
  {
    forall i, j | 0 <= i < j < |tail|
      ensures tail[i] != tail[j]
    {
      assert (head + tail)[|head| + i] != (head + tail)[|head| + j];
    }
  }

  /** Dropping a value of the tail leaves the head. */
  lemma WithoutTail<T>(head: seq<T>, tail: seq<T>, k: nat)
    requires NoTwice(head + tail) && k < |tail|
    ensures Without(head + tail, tail[k]) == head + Without(tail, tail[k])
  {
    TailNoTwice(head, tail);
    WithoutAt(head + tail, |head| + k);
    WithoutAt(tail, k);
    hide Without, NoTwice;
    assert Dropped(head + tail, |head| + k) == head + Dropped(tail, k);
  }

  /** Dropping a value that is not in the tail leaves the tail. */
  lemma WithoutHead<T>(head: seq<T>, tail: seq<T>, key: T) returns (front: seq<T>)
    requires key !in tail
    ensures Without(head + tail, key) == front + tail
    ensures head == [] ==> front == []
  {
    match IndexOf(head + tail, key)
    case None =>
      front := head;
    case Some(k) =>
      assert (head + tail)[k] == key;
      front := Dropped(head, k);
      assert Dropped(head + tail, k) == front + tail;
  }

  /** The latest values after one more use of a retained value. */
  lemma UseRetained<T>(recent: seq<T>, k: nat, capacity: nat)
    requires NoTwice(recent) && k < |Latest(recent, capacity)|
    ensures var tail := Latest(recent, capacity);
      Latest(Without(recent, tail[k]) + [tail[k]], capacity) == Dropped(tail, k) + [tail[k]]
  {
    var tail := Latest(recent, capacity);
    var head := LatestSplit(recent, capacity);
    TailNoTwice(head, tail);
    WithoutAt(tail, k);
    hide Without, Latest, NoTwice;
    WithoutTail(head, tail, k);
    var moved := Dropped(tail, k) + [tail[k]];
    LatestOfConcat(head, moved, capacity);
    assert Without(recent, tail[k]) + [tail[k]] == head + moved;
  }

  /** And after the use of a value that was not retained: the oldest makes room in a full list. */
  lemma UseNew<T>(recent: seq<T>, key: T, capacity: nat)
    requires key !in Latest(recent, capacity) && capacity > 0
    ensures var tail := Latest(recent, capacity);
      Latest(Without(recent, key) + [key], capacity) == (if |tail| == capacity then tail[1..] else tail) + [key]
  {
    hide Without, Latest;
    var tail := Latest(recent, capacity);
    var head := LatestSplit(recent, capacity);
    var front := WithoutHead(head, tail, key);
    var kept := (if |tail| == capacity then tail[1..] else tail) + [key];
    var before := front + if |tail| == capacity then tail[..1] else [];
    LatestOfConcat(before, kept, capacity);
    assert Without(recent, key) + [key] == before + kept;
  }

  lemma RecentNext<T>(history: seq<T>, key: T)
    ensures Recent(history + [key]) == Without(Recent(history), key) + [key]
  {
    assert (history + [key])[..|history|] == history;
  }

  /** What is retained after the use of a retained value, from what was retained before it. */
  lemma NextRetained<T>(history: seq<T>, k: nat, capacity: nat)
    requires k < |Latest(Recent(history), capacity)|
    ensures var tail := Latest(Recent(history), capacity);
      Latest(Recent(history + [tail[k]]), capacity) == Dropped(tail, k) + [tail[k]]
  {
    hide Without, Latest, Recent, NoTwice;
    RecentNoTwice(history);
    RecentNext(history, Latest(Recent(history), capacity)[k]);
    UseRetained(Recent(history), k, capacity);
  }

  /** And after the use of a new value. */
  lemma NextNew<T>(history: seq<T>, key: T, capacity: nat)
    requires key !in Latest(Recent(history), capacity) && capacity > 0
    ensures var tail := Latest(Recent(history), capacity);
      Latest(Recent(history + [key]), capacity) == (if |tail| == capacity then tail[1..] else tail) + [key]
  {
    hide Without, Latest, Recent;
    RecentNext(history, key);
    UseNew(Recent(history), key, capacity);
  }
}
