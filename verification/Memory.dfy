/** Indexed loads and stores on flat sample memory. */
module Memory {

  ghost predicate Distinct(at: seq<nat>) {
    forall i, j :: 0 <= i < j < |at| ==> at[i] != at[j]
  }

  ghost predicate Within(at: seq<nat>, size: nat) {
    forall i :: 0 <= i < |at| ==> at[i] < size
  }

  /** The values found at a list of addresses. */
  function Gather(memory: seq<int>, at: seq<nat>): (values: seq<int>)
    requires Within(at, |memory|)
    ensures |values| == |at|
    ensures forall k :: 0 <= k < |at| ==> values[k] == memory[at[k]]
  {
    seq(|at|, k requires 0 <= k < |at| => memory[at[k]])
  }

  /** Memory after storing `values[k]` at `at[k]`, in order. */
  function Scatter(memory: seq<int>, at: seq<nat>, values: seq<int>): (result: seq<int>)
    requires |at| == |values|
    requires Within(at, |memory|)
    ensures |result| == |memory|
    ensures forall i :: 0 <= i < |memory| && i !in at ==> result[i] == memory[i]
  {
    if |at| == 0 then memory
    else
      var last := |at| - 1;
      Scatter(memory, at[..last], values[..last])[at[last] := values[last]]
  }

  /** One more store in a list of stores. */
  lemma ScatterNext(memory: seq<int>, at: seq<nat>, values: seq<int>, k: nat)
    requires |at| == |values| && k < |at| && Within(at, |memory|)
    ensures Within(at[..k], |memory|) && Within(at[..k + 1], |memory|)
    ensures Scatter(memory, at[..k + 1], values[..k + 1]) == Scatter(memory, at[..k], values[..k])[at[k] := values[k]]
  {
    assert at[..k + 1][..k] == at[..k] && values[..k + 1][..k] == values[..k];
  }

  lemma ScatterWhole(memory: seq<int>, at: seq<nat>, values: seq<int>)
    requires |at| == |values| && Within(at, |memory|)
    ensures Scatter(memory, [], []) == memory
    ensures at[..|at|] == at && values[..|at|] == values
  {}

  /** Storing one list after another is storing both. */
  lemma {:induction false} ScatterConcat(memory: seq<int>, a: seq<nat>, b: seq<nat>, va: seq<int>, vb: seq<int>)
    requires |a| == |va| && |b| == |vb| && Within(a, |memory|) && Within(b, |memory|)
    ensures Within(a + b, |memory|)
    ensures Scatter(memory, a + b, va + vb) == Scatter(Scatter(memory, a, va), b, vb)
    decreases |b|
  {
    if b == [] {
      assert a + b == a && va + vb == va;
    } else {
      var last := |b| - 1;
      assert (a + b)[..|a| + last] == a + b[..last] && (va + vb)[..|a| + last] == va + vb[..last];
      ScatterConcat(memory, a, b[..last], va, vb[..last]);
    }
  }

  /** Stores to distinct addresses all survive. */
  lemma {:induction false} ScatterStores(memory: seq<int>, at: seq<nat>, values: seq<int>)
    requires |at| == |values|
    requires Within(at, |memory|) && Distinct(at)
    ensures forall k :: 0 <= k < |at| ==> Scatter(memory, at, values)[at[k]] == values[k]
  {
    if |at| != 0 {
      var last := |at| - 1;
      ScatterStores(memory, at[..last], values[..last]);
    }
  }

  /** Reading back what was stored, and storing back what was read. */
  lemma GatherScatter(memory: seq<int>, at: seq<nat>, values: seq<int>)
    requires |at| == |values|
    requires Within(at, |memory|) && Distinct(at)
    ensures Gather(Scatter(memory, at, values), at) == values
    ensures Scatter(memory, at, Gather(memory, at)) == memory
  {
    ScatterStores(memory, at, values);
    ScatterStores(memory, at, Gather(memory, at));
  }

  /** Only the last store to each address is visible. */
  lemma ScatterTwice(memory: seq<int>, at: seq<nat>, first: seq<int>, second: seq<int>)
    requires |at| == |first| == |second|
    requires Within(at, |memory|) && Distinct(at)
    ensures Scatter(Scatter(memory, at, first), at, second) == Scatter(memory, at, second)
  {
    var once := Scatter(memory, at, first);
    ScatterStores(once, at, second);
    ScatterStores(memory, at, second);
    forall i | 0 <= i < |memory|
      ensures Scatter(once, at, second)[i] == Scatter(memory, at, second)[i]
    {
      if i in at {
        var k :| 0 <= k < |at| && at[k] == i;
      }
    }
  }
}
