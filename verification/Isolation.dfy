/**
 Batches with a status word per image. The threads of all images interleave freely; an overflow raises the
 word of its own image only, and only that image's threads give up on it. What an image's own cells and
 status word go through is a run of its own threads, whatever the other images do.
 */
module Isolation {
  import opened Phases
  import opened PlanePasses
  import opened Device
  import L = Locality

  /** A work item and the image whose status word it checks and raises. */
  datatype Tagged = Tagged(item: Item, image: nat)

  function Untagged(phase: seq<Tagged>): (items: seq<Item>)
    ensures |items| == |phase| && forall k :: 0 <= k < |phase| ==> items[k] == phase[k].item
  {
    seq(|phase|, k requires 0 <= k < |phase| => phase[k].item)
  }

  /** The machine of a batch: shared memory, the raised status words, and the threads of all images. */
  datatype BatchState = BatchState(memory: seq<int>, raised: set<nat>, threads: seq<Thread>)

  /** What the threads of one image see. */
  ghost function View(s: BatchState, image: nat): State {
    State(s.memory, image in s.raised, s.threads)
  }

  /** One atomic action of thread `t`: a step of the plain machine with its own image's status word. */
  ghost predicate BatchStep(phase: seq<Tagged>, s: BatchState, s': BatchState, t: nat)
    requires ValidItems(Untagged(phase), |s.memory|) && |s.threads| == |phase| && t < |phase|
  {
    && Step(Untagged(phase), View(s, phase[t].image), View(s', phase[t].image), t)
    && forall i: nat :: i != phase[t].image ==> (i in s.raised <==> i in s'.raised)
  }

  ghost predicate BatchAdvances(phase: seq<Tagged>, s: BatchState, s': BatchState, size: nat)
    requires ValidItems(Untagged(phase), size)
  {
    |s.memory| == size && |s.threads| == |phase| && exists t: nat :: t < |phase| && BatchStep(phase, s, s', t)
  }

  /** A run of one phase; status words raised before it stay raised. */
  ghost predicate BatchExecution(phase: seq<Tagged>, states: seq<BatchState>, size: nat) {
    && ValidItems(Untagged(phase), size)
    && |states| > 0 && |states[0].memory| == size && |states[0].threads| == |phase|
    && (forall k :: 0 <= k < |phase| ==> states[0].threads[k] == Loading([]))
    && forall i :: 0 <= i < |states| - 1 ==> BatchAdvances(phase, states[i], states[i + 1], size)
  }

  ghost predicate BatchDone(s: BatchState) {
    forall k :: 0 <= k < |s.threads| ==> s.threads[k].Finished? || s.threads[k].Aborted?
  }

  // ---- The items of one image ----

  /** The threads of one image, by number. */
  ghost function Owners(phase: seq<Tagged>, image: nat): (own: seq<nat>)
    ensures forall j :: 0 <= j < |own| ==> own[j] < |phase| && phase[own[j]].image == image
    ensures forall i, j :: 0 <= i < j < |own| ==> own[i] < own[j]
    ensures forall k: nat :: k < |phase| && phase[k].image == image ==> k in own
  {
    if phase == [] then []
    else
      var last := |phase| - 1;
      Owners(phase[..last], image) + if phase[last].image == image then [last] else []
  }

  /** Their items. */
  ghost function OwnItems(phase: seq<Tagged>, image: nat): (items: seq<Item>)
    ensures |items| == |Owners(phase, image)|
    ensures forall j :: 0 <= j < |items| ==> items[j] == phase[Owners(phase, image)[j]].item
  {
    if phase == [] then []
    else
      var last := |phase| - 1;
      OwnItems(phase[..last], image) + if phase[last].image == image then [phase[last].item] else []
  }

  lemma OwnValid(phase: seq<Tagged>, image: nat, size: nat)
    requires ValidItems(Untagged(phase), size)
    ensures ValidItems(OwnItems(phase, image), size)
  {
    hide ValidItem;
    forall j | 0 <= j < |OwnItems(phase, image)|
      ensures ValidItem(OwnItems(phase, image)[j], size)
    {
      assert Untagged(phase)[Owners(phase, image)[j]] == OwnItems(phase, image)[j];
    }
  }

  /**
   The image's items work in a part of memory where no other image stores, and are independent of each other;
   nothing is asked of the other images' items.
   */
  ghost predicate Isolated(phase: seq<Tagged>, image: nat, part: L.Part, size: nat) {
    && ValidItems(Untagged(phase), size) && Independent(OwnItems(phase, image))
    && forall k :: 0 <= k < |phase| ==>
         if phase[k].image == image then L.StaysIn(phase[k].item, part) else L.Avoids(phase[k].item, part)
  }

  // ---- What one image goes through ----

  ghost function Masked(memory: seq<int>, start: seq<int>, part: L.Part): (r: seq<int>)
    requires |memory| == |start|
    ensures |r| == |memory|
  {
    seq(|memory|, i requires 0 <= i < |memory| => if part(i) then memory[i] else start[i])
  }

  /** The image's own part of a state: its cells, its status word, its threads. */
  ghost function Seen(phase: seq<Tagged>, image: nat, part: L.Part, start: seq<int>, s: BatchState): State
    requires |s.memory| == |start| && |s.threads| == |phase|
  {
    var own := Owners(phase, image);
    State(Masked(s.memory, start, part), image in s.raised, seq(|own|, j requires 0 <= j < |own| => s.threads[own[j]]))
  }

  lemma OwnThreads(phase: seq<Tagged>, image: nat, part: L.Part, start: seq<int>, s: BatchState, j: nat, thread: Thread)
    requires |s.memory| == |start| && |s.threads| == |phase| && j < |Owners(phase, image)|
    ensures var t := Owners(phase, image)[j];
      Seen(phase, image, part, start, s.(threads := s.threads[t := thread])).threads
        == Seen(phase, image, part, start, s).threads[j := thread]
  {}

  /** A step of one of the image's threads is a step of its own machine. */
  lemma OwnStep(phase: seq<Tagged>, image: nat, part: L.Part, start: seq<int>, s: BatchState, s': BatchState, j: nat)
    requires Isolated(phase, image, part, |start|) && |s.memory| == |start| && |s.threads| == |phase|
    requires j < |Owners(phase, image)| && BatchStep(phase, s, s', Owners(phase, image)[j])
    ensures |s'.memory| == |start| && |s'.threads| == |phase| && ValidItems(OwnItems(phase, image), |start|)
    ensures Step(OwnItems(phase, image), Seen(phase, image, part, start, s), Seen(phase, image, part, start, s'), j)
  {
    OwnValid(phase, image, |start|);
    hide Owners, OwnItems, Independent, ValidItem;
    var t := Owners(phase, image)[j];
    var item := phase[t].item;
    assert item == OwnItems(phase, image)[j] == Untagged(phase)[t] && L.StaysIn(item, part);
    OwnThreads(phase, image, part, start, s, j, s'.threads[t]);
    assert s'.threads == s.threads[t := s'.threads[t]];
    var a, b := Seen(phase, image, part, start, s), Seen(phase, image, part, start, s');
    match s.threads[t]
    case Loading(loaded) =>
      if |loaded| < |item.loads| {
        assert item.loads[|loaded|] in item.loads;
      }
    case Storing(out, stored) =>
      if stored < |item.stores| {
        assert item.stores[stored] in item.stores;
        if |out| == |item.stores| {
          assert b.memory == a.memory[item.stores[stored] := out[stored]];
        }
      }
    case Finished =>
    case Aborted =>
  }

  lemma StepShape(phase: seq<Tagged>, s: BatchState, s': BatchState, t: nat)
    requires ValidItems(Untagged(phase), |s.memory|) && |s.threads| == |phase| && t < |phase| && BatchStep(phase, s, s', t)
    ensures |s'.memory| == |s.memory| && |s'.threads| == |phase|
  {}

  /** The image sees nothing of the steps of another image's threads. */
  lemma OtherStep(phase: seq<Tagged>, image: nat, part: L.Part, start: seq<int>, s: BatchState, s': BatchState, t: nat)
    requires Isolated(phase, image, part, |start|) && |s.memory| == |start| && |s.threads| == |phase|
    requires t < |phase| && phase[t].image != image && BatchStep(phase, s, s', t)
    ensures |s'.memory| == |start| && |s'.threads| == |phase|
    ensures Seen(phase, image, part, start, s') == Seen(phase, image, part, start, s)
  {
    hide Owners, OwnItems, Independent, ValidItem;
    var item := phase[t].item;
    assert item == Untagged(phase)[t] && L.Avoids(item, part);
    StepShape(phase, s, s', t);
    var a, b := Seen(phase, image, part, start, s), Seen(phase, image, part, start, s');
    if s.threads[t].Storing? && s.threads[t].stored < |item.stores| {
      assert item.stores[s.threads[t].stored] in item.stores;
    }
    assert a.memory == b.memory;
    assert a.threads == b.threads;
  }

  /** A status word is never cleared. */
  lemma {:induction false} RaisedStays(phase: seq<Tagged>, states: seq<BatchState>, size: nat, i: nat, image: nat)
    requires BatchExecution(phase, states, size) && i < |states| && image in states[0].raised
    ensures image in states[i].raised
  {
    if i > 0 {
      RaisedStays(phase, states, size, i - 1, image);
      assert BatchAdvances(phase, states[i - 1], states[i], size);
      var t: nat :| t < |phase| && BatchStep(phase, states[i - 1], states[i], t);
    }
  }

  /** As long as an image sees it, a run of the batch keeps what the plain machine keeps. */
  lemma {:induction false} SeenInvariant(phase: seq<Tagged>, image: nat, part: L.Part, states: seq<BatchState>, i: nat)
    requires |states| > 0 && BatchExecution(phase, states, |states[0].memory|) && i < |states|
    requires Isolated(phase, image, part, |states[0].memory|) && image !in states[0].raised
    ensures |states[i].memory| == |states[0].memory| && |states[i].threads| == |phase|
    ensures ValidItems(OwnItems(phase, image), |states[0].memory|)
    ensures Invariant(OwnItems(phase, image), states[0].memory, Seen(phase, image, part, states[0].memory, states[i]))
  {
    var start := states[0].memory;
    OwnValid(phase, image, |start|);
    if i == 0 {
      assert Masked(start, start, part) == start;
    } else {
      hide Owners, OwnItems, Independent, ValidItem, Invariant, BatchStep, Isolated, Seen;
      SeenInvariant(phase, image, part, states, i - 1);
      var s, s' := states[i - 1], states[i];
      assert BatchAdvances(phase, s, s', |start|);
      var t: nat :| t < |phase| && BatchStep(phase, s, s', t);
      if phase[t].image == image {
        assert t in Owners(phase, image);
        var j :| 0 <= j < |Owners(phase, image)| && Owners(phase, image)[j] == t;
        OwnStep(phase, image, part, start, s, s', j);
        IsolatedIndependent(phase, image, part, |start|);
        StepKeepsInvariant(OwnItems(phase, image), start, Seen(phase, image, part, start, s), Seen(phase, image, part, start, s'), j);
      } else {
        OtherStep(phase, image, part, start, s, s', t);
      }
    }
  }

  lemma IsolatedIndependent(phase: seq<Tagged>, image: nat, part: L.Part, size: nat)
    requires Isolated(phase, image, part, size)
    ensures Independent(OwnItems(phase, image)) && ValidItems(Untagged(phase), size)
  {}

  lemma DoneSeen(phase: seq<Tagged>, image: nat, part: L.Part, start: seq<int>, s: BatchState)
    requires |s.memory| == |start| && |s.threads| == |phase| && BatchDone(s)
    ensures AllDone(Seen(phase, image, part, start, s))
  {}

  lemma MaskedAgrees(memory: seq<int>, start: seq<int>, part: L.Part)
    requires |memory| == |start|
    ensures L.Agree(memory, Masked(memory, start, part), part)
  {}

  /**
   One image of a phase by itself: its status word ends raised exactly when it was raised before or its own
   items overflow when run alone, and if it stays clear the image's part holds what they leave, however the
   threads of all images interleave and whichever of the others overflow, give up or race.
   */
  lemma PartAlone(phase: seq<Tagged>, states: seq<BatchState>, image: nat, part: L.Part)
    requires |states| > 0 && BatchExecution(phase, states, |states[0].memory|) && BatchDone(states[|states| - 1])
    requires Isolated(phase, image, part, |states[0].memory|)
    ensures ValidItems(OwnItems(phase, image), |states[0].memory|)
    ensures var first, last := states[0], states[|states| - 1]; var own := Run(OwnItems(phase, image), first.memory);
      && |last.memory| == |first.memory|
      && (image in last.raised <==> image in first.raised || own.None?)
      && (image !in last.raised ==> L.Agree(last.memory, own.value, part))
  {
    hide Run, Invariant, BatchDone, Isolated, Owners, OwnItems, Independent, L.Agree, AllDone, Seen, BatchStep;
    var first, last := states[0], states[|states| - 1];
    IsolatedIndependent(phase, image, part, |first.memory|);
    OwnValid(phase, image, |first.memory|);
    MemoryKept(phase, states, |states| - 1);
    if image in first.raised {
      RaisedStays(phase, states, |first.memory|, |states| - 1, image);
    } else {
      SeenInvariant(phase, image, part, states, |states| - 1);
      var seen := Seen(phase, image, part, first.memory, last);
      DoneSeen(phase, image, part, first.memory, last);
      DoneIsRun(OwnItems(phase, image), first.memory, seen);
      SeenIs(phase, image, part, first.memory, last);
      MaskedAgrees(last.memory, first.memory, part);
    }
  }

  lemma SeenIs(phase: seq<Tagged>, image: nat, part: L.Part, start: seq<int>, s: BatchState)
    requires |s.memory| == |start| && |s.threads| == |phase|
    ensures var seen := Seen(phase, image, part, start, s);
      seen.memory == Masked(s.memory, start, part) && (seen.failed <==> image in s.raised)
  {}

  lemma {:induction false} MemoryKept(phase: seq<Tagged>, states: seq<BatchState>, i: nat)
    requires |states| > 0 && BatchExecution(phase, states, |states[0].memory|) && i < |states|
    ensures |states[i].memory| == |states[0].memory| && |states[i].threads| == |phase|
  {
    if i > 0 {
      MemoryKept(phase, states, i - 1);
      assert BatchAdvances(phase, states[i - 1], states[i], |states[0].memory|);
      var t: nat :| t < |phase| && BatchStep(phase, states[i - 1], states[i], t);
    }
  }

  // ---- Several phases ----

  /**
   A device run of the phases of a batch: each begins on the memory and the status words the last one left, and
   ends when all its threads have. Unlike an image's own run it goes on whatever is raised.
   */
  ghost predicate BatchEnds(phases: seq<seq<Tagged>>, runs: seq<seq<BatchState>>, memory: seq<int>, raised: set<nat>,
                            after: seq<int>, raisedAfter: set<nat>) {
    if phases == [] then after == memory && raisedAfter == raised
    else
      && |runs| > 0 && |runs[0]| > 0 && runs[0][0].memory == memory && runs[0][0].raised == raised
      && BatchExecution(phases[0], runs[0], |memory|)
      && var last := runs[0][|runs[0]| - 1];
         BatchDone(last) && BatchEnds(phases[1..], runs[1..], last.memory, last.raised, after, raisedAfter)
  }

  /** The image's own items, phase by phase. */
  ghost function OwnPhases(phases: seq<seq<Tagged>>, image: nat): (own: seq<seq<Item>>)
    ensures |own| == |phases| && forall k :: 0 <= k < |phases| ==> own[k] == OwnItems(phases[k], image)
  {
    seq(|phases|, k requires 0 <= k < |phases| => OwnItems(phases[k], image))
  }

  ghost predicate AllIsolated(phases: seq<seq<Tagged>>, image: nat, part: L.Part, size: nat) {
    forall k :: 0 <= k < |phases| ==> Isolated(phases[k], image, part, size)
  }

  lemma OwnSound(phases: seq<seq<Tagged>>, image: nat, part: L.Part, size: nat)
    requires AllIsolated(phases, image, part, size)
    ensures SoundPhases(OwnPhases(phases, image), size)
  {
    hide Isolated, Independent, ValidItem, OwnItems;
    forall k | 0 <= k < |phases|
      ensures ValidItems(OwnPhases(phases, image)[k], size) && Independent(OwnPhases(phases, image)[k])
    {
      IsolatedIndependent(phases[k], image, part, size);
      OwnValid(phases[k], image, size);
    }
  }

  lemma {:induction false} RaisedThroughout(phases: seq<seq<Tagged>>, runs: seq<seq<BatchState>>, memory: seq<int>,
                                            raised: set<nat>, after: seq<int>, raisedAfter: set<nat>, image: nat)
    requires BatchEnds(phases, runs, memory, raised, after, raisedAfter) && image in raised
    ensures image in raisedAfter
  {
    if phases != [] {
      hide BatchExecution, BatchDone;
      RaisedStays(phases[0], runs[0], |memory|, |runs[0]| - 1, image);
      var last := runs[0][|runs[0]| - 1];
      RaisedThroughout(phases[1..], runs[1..], last.memory, last.raised, after, raisedAfter, image);
    }
  }

  lemma {:induction false} SizeKept(phases: seq<seq<Tagged>>, runs: seq<seq<BatchState>>, memory: seq<int>,
                                    raised: set<nat>, after: seq<int>, raisedAfter: set<nat>)
    requires BatchEnds(phases, runs, memory, raised, after, raisedAfter)
    ensures |after| == |memory|
  {
    if phases != [] {
      hide BatchExecution, BatchDone;
      MemoryKept(phases[0], runs[0], |runs[0]| - 1);
      var last := runs[0][|runs[0]| - 1];
      SizeKept(phases[1..], runs[1..], last.memory, last.raised, after, raisedAfter);
    }
  }

  /** On memories that agree on the image's part its items overflow alike, and leave them agreeing there. */
  lemma RunAlike(items: seq<Item>, one: seq<int>, two: seq<int>, part: L.Part)
    requires L.Agree(one, two, part) && ValidItems(items, |one|)
    requires forall k :: 0 <= k < |items| ==> L.StaysIn(items[k], part)
    ensures |one| == |two| && (Run(items, one).Some? <==> Run(items, two).Some?)
    ensures Run(items, one).Some? ==> L.Agree(Run(items, one).value, Run(items, two).value, part)
  {
    hide Run, L.StaysIn, ValidItem;
    if Run(items, one).Some? {
      RunSame(items, one, two, part);
    }
    if Run(items, two).Some? {
      RunSame(items, two, one, part);
    }
  }

  lemma OwnStay(phase: seq<Tagged>, image: nat, part: L.Part, size: nat)
    requires Isolated(phase, image, part, size)
    ensures forall k :: 0 <= k < |OwnItems(phase, image)| ==> L.StaysIn(OwnItems(phase, image)[k], part)
  {
    hide L.StaysIn, L.Avoids, Owners, OwnItems;
  }

  lemma AgreeChain(x: seq<int>, y: seq<int>, z: seq<int>, part: L.Part)
    requires L.Agree(x, y, part) && L.Agree(y, z, part)
    ensures L.Agree(x, z, part) && |x| == |z|
  {}

  /** One phase of one image, from a memory that need only agree on the image's part. */
  lemma PhaseAlone(phase: seq<Tagged>, states: seq<BatchState>, image: nat, part: L.Part, mine: seq<int>)
    requires |states| > 0 && BatchExecution(phase, states, |states[0].memory|) && BatchDone(states[|states| - 1])
    requires Isolated(phase, image, part, |states[0].memory|) && image !in states[0].raised
    requires L.Agree(states[0].memory, mine, part)
    ensures |mine| == |states[0].memory| && ValidItems(OwnItems(phase, image), |mine|)
    ensures var last := states[|states| - 1]; var own := Run(OwnItems(phase, image), mine);
      && (image in last.raised <==> own.None?)
      && (image !in last.raised ==> L.Agree(last.memory, own.value, part))
  {
    hide BatchExecution, BatchDone, Isolated, Run, OwnItems, L.Agree, L.StaysIn;
    PartAlone(phase, states, image, part);
    OwnStay(phase, image, part, |states[0].memory|);
    var items, last := OwnItems(phase, image), states[|states| - 1];
    RunAlike(items, states[0].memory, mine, part);
    if image !in last.raised {
      AgreeChain(last.memory, Run(items, states[0].memory).value, Run(items, mine).value, part);
    }
  }

  /**
   One image through all phases of a batch: its status word ends raised exactly when its own phases overflow,
   and otherwise its part of memory holds what they leave.
   */
  lemma {:induction false} ImagePhases(phases: seq<seq<Tagged>>, runs: seq<seq<BatchState>>, memory: seq<int>,
                                       raised: set<nat>, after: seq<int>, raisedAfter: set<nat>,
                                       image: nat, part: L.Part, mine: seq<int>)
    requires AllIsolated(phases, image, part, |memory|) && image !in raised && L.Agree(memory, mine, part)
    requires BatchEnds(phases, runs, memory, raised, after, raisedAfter)
    ensures |mine| == |memory| && SoundPhases(OwnPhases(phases, image), |mine|)
    ensures image in raisedAfter <==> RunPhases(OwnPhases(phases, image), mine).None?
    ensures image !in raisedAfter ==> L.Agree(after, RunPhases(OwnPhases(phases, image), mine).value, part)
  {
    OwnSound(phases, image, part, |memory|);
    assert |mine| == |memory|;
    if phases != [] {
      hide BatchExecution, BatchDone, Isolated, Run, OwnItems, SoundPhases, L.Agree;
      PhaseAlone(phases[0], runs[0], image, part, mine);
      var last := runs[0][|runs[0]| - 1];
      assert OwnPhases(phases, image)[1..] == OwnPhases(phases[1..], image);
      MemoryKept(phases[0], runs[0], |runs[0]| - 1);
      if image in last.raised {
        RaisedThroughout(phases[1..], runs[1..], last.memory, last.raised, after, raisedAfter, image);
      } else {
        ImagePhases(phases[1..], runs[1..], last.memory, last.raised, after, raisedAfter,
                    image, part, Run(OwnItems(phases[0], image), mine).value);
      }
    }
  }
}
