/**
 Runs of a batch that raise no status word. An error-free run of the plain machine on the items of all images is
 one of them, so a batch whose planes all complete by themselves has such a run.
 */
module BatchLift {
  import opened Wrappers
  import opened Memory
  import opened Phases
  import opened Orders
  import opened Device
  import opened Batch
  import opened Isolation
  import opened Launches
  import J = JobRaces
  import L = Locality

  // ---- Plain runs ----

  /** The plain machine never clears its status word. */
  lemma {:induction false} FailedStays(items: seq<Item>, states: seq<State>, size: nat, i: nat, j: nat)
    requires Execution(items, states, size) && i <= j < |states| && states[i].failed
    ensures states[j].failed
  {
    if i < j {
      FailedStays(items, states, size, i, j - 1);
      assert Advances(items, states[j - 1], states[j], size);
      var t: nat :| t < |items| && Step(items, states[j - 1], states[j], t);
    }
  }

  ghost function Unraised(states: seq<State>): (lifted: seq<BatchState>)
    ensures |lifted| == |states|
    ensures forall i :: 0 <= i < |states| ==> lifted[i] == BatchState(states[i].memory, {}, states[i].threads)
  {
    seq(|states|, i requires 0 <= i < |states| => BatchState(states[i].memory, {}, states[i].threads))
  }

  lemma StepLifted(phase: seq<Tagged>, s: State, s': State, size: nat)
    requires ValidItems(Untagged(phase), size) && Advances(Untagged(phase), s, s', size) && !s.failed && !s'.failed
    ensures BatchAdvances(phase, BatchState(s.memory, {}, s.threads), BatchState(s'.memory, {}, s'.threads), size)
  {
    hide ValidItem, Step;
    var t: nat :| t < |phase| && Step(Untagged(phase), s, s', t);
    var b, b' := BatchState(s.memory, {}, s.threads), BatchState(s'.memory, {}, s'.threads);
    assert View(b, phase[t].image) == s && View(b', phase[t].image) == s';
    assert BatchStep(phase, b, b', t);
  }

  /** An error-free execution is one of the batch machine, whoever the items belong to. */
  lemma ExecutionLifted(phase: seq<Tagged>, states: seq<State>, size: nat)
    requires Execution(Untagged(phase), states, size) && !Last(states).failed
    ensures BatchExecution(phase, Unraised(states), size)
    ensures AllDone(Last(states)) ==> BatchDone(Unraised(states)[|states| - 1])
  {
    var items := Untagged(phase);
    forall i | 0 <= i < |states|
      ensures !states[i].failed
    {
      if states[i].failed {
        FailedStays(items, states, size, i, |states| - 1);
      }
    }
    hide ValidItem, Advances, BatchAdvances;
    forall i | 0 <= i < |states| - 1
      ensures BatchAdvances(phase, Unraised(states)[i], Unraised(states)[i + 1], size)
    {
      StepLifted(phase, states[i], states[i + 1], size);
    }
  }

  lemma {:induction false} EndsLifted(phases: seq<seq<Tagged>>, items: seq<seq<Item>>, runs: seq<seq<State>>,
                                      memory: seq<int>, after: seq<int>) returns (lifted: seq<seq<BatchState>>)
    requires |items| == |phases| && forall i :: 0 <= i < |phases| ==> items[i] == Untagged(phases[i])
    requires Ends(items, runs, memory, Some(after))
    ensures BatchEnds(phases, lifted, memory, {}, after, {})
  {
    if phases == [] {
      lifted := [];
    } else {
      hide Execution, BatchExecution, AllDone, BatchDone;
      var last := Last(runs[0]);
      ExecutionLifted(phases[0], runs[0], |memory|);
      var rest := EndsLifted(phases[1..], items[1..], runs[1..], last.memory, after);
      lifted := [Unraised(runs[0])] + rest;
      assert lifted[1..] == rest;
    }
  }

  // ---- Launches whose planes complete ----

  /** All planes given to one image. */
  ghost function OneImage(n: nat): (images: seq<nat>)
    ensures |images| == n && forall k :: 0 <= k < n ==> images[k] == 0
  {
    seq(n, _ => 0)
  }

  lemma {:induction false} OwnOrderAll(order: seq<nat>, n: nat)
    requires Within(order, n)
    ensures OwnOrder(order, OneImage(n), 0) == order
  {
    if order != [] {
      OwnOrderAll(order[..|order| - 1], n);
      assert order == order[..|order| - 1] + [order[|order| - 1]];
    }
  }

  /** What the items of all images are in a phase. */
  lemma PhaseItems(launches: seq<Launch>, ps: seq<Placement>, images: seq<nat>, size: nat, i: nat)
    requires AllValid(launches, ps, size) && |images| == |ps| && i < |launches|
    ensures OwnPhases(AllThreads(launches, ps, OneImage(|ps|), size), 0)[i] == Untagged(AllThreads(launches, ps, images, size)[i])
  {
    hide AllOwn, Threads, OwnItems, OwnOrder, Dispatch, OneImage;
    assert ValidLaunch(launches[i], ps, size);
    Launches.OwnThreads(launches[i].lists, OneImage(|ps|), launches[i].order, 0);
    OwnOrderAll(launches[i].order, |ps|);
    ThreadsUntagged(launches[i].lists, images, launches[i].order);
  }

  /** Launches of independent items whose planes complete by themselves have a run that raises nothing. */
  lemma CompletedRuns(launches: seq<Launch>, ps: seq<Placement>, images: seq<nat>, memory: seq<int>)
    returns (runs: seq<seq<BatchState>>, after: seq<int>)
    requires AllValid(launches, ps, |memory|) && |images| == |ps| && Apart(ps)
    requires OwnIndependent(launches, OneImage(|ps|), 0)
    requires forall k :: 0 <= k < |ps| ==> Alone(launches, ps, memory, k).Some?
    ensures BatchEnds(AllThreads(launches, ps, images, |memory|), runs, memory, {}, after, {})
  {
    hide Run, RunPhases, L.Agree, PartOfImage, Isolated, ValidLaunch, Apart, HoldsAlone, ValidItem, Independent, Alone,
         Joined, OwnLaunches, OneImage, Ends, BatchEnds;
    var one := OneImage(|ps|);
    var phases, part := AllThreads(launches, ps, one, |memory|), PartOfImage(ps, one, 0);
    forall i | 0 <= i < |phases|
      ensures Isolated(phases[i], 0, part, |memory|)
    {
      LaunchIndependent(launches, ps, one, 0, |memory|, i);
      LaunchIsolated(launches[i], ps, one, 0, |memory|);
    }
    OwnSound(phases, 0, part, |memory|);
    hide SoundPhases;
    PhasesJoined(OwnPhases(phases, 0), memory);
    OwnJoined(launches, ps, one, 0, |memory|);
    OwnAlone(launches, ps, one, 0, memory, memory);
    var plain := J.RunsExist(OwnPhases(phases, 0), memory);
    after := RunPhases(OwnPhases(phases, 0), memory).value;
    forall i | 0 <= i < |launches|
      ensures OwnPhases(phases, 0)[i] == Untagged(AllThreads(launches, ps, images, |memory|)[i])
    {
      PhaseItems(launches, ps, images, |memory|, i);
    }
    runs := EndsLifted(AllThreads(launches, ps, images, |memory|), OwnPhases(phases, 0), plain, memory, after);
  }
}
