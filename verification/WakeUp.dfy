/** The trigger protocol between collections and the sync loop: any number of goroutines call
    TriggerSync while one loop takes requests and lists kubelet's allocations
    (internal/collector/kubernetes.go). Kubelet's state is a version that only grows. */
module WakeUp {
  import opened Options

  datatype Phase =
    | Waiting
    | Taken                 // a request was received, List is not yet called
    | Listing(asOf: nat)    // List was called when kubelet was at this version
    | Stopped

  datatype State = State(kubelet: nat, backlog: nat, phase: Phase, cached: nat, lastSyncOk: bool)

  datatype Step =
    | KubeletChanges
    | Trigger
    | TakeRequest
    | CallList
    | ListReturns(ok: bool, version: nat)
    | Cancel

  const START := State(0, 0, Waiting, 0, false)

  /** One atomic step, None where it cannot be taken. A reply reports the allocations at some
      moment of the call. */
  function Apply(s: State, step: Step): Option<State>
  {
    match step
    case KubeletChanges => Some(s.(kubelet := s.kubelet + 1))
    case Trigger => Some(if s.backlog < 1 then s.(backlog := s.backlog + 1) else s)
    case TakeRequest =>
      if s.phase == Waiting && s.backlog > 0 then Some(s.(backlog := s.backlog - 1, phase := Taken)) else None
    case CallList =>
      if s.phase == Taken then Some(s.(phase := Listing(s.kubelet))) else None
    case ListReturns(ok, version) =>
      if !s.phase.Listing? || !(s.phase.asOf <= version <= s.kubelet) then None
      else if ok then Some(s.(phase := Waiting, cached := version, lastSyncOk := true))
      else Some(s.(phase := Waiting, lastSyncOk := false))
    case Cancel =>
      if s.phase == Waiting then Some(s.(phase := Stopped)) else None
  }

  function Run(steps: seq<Step>): Option<State>
  {
    if steps == [] then Some(START)
    else
      var before := Run(steps[..|steps| - 1]);
      if before.None? then None else Apply(before.value, steps[|steps| - 1])
  }

  lemma {:induction false} PrefixRuns(steps: seq<Step>, i: nat)
    requires Run(steps).Some? && i <= |steps|
    ensures Run(steps[..i]).Some? && Run(steps[..i]).value.kubelet <= Run(steps).value.kubelet
  {
    if i == |steps| {
      assert steps[..i] == steps;
    } else {
      PrefixRuns(steps[..|steps| - 1], i);
      assert steps[..|steps| - 1][..i] == steps[..i];
    }
  }

  lemma {:induction false} BacklogNeverExceedsOne(steps: seq<Step>)
    requires Run(steps).Some?
    ensures Run(steps).value.backlog <= 1
  {
    if steps != [] { BacklogNeverExceedsOne(steps[..|steps| - 1]); }
  }

  /** No wake-up is lost: after a trigger returned, its request is still in the channel, or the
      loop has received one and is about to list, or a List call has started since. */
  lemma {:induction false} NoLostWakeUp(steps: seq<Step>, i: nat)
    requires Run(steps).Some?
    requires i < |steps| && steps[i] == Trigger
    ensures Run(steps).value.backlog == 1 || Run(steps).value.phase == Taken
      || exists j :: i < j < |steps| && steps[j] == CallList
  {
    var earlier := steps[..|steps| - 1];
    BacklogNeverExceedsOne(earlier);
    BacklogNeverExceedsOne(steps);
    if i < |steps| - 1 {
      NoLostWakeUp(earlier, i);
      if j :| i < j < |earlier| && earlier[j] == CallList { assert steps[j] == CallList; }
      assert steps[|steps| - 1] == CallList ==> exists j :: i < j < |steps| && steps[j] == CallList;
    }
  }

  /** What is known of an allocation seen by the trigger at step `i`, in terms of the final state. */
  predicate Covers(s: State, version: nat)
  {
    || s.backlog == 1
    || s.phase == Taken
    || (s.phase.Listing? && version <= s.phase.asOf)
    || ((s.phase == Waiting || s.phase == Stopped) && (s.lastSyncOk ==> version <= s.cached))
  }

  lemma {:induction false} TriggerIsCovered(steps: seq<Step>, i: nat)
    requires Run(steps).Some?
    requires i < |steps| && steps[i] == Trigger
    ensures Run(steps[..i]).Some? && Covers(Run(steps).value, Run(steps[..i]).value.kubelet)
  {
    var earlier := steps[..|steps| - 1];
    PrefixRuns(steps, i);
    PrefixRuns(earlier, |earlier|);
    BacklogNeverExceedsOne(earlier);
    if i < |earlier| {
      TriggerIsCovered(earlier, i);
      assert earlier[..i] == steps[..i];
      PrefixRuns(earlier, i);
    } else {
      assert steps[..i] == earlier;
    }
  }

  /** Whenever the loop is at rest with nothing pending and its last sync succeeded, the cache is
      at least as new as kubelet was at every trigger so far. */
  lemma NoLostUpdate(steps: seq<Step>, i: nat)
    requires Run(steps).Some?
    requires i < |steps| && steps[i] == Trigger
    requires Run(steps).value.phase == Waiting && Run(steps).value.backlog == 0 && Run(steps).value.lastSyncOk
    ensures Run(steps[..i]).Some? && Run(steps[..i]).value.kubelet <= Run(steps).value.cached
  {
    TriggerIsCovered(steps, i);
  }

  lemma {:induction false} ListingIsPast(steps: seq<Step>)
    requires Run(steps).Some?
    ensures Run(steps).value.phase.Listing? ==> Run(steps).value.phase.asOf <= Run(steps).value.kubelet
  {
    if steps != [] { ListingIsPast(steps[..|steps| - 1]); }
  }

  lemma RunThen(steps: seq<Step>, step: Step)
    requires Run(steps).Some?
    ensures Run(steps + [step]) == Apply(Run(steps).value, step)
  {
    assert (steps + [step])[..|steps|] == steps;
  }

  /** The steps that finish the sync under way, if there is one. */
  function Finish(s: State): seq<Step>
  {
    if s.phase == Taken then [CallList, ListReturns(true, s.kubelet)]
    else if s.phase.Listing? then [ListReturns(true, s.kubelet)]
    else []
  }

  /** The loop's own next steps, with every List call succeeding. */
  function Drain(s: State): seq<Step>
  {
    Finish(s) + if s.backlog > 0 then [TakeRequest, CallList, ListReturns(true, s.kubelet)] else []
  }

  lemma FinishRuns(steps: seq<Step>)
    requires Run(steps).Some? && Run(steps).value.phase != Stopped
    ensures var s, all := Run(steps).value, steps + Finish(Run(steps).value);
      && Run(all).Some? && Run(all).value.phase == Waiting
      && Run(all).value.backlog == s.backlog && Run(all).value.kubelet == s.kubelet
      && (Finish(s) != [] ==> Run(all).value.lastSyncOk)
  {
    var s := Run(steps).value;
    ListingIsPast(steps);
    var all := steps;
    if s.phase == Taken { RunThen(all, CallList); all := all + [CallList]; }
    if s.phase == Taken || s.phase.Listing? {
      RunThen(all, ListReturns(true, s.kubelet));
      all := all + [ListReturns(true, s.kubelet)];
    }
    assert all == steps + Finish(s);
  }

  /** The loop's own steps bring it to rest. */
  lemma DrainRuns(steps: seq<Step>)
    requires Run(steps).Some? && Run(steps).value.phase != Stopped
    ensures var s, all := Run(steps).value, steps + Drain(Run(steps).value);
      && |Drain(s)| <= 5
      && Run(all).Some? && Run(all).value.phase == Waiting && Run(all).value.backlog == 0
      && (Drain(s) != [] ==> Run(all).value.lastSyncOk)
  {
    var s := Run(steps).value;
    BacklogNeverExceedsOne(steps);
    FinishRuns(steps);
    var all := steps + Finish(s);
    if s.backlog > 0 {
      RunThen(all, TakeRequest); all := all + [TakeRequest];
      RunThen(all, CallList); all := all + [CallList];
      RunThen(all, ListReturns(true, s.kubelet)); all := all + [ListReturns(true, s.kubelet)];
    }
    assert all == steps + Drain(s);
  }

  /** From every reachable state short of cancellation at most five steps of the loop alone bring
      it to rest with nothing pending and the cache as new as kubelet was at every trigger. */
  lemma DrainRefreshes(steps: seq<Step>, i: nat)
    requires Run(steps).Some? && Run(steps).value.phase != Stopped
    requires i < |steps| && steps[i] == Trigger
    ensures |Drain(Run(steps).value)| <= 5
    ensures var all := steps + Drain(Run(steps).value);
      && Run(all).Some? && Run(all).value.phase == Waiting && Run(all).value.backlog == 0
      && Run(steps[..i]).Some?
      && (Drain(Run(steps).value) != [] ==> Run(all).value.lastSyncOk)
      && (Run(all).value.lastSyncOk ==> Run(steps[..i]).value.kubelet <= Run(all).value.cached)
  {
    var all := steps + Drain(Run(steps).value);
    DrainRuns(steps);
    TriggerIsCovered(all, i);
    assert all[..i] == steps[..i];
  }
}
