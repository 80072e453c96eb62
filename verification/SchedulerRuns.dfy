/** What the scheduler's records add up to over any run of cycles
    (internal/scheduler/scheduler.go, runCycle and logWaiting). */
module SchedulerRuns {
  import opened Options

  /** Ten minutes, in nanoseconds. */
  const DAEMON_WAIT_WARN_AFTER := 10 * 60 * 1_000_000_000

  datatype Record =
    | Waiting(warn: bool)
    | CollectionFailed(consecutiveFailures: nat)
    | CollectionRecovered(failedCycles: nat)

  /** One cycle: whether it succeeded, and what the clock shows if it is read. */
  datatype Cycle = Cycle(ok: bool, now: int)

  type Run = seq<Cycle>

  predicate Succeeded(run: Run)
  {
    exists c :: c in run && c.ok
  }

  /** The failures since the last success; those before the first one are not counted. */
  function Streak(run: Run): nat
  {
    if run == [] || run[|run| - 1].ok || !Succeeded(run) then 0 else Streak(run[..|run| - 1]) + 1
  }

  /** When the start-up wait began: the first time read that is not the zero time. */
  function WaitStart(run: Run): int
  {
    if run == [] then 0
    else
      var before := WaitStart(run[..|run| - 1]);
      if before != 0 || Succeeded(run) then before else run[|run| - 1].now
  }

  /** The record of the last cycle. */
  function RecordOf(run: Run): Option<Record>
    requires run != []
  {
    var before, c := run[..|run| - 1], run[|run| - 1];
    if c.ok then if Streak(before) > 0 then Some(CollectionRecovered(Streak(before))) else None
    else if Succeeded(before) then Some(CollectionFailed(Streak(before) + 1))
    else Some(Waiting(c.now - WaitStart(run) >= DAEMON_WAIT_WARN_AFTER))
  }

  function LogOf(run: Run): seq<Record>
  {
    if run == [] then []
    else
      var r := RecordOf(run);
      LogOf(run[..|run| - 1]) + if r.Some? then [r.value] else []
  }

  lemma LogStep(run: Run, c: Cycle)
    ensures (run + [c])[..|run|] == run
    ensures Succeeded(run + [c]) <==> Succeeded(run) || c.ok
    ensures Streak(run + [c]) == if c.ok || !Succeeded(run) then 0 else Streak(run) + 1
    ensures WaitStart(run + [c]) == if WaitStart(run) != 0 || Succeeded(run) || c.ok then WaitStart(run) else c.now
    ensures var r := RecordOf(run + [c]); LogOf(run + [c]) == LogOf(run) + if r.Some? then [r.value] else []
  {
    var all := run + [c];
    assert all[..|run|] == run && all[|run|] == c;
    assert c in all;
    assert forall x :: x in all <==> x in run || x == c;
  }

  // ---------------------------------------------------------------------------------------
  // No failure is lost
  // ---------------------------------------------------------------------------------------

  function LostCycles(log: seq<Record>): nat
  {
    if log == [] then 0
    else
      LostCycles(log[..|log| - 1])
      + match log[|log| - 1] case CollectionRecovered(n) => n case _ => 0
  }

  ghost predicate FailsAfterSuccess(run: Run, k: nat)
  {
    k < |run| && !run[k].ok && Succeeded(run[..k])
  }

  ghost function FailuresAfterSuccess(run: Run): set<nat>
  {
    set k | 0 <= k < |run| && FailsAfterSuccess(run, k)
  }

  /** What the recovery records report, and the streak still running, is every failure after the
      first success. */
  lemma {:induction false} FailuresAreConserved(run: Run)
    ensures LostCycles(LogOf(run)) + Streak(run) == |FailuresAfterSuccess(run)|
  {
    if run == [] {
      assert FailuresAfterSuccess(run) == {};
    } else {
      var last := |run| - 1;
      var before := run[..last];
      FailuresAreConserved(before);
      FailuresStep(before, run[last]);
      LogStep(before, run[last]);
      assert run == before + [run[last]];
      LostStep(LogOf(before), RecordOf(run));
    }
  }

  lemma FailuresStep(run: Run, c: Cycle)
    ensures |FailuresAfterSuccess(run + [c])| == |FailuresAfterSuccess(run)| + if !c.ok && Succeeded(run) then 1 else 0
  {
    var all := run + [c];
    assert all[..|run|] == run;
    forall k | 0 <= k < |run| ensures FailsAfterSuccess(all, k) <==> FailsAfterSuccess(run, k) {
      assert all[..k] == run[..k];
    }
    assert FailuresAfterSuccess(all) ==
      FailuresAfterSuccess(run) + if FailsAfterSuccess(all, |run|) then {|run|} else {};
  }

  lemma LostStep(log: seq<Record>, r: Option<Record>)
    ensures LostCycles(log + if r.Some? then [r.value] else []) == LostCycles(log) +
      if r.Some? && r.value.CollectionRecovered? then r.value.failedCycles else 0
  {
    if r.Some? {
      assert (log + [r.value])[..|log|] == log;
    } else {
      assert log + [] == log;
    }
  }

  /** The k-th failure of an outage says so: a failure record carries the length of the stretch of
      failures it ends, back to the last success. */
  lemma {:induction false} StreakIsOutage(run: Run)
    ensures Streak(run) <= |run|
    ensures forall k :: |run| - Streak(run) <= k < |run| ==> !run[k].ok
    ensures Succeeded(run) ==> Streak(run) < |run| && run[|run| - 1 - Streak(run)].ok
  {
    if run != [] && !run[|run| - 1].ok && Succeeded(run) {
      var last := |run| - 1;
      assert run == run[..last] + [run[last]];
      LogStep(run[..last], run[last]);
      StreakIsOutage(run[..last]);
    } else if run != [] && run[|run| - 1].ok {
      assert run[|run| - 1] in run;
    }
  }

  /** Exactly the last n cycles of the run fail, and the one before them succeeded. */
  ghost predicate OutageOf(run: Run, n: nat)
  {
    && n < |run| && run[|run| - 1 - n].ok
    && forall k :: |run| - n <= k < |run| ==> !run[k].ok
  }

  /** In an outage of n cycles, one more failure is recorded as the (n+1)-th and a success as the
      recovery from n lost cycles; a success without an outage, or the first one, writes nothing. */
  lemma RecordsCarryTheOutage(run: Run, c: Cycle, n: nat)
    ensures OutageOf(run, n) && !c.ok ==> LogOf(run + [c]) == LogOf(run) + [CollectionFailed(n + 1)]
    ensures OutageOf(run, n) && c.ok ==> LogOf(run + [c]) == LogOf(run) + if n > 0 then [CollectionRecovered(n)] else []
    ensures !Succeeded(run) && c.ok ==> LogOf(run + [c]) == LogOf(run)
  {
    LogStep(run, c);
    if OutageOf(run, n) {
      assert run[|run| - 1 - n] in run;
      StreakIsOutage(run);
      assert Streak(run) == n;
    }
  }

  // ---------------------------------------------------------------------------------------
  // The start-up wait
  // ---------------------------------------------------------------------------------------

  /** Until the first success each cycle writes exactly one waiting record. */
  lemma WaitIsLogged(run: Run)
    requires !Succeeded(run)
    ensures |LogOf(run)| == |run|
    ensures forall k :: 0 <= k < |run| ==>
      LogOf(run)[k] == Waiting(run[k].now - WaitStart(run[..k + 1]) >= DAEMON_WAIT_WARN_AFTER)
  {
    WaitIsLoggedAt(run, 0);
    forall k | 0 <= k < |run|
      ensures LogOf(run)[k] == Waiting(run[k].now - WaitStart(run[..k + 1]) >= DAEMON_WAIT_WARN_AFTER)
    {
      WaitIsLoggedAt(run, k);
    }
  }

  lemma {:induction false} WaitIsLoggedAt(run: Run, k: nat)
    requires !Succeeded(run)
    ensures |LogOf(run)| == |run|
    ensures k < |run| ==> LogOf(run)[k] == Waiting(run[k].now - WaitStart(run[..k + 1]) >= DAEMON_WAIT_WARN_AFTER)
  {
    if run != [] {
      var last := |run| - 1;
      var before := run[..last];
      assert run == before + [run[last]] && run[last] in run;
      OneWaitLogged(before, run[last]);
      WaitIsLoggedAt(before, k);
      assert k < last ==> before[..k + 1] == run[..k + 1];
      assert run[..last + 1] == run;
    }
  }

  lemma OneWaitLogged(run: Run, c: Cycle)
    requires !Succeeded(run + [c])
    ensures LogOf(run + [c]) == LogOf(run) + [Waiting(c.now - WaitStart(run + [c]) >= DAEMON_WAIT_WARN_AFTER)]
    ensures !Succeeded(run)
  {
    LogStep(run, c);
  }

  /** Once a cycle has succeeded no waiting record is written again: the waiting records are the
      log of the cycles before the first success, and nothing else. */
  lemma {:induction false} NoWaitAfterSuccess(run: Run, p: nat)
    requires p <= |run| && !Succeeded(run[..p]) && (p < |run| ==> run[p].ok)
    ensures LogOf(run[..p]) <= LogOf(run)
    ensures forall k :: |LogOf(run[..p])| <= k < |LogOf(run)| ==> !LogOf(run)[k].Waiting?
  {
    if p == |run| {
      assert run[..p] == run;
    } else {
      var last := |run| - 1;
      var before := run[..last];
      assert run == before + [run[last]] && before[..p] == run[..p];
      LogStep(before, run[last]);
      NoWaitAfterSuccess(before, p);
      if p < last { assert run[p] in before; }
    }
  }

  ghost predicate MonotoneClock(run: Run)
  {
    forall i, j :: 0 <= i <= j < |run| ==> run[i].now <= run[j].now
  }

  lemma {:induction false} WaitStartSticks(run: Run, i: nat)
    requires i <= |run| && WaitStart(run[..i]) != 0
    ensures WaitStart(run) == WaitStart(run[..i])
  {
    if i == |run| {
      assert run[..i] == run;
    } else {
      assert run[..|run| - 1][..i] == run[..i];
      WaitStartSticks(run[..|run| - 1], i);
    }
  }

  /** Under a clock that does not step back, the wait turns from info to warn at most once. */
  lemma WaitEscalatesOnce(run: Run, i: nat, j: nat)
    requires !Succeeded(run) && MonotoneClock(run)
    requires i <= j < |run|
    ensures |LogOf(run)| == |run|
    ensures LogOf(run)[i] == Waiting(true) ==> LogOf(run)[j] == Waiting(true)
  {
    WaitIsLogged(run);
    if LogOf(run)[i] == Waiting(true) {
      var upto := run[..i + 1];
      assert upto[|upto| - 1] == run[i];
      assert run[..j + 1][..i + 1] == upto;
      WaitStartSticks(run[..j + 1], i + 1);
    }
  }

  /** The clock first shows something other than the zero time at cycle z, or at none. */
  ghost predicate FirstReading(run: Run, z: nat)
  {
    && z <= |run|
    && (forall i :: 0 <= i < z ==> run[i].now == 0)
    && (z < |run| ==> run[z].now != 0)
  }

  lemma {:induction false} WaitStartIsFirstReading(run: Run, z: nat)
    requires !Succeeded(run) && FirstReading(run, z)
    ensures WaitStart(run) == if z < |run| then run[z].now else 0
  {
    if run != [] {
      var before := run[..|run| - 1];
      assert forall c :: c in before ==> c in run;
      WaitStartIsFirstReading(before, if z <= |before| then z else |before|);
    }
  }

  /** For every clock, the wait is measured from the first reading that is not the zero time: a
      failure ten minutes after that one is a warning, and no other is. */
  lemma WaitIsMeasuredFromFirstReading(run: Run, z: nat, k: nat)
    requires !Succeeded(run) && FirstReading(run, z) && k < |run|
    ensures |LogOf(run)| == |run|
    ensures LogOf(run)[k] == Waiting(z <= k && run[k].now - run[z].now >= 600_000_000_000)
  {
    WaitIsLoggedAt(run, k);
    var upto := run[..k + 1];
    assert forall c :: c in upto ==> c in run;
    WaitStartIsFirstReading(upto, if z <= k then z else k + 1);
  }
}
