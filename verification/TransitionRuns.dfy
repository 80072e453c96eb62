/** What the device records add up to over a whole run of successful collections. */
module TransitionRuns {
  import opened Options
  import opened Devices
  import opened Transitions

  type Run = seq<Collection>

  ghost predicate Regular(run: Run)
  {
    forall k :: 0 <= k < |run| ==> DistinctNames(run[k].devices)
  }

  /** The state a collection reports for a device, if it lists the device. */
  function StateIn(c: Collection, x: string): Option<DeviceState>
  {
    var states := StatesOf(c.devices);
    if x in states then Some(states[x]) else None
  }

  lemma {:induction false} StateInIsListed(devices: seq<DeviceInfo>, x: string)
    requires DistinctNames(devices)
    ensures x in StatesOf(devices) <==> exists d :: d in devices && d.name == x
    ensures forall d :: d in devices && d.name == x ==> x in StatesOf(devices) && StatesOf(devices)[x] == d.devState
  {
    if devices != [] {
      var last := |devices| - 1;
      StateInIsListed(devices[..last], x);
      assert devices == devices[..last] + [devices[last]];
      assert forall d :: d in devices[..last] ==> d.name != devices[last].name;
    }
  }

  function Before(run: Run, k: nat): Tracked
    requires k <= |run|
  {
    if k == 0 then UNTRACKED else After(run[k - 1])
  }

  /** How often a record is written over the whole run. */
  ghost function Total(run: Run, r: Record): nat
  {
    if run == [] then 0
    else Total(run[..|run| - 1], r) + Tally(Before(run, |run| - 1), run[|run| - 1], r)
  }

  // ---------------------------------------------------------------------------------------
  // One collection
  // ---------------------------------------------------------------------------------------

  lemma {:induction false} OnlyOwnRecords(
    prev: States, gone: set<string>, devices: seq<DeviceInfo>, missing: set<string>, d: DeviceInfo, r: Record)
    requires DistinctNames(devices) && d in devices
    requires AboutDevice(r) && r.device == d.name
    ensures DeviceTally(prev, gone, devices, missing, r) == Indicator(Writes(prev, gone, d, missing, r))
  {
    var last := |devices| - 1;
    assert devices == devices[..last] + [devices[last]];
    if d == devices[last] {
      OtherRecordsAreNotTallied(prev, gone, devices[..last], missing, r);
    } else {
      OnlyOwnRecords(prev, gone, devices[..last], missing, d, r);
    }
  }

  /** Whether one collection writes a record, from what was and is known of its device. */
  ghost predicate Writing(t: Tracked, c: Collection, r: Record)
  {
    match r
    case FirstCollectionSucceeded => !t.collectedOnce
    case NoLongerPresent(x) => x in t.states && StateIn(c, x).None?
    case TelemetryUnavailable(x) => StateIn(c, x).Some? && x in c.missing && x !in t.missing
    case TelemetryRecovered(x) => StateIn(c, x).Some? && x !in c.missing && x in t.missing
    case EnteredDegraded(x) => StateIn(c, x) == Some(STATE_FAULT) && !WasFault(t.states, x)
    case Recovered(x) =>
      WasFault(t.states, x) && StateIn(c, x).Some? && StateIn(c, x).value != STATE_FAULT && IsKnown(StateIn(c, x).value)
  }

  /** With distinct names every record is written once or not at all. */
  lemma WrittenOnce(t: Tracked, c: Collection, r: Record)
    requires DistinctNames(c.devices)
    ensures Tally(t, c, r) == Indicator(Writing(t, c, r))
  {
    if AboutDevice(r) {
      StateInIsListed(c.devices, r.device);
      if d :| d in c.devices && d.name == r.device {
        OnlyOwnRecords(t.states, t.missing, c.devices, c.missing, d, r);
      } else {
        OtherRecordsAreNotTallied(t.states, t.missing, c.devices, c.missing, r);
      }
    }
  }

  lemma TotalStep(run: Run, r: Record)
    requires run != [] && Regular(run)
    ensures var last := |run| - 1;
      Total(run, r) == Total(run[..last], r) + Indicator(Writing(Before(run, last), run[last], r))
    ensures Regular(run[..|run| - 1])
  {
    WrittenOnce(Before(run, |run| - 1), run[|run| - 1], r);
  }

  // ---------------------------------------------------------------------------------------
  // Degraded and recovered
  // ---------------------------------------------------------------------------------------

  ghost predicate FaultAt(run: Run, x: string, k: int)
  {
    0 <= k < |run| && StateIn(run[k], x) == Some(STATE_FAULT)
  }

  /** Some known state other than FAULT. */
  ghost predicate HealthyAt(run: Run, x: string, k: int)
  {
    0 <= k < |run| && StateIn(run[k], x).Some? && IsKnown(StateIn(run[k], x).value) && !FaultAt(run, x, k)
  }

  /** Collections a..b-1 report FAULT, and neither neighbour does. */
  ghost predicate FaultRun(run: Run, x: string, a: nat, b: nat)
  {
    && a < b <= |run|
    && (forall k :: a <= k < b ==> FaultAt(run, x, k))
    && !FaultAt(run, x, a - 1) && !FaultAt(run, x, b)
  }

  ghost predicate StartsFaultRun(run: Run, x: string, a: nat)
  {
    exists b: nat :: FaultRun(run, x, a, b)
  }

  ghost predicate StartsHealedRun(run: Run, x: string, a: nat)
  {
    exists b: nat :: FaultRun(run, x, a, b) && HealthyAt(run, x, b)
  }

  /** The maximal FAULT runs of a device, by where they begin. */
  ghost function FaultRuns(run: Run, x: string): set<nat>
  {
    set a: nat | a < |run| && StartsFaultRun(run, x, a)
  }

  ghost function RecoveredRuns(run: Run, x: string): set<nat>
  {
    set a: nat | a < |run| && StartsHealedRun(run, x, a)
  }

  lemma PrefixFault(run: Run, x: string, k: int)
    requires run != [] && k < |run| - 1
    ensures FaultAt(run[..|run| - 1], x, k) <==> FaultAt(run, x, k)
  {
  }

  /** How one more collection changes the maximal FAULT runs. */
  lemma FaultRunsStep(run: Run, x: string)
    requires run != []
    ensures var last := |run| - 1;
      FaultRuns(run, x) == FaultRuns(run[..last], x)
        + if FaultAt(run, x, last) && !FaultAt(run, x, last - 1) then {last} else {}
    ensures var last := |run| - 1;
      RecoveredRuns(run, x) <= FaultRuns(run, x)
  {
    var last := |run| - 1;
    var earlier := run[..last];
    forall k | k < last ensures FaultAt(earlier, x, k) <==> FaultAt(run, x, k) {
      PrefixFault(run, x, k);
    }
    forall a: nat | a in FaultRuns(earlier, x) ensures a in FaultRuns(run, x) {
      var b: nat :| FaultRun(earlier, x, a, b);
      assert FaultRun(run, x, a, if b == last && FaultAt(run, x, last) then b + 1 else b);
    }
    forall a: nat | a in FaultRuns(run, x) && a != last ensures a in FaultRuns(earlier, x) {
      var b: nat :| FaultRun(run, x, a, b);
      assert FaultRun(earlier, x, a, if b == |run| then last else b);
    }
    if FaultAt(run, x, last) && !FaultAt(run, x, last - 1) {
      assert FaultRun(run, x, last, last + 1);
    }
    if last in FaultRuns(run, x) {
      var b: nat :| FaultRun(run, x, last, b);
      assert FaultAt(run, x, last);
    }
  }

  /** Over any run, a device "entered degraded" exactly once per maximal FAULT run. */
  lemma {:induction false} DegradedOncePerFaultRun(run: Run, x: string)
    requires Regular(run)
    ensures Total(run, EnteredDegraded(x)) == |FaultRuns(run, x)|
  {
    if run == [] {
      assert FaultRuns(run, x) == {};
    } else {
      var last := |run| - 1;
      DegradedOncePerFaultRun(run[..last], x);
      FaultRunsStep(run, x);
      TotalStep(run, EnteredDegraded(x));
      if last > 0 { assert FaultAt(run, x, last - 1) <==> WasFault(Before(run, last).states, x); }
    }
  }

  lemma OneRunEndsHere(run: Run, x: string, a: nat, c: nat, b: nat)
    requires FaultRun(run, x, a, b) && FaultRun(run, x, c, b)
    ensures a == c
  {
    assert c < a ==> FaultAt(run, x, a - 1);
    assert a < c ==> FaultAt(run, x, c - 1);
  }

  lemma RecoveredRunsStep(run: Run, x: string)
    requires run != []
    ensures var last := |run| - 1;
      if HealthyAt(run, x, last) && FaultAt(run, x, last - 1)
      then
        var before := RecoveredRuns(run[..last], x);
        exists a: nat :: a !in before && RecoveredRuns(run, x) == before + {a}
      else RecoveredRuns(run, x) == RecoveredRuns(run[..last], x)
  {
    var last := |run| - 1;
    var earlier := run[..last];
    forall k | k < last
      ensures FaultAt(earlier, x, k) <==> FaultAt(run, x, k)
      ensures HealthyAt(earlier, x, k) <==> HealthyAt(run, x, k)
    {
      PrefixFault(run, x, k);
    }
    forall a: nat | a in RecoveredRuns(earlier, x) ensures a in RecoveredRuns(run, x) {
      var b: nat :| FaultRun(earlier, x, a, b) && HealthyAt(earlier, x, b);
      assert FaultRun(run, x, a, b) && HealthyAt(run, x, b);
    }
    forall a: nat | a in RecoveredRuns(run, x) && !FaultRun(run, x, a, last) ensures a in RecoveredRuns(earlier, x) {
      var b: nat :| FaultRun(run, x, a, b) && HealthyAt(run, x, b);
      assert FaultRun(earlier, x, a, b) && HealthyAt(earlier, x, b);
    }
    if HealthyAt(run, x, last) && FaultAt(run, x, last - 1) {
      var a := FaultRunEndingAt(run, x, last);
      assert a !in RecoveredRuns(earlier, x);
      forall c: nat | FaultRun(run, x, c, last) ensures c == a {
        OneRunEndsHere(run, x, a, c, last);
      }
      assert RecoveredRuns(run, x) == RecoveredRuns(earlier, x) + {a};
    } else {
      forall a: nat | a in RecoveredRuns(run, x) ensures !FaultRun(run, x, a, last) {
        var b: nat :| FaultRun(run, x, a, b) && HealthyAt(run, x, b);
        assert FaultRun(run, x, a, last) ==> FaultAt(run, x, last - 1);
        assert FaultRun(run, x, a, last) && b < last ==> FaultAt(run, x, b);
      }
    }
  }

  /** Going back from a FAULT to where its run began. */
  lemma {:induction false} FaultRunEndingAt(run: Run, x: string, b: nat) returns (a: nat)
    requires 0 < b <= |run| && FaultAt(run, x, b - 1) && !FaultAt(run, x, b)
    ensures FaultRun(run, x, a, b)
  {
    a := b - 1;
    while FaultAt(run, x, a - 1)
      invariant a < b && forall k :: a <= k < b ==> FaultAt(run, x, k)
      decreases a
    {
      a := a - 1;
    }
  }

  /** It "recovered" exactly once per FAULT run immediately followed by a known state other than
      FAULT. A run that ends in an unknown state or in the device's absence is not recovered
      from, whatever comes later. */
  lemma {:induction false} RecoveredOncePerHealedRun(run: Run, x: string)
    requires Regular(run)
    ensures Total(run, Recovered(x)) == |RecoveredRuns(run, x)|
  {
    if run == [] {
      assert RecoveredRuns(run, x) == {};
    } else {
      var last := |run| - 1;
      RecoveredOncePerHealedRun(run[..last], x);
      RecoveredRunsStep(run, x);
      TotalStep(run, Recovered(x));
      if last > 0 { assert FaultAt(run, x, last - 1) <==> WasFault(Before(run, last).states, x); }
    }
  }

  // ---------------------------------------------------------------------------------------
  // Presence
  // ---------------------------------------------------------------------------------------

  /** The collections that miss a device the one before still listed. */
  ghost function Disappearances(run: Run, x: string): set<nat>
  {
    set k: nat | 0 < k < |run| && StateIn(run[k - 1], x).Some? && StateIn(run[k], x).None?
  }

  lemma DisappearancesStep(run: Run, x: string)
    requires run != []
    ensures var last := |run| - 1;
      Disappearances(run, x) == Disappearances(run[..last], x) +
        if last > 0 && StateIn(run[last - 1], x).Some? && StateIn(run[last], x).None? then {last} else {}
  {
  }

  lemma {:induction false} GoneOncePerDisappearance(run: Run, x: string)
    requires Regular(run)
    ensures Total(run, NoLongerPresent(x)) == |Disappearances(run, x)|
  {
    if run == [] {
      assert Disappearances(run, x) == {};
    } else {
      var last := |run| - 1;
      GoneOncePerDisappearance(run[..last], x);
      TotalStep(run, NoLongerPresent(x));
      DisappearancesStep(run, x);
    }
  }

  lemma {:induction false} FirstSuccessIsReportedOnce(run: Run)
    requires Regular(run)
    ensures Total(run, FirstCollectionSucceeded) == if run == [] then 0 else 1
  {
    if run != [] {
      FirstSuccessIsReportedOnce(run[..|run| - 1]);
      TotalStep(run, FirstCollectionSucceeded);
    }
  }

  // ---------------------------------------------------------------------------------------
  // Telemetry
  // ---------------------------------------------------------------------------------------

  ghost predicate WrittenAt(run: Run, k: nat, r: Record)
    requires k < |run|
  {
    Tally(Before(run, k), run[k], r) > 0
  }

  ghost predicate WrittenBetween(run: Run, i: nat, j: nat, r: Record)
    requires j < |run|
  {
    exists k :: i < k < j && WrittenAt(run, k, r)
  }

  function TelemetryRecord(x: string, unavailable: bool): Record
  {
    if unavailable then TelemetryUnavailable(x) else TelemetryRecovered(x)
  }

  /** A collection lists a device without telemetry, and the one before did not report it missing. */
  ghost predicate LostAt(run: Run, x: string, k: nat)
  {
    k < |run| && StateIn(run[k], x).Some? && x in run[k].missing && (k == 0 || x !in run[k - 1].missing)
  }

  /** A collection lists a device with telemetry, and the one before reported it missing. */
  ghost predicate BackAt(run: Run, x: string, k: nat)
  {
    0 < k < |run| && StateIn(run[k], x).Some? && x !in run[k].missing && x in run[k - 1].missing
  }

  ghost function Losses(run: Run, x: string): set<nat>
  {
    set k: nat | k < |run| && LostAt(run, x, k)
  }

  ghost function Returns(run: Run, x: string): set<nat>
  {
    set k: nat | k < |run| && BackAt(run, x, k)
  }

  lemma EdgesStep(run: Run, x: string)
    requires run != []
    ensures var last := |run| - 1;
      Losses(run, x) == Losses(run[..last], x) + if LostAt(run, x, last) then {last} else {}
    ensures var last := |run| - 1;
      Returns(run, x) == Returns(run[..last], x) + if BackAt(run, x, last) then {last} else {}
  {
    var earlier := run[..|run| - 1];
    forall k: nat | k < |earlier|
      ensures LostAt(earlier, x, k) <==> LostAt(run, x, k)
      ensures BackAt(earlier, x, k) <==> BackAt(run, x, k)
    {
      assert earlier[k] == run[k] && (k > 0 ==> earlier[k - 1] == run[k - 1]);
    }
  }

  lemma {:induction false} UnavailableOncePerLoss(run: Run, x: string)
    requires Regular(run)
    ensures Total(run, TelemetryUnavailable(x)) == |Losses(run, x)|
  {
    if run == [] {
      assert Losses(run, x) == {};
    } else {
      var last := |run| - 1;
      UnavailableOncePerLoss(run[..last], x);
      TotalStep(run, TelemetryUnavailable(x));
      EdgesStep(run, x);
    }
  }

  lemma {:induction false} RecoveredOncePerReturn(run: Run, x: string)
    requires Regular(run)
    ensures Total(run, TelemetryRecovered(x)) == |Returns(run, x)|
  {
    if run == [] {
      assert Returns(run, x) == {};
    } else {
      var last := |run| - 1;
      RecoveredOncePerReturn(run[..last], x);
      TotalStep(run, TelemetryRecovered(x));
      EdgesStep(run, x);
    }
  }

  /** While a device stays listed, its "telemetry unavailable" and "telemetry recovered" records
      alternate: between two of one kind there is one of the other. */
  lemma TelemetryAlternates(run: Run, x: string, i: nat, j: nat, unavailable: bool)
    requires Regular(run) && i < j < |run|
    requires forall k :: i <= k <= j ==> StateIn(run[k], x).Some?
    requires WrittenAt(run, i, TelemetryRecord(x, unavailable)) && WrittenAt(run, j, TelemetryRecord(x, unavailable))
    ensures WrittenBetween(run, i, j, TelemetryRecord(x, !unavailable))
  {
    WrittenOnce(Before(run, i), run[i], TelemetryRecord(x, unavailable));
    WrittenOnce(Before(run, j), run[j], TelemetryRecord(x, unavailable));
    // Just after i the device is on one side of the edge, just before j on the other.
    var k := i + 1;
    while (x in run[k].missing) == unavailable
      invariant i < k < j
      invariant (x in run[k - 1].missing) == unavailable
      decreases j - k
    {
      k := k + 1;
    }
    WrittenOnce(Before(run, k), run[k], TelemetryRecord(x, !unavailable));
    assert WrittenAt(run, k, TelemetryRecord(x, !unavailable));
  }
}
