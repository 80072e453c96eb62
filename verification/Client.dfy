/** The collection client (internal/daemon/client.go): one object that serializes its collections,
    remembers the last successful one, and logs only what changed. */
module Client {
  import opened Options
  import opened Devices
  import opened Transitions
  import opened TransitionRuns
  import V0 = CollectV0
  import V1 = CollectV1

  // ---------------------------------------------------------------------------------------
  // Supplementing v1 states from v0
  // ---------------------------------------------------------------------------------------

  /** The v0 lookup made when a v1 daemon leaves some state unspecified. */
  type Lookup = V0.Stream<V0.LegacyInfo>

  predicate Needed(devices: seq<DeviceInfo>)
  {
    exists d :: d in devices && d.devState == STATE_UNSPECIFIED
  }

  function LookupError(lookup: Lookup): Option<Code>
  {
    match lookup
    case NotOpened(code) => Some(code)
    case Stream(_, error) => error
  }

  /** The lookup is made and fails with anything but "not implemented". */
  predicate LookupFails(devices: seq<DeviceInfo>, lookup: Lookup)
  {
    Needed(devices) && LookupError(lookup).Some? && LookupError(lookup) != Some(Unimplemented)
  }

  /** One device after the lookup. Only an unspecified state can change, and nothing else about
      the device but whether its collection succeeded. */
  function Supplemented(d: DeviceInfo, lookup: Lookup): DeviceInfo
  {
    if d.devState != STATE_UNSPECIFIED || LookupError(lookup) == Some(Unimplemented) then d
    else if LookupError(lookup).None? && d.name in V0.InfoTable(lookup.records) then
      d.(devState := V0.LegacyState(V0.InfoTable(lookup.records)[d.name].devStatus))
    else d.(collectionSucceeded := false)
  }

  function SupplementedAll(devices: seq<DeviceInfo>, lookup: Lookup): seq<DeviceInfo>
  {
    seq(|devices|, i requires 0 <= i < |devices| => Supplemented(devices[i], lookup))
  }

  /** All that differs is the state, where it was unspecified, and whether collection succeeded,
      which only turns false. */
  predicate Refines(before: DeviceInfo, after: DeviceInfo)
  {
    && after == before.(devState := after.devState, collectionSucceeded := after.collectionSucceeded)
    && (before.devState != STATE_UNSPECIFIED ==> after == before)
    && (after.collectionSucceeded ==> before.collectionSucceeded)
  }

  lemma SupplementedRefines(d: DeviceInfo, lookup: Lookup)
    ensures Refines(d, Supplemented(d, lookup))
  {
  }

  /** Known states and those of a later enum version survive the lookup; a failed lookup changes no
      state, whatever records came before its error, and one that is not implemented nothing. */
  lemma SupplementKeepsWhatIsKnown(devices: seq<DeviceInfo>, lookup: Lookup)
    ensures var out := SupplementedAll(devices, lookup);
      forall i :: 0 <= i < |devices| ==> Refines(devices[i], out[i])
    ensures LookupError(lookup) == Some(Unimplemented) || !Needed(devices) ==>
      SupplementedAll(devices, lookup) == devices
    ensures LookupError(lookup).Some? ==>
      SupplementedAll(devices, lookup) == SupplementedAll(devices, V0.NotOpened(LookupError(lookup).value))
    ensures LookupError(lookup).Some? ==>
      forall i :: 0 <= i < |devices| ==> SupplementedAll(devices, lookup)[i].devState == devices[i].devState
  {
    if !Needed(devices) || LookupError(lookup) == Some(Unimplemented) {
      NothingToSupplement(devices, lookup);
    }
  }

  /** A device is left unspecified exactly when it was and no record of a complete lookup gives it
      a known status. */
  lemma StateAfterLookup(d: DeviceInfo, lookup: Lookup)
    ensures Supplemented(d, lookup).devState == STATE_UNSPECIFIED <==>
      d.devState == STATE_UNSPECIFIED
      && (LookupError(lookup).None? && d.name in V0.InfoTable(lookup.records) ==>
            !(0 <= V0.InfoTable(lookup.records)[d.name].devStatus <= 4))
  {
    assert Supplemented(d, lookup).devState == STATE_UNSPECIFIED ==> d.devState == STATE_UNSPECIFIED;
  }

  // ---------------------------------------------------------------------------------------
  // The client
  // ---------------------------------------------------------------------------------------

  datatype Api = NoApi | ApiV1 | ApiV0

  datatype ClientOptions = ClientOptions(metricGroupID: string, createMetricGroup: bool)

  /** Everything the daemon and the host may answer during one GetDeviceInfo call. */
  datatype Answers = Answers(v1: V1.V1Daemon, v0: V0.V0Daemon, lookup: Lookup)

  /** How a call arrived at its devices: over v1, which listed `listed` before the lookup, or over
      v0 because v1 is not implemented. */
  datatype Origin = OverV1(listed: seq<DeviceInfo>) | OverV0

  /** One call with everything that accounts for its result: `source` is what the v1 loop ran on,
      `missing` the devices without telemetry, `sampled` whether samples were requested. */
  datatype Call = Call(
    answers: Answers,
    result: Result<seq<DeviceInfo>>,
    sampled: bool,
    origin: Origin,
    source: V1.Source,
    missing: set<string>)

  /** What v1 gives under these options. */
  ghost predicate V1Gives(a: Answers, options: ClientOptions, s: V1.Source, result: V1.Gathering)
  {
    V1.Gives(a.v1, options.metricGroupID, options.createMetricGroup, s, result)
  }

  ghost predicate Gathered(
    a: Answers, options: ClientOptions, origin: Origin, s: V1.Source, devices: seq<DeviceInfo>, missing: set<string>)
  {
    match origin
    case OverV1(listed) => V1Gives(a, options, s, Ok((listed, missing))) && devices == SupplementedAll(listed, a.lookup)
    case OverV0 => V1Gives(a, options, s, Err(Unimplemented)) && a.v0.Gives(Ok((devices, missing)))
  }

  /** Why a call may fail: v1 fails with anything but "not implemented", or v0 fails after it. */
  ghost predicate CallFails(a: Answers, options: ClientOptions, s: V1.Source, code: Code)
  {
    || (code != Unimplemented && V1Gives(a, options, s, Err(code)))
    || (V1Gives(a, options, s, Err(Unimplemented)) && a.v0.Gives(Err(code)))
  }

  /** The answers account for the result; samples were requested only from a vetted group, and for
      every v1 result with devices. */
  ghost predicate Explained(options: ClientOptions, c: Call)
  {
    && (c.sampled ==> V1.GroupWasVetted(c.answers.v1.groups, options.metricGroupID, options.createMetricGroup))
    && (c.result.Ok? && c.origin.OverV1? && c.source.entries != [] ==> c.sampled)
    && match c.result
       case Ok(devices) => Gathered(c.answers, options, c.origin, c.source, devices, c.missing)
       case Err(code) => CallFails(c.answers, options, c.source, code)
  }

  /** The answers determine the result: under the same options two calls that receive the same
      answers return the same devices, over the same API, or the same error. */
  lemma ExplainedOnce(options: ClientOptions, c: Call, c': Call)
    requires Explained(options, c) && Explained(options, c') && c.answers == c'.answers
    ensures c.result == c'.result
    ensures c.result.Ok? ==> c.origin == c'.origin && c.missing == c'.missing
  {
    var r, r0 := Paths(options, c);
    var r', r0' := Paths(options, c');
    V1.GivesOnce(c.answers.v1, options.metricGroupID, options.createMetricGroup, c.source, r, c'.source, r');
    if r == Err(Unimplemented) { V0.GivesOnce(c.answers.v0, r0, r0'); }
  }

  /** What the two paths of an explained call gave. */
  lemma Paths(options: ClientOptions, c: Call) returns (v1: V1.Gathering, v0: V1.Gathering)
    requires Explained(options, c)
    ensures V1Gives(c.answers, options, c.source, v1)
    ensures v1 == Err(Unimplemented) ==> c.answers.v0.Gives(v0)
    ensures Combines(c, v1, v0)
  {
    v0 := match c.result case Ok(devices) => Ok((devices, c.missing)) case Err(code) => Err(code);
    v1 :=
      if c.result.Ok? && c.origin.OverV1? then Ok((c.origin.listed, c.missing))
      else if c.result.Err? && c.result.code != Unimplemented
           && V1Gives(c.answers, options, c.source, Err(c.result.code))
      then Err(c.result.code)
      else Err(Unimplemented);
  }

  /** What the results of the two paths make of a call. */
  ghost predicate Combines(c: Call, v1: V1.Gathering, v0: V1.Gathering)
  {
    match v1
    case Ok((listed, missing)) =>
      c.result == Ok(SupplementedAll(listed, c.answers.lookup)) && c.origin == OverV1(listed) && c.missing == missing
    case Err(Unimplemented) =>
      (match v0
       case Ok((devices, missing)) => c.result == Ok(devices) && c.origin == OverV0 && c.missing == missing
       case Err(code) => c.result == Err(code))
    case Err(code) => c.result == Err(code)
  }

  ghost predicate AllExplained(options: ClientOptions, calls: seq<Call>)
  {
    forall k {:trigger Explained(options, calls[k])} :: 0 <= k < |calls| ==> Explained(options, calls[k])
  }

  lemma OneMoreExplained(options: ClientOptions, calls: seq<Call>, c: Call)
    requires AllExplained(options, calls) && Explained(options, c)
    ensures AllExplained(options, calls + [c])
  {
    forall k | 0 <= k < |calls + [c]| ensures Explained(options, (calls + [c])[k]) {
      assert k < |calls| ==> (calls + [c])[k] == calls[k] && Explained(options, calls[k]);
    }
  }

  /** The warnings that a run of lookups, failed or not, calls for: one per rising edge. */
  function RisingEdges(failed: seq<bool>): nat
  {
    if failed == [] then 0
    else
      var last := |failed| - 1;
      RisingEdges(failed[..last]) + Indicator(failed[last] && (last == 0 || !failed[last - 1]))
  }

  ghost predicate RisesAt(failed: seq<bool>, k: nat)
    requires k < |failed|
  {
    failed[k] && (k == 0 || !failed[k - 1])
  }

  ghost function Rises(failed: seq<bool>): set<nat>
  {
    set k | 0 <= k < |failed| && RisesAt(failed, k)
  }

  /** A warning per maximal stretch of failed lookups, written where it begins. */
  lemma {:induction false} WarningsCountRises(failed: seq<bool>)
    ensures RisingEdges(failed) == |Rises(failed)|
  {
    if failed != [] {
      var last := |failed| - 1;
      WarningsCountRises(failed[..last]);
      assert forall k :: 0 <= k < last ==> (RisesAt(failed, k) <==> RisesAt(failed[..last], k));
      assert Rises(failed) == Rises(failed[..last]) + if RisesAt(failed, last) then {last} else {};
    }
  }

  /** The flag left behind by the last lookup. */
  predicate LastFailed(failed: seq<bool>)
  {
    failed != [] && failed[|failed| - 1]
  }

  lemma RisingStep(failed: seq<bool>, fails: bool)
    ensures RisingEdges(failed + [fails]) == RisingEdges(failed) + Indicator(fails && !LastFailed(failed))
  {
    assert (failed + [fails])[..|failed|] == failed;
  }

  ghost predicate LogFollows(log: seq<Record>, run: Run)
  {
    forall r :: multiset(log)[r] == Total(run, r)
  }

  ghost predicate Written(records: seq<Record>, t: Tracked, c: Collection)
  {
    forall r :: multiset(records)[r] == Tally(t, c, r)
  }

  lemma LogGrows(log: seq<Record>, written: seq<Record>, run: Run, c: Collection)
    requires LogFollows(log, run) && Written(written, Before(run, |run|), c)
    ensures LogFollows(log + written, run + [c])
  {
    assert (run + [c])[..|run|] == run;
    assert Before(run + [c], |run|) == Before(run, |run|);
  }

  // ---------------------------------------------------------------------------------------
  // The loops of supplementLegacyStates
  // ---------------------------------------------------------------------------------------

  method AnyUnspecified(devices: array<DeviceInfo>) returns (needed: bool)
    ensures needed == Needed(devices[..])
  {
    needed := false;
    for i := 0 to devices.Length
      invariant !needed && forall j :: 0 <= j < i ==> devices[j].devState != STATE_UNSPECIFIED
    {
      if devices[i].devState == STATE_UNSPECIFIED {
        assert devices[i] in devices[..];
        return true;
      }
    }
  }

  lemma NothingToSupplement(devices: seq<DeviceInfo>, lookup: Lookup)
    requires !Needed(devices) || LookupError(lookup) == Some(Unimplemented)
    ensures SupplementedAll(devices, lookup) == devices
  {
    forall i | 0 <= i < |devices| ensures SupplementedAll(devices, lookup)[i] == devices[i] {
      assert devices[i] in devices;
    }
  }

  method SupplementEach(devices: array<DeviceInfo>, infos: Result<map<string, V0.LegacyInfo>>, ghost lookup: Lookup)
    requires infos == V0.Streamed(lookup, if lookup.Stream? then V0.InfoTable(lookup.records) else map[])
    requires infos != Err(Unimplemented)
    modifies devices
    ensures devices[..] == SupplementedAll(old(devices[..]), lookup)
  {
    for i := 0 to devices.Length
      invariant forall j :: 0 <= j < i ==> devices[j] == Supplemented(old(devices[j]), lookup)
      invariant forall j :: i <= j < devices.Length ==> devices[j] == old(devices[j])
    {
      devices[i] := SupplementState(devices[i], infos, lookup);
    }
  }

  method SupplementState(device: DeviceInfo, infos: Result<map<string, V0.LegacyInfo>>, ghost lookup: Lookup)
    returns (d: DeviceInfo)
    requires infos == V0.Streamed(lookup, if lookup.Stream? then V0.InfoTable(lookup.records) else map[])
    requires infos != Err(Unimplemented)
    ensures d == Supplemented(device, lookup)
  {
    d := device;
    if d.devState != STATE_UNSPECIFIED {
      return;
    }
    if infos.Err? || d.name !in infos.value {
      d := d.(collectionSucceeded := false);
      return;
    }
    d := d.(devState := V0.LegacyState(infos.value[d.name].devStatus));
  }

  // ---------------------------------------------------------------------------------------
  // The loops of recordDeviceTransitions
  // ---------------------------------------------------------------------------------------

  ghost function AtMostTwo(a: Option<Record>, b: Option<Record>): (records: seq<Record>)
    requires a.Some? && b.Some? ==> a != b
    ensures forall r :: multiset(records)[r] == Indicator(Some(r) == a || Some(r) == b)
  {
    match (a, b)
    case (None, None) => []
    case (Some(x), None) => [x]
    case (None, Some(y)) => [y]
    case (Some(x), Some(y)) => [x, y]
  }

  method ReportDevices(prev: States, prevMissing: set<string>, devices: seq<DeviceInfo>, missing: set<string>)
    returns (states: States, ghost records: seq<Record>)
    ensures states == StatesOf(devices)
    ensures forall r :: multiset(records)[r] == DeviceTally(prev, prevMissing, devices, missing, r)
  {
    states, records := map[], [];
    for i := 0 to |devices|
      invariant states == StatesOf(devices[..i])
      invariant forall r :: multiset(records)[r] == DeviceTally(prev, prevMissing, devices[..i], missing, r)
    {
      assert devices[..i + 1][..i] == devices[..i];
      states := states[devices[i].name := devices[i].devState];
      ghost var about := ReportDevice(prev, prevMissing, devices[i], missing);
      records := records + about;
    }
    assert devices[..|devices|] == devices;
  }

  method ReportDevice(prev: States, prevMissing: set<string>, d: DeviceInfo, missing: set<string>)
    returns (ghost records: seq<Record>)
    ensures forall r :: multiset(records)[r] == Indicator(Writes(prev, prevMissing, d, missing, r))
  {
    ghost var telemetry := ReportTelemetry(prevMissing, d.name, missing);
    ghost var state := ReportState(prev, d);
    records := AtMostTwo(telemetry, state);
    forall r ensures Writes(prev, prevMissing, d, missing, r) <==> Some(r) == telemetry || Some(r) == state {
    }
  }

  method ReportTelemetry(prevMissing: set<string>, name: string, missing: set<string>)
    returns (ghost record: Option<Record>)
    ensures record ==
      if name in missing && name !in prevMissing then Some(TelemetryUnavailable(name))
      else if name !in missing && name in prevMissing then Some(TelemetryRecovered(name))
      else None
  {
    record := None;
    if name in missing && name !in prevMissing {
      record := Some(TelemetryUnavailable(name));
    }
    if name !in missing && name in prevMissing {
      record := Some(TelemetryRecovered(name));
    }
  }

  method ReportState(prev: States, d: DeviceInfo) returns (ghost record: Option<Record>)
    ensures record ==
      if d.devState == STATE_FAULT && !WasFault(prev, d.name) then Some(EnteredDegraded(d.name))
      else if d.devState != STATE_FAULT && d.HasKnownState() && WasFault(prev, d.name) then Some(Recovered(d.name))
      else None
  {
    record := None;
    var wasFault := d.name in prev && prev[d.name] == STATE_FAULT;
    var fault := d.devState == STATE_FAULT;
    if fault && !wasFault {
      record := Some(EnteredDegraded(d.name));
    }
    if wasFault && !fault && d.HasKnownState() {
      record := Some(Recovered(d.name));
    }
  }

  method ReportVanished(prev: States, states: States) returns (ghost records: seq<Record>)
    ensures forall r ::
      multiset(records)[r] == Indicator(r.NoLongerPresent? && r.device in prev && r.device !in states)
  {
    records := [];
    var rest := prev.Keys;
    while rest != {}
      invariant rest <= prev.Keys
      invariant forall r ::
        multiset(records)[r] == Indicator(r.NoLongerPresent? && r.device in prev.Keys - rest && r.device !in states)
      decreases |rest|
    {
      var name :| name in rest;
      rest := rest - {name};
      if name !in states {
        records := records + [NoLongerPresent(name)];
      }
    }
  }

  // ---------------------------------------------------------------------------------------
  // The client
  // ---------------------------------------------------------------------------------------

  /** The records of one collection, in the order they are written. */
  lemma RecordsAddUp(t: Tracked, c: Collection, first: seq<Record>, changes: seq<Record>, vanished: seq<Record>)
    requires first == if t.collectedOnce then [] else [FirstCollectionSucceeded]
    requires forall r :: multiset(changes)[r] == DeviceTally(t.states, t.missing, c.devices, c.missing, r)
    requires forall r ::
      multiset(vanished)[r] == Indicator(r.NoLongerPresent? && r.device in t.states && r.device !in StatesOf(c.devices))
    ensures Written(first + changes + vanished, t, c)
  {
    forall r ensures multiset(first + changes + vanished)[r] == Tally(t, c, r) {
      CountsAdd(first, changes, vanished, r);
      OtherRecordsAreNotTallied(t.states, t.missing, c.devices, c.missing, r);
    }
  }

  lemma CountsAdd(a: seq<Record>, b: seq<Record>, c: seq<Record>, r: Record)
    ensures multiset(a + b + c)[r] == multiset(a)[r] + multiset(b)[r] + multiset(c)[r]
  {
    assert multiset(a + b + c) == multiset(a + b) + multiset(c);
  }

  /** The call that these answers of the two collection paths make. */
  ghost function Account(
    a: Answers, options: ClientOptions, v1: V1.Gathering, sampled: bool, s: V1.Source, v0: V1.Gathering): (c: Call)
    requires sampled ==> V1.GroupWasVetted(a.v1.groups, options.metricGroupID, options.createMetricGroup)
    requires V1Gives(a, options, s, v1) && (v1.Ok? && s.entries != [] ==> sampled)
    requires v1 == Err(Unimplemented) ==> a.v0.Gives(v0)
    ensures Explained(options, c) && c.answers == a && Combines(c, v1, v0)
  {
    match v1
    case Ok((listed, missing)) =>
      Call(a, Ok(SupplementedAll(listed, a.lookup)), sampled, OverV1(listed), s, missing)
    case Err(Unimplemented) =>
      if v0.Ok? then Call(a, Ok(v0.value.0), sampled, OverV0, s, v0.value.1)
      else Call(a, Err(v0.code), sampled, OverV0, s, {})
    case Err(code) => Call(a, Err(code), sampled, OverV0, s, {})
  }

  class Client {
    const options: ClientOptions
    var collectedOnce: bool
    var prevMissing: set<string>
    var prevState: States
    var activeAPI: Api
    var stateLookupFailed: bool
    /** The device records, the count of lookup warnings, and what they tell of. */
    ghost var log: seq<Record>
    ghost var lookupWarnings: nat
    ghost var run: seq<Collection>
    ghost var lookups: seq<bool>
    ghost var calls: seq<Call>

    ghost predicate Valid()
      reads this
    {
      && AllExplained(options, calls)
      && State() == Before(run, |run|)
      && LogFollows(log, run)
      && lookupWarnings == RisingEdges(lookups)
      && stateLookupFailed == LastFailed(lookups)
    }

    constructor (options: ClientOptions)
      ensures Valid() && this.options == options && run == [] && lookups == [] && calls == []
    {
      this.options := options;
      collectedOnce, prevMissing, prevState := false, {}, map[];
      activeAPI, stateLookupFailed := NoApi, false;
      log, lookupWarnings, run, lookups, calls := [], 0, [], [], [];
    }

    function State(): Tracked
      reads this
    {
      Tracked(collectedOnce, prevState, prevMissing)
    }

    /** Nothing of a failed call stays behind: neither state nor records. A successful one is
        one more collection of the run. Either way the call joins those that `Valid` explains. */
    method GetDeviceInfo(a: Answers, ghost tokens: set<string>)
      returns (result: Result<seq<DeviceInfo>>, ghost call: Call)
      requires Valid() && V1.AllTokensIn(a.v1, tokens)
      modifies this
      ensures Valid() && calls == old(calls) + [call]
      ensures call.result == result && call.answers == a
      ensures result.Err? ==>
        && State() == old(State()) && log == old(log) && run == old(run) && lookups == old(lookups)
        && activeAPI == old(activeAPI) && stateLookupFailed == old(stateLookupFailed)
      ensures result.Ok? ==>
        && run == old(run) + [Collection(result.value, call.missing)]
        && activeAPI == (if call.origin.OverV1? then ApiV1 else ApiV0)
        && lookups == old(lookups) + (if call.origin.OverV1? then [LookupFails(call.origin.listed, a.lookup)] else [])
    {
      var v1, v0;
      v1, v0, call := Ask(a, tokens);
      OneMoreExplained(options, calls, call);
      calls := calls + [call];
      if v1 == Err(Unimplemented) {
        if v0.Err? {
          return Err(v0.code), call;
        }
        SucceedOverV0(v0.value.0, v0.value.1);
        return Ok(v0.value.0), call;
      }
      if v1.Err? {
        return Err(v1.code), call;
      }
      var devices := SucceedOverV1(v1.value.0, v1.value.1, a.lookup);
      return Ok(devices), call;
    }

    /** The two collection paths; the second is taken only if the first is not implemented. */
    method Ask(a: Answers, ghost tokens: set<string>) returns (v1: V1.Gathering, v0: V1.Gathering, ghost call: Call)
      requires V1.AllTokensIn(a.v1, tokens)
      ensures Explained(options, call) && call.answers == a && Combines(call, v1, v0)
    {
      var sampled;
      ghost var s;
      v1, sampled, s := V1.Collect(a.v1, options.metricGroupID, options.createMetricGroup, tokens);
      v0 := Ok(([], {}));
      if v1 == Err(Unimplemented) {
        v0 := V0.Collect(a.v0);
      }
      call := Account(a, options, v1, sampled, s, v0);
    }

    method SucceedOverV0(devices: seq<DeviceInfo>, missing: set<string>)
      requires Valid()
      modifies this
      ensures Valid() && calls == old(calls) && activeAPI == ApiV0 && lookups == old(lookups)
      ensures run == old(run) + [Collection(devices, missing)]
    {
      activeAPI := ApiV0;
      RecordDeviceTransitions(devices, missing);
    }

    method SucceedOverV1(listed: seq<DeviceInfo>, missing: set<string>, lookup: Lookup) returns (out: seq<DeviceInfo>)
      requires Valid()
      modifies this
      ensures Valid() && calls == old(calls) && activeAPI == ApiV1
      ensures lookups == old(lookups) + [LookupFails(listed, lookup)]
      ensures out == SupplementedAll(listed, lookup)
      ensures run == old(run) + [Collection(out, missing)]
    {
      var devices := new DeviceInfo[|listed|](i requires 0 <= i < |listed| => listed[i]);
      assert devices[..] == listed;
      SupplementLegacyStates(devices, lookup);
      activeAPI, out := ApiV1, devices[..];
      RecordDeviceTransitions(out, missing);
    }

    method SupplementLegacyStates(devices: array<DeviceInfo>, lookup: Lookup)
      requires Valid()
      modifies devices, this`stateLookupFailed, this`lookupWarnings, this`lookups
      ensures Valid()
      ensures lookups == old(lookups) + [LookupFails(old(devices[..]), lookup)]
      ensures devices[..] == SupplementedAll(old(devices[..]), lookup)
    {
      ghost var fails := LookupFails(devices[..], lookup);
      ghost var warned := LookUp(devices, lookup);
      RisingStep(lookups, fails);
      lookups, lookupWarnings := lookups + [fails], lookupWarnings + Indicator(warned);
    }

    /** The lookup itself; `warned` tells whether it wrote a warning. */
    method LookUp(devices: array<DeviceInfo>, lookup: Lookup) returns (ghost warned: bool)
      modifies devices, this`stateLookupFailed
      ensures stateLookupFailed == LookupFails(old(devices[..]), lookup)
      ensures warned == (stateLookupFailed && !old(stateLookupFailed))
      ensures devices[..] == SupplementedAll(old(devices[..]), lookup)
    {
      warned := false;
      var needed := AnyUnspecified(devices);
      if !needed {
        stateLookupFailed := false;
        NothingToSupplement(devices[..], lookup);
        return;
      }
      var infos := V0.LegacyTotalInfo(lookup);
      if infos == Err(Unimplemented) {
        stateLookupFailed := false;
        NothingToSupplement(devices[..], lookup);
        return;
      }
      if infos.Err? {
        if !stateLookupFailed {
          warned := true;
        }
        stateLookupFailed := true;
      } else {
        stateLookupFailed := false;
      }
      SupplementEach(devices, infos, lookup);
    }

    method RecordDeviceTransitions(devices: seq<DeviceInfo>, missing: set<string>)
      requires Valid()
      modifies this`collectedOnce, this`prevState, this`prevMissing, this`log, this`run
      ensures Valid() && run == old(run) + [Collection(devices, missing)]
      ensures old(log) <= log && Written(log[|old(log)|..], old(State()), Collection(devices, missing))
    {
      ghost var written := Report(devices, missing);
      LogGrows(log, written, run, Collection(devices, missing));
      log, run := log + written, run + [Collection(devices, missing)];
      assert log[|old(log)|..] == written;
    }

    method Report(devices: seq<DeviceInfo>, missing: set<string>) returns (ghost written: seq<Record>)
      modifies this`collectedOnce, this`prevState, this`prevMissing
      ensures State() == After(Collection(devices, missing))
      ensures Written(written, old(State()), Collection(devices, missing))
    {
      ghost var first: seq<Record> := [];
      if !collectedOnce {
        collectedOnce := true;
        first := [FirstCollectionSucceeded];
      }
      var states, changes := ReportDevices(prevState, prevMissing, devices, missing);
      ghost var vanished := ReportVanished(prevState, states);
      RecordsAddUp(old(State()), Collection(devices, missing), first, changes, vanished);
      written := first + changes + vanished;
      prevState, prevMissing := states, missing;
    }
  }
}
