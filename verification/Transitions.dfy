/** Edge-triggered device records over whole runs of successful collections
    (internal/daemon/client.go, recordDeviceTransitions). */
module Transitions {
  import opened Devices

  datatype Record =
    | FirstCollectionSucceeded
    | TelemetryUnavailable(device: string)
    | TelemetryRecovered(device: string)
    | EnteredDegraded(device: string)
    | Recovered(device: string)
    | NoLongerPresent(device: string)

  type States = map<string, DeviceState>

  /** One successful collection: the devices in order and the names without telemetry. */
  datatype Collection = Collection(devices: seq<DeviceInfo>, missing: set<string>)

  /** What the client remembers of the previous one. */
  datatype Tracked = Tracked(collectedOnce: bool, states: States, missing: set<string>)

  const UNTRACKED := Tracked(false, map[], {})

  function StatesOf(devices: seq<DeviceInfo>): States
  {
    if devices == [] then map[]
    else
      var d := devices[|devices| - 1];
      StatesOf(devices[..|devices| - 1])[d.name := d.devState]
  }

  function After(c: Collection): Tracked
  {
    Tracked(true, StatesOf(c.devices), c.missing)
  }

  predicate WasFault(prev: States, name: string)
  {
    name in prev && prev[name] == STATE_FAULT
  }

  /** Whether one device calls for a record: each is written on an edge, none while things stay
      as they are. */
  predicate Writes(prev: States, prevMissing: set<string>, d: DeviceInfo, missing: set<string>, r: Record)
  {
    match r
    case TelemetryUnavailable(x) => x == d.name && x in missing && x !in prevMissing
    case TelemetryRecovered(x) => x == d.name && x !in missing && x in prevMissing
    case EnteredDegraded(x) => x == d.name && d.devState == STATE_FAULT && !WasFault(prev, x)
    case Recovered(x) => x == d.name && d.devState != STATE_FAULT && d.HasKnownState() && WasFault(prev, x)
    case FirstCollectionSucceeded => false
    case NoLongerPresent(_) => false
  }

  function Indicator(b: bool): nat
  {
    if b then 1 else 0
  }

  function DeviceTally(
    prev: States, prevMissing: set<string>, devices: seq<DeviceInfo>, missing: set<string>, r: Record): nat
  {
    if devices == [] then 0
    else DeviceTally(prev, prevMissing, devices[..|devices| - 1], missing, r)
         + Indicator(Writes(prev, prevMissing, devices[|devices| - 1], missing, r))
  }

  /** How often a collection writes a record, whatever the order of its records. */
  function Tally(t: Tracked, c: Collection, r: Record): nat
  {
    match r
    case FirstCollectionSucceeded => Indicator(!t.collectedOnce)
    case NoLongerPresent(x) => Indicator(x in t.states && x !in StatesOf(c.devices))
    case _ => DeviceTally(t.states, t.missing, c.devices, c.missing, r)
  }

  predicate AboutDevice(r: Record)
  {
    !r.FirstCollectionSucceeded? && !r.NoLongerPresent?
  }

  lemma {:induction false} OtherRecordsAreNotTallied(
    prev: States, prevMissing: set<string>, devices: seq<DeviceInfo>, missing: set<string>, r: Record)
    ensures (AboutDevice(r) ==> forall d :: d in devices ==> d.name != r.device) ==>
      DeviceTally(prev, prevMissing, devices, missing, r) == 0
  {
    if devices != [] {
      OtherRecordsAreNotTallied(prev, prevMissing, devices[..|devices| - 1], missing, r);
    }
  }
}
