/** The names under which the states of both APIs are shown, against the two enums themselves
    (internal/daemon/legacy.go, device.go, internal/collector/device_state_metrics.go). */
module StateNames {
  import opened Options
  import opened Devices
  import opened Transitions
  import opened Exposition
  import opened Client
  import V0 = CollectV0
  import V1 = CollectV1

  /** The numbers of the v1 enum. */
  const V1_NAMES: map<int, string> := map[
    0 := "not_found", 1 := "init", 2 := "ready", 3 := "busy", 4 := "fault", 5 := "finish"]

  /** The numbers of the v0 enum. */
  const V0_NAMES: map<int, string> := map[0 := "ready", 1 := "busy", 2 := "init", 3 := "fault", 4 := "finish"]

  function NameIn(names: map<int, string>, number: int): string
  {
    if number in names then names[number] else "not_found"
  }

  /** The status series that shows 1 is that of the v1 number; a number without a name shows as not
      found. Health is 0 for READY, absent without a name, 1 otherwise. */
  lemma V1NumbersAreNamed(d: DeviceInfo)
    ensures CurrentName(d.devState) == NameIn(V1_NAMES, d.devState)
    ensures d.Health() == if d.devState == 2 then Some(0.0) else if d.devState in {1, 3, 4, 5} then Some(1.0) else None
  {
  }

  /** A v1 device is shown in the state that the daemon lists. */
  lemma ListedStateIsShown(s: V1.Source, i: nat, d: DeviceInfo)
    requires i < |s.entries| && s.Exports(i, d)
    ensures CurrentName(d.devState) == NameIn(V1_NAMES, s.entries[i].state)
  {
    assert s.HasIdentity(i, d);
  }

  /** A v0 device is shown in the state of its record, by the numbers of v0. */
  lemma RecordedStateIsShown(s: V0.Source, i: nat, d: DeviceInfo)
    requires i < |s.input.devices| && s.Exports(i, d) && d.name in s.infos
    ensures ShowsStatus(d, s.infos[d.name].devStatus)
  {
    assert s.HasStatus(i, d);
    StatusIsShown(d, s.infos[d.name].devStatus);
  }

  /** So is a v1 device that was listed unspecified, when the lookup completes with a record of it. */
  lemma LookedUpStateIsShown(d: DeviceInfo, lookup: Lookup)
    requires d.devState == 0 && lookup.Stream? && lookup.error.None? && d.name in V0.InfoTable(lookup.records)
    ensures ShowsStatus(Supplemented(d, lookup), V0.InfoTable(lookup.records)[d.name].devStatus)
  {
    StatusIsShown(Supplemented(d, lookup), V0.InfoTable(lookup.records)[d.name].devStatus);
  }

  /** The lookup's stream was not opened, or broke off, with this error. */
  predicate BreaksOff(lookup: Lookup, code: Code)
  {
    lookup == V0.NotOpened(code) || (lookup.Stream? && lookup.error == Some(code))
  }

  /** A device listed with a state, and every device of a daemon without the lookup, is left as it
      was. An unspecified one keeps its state and counts as not collected if the lookup breaks off
      otherwise, or has no record of it; a lookup fails if it was needed and broke off so. */
  lemma WithoutLookupItFails(devices: seq<DeviceInfo>, d: DeviceInfo, lookup: Lookup, code: Code)
    requires d in devices
    ensures d.devState != 0 || BreaksOff(lookup, Unimplemented) ==> Supplemented(d, lookup) == d
    ensures d.devState == 0 && BreaksOff(lookup, code) && code != Unimplemented ==>
      Supplemented(d, lookup) == d.(collectionSucceeded := false) && LookupFails(devices, lookup)
    ensures d.devState == 0 && lookup.Stream? && lookup.error.None? && d.name !in V0.InfoTable(lookup.records) ==>
      Supplemented(d, lookup) == d.(collectionSucceeded := false)
    ensures (lookup.Stream? && lookup.error.None?) || BreaksOff(lookup, Unimplemented) ==> !LookupFails(devices, lookup)
    ensures (forall e :: e in devices ==> e.devState != 0) ==> !LookupFails(devices, lookup)
  {
  }

  /** Name and health of a v0 status number; the edges of the degraded records are those of 3. */
  ghost predicate ShowsStatus(d: DeviceInfo, status: int)
  {
    && CurrentName(d.devState) == NameIn(V0_NAMES, status)
    && (d.Health() == Some(0.0) <==> status == 0)
    && (d.Health().None? <==> !(0 <= status <= 4))
    && (forall gone, missing :: Writes(map[], gone, d, missing, EnteredDegraded(d.name)) <==> status == 3)
  }

  lemma StatusIsShown(d: DeviceInfo, status: int)
    requires d.devState == V0.LegacyState(status)
    ensures ShowsStatus(d, status)
  {
  }
}
