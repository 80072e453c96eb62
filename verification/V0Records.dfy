/** What a v0 collection exports, said over the daemon's records and this host's files alone
    (internal/daemon/legacy.go). */
module V0Records {
  import opened Options
  import opened Sysfs
  import opened Devices
  import opened LegacyInventory
  import opened MemorySize
  import opened InOrder
  import opened DoubleCounting
  import opened CollectV0

  // ---------------------------------------------------------------------------------------
  // The function behind a record
  // ---------------------------------------------------------------------------------------

  /** Local sysfs has a `physfn` link for the device of record i. */
  ghost predicate IsLinked(s: Source, i: nat)
    requires i < |s.input.devices|
  {
    s.input.sysfs && IsPciAddress(s.input.devices[i].pciBusId) && s.input.physfn(i).Some?
  }

  /** Record j is the last one with the well-formed address `bus`, up to case. */
  ghost predicate IsLastAt(s: Source, j: nat, bus: string)
  {
    && j < |s.input.devices|
    && IsPciAddress(s.input.devices[j].pciBusId) && EqualFold(s.input.devices[j].pciBusId, bus)
    && forall k :: j < k < |s.input.devices| && IsPciAddress(s.input.devices[k].pciBusId) ==>
         !EqualFold(s.input.devices[k].pciBusId, bus)
  }

  /** The link of record i leads to the device of record j. */
  ghost predicate LeadsTo(s: Source, i: nat, j: nat)
    requires i < |s.input.devices|
  {
    IsLinked(s, i) && IsLastAt(s, j, Base(s.input.physfn(i).value))
  }

  /** The device of record i is a VF that finally names `parent` as its parent: the name of the
      function its link leads to, or else that of the record. */
  ghost predicate NamesParent(s: Source, i: nat, parent: string)
    requires i < |s.input.devices|
  {
    && (s.input.devices[i].isVf || IsLinked(s, i)) && parent != ""
    && ((exists j: nat :: LeadsTo(s, i, j) && s.input.devices[j].name == parent)
        || ((forall j: nat :: !LeadsTo(s, i, j)) && s.input.devices[i].parentName == parent))
  }

  /** Some record shows the device of record j as hosting VFs. */
  ghost predicate IsShownHosting(s: Source, j: nat)
    requires j < |s.input.devices|
  {
    exists i :: 0 <= i < |s.input.devices| && (LeadsTo(s, i, j) || NamesParent(s, i, s.input.devices[j].name))
  }

  lemma {:induction false} OnBusIsLast(devices: seq<LegacyDevice>, bus: string)
    ensures OnBus(devices, Lower(bus)).Some? ==>
      var j := OnBus(devices, Lower(bus)).value;
      && IsPciAddress(devices[j].pciBusId) && EqualFold(devices[j].pciBusId, bus)
      && forall k :: j < k < |devices| && IsPciAddress(devices[k].pciBusId) ==> !EqualFold(devices[k].pciBusId, bus)
    ensures OnBus(devices, Lower(bus)).None? ==>
      forall k :: 0 <= k < |devices| && IsPciAddress(devices[k].pciBusId) ==> !EqualFold(devices[k].pciBusId, bus)
  {
    if devices != [] { OnBusIsLast(devices[..|devices| - 1], bus); }
  }

  lemma ParentIsWhereLinkLeads(s: Source, i: nat, j: nat)
    requires i < |s.input.devices|
    ensures LeadsTo(s, i, j) <==> s.input.Parent(i) == Some(j)
  {
    if IsLinked(s, i) { OnBusIsLast(s.input.devices, Base(s.input.physfn(i).value)); }
  }

  lemma HostingIsShown(s: Source, j: nat)
    requires j < |s.input.devices|
    ensures IsShownHosting(s, j) <==> s.input.ShownBefore(|s.input.devices|, j)
  {
    forall i | 0 <= i < |s.input.devices|
      ensures LeadsTo(s, i, j) || NamesParent(s, i, s.input.devices[j].name) <==> s.input.Shows(i, j)
    {
      ParentNamed(s, i, s.input.devices[j].name);
      ParentIsWhereLinkLeads(s, i, j);
    }
  }

  lemma ParentNamed(s: Source, i: nat, parent: string)
    requires i < |s.input.devices|
    ensures NamesParent(s, i, parent) <==>
      s.input.IsVf(i) && parent != "" && s.input.ParentName(i) == parent
  {
    ParentsAreLinks(s, i);
    if s.input.Parent(i).Some? {
      assert LeadsTo(s, i, s.input.Parent(i).value);
    }
  }

  // ---------------------------------------------------------------------------------------
  // Fields
  // ---------------------------------------------------------------------------------------

  /** Identity is the record's, but for what the link tells. */
  lemma IdentityIsRecorded(s: Source, i: nat, d: DeviceInfo)
    requires i < |s.input.devices| && s.Exports(i, d)
    ensures var r := s.input.devices[i];
      && d.name == r.name && d.uuid == r.uuid && d.deviceID == r.devId && d.card == r.cardName
      && d.pciBusID == r.pciBusId
      && d.isVF == (r.isVf || IsLinked(s, i))
      && d.topology == (if r.name in s.topology then Some(s.topology[r.name]) else None)
      && d.pcieLinkSpeed == (if !d.isVF && r.name in s.topology then s.topology[r.name].linkSpeed else None)
      && d.pcieLinkWidth == (if !d.isVF && r.name in s.topology then s.topology[r.name].linkWidth else None)
  {
    assert s.HasIdentity(i, d) && s.HasInfo(d);
  }

  /** The parent is the function that the link leads to, or else the one the record names. */
  lemma ParentIsRecorded(s: Source, i: nat, d: DeviceInfo)
    requires i < |s.input.devices| && s.Exports(i, d)
    ensures forall j: nat :: LeadsTo(s, i, j) ==> d.parentName == s.input.devices[j].name
    ensures (forall j: nat :: !LeadsTo(s, i, j)) ==> d.parentName == s.input.devices[i].parentName
  {
    assert s.HasIdentity(i, d);
    ParentsAreLinks(s, i);
  }

  lemma ParentsAreLinks(s: Source, i: nat)
    requires i < |s.input.devices|
    ensures forall j: nat :: LeadsTo(s, i, j) <==> s.input.Parent(i) == Some(j)
    ensures (forall j: nat :: !LeadsTo(s, i, j)) <==> s.input.Parent(i).None?
  {
    forall j: nat ensures LeadsTo(s, i, j) <==> s.input.Parent(i) == Some(j) {
      ParentIsWhereLinkLeads(s, i, j);
    }
    if s.input.Parent(i).Some? { assert LeadsTo(s, i, s.input.Parent(i).value); }
  }

  /** The VFs that this host's sysfs counts on a physical function. */
  ghost function OwnCount(s: Source, i: nat): Option<nat>
    requires i < |s.input.devices|
  {
    var bus := s.input.devices[i].pciBusId;
    if !s.input.sysfs || !IsPciAddress(bus) || s.host(i).sriovNumVfs(Lower(bus)).None? then None
    else ParseCount(s.host(i).sriovNumVfs(Lower(bus)).value)
  }

  /** A device counts exactly if its record says VF or lists none of its own, no record shows it as
      hosting, and, being a physical function, it has no VFs in sysfs either. */
  lemma ComputeIsRecorded(s: Source, i: nat, d: DeviceInfo)
    requires i < |s.input.devices| && s.Exports(i, d)
    ensures d.compute <==>
      && (s.input.devices[i].isVf || s.input.devices[i].numVfs == 0)
      && !IsShownHosting(s, i)
      && (s.input.devices[i].isVf || IsLinked(s, i) || OwnCount(s, i).None? || OwnCount(s, i) == Some(0))
  {
    assert s.HasPartition(i, d);
    HostingIsShown(s, i);
  }

  /** A physical function is shown with the VFs that sysfs counts; else with none if it counts; else
      with those its record lists, where a zero is no number. */
  lemma NumVfsIsRecorded(s: Source, i: nat, d: DeviceInfo)
    requires i < |s.input.devices| && s.Exports(i, d)
    ensures d.isVF ==> d.numVFs == Some(0)
    ensures !d.isVF && OwnCount(s, i).Some? ==> d.numVFs == OwnCount(s, i)
    ensures !d.isVF && OwnCount(s, i).None? && d.compute ==> d.numVFs == Some(0)
    ensures !d.isVF && OwnCount(s, i).None? && !d.compute ==>
      d.numVFs == if s.input.devices[i].numVfs == 0 then None else Some(s.input.devices[i].numVfs)
    ensures !d.isVF ==> d.partitionMode == if d.compute then "none" else "hosting"
  {
    assert s.HasPartition(i, d) && s.HasIdentity(i, d);
  }

  /** The readings are those of the record the daemon vouches for, each in the unit of its gauge;
      what is not finite, negative where it cannot be, or out of range, is no reading. */
  lemma ReadingsAreRecorded(s: Source, i: nat, d: DeviceInfo, r: LegacyInfo)
    requires i < |s.input.devices| && s.Exports(i, d)
    requires d.name in s.infos && s.infos[d.name] == r && r.errStatus == 0
    ensures d.temperature == if !d.isVF && r.temperature.Finite? then Some(r.temperature.value / 1000.0) else None
    ensures d.power ==
      if !d.isVF && r.watt.Finite? && r.watt.value >= 0.0 then Some(r.watt.value / 1000000.0) else None
    ensures d.utilization ==
      if d.compute && r.utilization.Finite? && r.utilization.value >= 0.0 then Some(r.utilization.value) else None
    ensures d.memoryTotalBytes == if d.compute then LegacyBytes(r.totalMem) else None
    ensures d.memoryUsedBytes == if d.compute then LegacyBytes(r.usedMem) else None
    ensures d.pState == if r.pState >= 0 then Some(r.pState) else None
  {
    assert s.HasReadings(d);
    if r.watt.Finite? { assert r.watt.value >= 0.0 <==> r.watt.value / 1000000.0 >= 0.0; }
  }

  /** Versions come from the record whether or not the daemon vouches for it, the controller's from
      its own query, and collection succeeds exactly if nothing asked about the device failed. */
  lemma StatusIsRecorded(s: Source, i: nat, d: DeviceInfo)
    requires i < |s.input.devices| && s.Exports(i, d)
    ensures d.name in s.infos ==>
      d.driverVersion == s.infos[d.name].drvVersion && d.firmwareVersion == s.infos[d.name].fwVersion
    ensures d.name !in s.infos ==> d.driverVersion == "" && d.firmwareVersion == "" && d.devState == 0
    ensures d.smcVersion == match s.version(i)
      case Ok(v) => if v.errStatus == 0 then v.smcVersion else ""
      case Err(_) => ""
    ensures d.collectionSucceeded <==>
      && d.name !in s.failedTopology && d.name in s.infos && s.infos[d.name].errStatus == 0
      && match s.version(i) case Ok(v) => v.errStatus == 0 case Err(code) => code == Unimplemented
  {
    assert s.HasStatus(i, d);
  }

  // ---------------------------------------------------------------------------------------
  // Which devices count
  // ---------------------------------------------------------------------------------------

  /** The record gives a compute device something to count: a size in the range of 64 unsigned bits,
      or a utilization. */
  predicate YieldsReading(r: LegacyInfo)
  {
    && r.errStatus == 0
    && (|| (r.totalMem.Finite? && -0.5 < r.totalMem.value * 1073741824.0 < 18446744073709551615.5)
        || (r.usedMem.Finite? && -0.5 < r.usedMem.value * 1073741824.0 < 18446744073709551615.5)
        || (r.utilization.Finite? && r.utilization.value >= 0.0))
  }

  /** The device of record i counts. */
  ghost predicate RecordCounts(s: Source, i: nat)
    requires i < |s.input.devices|
  {
    var r := s.input.devices[i];
    && (r.isVf || r.numVfs == 0)
    && !IsShownHosting(s, i)
    && (r.isVf || IsLinked(s, i) || OwnCount(s, i).None? || OwnCount(s, i) == Some(0))
    && r.name in s.infos && YieldsReading(s.infos[r.name])
  }

  ghost predicate SomeRecordCounts(s: Source, name: string)
  {
    exists i :: 0 <= i < |s.input.devices| && !s.Skipped(i) && s.input.devices[i].name == name && RecordCounts(s, i)
  }

  lemma ContributesIffRecordCounts(s: Source, i: nat, d: DeviceInfo)
    requires i < |s.input.devices| && s.Exports(i, d)
    ensures Contributes(d) <==> RecordCounts(s, i)
  {
    IdentityIsRecorded(s, i, d);
    ComputeIsRecorded(s, i, d);
    if d.name in s.infos && s.infos[d.name].errStatus == 0 {
      var r := s.infos[d.name];
      ReadingsAreRecorded(s, i, d, r);
      DefinedExactlyInRange(r.totalMem);
      DefinedExactlyInRange(r.usedMem);
    } else {
      ReadingsInScope(s, i, d);
    }
  }

  /** Over v0: some exported device of the name contributes exactly when some device of the name,
      not held by a foreign driver, counts. */
  lemma ContributorsOnV0(s: Source, out: seq<DeviceInfo>, name: string)
    requires s.ExportsAll(out)
    ensures SomeContributor(out, name) <==> SomeRecordCounts(s, name)
  {
    if d :| d in out && d.name == name && Contributes(d) {
      var i := PositionOf(|s.input.devices|, s.SkippedAt(), s.ExportAt(), out, d);
      IdentityIsRecorded(s, i, d);
      ContributesIffRecordCounts(s, i, d);
    }
    if i :| 0 <= i < |s.input.devices| && !s.Skipped(i) && s.input.devices[i].name == name && RecordCounts(s, i) {
      var d := ResultAt(|s.input.devices|, s.SkippedAt(), s.ExportAt(), out, i);
      IdentityIsRecorded(s, i, d);
      ContributesIffRecordCounts(s, i, d);
    }
  }

  // ---------------------------------------------------------------------------------------
  // The streams
  // ---------------------------------------------------------------------------------------

  ghost predicate IsLastRecord(records: seq<LegacyInfo>, k: nat, name: string)
    requires k < |records|
  {
    records[k].name == name && forall j :: k < j < |records| ==> records[j].name != name
  }

  ghost predicate IsLastEntry(entries: seq<LegacyTopologyEntry>, k: nat, name: string)
    requires k < |entries|
  {
    && entries[k].deviceName == name && !entries[k].failed
    && forall j :: k < j < |entries| && entries[j].deviceName == name ==> entries[j].failed
  }

  /** A name's record is the last one in the stream that carries it. */
  lemma {:induction false} LastRecordCounts(records: seq<LegacyInfo>, name: string, k: nat)
    requires name != "" && k < |records| && IsLastRecord(records, k, name)
    ensures name in InfoTable(records) && InfoTable(records)[name] == records[k]
  {
    if k < |records| - 1 {
      assert IsLastRecord(records[..|records| - 1], k, name);
      LastRecordCounts(records[..|records| - 1], name, k);
    }
  }

  lemma {:induction false} WithoutRecord(records: seq<LegacyInfo>, name: string)
    requires name == "" || forall r :: r in records ==> r.name != name
    ensures name !in InfoTable(records)
  {
    if records != [] { WithoutRecord(records[..|records| - 1], name); }
  }

  /** The device list keeps its named records, in order and as often as they come. */
  lemma {:induction false} NamedRecordsStay(a: seq<LegacyDevice>, d: LegacyDevice, b: seq<LegacyDevice>)
    ensures Named(a + [d] + b) == Named(a) + (if d.name == "" then [] else [d]) + Named(b)
    ensures Named([]) == []
  {
    if b == [] {
      assert (a + [d] + b)[..|a|] == a;
    } else {
      assert (a + [d] + b)[..|a| + |b|] == a + [d] + b[..|b| - 1];
      NamedRecordsStay(a, d, b[..|b| - 1]);
    }
  }

  /** A device's topology is that of its last entry without an error. */
  lemma {:induction false} LastTopologyCounts(entries: seq<LegacyTopologyEntry>, name: string, k: nat)
    requires k < |entries| && IsLastEntry(entries, k, name)
    ensures name in TopologyTable(entries) && TopologyTable(entries)[name] == entries[k].info
  {
    if k < |entries| - 1 {
      assert IsLastEntry(entries[..|entries| - 1], k, name);
      LastTopologyCounts(entries[..|entries| - 1], name, k);
    }
  }

  /** Without such an entry it has none; with any failed one its collection fails. */
  lemma {:induction false} WithoutTopology(entries: seq<LegacyTopologyEntry>, name: string)
    ensures (forall e :: e in entries && e.deviceName == name ==> e.failed) ==> name !in TopologyTable(entries)
    ensures name in FailedTopology(entries) <==> exists e :: e in entries && e.deviceName == name && e.failed
  {
    if entries != [] { WithoutTopology(entries[..|entries| - 1], name); }
  }
}
