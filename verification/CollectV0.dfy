/** Collection through the v0 API (internal/daemon/legacy.go). */
module CollectV0 {
  import opened Options
  import opened Floats
  import opened Devices
  import opened Inventory
  import opened LegacyInventory
  import opened MemorySize
  import opened Partition
  import opened InOrder

  // ---------------------------------------------------------------------------------------
  // Messages
  // ---------------------------------------------------------------------------------------

  const STATUS_SUCCEED := 0

  datatype LegacyInfo = LegacyInfo(
    name: string,
    devStatus: int,
    errStatus: int,
    totalMem: Float,
    usedMem: Float,
    temperature: Float,
    watt: Float,
    utilization: Float,
    pState: int,
    fwVersion: string,
    drvVersion: string)

  datatype LegacyVersion = LegacyVersion(errStatus: int, smcVersion: string)

  /** `failed` stands for a non-zero error code or a non-empty error message. */
  datatype LegacyTopologyEntry = LegacyTopologyEntry(deviceName: string, failed: bool, info: TopologyInfo)

  /** A server stream: not opened, or some records and then either its end or an error. */
  datatype Stream<+T> = NotOpened(code: Code) | Stream(records: seq<T>, error: Option<Code>)

  /** The v0 status by its meaning in the v1 enum. */
  function LegacyState(status: int): DeviceState
  {
    match status
    case 0 => STATE_READY
    case 1 => STATE_BUSY
    case 2 => STATE_INIT
    case 3 => STATE_FAULT
    case 4 => STATE_FINISH
    case _ => STATE_UNSPECIFIED
  }

  // ---------------------------------------------------------------------------------------
  // The streams, all or nothing
  // ---------------------------------------------------------------------------------------

  function InfoTable(records: seq<LegacyInfo>): map<string, LegacyInfo>
  {
    if records == [] then map[]
    else
      var d := records[|records| - 1];
      var before := InfoTable(records[..|records| - 1]);
      if d.name != "" then before[d.name := d] else before
  }

  function Streamed<T, R>(stream: Stream<T>, value: R): Result<R>
  {
    match stream
    case NotOpened(code) => Err(code)
    case Stream(_, Some(code)) => Err(code)
    case Stream(_, None) => Ok(value)
  }

  method LegacyTotalInfo(stream: Stream<LegacyInfo>) returns (result: Result<map<string, LegacyInfo>>)
    ensures result == Streamed(stream, if stream.Stream? then InfoTable(stream.records) else map[])
  {
    if stream.NotOpened? {
      return Err(stream.code);
    }
    var infos: map<string, LegacyInfo> := map[];
    for i := 0 to |stream.records|
      invariant infos == InfoTable(stream.records[..i])
    {
      assert stream.records[..i + 1][..i] == stream.records[..i];
      var d := stream.records[i];
      if d.name != "" {
        infos := infos[d.name := d];
      }
    }
    assert stream.records[..|stream.records|] == stream.records;
    if stream.error.Some? {
      return Err(stream.error.value);
    }
    return Ok(infos);
  }

  function Named(records: seq<LegacyDevice>): seq<LegacyDevice>
  {
    if records == [] then []
    else
      var d := records[|records| - 1];
      Named(records[..|records| - 1]) + if d.name != "" then [d] else []
  }

  method LegacyDevices(stream: Stream<LegacyDevice>) returns (result: Result<seq<LegacyDevice>>)
    ensures result == Streamed(stream, if stream.Stream? then Named(stream.records) else [])
  {
    if stream.NotOpened? {
      return Err(stream.code);
    }
    var devices: seq<LegacyDevice> := [];
    for i := 0 to |stream.records|
      invariant devices == Named(stream.records[..i])
    {
      assert stream.records[..i + 1][..i] == stream.records[..i];
      if stream.records[i].name != "" {
        devices := devices + [stream.records[i]];
      }
    }
    assert stream.records[..|stream.records|] == stream.records;
    if stream.error.Some? {
      return Err(stream.error.value);
    }
    return Ok(devices);
  }

  function TopologyTable(entries: seq<LegacyTopologyEntry>): map<string, TopologyInfo>
  {
    if entries == [] then map[]
    else
      var e := entries[|entries| - 1];
      var before := TopologyTable(entries[..|entries| - 1]);
      if e.failed then before else before[e.deviceName := e.info]
  }

  function FailedTopology(entries: seq<LegacyTopologyEntry>): set<string>
  {
    set e | e in entries && e.failed :: e.deviceName
  }

  /** A daemon without this RPC has no topology, which is not an error. */
  method LegacyTopology(reply: Result<seq<LegacyTopologyEntry>>)
    returns (result: Result<(map<string, TopologyInfo>, set<string>)>)
    ensures result == match reply
      case Ok(entries) => Ok((TopologyTable(entries), FailedTopology(entries)))
      case Err(Unimplemented) => Ok((map[], {}))
      case Err(code) => Err(code)
  {
    if reply == Err(Unimplemented) {
      return Ok((map[], {}));
    }
    if reply.Err? {
      return Err(reply.code);
    }
    var entries := reply.value;
    var out: map<string, TopologyInfo> := map[];
    var failed: set<string> := {};
    for i := 0 to |entries|
      invariant out == TopologyTable(entries[..i]) && failed == FailedTopology(entries[..i])
    {
      assert entries[..i + 1][..i] == entries[..i];
      var e := entries[i];
      if e.failed {
        failed := failed + {e.deviceName};
        continue;
      }
      out := out[e.deviceName := e.info];
    }
    assert entries[..|entries|] == entries;
    return Ok((out, failed));
  }

  // ---------------------------------------------------------------------------------------
  // One device, field by field
  // ---------------------------------------------------------------------------------------

  /** Everything one v0 collection reads after the three listings. `host(i)` is what sysfs answers
      while device i is classified, `version(i)` the reply to its version query. */
  datatype Source = Source(
    input: Input,
    infos: map<string, LegacyInfo>,
    topology: map<string, TopologyInfo>,
    failedTopology: set<string>,
    host: nat -> Reads,
    version: nat -> Result<LegacyVersion>)
  {
    function Host(i: nat): Reads
    {
      host(i).(enabled := input.sysfs)
    }

    ghost function Entries(): seq<Entry>
    {
      seq(|input.devices|, i requires 0 <= i < |input.devices| => input.ClosedForm(i))
    }

    predicate Skipped(i: nat)
      requires i < |input.devices|
    {
      ForeignDriver(input.devices[i].pciBusId, Host(i))
    }

    /** Only an unclassified error of the version query ends the collection. */
    predicate Aborts(i: nat)
    {
      version(i).Err? && version(i).code != Unimplemented && !DeviceUnavailable(version(i).code)
    }

    ghost predicate FirstAbort(i: nat)
      requires i < |input.devices|
    {
      !Skipped(i) && Aborts(i) && NoAbortBefore(i)
    }

    ghost predicate NoAbortBefore(k: nat)
      requires k <= |input.devices|
    {
      forall j :: 0 <= j < k && !Skipped(j) ==> !Aborts(j)
    }

    /** The telemetry the daemon vouches for. */
    function Telemetry(name: string): Option<LegacyInfo>
    {
      if name in infos && infos[name].errStatus == STATUS_SUCCEED then Some(infos[name]) else None
    }

    ghost function Count(i: nat): Option<nat>
      requires i < |input.devices|
    {
      var e := input.ClosedForm(i);
      EnabledVfs(e.isVf, e.pciBusId, e.parentName, Entries(), Host(i))
    }

    // The exported device d of position i, group by group.

    ghost predicate HasIdentity(i: nat, d: DeviceInfo)
      requires i < |input.devices|
    {
      var e := input.ClosedForm(i);
      && d.uuid == e.uuid && d.name == e.name && d.deviceID == e.devId && d.card == e.cardName
      && d.pciBusID == e.pciBusId && d.isVF == e.isVf && d.parentName == e.parentName
      && d.topology == (if e.name in topology then Some(topology[e.name]) else None)
    }

    /** Compute is what the inventory grants unless local sysfs shows a physical function hosting
        VFs; the profile of a VF comes from its parent's count. */
    ghost predicate HasPartition(i: nat, d: DeviceInfo)
      requires i < |input.devices|
    {
      var e, count, listed := input.ClosedForm(i), Count(i), input.devices[i].numVfs;
      && d.compute == (e.npuId.Some? && (e.isVf || count.None? || count == Some(0)))
      && d.numVFs == (
           if e.isVf then Some(0)
           else if count.Some? then count
           else if e.npuId.Some? then Some(0)
           else if listed == 0 then None
           else Some(listed))
      && d.partitionMode == (
           if e.isVf then (if count == Some(1) then "vf1" else if count == Some(4) then "vf4" else "")
           else if d.compute then "none" else "hosting")
    }

    ghost predicate HasReadings(d: DeviceInfo)
    {
      var t := Telemetry(d.name);
      && d.temperature ==
           (if t.Some? && !d.isVF then LegacyReading(t.value.temperature.DividedBy(1000.0), false) else None)
      && d.power == (if t.Some? && !d.isVF then LegacyReading(t.value.watt.DividedBy(1000000.0), true) else None)
      && d.memoryTotalBytes == (if t.Some? && d.compute then LegacyBytes(t.value.totalMem) else None)
      && d.memoryUsedBytes == (if t.Some? && d.compute then LegacyBytes(t.value.usedMem) else None)
      && d.utilization == (if t.Some? && d.compute then LegacyReading(t.value.utilization, true) else None)
      && d.pState == (if t.Some? && t.value.pState >= 0 then Some(t.value.pState) else None)
    }

    ghost predicate HasInfo(d: DeviceInfo)
    {
      && d.devState == (if d.name in infos then LegacyState(infos[d.name].devStatus) else STATE_UNSPECIFIED)
      && d.driverVersion == (if d.name in infos then infos[d.name].drvVersion else "")
      && d.firmwareVersion == (if d.name in infos then infos[d.name].fwVersion else "")
      && d.pcieLinkSpeed == (if !d.isVF && d.topology.Some? then d.topology.value.linkSpeed else None)
      && d.pcieLinkWidth == (if !d.isVF && d.topology.Some? then d.topology.value.linkWidth else None)
    }

    ghost predicate HasStatus(i: nat, d: DeviceInfo)
    {
      && HasInfo(d)
      && d.smcVersion == (if Versioned(i) then version(i).value.smcVersion else "")
      && d.collectionSucceeded ==
           (d.name !in failedTopology && Telemetry(d.name).Some? && (Versioned(i) || version(i) == Err(Unimplemented)))
    }

    ghost predicate Exports(i: nat, d: DeviceInfo)
      requires i < |input.devices|
    {
      HasIdentity(i, d) && HasPartition(i, d) && HasReadings(d) && HasStatus(i, d)
    }

    /** Every device that is not foreign, in order, with the names that have no telemetry; or the
        error of the first version query that ends the collection. */
    ghost predicate Collects(result: Gathering)
    {
      match result
      case Ok((out, missing)) =>
        && ExportsAll(out) && missing == MissingNames(|input.devices|)
        && NoAbortBefore(|input.devices|)
      case Err(code) =>
        exists i :: 0 <= i < |input.devices| && FirstAbort(i) && version(i) == Err(code)
    }

    /** The loop before device k. */
    ghost predicate Progress(k: nat, out: seq<DeviceInfo>, missing: set<string>)
      requires k <= |input.devices|
    {
      Results(k, SkippedAt(), ExportAt(), out) && missing == MissingNames(k) && NoAbortBefore(k)
    }

    lemma SkippingProgresses(k: nat, out: seq<DeviceInfo>, missing: set<string>)
      requires k < |input.devices| && Skipped(k)
      requires Progress(k, out, missing)
      ensures Progress(k + 1, out, missing)
    {
      MissingStep(k);
      NoAbortStep(k);
    }

    lemma ExportProgresses(k: nat, out: seq<DeviceInfo>, missing: set<string>, d: DeviceInfo)
      requires k < |input.devices| && !Skipped(k) && !Aborts(k) && Exports(k, d)
      requires Progress(k, out, missing)
      ensures var name := input.devices[k].name;
        Progress(k + 1, out + [d], if name in infos then missing else missing + {name})
    {
      ResultsGrow(k, SkippedAt(), ExportAt(), out, d);
      MissingStep(k);
      NoAbortStep(k);
    }

    lemma NoAbortStep(k: nat)
      requires k < |input.devices| && NoAbortBefore(k) && (Skipped(k) || !Aborts(k))
      ensures NoAbortBefore(k + 1)
    {
    }

    lemma MissingStep(k: nat)
      requires k < |input.devices|
      ensures MissingNames(k + 1) ==
        if Skipped(k) || input.devices[k].name in infos then MissingNames(k)
        else MissingNames(k) + {input.devices[k].name}
    {
    }

    predicate Versioned(i: nat)
    {
      version(i).Ok? && version(i).value.errStatus == STATUS_SUCCEED
    }

    lemma ExportsOnceFilled(i: nat, device: DeviceInfo, d: DeviceInfo)
      requires i < |input.devices| && HasIdentity(i, device) && HasPartition(i, device)
      requires SameFunction(device, d) && HasReadings(d) && HasStatus(i, d)
      ensures Exports(i, d)
    {
    }

    ghost function SkippedAt(): nat -> bool
    {
      (i: nat) => i < |input.devices| && Skipped(i)
    }

    ghost function ExportAt(): (nat, DeviceInfo) -> bool
    {
      (i: nat, d: DeviceInfo) => i < |input.devices| && Exports(i, d)
    }

    /** `out` exports, in order, the devices that no foreign driver has taken. */
    ghost predicate ExportsAll(out: seq<DeviceInfo>)
    {
      Results(|input.devices|, SkippedAt(), ExportAt(), out)
    }

    ghost function MissingNames(k: nat): set<string>
      requires k <= |input.devices|
    {
      set i | 0 <= i < k && !Skipped(i) && input.devices[i].name !in infos :: input.devices[i].name
    }
  }

  // ---------------------------------------------------------------------------------------
  // collectV0
  // ---------------------------------------------------------------------------------------

  /** Rebuilds the inventory and walks it. */
  method CollectDevices(s: Source) returns (result: Gathering)
    ensures s.Collects(result)
  {
    var inventory := Reconstruct(s.input);
    var entries := seq(|inventory|, i requires 0 <= i < |inventory| reads inventory => inventory[i].Value());
    assert entries == s.Entries();
    result := CollectEach(s, entries);
  }

  /** The per-device loop. */
  method CollectEach(s: Source, entries: seq<Entry>) returns (result: Gathering)
    requires entries == s.Entries()
    ensures s.Collects(result)
  {
    var out: seq<DeviceInfo> := [];
    var missing: set<string> := {};
    for i := 0 to |entries|
      invariant s.Progress(i, out, missing)
    {
      if ForeignDriver(entries[i].pciBusId, s.Host(i)) {
        s.SkippingProgresses(i, out, missing);
        continue;
      }
      var present, r := CollectDevice(s, i, entries);
      if r.Err? {
        return Err(r.code);
      }
      assert entries[i].name == s.input.devices[i].name;
      s.ExportProgresses(i, out, missing, r.value);
      if !present {
        missing := missing + {entries[i].name};
      }
      out := out + [r.value];
    }
    return Ok((out, missing));
  }

  method CollectDevice(s: Source, i: nat, entries: seq<Entry>) returns (present: bool, result: Result<DeviceInfo>)
    requires i < |s.input.devices| && entries == s.Entries()
    ensures present <==> s.input.devices[i].name in s.infos
    ensures if s.Aborts(i) then result == Err(s.version(i).code) else result.Ok? && s.Exports(i, result.value)
  {
    var d := Classify(s, i, entries);
    present, result := Fill(s, i, d);
    if result.Ok? { s.ExportsOnceFilled(i, d, result.value); }
  }

  method Fill(s: Source, i: nat, device: DeviceInfo) returns (present: bool, result: Result<DeviceInfo>)
    requires Unread(device) && device.collectionSucceeded == (device.name !in s.failedTopology)
    ensures present <==> device.name in s.infos
    ensures if s.Aborts(i) then result == Err(s.version(i).code)
      else
        && result.Ok? && SameFunction(device, result.value)
        && s.HasReadings(result.value) && s.HasStatus(i, result.value)
  {
    var d;
    present, d := ReadInfo(s, device);
    result := ApplyVersion(d, s.version(i));
  }

  method ReadInfo(s: Source, device: DeviceInfo) returns (present: bool, d: DeviceInfo)
    requires Unread(device)
    ensures present <==> device.name in s.infos
    ensures SameFunction(device, d) && s.HasReadings(d) && s.HasInfo(d)
    ensures d.smcVersion == device.smcVersion
    ensures d.collectionSucceeded == (device.collectionSucceeded && s.Telemetry(d.name).Some?)
  {
    d := device;
    if !d.isVF && d.topology.Some? {
      d := d.(pcieLinkSpeed := d.topology.value.linkSpeed, pcieLinkWidth := d.topology.value.linkWidth);
    }
    present := d.name in s.infos;
    if present {
      d := ApplyInfo(d, s.infos[d.name]);
    } else {
      d := d.(collectionSucceeded := false);
    }
  }

  /** Identity and partition agree. */
  predicate SameFunction(a: DeviceInfo, b: DeviceInfo)
  {
    && a.uuid == b.uuid && a.name == b.name && a.deviceID == b.deviceID && a.card == b.card
    && a.pciBusID == b.pciBusID && a.isVF == b.isVF && a.parentName == b.parentName && a.topology == b.topology
    && a.compute == b.compute && a.numVFs == b.numVFs && a.partitionMode == b.partitionMode
  }

  method ApplyVersion(d: DeviceInfo, version: Result<LegacyVersion>) returns (result: Result<DeviceInfo>)
    ensures result ==
      if version == Err(Unimplemented) then Ok(d)
      else if version.Err? && !DeviceUnavailable(version.code) then Err(version.code)
      else if version.Ok? && version.value.errStatus == STATUS_SUCCEED
      then Ok(d.(smcVersion := version.value.smcVersion))
      else Ok(d.(collectionSucceeded := false))
  {
    if version == Err(Unimplemented) {
      return Ok(d);
    }
    if version.Err? && !DeviceUnavailable(version.code) {
      return Err(version.code);
    }
    if version.Err? || version.value.errStatus != STATUS_SUCCEED {
      return Ok(d.(collectionSucceeded := false));
    }
    return Ok(d.(smcVersion := version.value.smcVersion));
  }

  /** A device before anything was read for it. */
  predicate Unread(d: DeviceInfo)
  {
    && d.temperature.None? && d.power.None? && d.memoryUsedBytes.None? && d.memoryTotalBytes.None?
    && d.utilization.None? && d.pState.None? && d.pcieLinkSpeed.None? && d.pcieLinkWidth.None?
    && d.devState == STATE_UNSPECIFIED
    && d.driverVersion == "" && d.firmwareVersion == "" && d.smcVersion == ""
  }

  /** The device as the reconstructed inventory and local sysfs describe it. */
  method Classify(s: Source, i: nat, entries: seq<Entry>) returns (d: DeviceInfo)
    requires i < |s.input.devices| && entries == s.Entries()
    ensures s.HasIdentity(i, d) && s.HasPartition(i, d)
    ensures Unread(d) && d.collectionSucceeded == (d.name !in s.failedTopology)
  {
    var identity := entries[i];
    var count := s.input.devices[i].numVfs;
    d := DeviceInfo(
      identity.uuid, identity.name, identity.devId, identity.cardName, identity.pciBusId, identity.isVf,
      identity.parentName, Some(count), "", identity.npuId.Some?,
      None, None, None, None, None, "", "", "", STATE_UNSPECIFIED,
      identity.name !in s.failedTopology, None, None, None,
      if identity.name in s.topology then Some(s.topology[identity.name]) else None);
    if !d.isVF && !d.compute && count == 0 {
      // Some VF shows that it hosts, so a listed count of zero is no count.
      d := d.(numVFs := None);
    }
    var cell := new DeviceCell(d);
    PartitionMetadata(cell, entries, s.Host(i));
    d := cell.info;
  }

  /** The readings of one total-info record. A failed one supplies only state and versions. */
  method ApplyInfo(device: DeviceInfo, info: LegacyInfo) returns (d: DeviceInfo)
    ensures var base := device.(
        devState := LegacyState(info.devStatus), driverVersion := info.drvVersion, firmwareVersion := info.fwVersion);
      d == if info.errStatus != STATUS_SUCCEED then base.(collectionSucceeded := false)
           else base.(
             temperature :=
               if device.isVF then device.temperature else LegacyReading(info.temperature.DividedBy(1000.0), false),
             power := if device.isVF then device.power else LegacyReading(info.watt.DividedBy(1000000.0), true),
             memoryTotalBytes := if device.compute then LegacyBytes(info.totalMem) else device.memoryTotalBytes,
             memoryUsedBytes := if device.compute then LegacyBytes(info.usedMem) else device.memoryUsedBytes,
             utilization := if device.compute then LegacyReading(info.utilization, true) else device.utilization,
             pState := if info.pState >= 0 then Some(info.pState) else device.pState)
  {
    d := device.(
      devState := LegacyState(info.devStatus), driverVersion := info.drvVersion, firmwareVersion := info.fwVersion);
    if info.errStatus == STATUS_SUCCEED {
      if !d.isVF {
        d := d.(temperature := LegacyReading(info.temperature.DividedBy(1000.0), false),
                power := LegacyReading(info.watt.DividedBy(1000000.0), true));
      }
      if d.compute {
        d := d.(memoryTotalBytes := LegacyBytes(info.totalMem),
                memoryUsedBytes := LegacyBytes(info.usedMem),
                utilization := LegacyReading(info.utilization, true));
      }
      if info.pState >= 0 {
        d := d.(pState := Some(info.pState));
      }
    } else {
      d := d.(collectionSucceeded := false);
    }
  }

  type Gathering = Result<(seq<DeviceInfo>, set<string>)>

  /** What a v0 daemon and this host answer during one collection. */
  datatype V0Daemon = V0Daemon(
    devices: Stream<LegacyDevice>,
    infos: Stream<LegacyInfo>,
    topology: Result<seq<LegacyTopologyEntry>>,
    sysfs: bool,
    physfn: nat -> Option<string>,
    host: nat -> Reads,
    version: nat -> Result<LegacyVersion>)
  {
    predicate Listed()
    {
      && devices.Stream? && devices.error.None?
      && infos.Stream? && infos.error.None?
      && (topology.Ok? || topology == Err(Unimplemented))
    }

    /** The error of the first listing that did not complete. */
    function ListingError(): Code
      requires !Listed()
    {
      if devices.NotOpened? then devices.code
      else if devices.error.Some? then devices.error.value
      else if infos.NotOpened? then infos.code
      else if infos.error.Some? then infos.error.value
      else topology.code
    }

    /** What a collection gives: the loop's result, or the first error of a listing. */
    ghost predicate Gives(result: Gathering)
    {
      if Listed() then AsSource().Collects(result) else result == Err(ListingError())
    }

    function AsSource(): Source
      requires Listed()
    {
      Source(
        Input(sysfs, Named(devices.records), physfn),
        InfoTable(infos.records),
        if topology.Ok? then TopologyTable(topology.value) else map[],
        if topology.Ok? then FailedTopology(topology.value) else {},
        host, version)
    }
  }

  /** `collectV0`: nothing is returned unless all three listings are complete. */
  method Collect(v0: V0Daemon) returns (result: Gathering)
    ensures v0.Gives(result)
  {
    var devices := LegacyDevices(v0.devices);
    if devices.Err? {
      return Err(devices.code);
    }
    var infos := LegacyTotalInfo(v0.infos);
    if infos.Err? {
      return Err(infos.code);
    }
    var topology := LegacyTopology(v0.topology);
    if topology.Err? {
      return Err(topology.code);
    }
    var s := Source(
      Input(v0.sysfs, devices.value, v0.physfn),
      infos.value, topology.value.0, topology.value.1, v0.host, v0.version);
    assert s == v0.AsSource();
    result := CollectDevices(s);
  }

  // ---------------------------------------------------------------------------------------
  // The answers determine the result
  // ---------------------------------------------------------------------------------------

  lemma ExportsOnce(s: Source, i: nat, d: DeviceInfo, d': DeviceInfo)
    requires i < |s.input.devices| && s.Exports(i, d) && s.Exports(i, d')
    ensures d == d'
  {
    assert s.HasIdentity(i, d) && s.HasIdentity(i, d');
    assert s.HasPartition(i, d) && s.HasPartition(i, d');
    assert s.HasReadings(d) && s.HasReadings(d');
    assert s.HasStatus(i, d) && s.HasStatus(i, d');
  }

  lemma CollectsOnce(s: Source, r: Gathering, r': Gathering)
    requires s.Collects(r) && s.Collects(r')
    ensures r == r'
  {
    if r.Ok? && r'.Ok? {
      forall i, d, d' | s.ExportAt()(i, d) && s.ExportAt()(i, d') ensures d == d' {
        ExportsOnce(s, i, d, d');
      }
      ResultsOnce(|s.input.devices|, s.SkippedAt(), s.ExportAt(), r.value.0, r'.value.0);
    }
  }

  /** On given answers a collection has one result. */
  lemma GivesOnce(v0: V0Daemon, r: Gathering, r': Gathering)
    requires v0.Gives(r) && v0.Gives(r')
    ensures r == r'
  {
    if v0.Listed() { CollectsOnce(v0.AsSource(), r, r'); }
  }

  // ---------------------------------------------------------------------------------------
  // What the readings mean
  // ---------------------------------------------------------------------------------------

  /** Every exported reading is in scope: temperature and power belong to physical functions, memory
      and utilization to compute devices, and what cannot be negative is not. Without a record the
      daemon vouches for there is no reading at all, and the collection of the device failed; it
      also failed when its version query did, unless the daemon has no such query. */
  lemma ReadingsInScope(s: Source, i: nat, d: DeviceInfo)
    requires i < |s.input.devices| && s.Exports(i, d)
    ensures d.temperature.Some? || d.power.Some? ==> !d.isVF
    ensures d.memoryUsedBytes.Some? || d.memoryTotalBytes.Some? || d.utilization.Some? ==> d.compute
    ensures d.power.Some? ==> d.power.value >= 0.0
    ensures d.utilization.Some? ==> d.utilization.value >= 0.0
    ensures s.Telemetry(d.name).None? ==>
      && d.temperature.None? && d.power.None? && d.memoryUsedBytes.None? && d.memoryTotalBytes.None?
      && d.utilization.None? && d.pState.None? && !d.collectionSucceeded
    ensures s.version(i).Err? && s.version(i).code != Unimplemented ==> !d.collectionSucceeded && d.smcVersion == ""
  {
    assert s.HasReadings(d) && s.HasStatus(i, d);
  }

  // ---------------------------------------------------------------------------------------
  // No double counting
  // ---------------------------------------------------------------------------------------

  /** No device that is named as the parent of an exported VF exports memory or utilization; it is
      not even a compute device. */
  lemma ParentsCarryNoCompute(s: Source, out: seq<DeviceInfo>, v: DeviceInfo, p: DeviceInfo)
    requires s.ExportsAll(out) && v in out && p in out
    requires v.isVF && v.parentName != "" && p.name == v.parentName
    ensures !p.compute && p.memoryUsedBytes.None? && p.memoryTotalBytes.None? && p.utilization.None?
  {
    var i := PositionOf(|s.input.devices|, s.SkippedAt(), s.ExportAt(), out, v);
    var j := PositionOf(|s.input.devices|, s.SkippedAt(), s.ExportAt(), out, p);
    assert s.input.Shows(i, j);
    assert s.input.ClosedForm(j).npuId.None?;
  }
}
