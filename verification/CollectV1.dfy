/** Collection through the v1 API (internal/daemon/client.go, collectV1). */
module CollectV1 {
  import opened Options
  import opened Text
  import opened Devices
  import opened Inventory
  import opened Partition
  import opened Paging
  import opened Samples
  import opened MetricGroups
  import opened InOrder

  // ---------------------------------------------------------------------------------------
  // One device, field by field
  // ---------------------------------------------------------------------------------------

  /** Everything the per-device loop reads: the listings, the sample response, and per device
      what sysfs and the two fallback queries answer. */
  datatype Source = Source(
    entries: seq<Entry>,
    topologies: map<string, TopologyInfo>,
    topologyFailures: set<string>,
    missing: set<string>,
    samples: seq<Sample>,
    host: nat -> Reads,
    version: nat -> Result<VersionInfo>,
    memory: nat -> Result<Option<nat>>)
  {
    predicate Skipped(i: nat)
      requires i < |entries|
    {
      ForeignDriver(entries[i].pciBusId, host(i))
    }

    // The fallback queries are made only for what the listing left out.

    predicate VersionFails(i: nat)
      requires i < |entries|
    {
      entries[i].versions.None? && version(i).Err?
    }

    predicate QueriesMemory(i: nat)
      requires i < |entries|
    {
      entries[i].memory.None? && entries[i].npuId.Some?
    }

    predicate MemoryFails(i: nat)
      requires i < |entries|
    {
      QueriesMemory(i) && memory(i).Err?
    }

    /** The error of device i that ends the collection. */
    function Abort(i: nat): Option<Code>
      requires i < |entries|
    {
      if VersionFails(i) && !DeviceUnavailable(version(i).code) then Some(version(i).code)
      else if MemoryFails(i) && !DeviceUnavailable(memory(i).code) then Some(memory(i).code)
      else None
    }

    ghost predicate FirstAbort(i: nat)
      requires i < |entries|
    {
      !Skipped(i) && Abort(i).Some? && NoAbortBefore(i)
    }

    ghost predicate NoAbortBefore(k: nat)
      requires k <= |entries|
    {
      forall j :: 0 <= j < k && !Skipped(j) ==> Abort(j).None?
    }

    function Versions(i: nat): VersionInfo
      requires i < |entries|
    {
      if entries[i].versions.Some? then entries[i].versions.value
      else if version(i).Ok? then version(i).value
      else VersionInfo("", "", "")
    }

    function MemoryTotal(i: nat): Option<nat>
      requires i < |entries|
    {
      if entries[i].npuId.None? then None
      else if entries[i].memory.Some? then entries[i].memory
      else if memory(i).Ok? then memory(i).value
      else None
    }

    /** The samples a device may use: all its own, unless the daemon could not reach it. */
    function OwnSamples(name: string): seq<Sample>
    {
      if name == "" || name in missing then [] else OfDevice(samples, name)
    }

    ghost function Count(i: nat): Option<nat>
      requires i < |entries|
    {
      EnabledVfs(entries[i].isVf, entries[i].pciBusId, entries[i].parentName, entries, host(i))
    }

    ghost predicate HasIdentity(i: nat, d: DeviceInfo)
      requires i < |entries|
    {
      var e := entries[i];
      && d.uuid == e.uuid && d.name == e.name && d.deviceID == e.devId && d.card == e.cardName
      && d.pciBusID == e.pciBusId && d.isVF == e.isVf && d.parentName == e.parentName
      && d.devState == e.state
      && d.topology == (if e.name in topologies then Some(topologies[e.name]) else None)
      && d.pcieLinkSpeed == (if !e.isVf && d.topology.Some? then d.topology.value.linkSpeed else None)
      && d.pcieLinkWidth == (if !e.isVf && d.topology.Some? then d.topology.value.linkWidth else None)
    }

    ghost predicate HasSpecs(i: nat, d: DeviceInfo)
      requires i < |entries|
    {
      && d.driverVersion == Versions(i).drvVersion
      && d.firmwareVersion == Versions(i).fwVersion
      && d.smcVersion == Versions(i).smcVersion
      && d.memoryTotalBytes == MemoryTotal(i)
      && d.collectionSucceeded ==
           (d.name !in missing && d.name !in topologyFailures && !VersionFails(i) && !MemoryFails(i))
    }

    ghost predicate HasPartition(i: nat, d: DeviceInfo)
      requires i < |entries|
    {
      var e, count := entries[i], Count(i);
      && d.compute == (e.npuId.Some? && (e.isVf || count.None? || count == Some(0)))
      && d.numVFs == (
           if e.isVf then Some(0)
           else if count.Some? then count
           else if e.npuId.Some? then Some(0)
           else None)
      && d.partitionMode == (
           if e.isVf then (if count == Some(1) then "vf1" else if count == Some(4) then "vf4" else "")
           else if d.compute then "none" else "hosting")
    }

    /** Each reading is that of the last valid sample; which samples are valid depends on the
        classified device. */
    ghost predicate HasReadings(d: DeviceInfo)
    {
      var samples := OwnSamples(d.name);
      && d.temperature == LastReading(samples, Temperature(d.isVF), None)
      && d.power == LastReading(samples, Power(d.isVF), None)
      && d.utilization == LastReading(samples, Utilization(d.compute), None)
      && d.memoryUsedBytes == LastReading(samples, MemoryUsed(d.compute), None)
      && d.pState == LastReading(samples, PState(), None)
    }

    ghost predicate Exports(i: nat, d: DeviceInfo)
      requires i < |entries|
    {
      HasIdentity(i, d) && HasSpecs(i, d) && HasPartition(i, d) && HasReadings(d)
    }

    ghost function SkippedAt(): nat -> bool
    {
      (i: nat) => i < |entries| && Skipped(i)
    }

    ghost function ExportAt(): (nat, DeviceInfo) -> bool
    {
      (i: nat, d: DeviceInfo) => i < |entries| && Exports(i, d)
    }

    ghost predicate ExportsAll(out: seq<DeviceInfo>)
    {
      Results(|entries|, SkippedAt(), ExportAt(), out)
    }

    /** The loop before device k. */
    ghost predicate Progress(k: nat, out: seq<DeviceInfo>)
      requires k <= |entries|
    {
      Results(k, SkippedAt(), ExportAt(), out) && NoAbortBefore(k)
    }

    lemma SkippingProgresses(k: nat, out: seq<DeviceInfo>)
      requires k < |entries| && Skipped(k) && Progress(k, out)
      ensures Progress(k + 1, out)
    {
      NoAbortStep(k);
    }

    lemma ExportProgresses(k: nat, out: seq<DeviceInfo>, d: DeviceInfo)
      requires k < |entries| && !Skipped(k) && Abort(k).None? && Exports(k, d) && Progress(k, out)
      ensures Progress(k + 1, out + [d])
    {
      ResultsGrow(k, SkippedAt(), ExportAt(), out, d);
      NoAbortStep(k);
    }

    lemma NoAbortStep(k: nat)
      requires k < |entries| && NoAbortBefore(k) && (Skipped(k) || Abort(k).None?)
      ensures NoAbortBefore(k + 1)
    {
    }
  }

  // ---------------------------------------------------------------------------------------
  // The per-device loop
  // ---------------------------------------------------------------------------------------

  /** The loop ends at the first device that neither is skipped nor can be described. */
  ghost predicate LoopAborts(s: Source, code: Code)
  {
    exists i :: 0 <= i < |s.entries| && s.FirstAbort(i) && s.Abort(i) == Some(code)
  }

  method CollectDevices(s: Source) returns (result: Result<seq<DeviceInfo>>)
    ensures match result
      case Ok(out) => s.ExportsAll(out) && s.NoAbortBefore(|s.entries|)
      case Err(code) => LoopAborts(s, code)
  {
    var readings := IndexSamples(s.samples, s.missing);
    result := CollectEach(s, readings);
  }

  method CollectEach(s: Source, readings: map<string, seq<Sample>>) returns (result: Result<seq<DeviceInfo>>)
    requires forall name :: Readings(readings, name) == s.OwnSamples(name)
    ensures match result
      case Ok(out) => s.ExportsAll(out) && s.NoAbortBefore(|s.entries|)
      case Err(code) => LoopAborts(s, code)
  {
    var merged: seq<DeviceInfo> := [];
    for i := 0 to |s.entries|
      invariant s.Progress(i, merged)
    {
      if ForeignDriver(s.entries[i].pciBusId, s.host(i)) {
        s.SkippingProgresses(i, merged);
        continue;
      }
      var r := CollectDevice(s, i, readings);
      if r.Err? {
        return Err(r.code);
      }
      s.ExportProgresses(i, merged, r.value);
      merged := merged + [r.value];
    }
    return Ok(merged);
  }

  method CollectDevice(s: Source, i: nat, readings: map<string, seq<Sample>>) returns (result: Result<DeviceInfo>)
    requires i < |s.entries|
    requires forall name :: Readings(readings, name) == s.OwnSamples(name)
    ensures if s.Abort(i).Some? then result == Err(s.Abort(i).value) else result.Ok? && s.Exports(i, result.value)
  {
    result := Describe(s, i);
    if result.Err? {
      return;
    }
    var cell := new DeviceCell(result.value);
    PartitionMetadata(cell, s.entries, s.host(i));
    if !cell.info.isVF && cell.info.topology.Some? {
      cell.info := cell.info.(
        pcieLinkSpeed := cell.info.topology.value.linkSpeed, pcieLinkWidth := cell.info.topology.value.linkWidth);
    }
    ghost var classified := cell.info;
    if cell.info.name !in s.missing {
      Replay(cell, Readings(readings, cell.info.name));
    }
    result := Ok(cell.info);
    Assembled(s, i, classified, cell.info);
  }

  /** A device without any dynamic reading. */
  predicate Unsampled(d: DeviceInfo)
  {
    d.temperature.None? && d.power.None? && d.memoryUsedBytes.None? && d.utilization.None? && d.pState.None?
  }

  lemma Assembled(s: Source, i: nat, classified: DeviceInfo, d: DeviceInfo)
    requires i < |s.entries|
    requires s.HasIdentity(i, classified) && s.HasSpecs(i, classified) && s.HasPartition(i, classified)
    requires Unsampled(classified)
    requires d == Sampled(classified, s.OwnSamples(classified.name))
    ensures s.Exports(i, d)
  {
  }

  /** Identity and static specs, before classification. */
  method Describe(s: Source, i: nat) returns (result: Result<DeviceInfo>)
    requires i < |s.entries|
    ensures s.Abort(i).Some? ==> result == Err(s.Abort(i).value)
    ensures s.Abort(i).None? ==>
      && result.Ok? && s.HasSpecs(i, result.value) && Unsampled(result.value)
      && var d, e := result.value, s.entries[i];
         && d.uuid == e.uuid && d.name == e.name && d.deviceID == e.devId && d.card == e.cardName
         && d.pciBusID == e.pciBusId && d.isVF == e.isVf && d.parentName == e.parentName && d.devState == e.state
         && d.topology == (if e.name in s.topologies then Some(s.topologies[e.name]) else None)
         && d.compute == e.npuId.Some? && d.numVFs.None? && d.partitionMode == ""
         && d.pcieLinkSpeed.None? && d.pcieLinkWidth.None?
  {
    var e := s.entries[i];
    var succeeded := e.name !in s.missing && e.name !in s.topologyFailures;
    var versions := e.versions;
    if versions.None? {
      var v := s.version(i);
      if v.Ok? {
        versions := Some(v.value);
      } else if !DeviceUnavailable(v.code) {
        return Err(v.code);
      } else {
        succeeded := false;
      }
    }
    var memory := e.memory;
    if memory.None? && e.npuId.Some? {
      var m := s.memory(i);
      if m.Ok? {
        memory := m.value;
      } else if !DeviceUnavailable(m.code) {
        return Err(m.code);
      } else {
        succeeded := false;
      }
    }
    var v := if versions.Some? then versions.value else VersionInfo("", "", "");
    return Ok(DeviceInfo(
      e.uuid, e.name, e.devId, e.cardName, e.pciBusId, e.isVf, e.parentName, None, "", e.npuId.Some?,
      None, None, None, if e.npuId.Some? then memory else None, None,
      v.drvVersion, v.fwVersion, v.smcVersion, e.state, succeeded, None, None, None,
      if e.name in s.topologies then Some(s.topologies[e.name]) else None));
  }

  // ---------------------------------------------------------------------------------------
  // collectV1
  // ---------------------------------------------------------------------------------------

  datatype SampleReply = SampleReply(samples: seq<Sample>, unreachable: seq<string>)

  /** What a v1 daemon and this host answer during one collection. */
  datatype V1Daemon = V1Daemon(
    inventory: Daemon<Entry>,
    topology: Daemon<TopologyEntry>,
    groups: GroupService,
    sample: Result<SampleReply>,
    host: nat -> Reads,
    version: nat -> Result<VersionInfo>,
    memory: nat -> Result<Option<nat>>)

  ghost predicate AllTokensIn(v1: V1Daemon, tokens: set<string>)
  {
    && TokensIn(v1.inventory, tokens) && TokensIn(v1.topology, tokens)
    && TokensIn(v1.groups.first, tokens) && TokensIn(v1.groups.second, tokens)
  }

  /** The RPCs of this collection returned a group that may be sampled. */
  ghost predicate GroupWasVetted(service: GroupService, id: string, mayCreate: bool)
  {
    CallEnds(service, id, mayCreate, Ready)
  }

  ghost predicate ListsDevices(v1: V1Daemon, entries: seq<Entry>)
  {
    exists pages :: Walk(v1.inventory, pages, Finished) && entries == Collected(pages)
  }

  ghost predicate ListsTopology(v1: V1Daemon, topologies: map<string, TopologyInfo>, failures: set<string>)
  {
    exists pages :: Walk(v1.topology, pages, Finished) && topologies == Topologies(pages) && failures == Failures(pages)
  }

  ghost predicate Listed(v1: V1Daemon, s: Source)
  {
    ListsDevices(v1, s.entries) && ListsTopology(v1, s.topologies, s.topologyFailures)
  }

  /** The source the per-device loop runs on: complete listings, and samples only from a group
      vetted before, or none at all when there is no device. */
  ghost predicate IsSource(v1: V1Daemon, id: string, mayCreate: bool, s: Source)
  {
    && Listed(v1, s)
    && s.host == v1.host && s.version == v1.version && s.memory == v1.memory
    && if s.entries == [] then s.missing == {} && s.samples == []
       else
         && GroupWasVetted(v1.groups, id, mayCreate)
         && v1.sample.Ok? && s.missing == Elements(v1.sample.value.unreachable) && s.samples == v1.sample.value.samples
  }

  ghost predicate ListingFails<T(!new)>(daemon: Daemon<T>, code: Code)
  {
    exists pages, ending :: Walk(daemon, pages, ending) && Outcome(pages, ending, ()) == Err(code)
  }

  type Gathering = Result<(seq<DeviceInfo>, set<string>)>

  /** The steps of a collection, at any of which it may end. */
  datatype Phase = AtDevices | AtTopology | AtGroup | AtSamples | AtLoop

  /** The collection ends at a phase, all those before it having succeeded, with this result. */
  ghost predicate EndsAt(v1: V1Daemon, id: string, mayCreate: bool, s: Source, phase: Phase, result: Gathering)
  {
    match phase
    case AtDevices => result.Err? && ListingFails(v1.inventory, result.code)
    case AtTopology => ListsDevices(v1, s.entries) && result.Err? && ListingFails(v1.topology, result.code)
    case AtGroup =>
      Listed(v1, s) && s.entries != [] && result.Err? && CallEnds(v1.groups, id, mayCreate, Refused(result.code))
    case AtSamples =>
      && Listed(v1, s) && s.entries != [] && GroupWasVetted(v1.groups, id, mayCreate)
      && v1.sample.Err? && result == Err(v1.sample.code)
    case AtLoop => IsSource(v1, id, mayCreate, s) && LoopGives(s, result)
  }

  /** The loop exports every device, or ends at the first one that cannot be described. */
  ghost predicate LoopGives(s: Source, result: Gathering)
  {
    match result
    case Ok((out, missing)) => s.ExportsAll(out) && s.NoAbortBefore(|s.entries|) && missing == s.missing
    case Err(code) => LoopAborts(s, code)
  }

  /** What a collection gives, and the source its loop ran on if it got there. */
  ghost predicate Gives(v1: V1Daemon, id: string, mayCreate: bool, s: Source, result: Gathering)
  {
    exists phase :: EndsAt(v1, id, mayCreate, s, phase, result)
  }

  /** `sampled` tells whether the SampleMetrics RPC was sent, `s` what the loop ran on. */
  method Collect(v1: V1Daemon, groupID: string, mayCreate: bool, ghost tokens: set<string>)
    returns (result: Gathering, sampled: bool, ghost s: Source)
    requires AllTokensIn(v1, tokens)
    ensures Gives(v1, groupID, mayCreate, s, result)
    ensures sampled ==> GroupWasVetted(v1.groups, groupID, mayCreate)
    ensures result.Ok? && s.entries != [] ==> sampled
  {
    sampled := false;
    s := Source([], map[], {}, {}, [], v1.host, v1.version, v1.memory);
    var devices, topology := List(v1, tokens);
    if devices.Err? {
      assert EndsAt(v1, groupID, mayCreate, s, AtDevices, Err(devices.code));
      return Err(devices.code), sampled, s;
    }
    s := s.(entries := devices.value);
    if topology.Err? {
      assert EndsAt(v1, groupID, mayCreate, s, AtTopology, Err(topology.code));
      return Err(topology.code), sampled, s;
    }
    s := s.(topologies := topology.value.0, topologyFailures := topology.value.1);
    var reply := Ok(SampleReply([], []));
    if |devices.value| > 0 {
      reply, sampled := Sample(v1, groupID, mayCreate, tokens);
      if reply.Err? {
        assert EndsAt(v1, groupID, mayCreate, s, if sampled then AtSamples else AtGroup, Err(reply.code));
        return Err(reply.code), sampled, s;
      }
    }
    var missing := RefSet(reply.value.unreachable);
    var src := Source(
      devices.value, topology.value.0, topology.value.1, missing, reply.value.samples, v1.host, v1.version, v1.memory);
    s := src;
    var merged := CollectDevices(src);
    result := if merged.Err? then Err(merged.code) else Ok((merged.value, missing));
    assert EndsAt(v1, groupID, mayCreate, s, AtLoop, result);
  }

  /** The two listings; the second is made only after the first succeeded. */
  method List(v1: V1Daemon, ghost tokens: set<string>)
    returns (devices: Result<seq<Entry>>, topology: Result<(map<string, TopologyInfo>, set<string>)>)
    requires AllTokensIn(v1, tokens)
    ensures devices.Ok? ==> ListsDevices(v1, devices.value)
    ensures devices.Ok? && topology.Ok? ==> ListsTopology(v1, topology.value.0, topology.value.1)
    ensures devices.Err? ==> ListingFails(v1.inventory, devices.code)
    ensures devices.Ok? && topology.Err? ==> ListingFails(v1.topology, topology.code)
  {
    ghost var pages, ending;
    devices, pages, ending := ListDevices(v1.inventory, tokens);
    if devices.Err? {
      assert Outcome(pages, ending, ()) == Err(devices.code);
      return devices, Err(devices.code);
    }
    ghost var topologyPages, topologyEnding;
    topology, topologyPages, topologyEnding := ListTopology(v1.topology, tokens);
    assert topology.Err? ==> Outcome(topologyPages, topologyEnding, ()) == Err(topology.code);
  }

  method Sample(v1: V1Daemon, groupID: string, mayCreate: bool, ghost tokens: set<string>)
    returns (reply: Result<SampleReply>, sampled: bool)
    requires AllTokensIn(v1, tokens)
    ensures sampled ==> GroupWasVetted(v1.groups, groupID, mayCreate) && reply == v1.sample
    ensures !sampled ==> reply.Err? && CallEnds(v1.groups, groupID, mayCreate, Refused(reply.code))
  {
    var ready := EnsureMetricGroup(v1.groups, groupID, mayCreate, tokens);
    if ready.Err? {
      return Err(ready.code), false;
    }
    return v1.sample, true;
  }

  // ---------------------------------------------------------------------------------------
  // The answers determine the result
  // ---------------------------------------------------------------------------------------

  lemma DevicesListedOnce(v1: V1Daemon, e: seq<Entry>, e': seq<Entry>)
    requires ListsDevices(v1, e) && ListsDevices(v1, e')
    ensures e == e'
  {
    var p :| Walk(v1.inventory, p, Finished) && e == Collected(p);
    var q :| Walk(v1.inventory, q, Finished) && e' == Collected(q);
    WalkUnique(v1.inventory, p, Finished, q, Finished);
  }

  lemma TopologyListedOnce(v1: V1Daemon, s: Source, s': Source)
    requires ListsTopology(v1, s.topologies, s.topologyFailures)
    requires ListsTopology(v1, s'.topologies, s'.topologyFailures)
    ensures s.topologies == s'.topologies && s.topologyFailures == s'.topologyFailures
  {
    var p :| Walk(v1.topology, p, Finished) && s.topologies == Topologies(p) && s.topologyFailures == Failures(p);
    var q :| Walk(v1.topology, q, Finished) && s'.topologies == Topologies(q) && s'.topologyFailures == Failures(q);
    WalkUnique(v1.topology, p, Finished, q, Finished);
  }

  lemma FinishedDoesNotFail<T(!new)>(daemon: Daemon<T>, pages: seq<Page<T>>, code: Code)
    requires Walk(daemon, pages, Finished)
    ensures !ListingFails(daemon, code)
  {
    if ListingFails(daemon, code) {
      var q, ending :| Walk(daemon, q, ending) && Outcome(q, ending, ()) == Err(code);
      WalkUnique(daemon, pages, Finished, q, ending);
      assert false;
    }
  }

  lemma FailsOnce<T(!new)>(daemon: Daemon<T>, code: Code, code': Code)
    requires ListingFails(daemon, code) && ListingFails(daemon, code')
    ensures code == code'
  {
    var p, e :| Walk(daemon, p, e) && Outcome(p, e, ()) == Err(code);
    var q, f :| Walk(daemon, q, f) && Outcome(q, f, ()) == Err(code');
    WalkUnique(daemon, p, e, q, f);
  }

  lemma ListedDoesNotFail(v1: V1Daemon, s: Source, code: Code)
    ensures ListsDevices(v1, s.entries) ==> !ListingFails(v1.inventory, code)
    ensures ListsTopology(v1, s.topologies, s.topologyFailures) ==> !ListingFails(v1.topology, code)
  {
    if ListsDevices(v1, s.entries) {
      var p :| Walk(v1.inventory, p, Finished) && s.entries == Collected(p);
      FinishedDoesNotFail(v1.inventory, p, code);
    }
    if ListsTopology(v1, s.topologies, s.topologyFailures) {
      var q :| Walk(v1.topology, q, Finished) && s.topologies == Topologies(q) && s.topologyFailures == Failures(q);
      FinishedDoesNotFail(v1.topology, q, code);
    }
  }

  function Order(phase: Phase): nat
  {
    match phase
    case AtDevices => 0
    case AtTopology => 1
    case AtGroup => 2
    case AtSamples => 3
    case AtLoop => 4
  }

  /** A collection that ends at one phase does not get to a later one. */
  lemma NoLaterEnd(
    v1: V1Daemon, id: string, mayCreate: bool, s: Source, p: Phase, r: Gathering, s': Source, q: Phase, r': Gathering)
    requires EndsAt(v1, id, mayCreate, s, p, r) && EndsAt(v1, id, mayCreate, s', q, r')
    ensures Order(q) <= Order(p)
  {
    if Order(p) < Order(q) {
      if p == AtDevices || p == AtTopology {
        ListedDoesNotFail(v1, s', r.code);
      } else {
        DevicesListedOnce(v1, s.entries, s'.entries);
        if p == AtGroup { CallEndsOnce(v1.groups, id, mayCreate, Refused(r.code), Ready); }
      }
      assert false;
    }
  }

  lemma ExportsOnce(s: Source, i: nat, d: DeviceInfo, d': DeviceInfo)
    requires i < |s.entries| && s.Exports(i, d) && s.Exports(i, d')
    ensures d == d'
  {
    assert s.HasIdentity(i, d) && s.HasIdentity(i, d');
    assert s.HasSpecs(i, d) && s.HasSpecs(i, d');
    assert s.HasPartition(i, d) && s.HasPartition(i, d');
    assert s.HasReadings(d) && s.HasReadings(d');
  }

  lemma LoopGivesOnce(s: Source, r: Gathering, r': Gathering)
    requires LoopGives(s, r) && LoopGives(s, r')
    ensures r == r'
  {
    if r.Ok? && r'.Ok? {
      forall i, d, d' | s.ExportAt()(i, d) && s.ExportAt()(i, d') ensures d == d' {
        ExportsOnce(s, i, d, d');
      }
      ResultsOnce(|s.entries|, s.SkippedAt(), s.ExportAt(), r.value.0, r'.value.0);
    }
  }

  /** On given answers a collection has one result, and a successful one ran on one source. */
  lemma GivesOnce(v1: V1Daemon, id: string, mayCreate: bool, s: Source, r: Gathering, s': Source, r': Gathering)
    requires Gives(v1, id, mayCreate, s, r) && Gives(v1, id, mayCreate, s', r')
    ensures r == r' && (r.Ok? ==> s == s')
  {
    var p :| EndsAt(v1, id, mayCreate, s, p, r);
    var q :| EndsAt(v1, id, mayCreate, s', q, r');
    NoLaterEnd(v1, id, mayCreate, s, p, r, s', q, r');
    NoLaterEnd(v1, id, mayCreate, s', q, r', s, p, r);
    assert p == q;
    match p
    case AtDevices => FailsOnce(v1.inventory, r.code, r'.code);
    case AtTopology => FailsOnce(v1.topology, r.code, r'.code);
    case AtGroup => CallEndsOnce(v1.groups, id, mayCreate, Refused(r.code), Refused(r'.code));
    case AtSamples =>
    case AtLoop =>
      DevicesListedOnce(v1, s.entries, s'.entries);
      TopologyListedOnce(v1, s, s');
      LoopGivesOnce(s, r, r');
  }

  // ---------------------------------------------------------------------------------------
  // What the readings mean
  // ---------------------------------------------------------------------------------------

  /** Every exported reading is in scope: utilization is a percentage of a compute device, memory
      in use belongs to one too, and temperature and power belong to physical functions. A device
      the daemon could not reach has no reading at all. */
  lemma ReadingsInScope(s: Source, i: nat, d: DeviceInfo)
    requires i < |s.entries| && s.Exports(i, d)
    ensures d.utilization.Some? ==> d.compute && 0.0 <= d.utilization.value <= 100.0
    ensures d.memoryUsedBytes.Some? ==> d.compute
    ensures d.temperature.Some? || d.power.Some? ==> !d.isVF
    ensures d.power.Some? ==> d.power.value >= 0.0
    ensures d.name in s.missing ==> Unsampled(d) && !d.collectionSucceeded
  {
    LastReadingsAreInScope(s.OwnSamples(d.name), d.isVF, d.compute);
  }

  /** Identity, state and topology are those of the listings. */
  lemma IdentityIsListed(s: Source, i: nat, d: DeviceInfo)
    requires i < |s.entries| && s.Exports(i, d)
    ensures var e := s.entries[i];
      && d.name == e.name && d.uuid == e.uuid && d.deviceID == e.devId && d.card == e.cardName
      && d.pciBusID == e.pciBusId && d.isVF == e.isVf && d.parentName == e.parentName && d.devState == e.state
      && d.topology == (if e.name in s.topologies then Some(s.topologies[e.name]) else None)
      && (d.isVF || d.topology.None? ==> d.pcieLinkSpeed.None? && d.pcieLinkWidth.None?)
      && (!d.isVF && d.topology.Some? ==>
            d.pcieLinkSpeed == d.topology.value.linkSpeed && d.pcieLinkWidth == d.topology.value.linkWidth)
  {
    assert s.HasIdentity(i, d);
  }

  /** Versions and size are those of the listing, or, where it has none, of the query that stands in
      for it. Collection succeeds exactly if the device was reachable for samples and topology and
      no such query failed. */
  lemma SpecsAreListedOrQueried(s: Source, i: nat, d: DeviceInfo)
    requires i < |s.entries| && s.Exports(i, d)
    ensures var e := s.entries[i];
      && (e.versions.Some? ==> HasVersions(d, e.versions.value))
      && (e.versions.None? && s.version(i).Ok? ==> HasVersions(d, s.version(i).value))
      && (e.versions.None? && s.version(i).Err? ==> HasVersions(d, VersionInfo("", "", "")))
      && (e.npuId.None? ==> d.memoryTotalBytes.None?)
      && (e.npuId.Some? && e.memory.Some? ==> d.memoryTotalBytes == e.memory)
      && (e.npuId.Some? && e.memory.None? ==>
            d.memoryTotalBytes == match s.memory(i) case Ok(size) => size case Err(_) => None)
      && (d.collectionSucceeded <==>
            && d.name !in s.missing && d.name !in s.topologyFailures
            && (e.versions.Some? || s.version(i).Ok?)
            && (e.memory.Some? || e.npuId.None? || s.memory(i).Ok?))
  {
    assert s.HasSpecs(i, d);
  }

  predicate HasVersions(d: DeviceInfo, v: VersionInfo)
  {
    d.driverVersion == v.drvVersion && d.firmwareVersion == v.fwVersion && d.smcVersion == v.smcVersion
  }

  /** How a device is shown as partitioned, from the VFs that sysfs counts on it or on its parent. */
  lemma PartitionIsCounted(s: Source, i: nat, d: DeviceInfo)
    requires i < |s.entries| && s.Exports(i, d)
    ensures d.isVF ==>
      && d.numVFs == Some(0) && d.compute == s.entries[i].npuId.Some?
      && d.partitionMode == (if s.Count(i) == Some(1) then "vf1" else if s.Count(i) == Some(4) then "vf4" else "")
    ensures !d.isVF && s.Count(i).Some? ==> d.numVFs == s.Count(i)
    ensures !d.isVF && s.Count(i).None? ==> d.numVFs == if s.entries[i].npuId.Some? then Some(0) else None
    ensures !d.isVF ==> d.partitionMode == if d.compute then "none" else "hosting"
  {
    assert s.HasPartition(i, d);
  }

  /** Each reading of a named, reachable device is that of the last sample of the device in the
      response that is valid for it, in the unit of the gauge; without such a sample there is none. */
  lemma ReadingsAreLastSamples(s: Source, i: nat, d: DeviceInfo)
    requires i < |s.entries| && s.Exports(i, d) && d.name != "" && d.name !in s.missing
    ensures IsLastFloat(s.samples, d.name, FloatSample(100, !d.isVF, None, None), 1000.0, d.temperature)
    ensures IsLastFloat(s.samples, d.name, FloatSample(101, !d.isVF, Some(0.0), None), 1000000.0, d.power)
    ensures IsLastFloat(
      s.samples, d.name, FloatSample(200, d.compute, Some(0.0), Some(100000.0)), 1000.0, d.utilization)
    ensures IsLastCount(s.samples, d.name, CountSample(300, d.compute), d.memoryUsedBytes)
    ensures IsLastCount(s.samples, d.name, CountSample(500, true), d.pState)
  {
    assert s.HasReadings(d);
    ReadingsAreLast(s.samples, d.name, d.isVF, d.compute);
  }

  /** Adding or dropping another device's sample anywhere in the response changes nothing about
      this one. */
  lemma OthersSamplesAreInvisible(s: Source, a: seq<Sample>, x: Sample, b: seq<Sample>, i: nat, d: DeviceInfo)
    requires i < |s.entries| && s.samples == a + [x] + b
    requires x.device != s.entries[i].name
    ensures s.Exports(i, d) <==> s.(samples := a + b).Exports(i, d)
  {
    var t := s.(samples := a + b);
    OtherDevicesDoNotMatter(a, x, b, s.entries[i].name);
    SamplesOnlyRead(s, t, i, d);
    assert d.name == s.entries[i].name ==> (s.HasReadings(d) <==> t.HasReadings(d));
  }

  lemma SamplesOnlyRead(s: Source, t: Source, i: nat, d: DeviceInfo)
    requires i < |s.entries| && t == s.(samples := t.samples)
    ensures s.HasIdentity(i, d) <==> t.HasIdentity(i, d)
    ensures s.HasSpecs(i, d) <==> t.HasSpecs(i, d)
    ensures s.HasPartition(i, d) <==> t.HasPartition(i, d)
  {
  }

  // ---------------------------------------------------------------------------------------
  // Double counting
  // ---------------------------------------------------------------------------------------

  /** The size of a device's memory is known: its listing carries one, or the query that stands in
      for the listing returns one. */
  predicate SizeIsKnown(s: Source, i: nat)
    requires i < |s.entries|
  {
    if s.entries[i].memory.Some? then true else s.memory(i).Ok? && s.memory(i).value.Some?
  }

  /** On v1 a physical function counts as compute exactly when the daemon calls it usable and
      local sysfs does not show it hosting VFs. Its total memory, however, was stored before it was
      classified: a function without compute holds one exactly when the daemon calls it usable and
      its size is known, sysfs alone showing that it hosts VFs. */
  lemma HostingFunctionOnV1(s: Source, i: nat, d: DeviceInfo)
    requires i < |s.entries| && s.Exports(i, d) && !d.isVF
    ensures d.compute <==> s.entries[i].npuId.Some? && (s.Count(i).None? || s.Count(i) == Some(0))
    ensures d.partitionMode == "hosting" <==> !d.compute
    ensures !d.compute ==> d.memoryUsedBytes.None? && d.utilization.None?
    ensures !d.compute && d.memoryTotalBytes.Some? <==>
      s.entries[i].npuId.Some? && s.Count(i).Some? && s.Count(i).value > 0 && SizeIsKnown(s, i)
  {
    ReadingsInScope(s, i, d);
    assert |"none"| != |"hosting"|;
  }
}
