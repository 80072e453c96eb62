/** The metric objects (internal/collector/memory_metrics.go, utilization_metrics.go,
    health_metrics.go, device_state_metrics.go, shared_device_metrics.go). A gauge vector is a map
    from label tuples to values; each update takes its own snapshot of the pod attribution. */
module Metrics {
  import opened Options
  import opened Text
  import opened Devices
  import opened PodResources
  import opened Attribution
  import opened PodMapper
  import opened Series
  import opened Exposition

  /** A mapper's snapshot is the one attribution its answer calls for. */
  lemma SnapshotIs(devices: seq<DeviceInfo>, response: Response, pods: map<string, Claimant>, shared: seq<string>)
    requires IsMappingOf(pods, shared, Some(Current(devices)), response)
    ensures pods == PodsFor(devices, response) && Elements(shared) == SharedFor(devices, response)
  {
    var m := AttributionOf(ClaimsFor(devices, response));
    AttributionUnique(pods, Elements(shared), m.devices, m.shared, ClaimsFor(devices, response));
  }

  method Snapshot(mapper: PodResourceMapper, devices: seq<DeviceInfo>)
    returns (pods: map<string, Claimant>, shared: seq<string>)
    requires mapper.Valid()
    ensures pods == PodsFor(devices, mapper.lastResponse) && Elements(shared) == SharedFor(devices, mapper.lastResponse)
  {
    pods, shared := mapper.SnapshotFor(devices);
    SnapshotIs(devices, mapper.lastResponse, pods, shared);
  }

  /** What the cells of one more device do to a gauge. */
  ghost function Put(g: Gauge, labels: Labels, value: Option<real>): Gauge
  {
    if value.Some? then g[labels := value.value] else g
  }

  /** The gauge after the first i devices were set, starting from what it held. */
  ghost function Upto(g: Gauge, devices: seq<DeviceInfo>, i: nat, cells: Cells): Gauge
    requires i <= |devices|
  {
    g + Family(devices[..i], cells)
  }

  lemma UptoAll(g: Gauge, devices: seq<DeviceInfo>, cells: Cells)
    ensures Upto(g, devices, 0, cells) == g
    ensures Upto(g, devices, |devices|, cells) == g + Family(devices, cells)
  {
    assert devices[..|devices|] == devices;
  }

  lemma UptoStep(g: Gauge, devices: seq<DeviceInfo>, i: nat, cells: Cells)
    requires i < |devices|
    ensures Upto(g, devices, i + 1, cells) == Upto(g, devices, i, cells) + cells(devices[i])
  {
    FamilyStep(devices, i, cells);
  }

  lemma PutStep(
    g: Gauge, devices: seq<DeviceInfo>, i: nat, c: Config, pods: map<string, Claimant>,
    value: DeviceInfo -> Option<real>)
    requires i < |devices|
    ensures var cells := Labelled(c, pods, value);
      Upto(g, devices, i + 1, cells) ==
        Put(Upto(g, devices, i, cells), LabelsOf(devices[i], c, pods), value(devices[i]))
  {
    UptoStep(g, devices, i, Labelled(c, pods, value));
  }

  class MemoryMetric {
    const mapper: PodResourceMapper
    const config: Config
    var dramUsed: Gauge
    var dramTotal: Gauge

    constructor (mapper: PodResourceMapper, config: Config)
      ensures this.mapper == mapper && this.config == config && dramUsed == map[] && dramTotal == map[]
    {
      this.mapper, this.config, dramUsed, dramTotal := mapper, config, map[], map[];
    }

    method Reset()
      modifies this
      ensures dramUsed == map[] && dramTotal == map[]
    {
      dramUsed, dramTotal := map[], map[];
    }

    method UpdateMetrics(devices: seq<DeviceInfo>)
      requires mapper.Valid()
      modifies this
      ensures var pods := PodsFor(devices, mapper.lastResponse);
        && dramUsed == old(dramUsed) + Family(devices, Labelled(config, pods, MemoryUsed()))
        && dramTotal == old(dramTotal) + Family(devices, Labelled(config, pods, MemoryTotal()))
    {
      var pods, _ := Snapshot(mapper, devices);
      ghost var used, total := Labelled(config, pods, MemoryUsed()), Labelled(config, pods, MemoryTotal());
      UptoAll(old(dramUsed), devices, used);
      UptoAll(old(dramTotal), devices, total);
      for i := 0 to |devices|
        invariant dramUsed == Upto(old(dramUsed), devices, i, used)
        invariant dramTotal == Upto(old(dramTotal), devices, i, total)
      {
        PutStep(old(dramUsed), devices, i, config, pods, MemoryUsed());
        PutStep(old(dramTotal), devices, i, config, pods, MemoryTotal());
        var device := devices[i];
        var labels := BuildLabels(device, config, pods);
        if !device.compute {
          continue;
        }
        if device.memoryUsedBytes.Some? {
          dramUsed := dramUsed[labels := device.memoryUsedBytes.value as real];
        }
        if device.memoryTotalBytes.Some? {
          dramTotal := dramTotal[labels := device.memoryTotalBytes.value as real];
        }
      }
    }
  }

  class UtilizationMetric {
    const mapper: PodResourceMapper
    const config: Config
    var utilization: Gauge

    constructor (mapper: PodResourceMapper, config: Config)
      ensures this.mapper == mapper && this.config == config && utilization == map[]
    {
      this.mapper, this.config, utilization := mapper, config, map[];
    }

    method Reset()
      modifies this
      ensures utilization == map[]
    {
      utilization := map[];
    }

    method UpdateMetrics(devices: seq<DeviceInfo>)
      requires mapper.Valid()
      modifies this
      ensures utilization == old(utilization)
        + Family(devices, Labelled(config, PodsFor(devices, mapper.lastResponse), Utilization()))
    {
      var pods, _ := Snapshot(mapper, devices);
      ghost var cells := Labelled(config, pods, Utilization());
      UptoAll(old(utilization), devices, cells);
      for i := 0 to |devices|
        invariant utilization == Upto(old(utilization), devices, i, cells)
      {
        PutStep(old(utilization), devices, i, config, pods, Utilization());
        var device := devices[i];
        var labels := BuildLabels(device, config, pods);
        if device.compute && device.utilization.Some? {
          utilization := utilization[labels := device.utilization.value];
        }
      }
    }
  }

  class DeviceHealthMetric {
    const mapper: PodResourceMapper
    const config: Config
    var healthStatus: Gauge

    constructor (mapper: PodResourceMapper, config: Config)
      ensures this.mapper == mapper && this.config == config && healthStatus == map[]
    {
      this.mapper, this.config, healthStatus := mapper, config, map[];
    }

    method Reset()
      modifies this
      ensures healthStatus == map[]
    {
      healthStatus := map[];
    }

    method UpdateMetrics(devices: seq<DeviceInfo>)
      requires mapper.Valid()
      modifies this
      ensures healthStatus == old(healthStatus)
        + Family(devices, Labelled(config, PodsFor(devices, mapper.lastResponse), Health()))
    {
      var pods, _ := Snapshot(mapper, devices);
      ghost var cells := Labelled(config, pods, Health());
      UptoAll(old(healthStatus), devices, cells);
      for i := 0 to |devices|
        invariant healthStatus == Upto(old(healthStatus), devices, i, cells)
      {
        PutStep(old(healthStatus), devices, i, config, pods, Health());
        var value := devices[i].Health();
        if value.Some? {
          var labels := BuildLabels(devices[i], config, pods);
          healthStatus := healthStatus[labels := value.value];
        }
      }
    }
  }

  class DeviceStateMetric {
    const mapper: PodResourceMapper
    const config: Config
    var deviceStatus: Gauge

    constructor (mapper: PodResourceMapper, config: Config)
      ensures this.mapper == mapper && this.config == config && deviceStatus == map[]
    {
      this.mapper, this.config, deviceStatus := mapper, config, map[];
    }

    method Reset()
      modifies this
      ensures deviceStatus == map[]
    {
      deviceStatus := map[];
    }

    method UpdateMetrics(devices: seq<DeviceInfo>)
      requires mapper.Valid()
      modifies this
      ensures deviceStatus == old(deviceStatus)
        + Family(devices, StateCells(config, PodsFor(devices, mapper.lastResponse)))
    {
      var pods, _ := Snapshot(mapper, devices);
      ghost var cells := StateCells(config, pods);
      UptoAll(old(deviceStatus), devices, cells);
      for i := 0 to |devices|
        invariant deviceStatus == Upto(old(deviceStatus), devices, i, cells)
      {
        UptoStep(old(deviceStatus), devices, i, cells);
        var state := devices[i].devState;
        if !IsNamed(state) {
          state := STATE_UNSPECIFIED;
        }
        var labels := BuildLabels(devices[i], config, pods);
        OneHotOf(devices[i], config, pods);
        SetStates(labels, state);
      }
    }

    /** The inner loop over the table of names, in whatever order it is iterated; one labels map is
        overwritten for each. */
    method SetStates(deviceLabels: Labels, state: DeviceState)
      requires IsNamed(state)
      modifies this
      ensures deviceStatus == old(deviceStatus) + OneHot(deviceLabels, state, DEVICE_STATES.Keys)
    {
      var labels := deviceLabels;
      var rest := DEVICE_STATES.Keys;
      ghost var before, done: set<string> := deviceStatus, {};
      while rest != {}
        invariant rest <= DEVICE_STATES.Keys && done == DEVICE_STATES.Keys - rest
        invariant Overwritten(deviceLabels, labels)
        invariant deviceStatus == before + OneHot(deviceLabels, state, done)
        decreases |rest|
      {
        var stateName :| stateName in rest;
        labels := SetState(labels, state, stateName, before, deviceLabels, done);
        TakeOne(DEVICE_STATES.Keys, rest, stateName);
        rest, done := rest - {stateName}, done + {stateName};
      }
      assert done == DEVICE_STATES.Keys;
    }

    /** One turn of that loop. */
    method SetState(
      labels: Labels, state: DeviceState, stateName: string,
      ghost before: Gauge, ghost deviceLabels: Labels, ghost done: set<string>) returns (tuple: Labels)
      requires IsNamed(state) && stateName in DEVICE_STATES && done <= DEVICE_STATES.Keys
      requires Overwritten(deviceLabels, labels)
      requires deviceStatus == before + OneHot(deviceLabels, state, done)
      modifies this
      ensures Overwritten(deviceLabels, tuple)
      ensures deviceStatus == before + OneHot(deviceLabels, state, done + {stateName})
    {
      tuple := Relabel(deviceLabels, labels, stateName);
      OneHotStep(before, deviceLabels, state, done, stateName);
      var value := 0.0;
      if state == DEVICE_STATES[stateName] {
        value := 1.0;
      }
      deviceStatus := deviceStatus[tuple := value];
    }
  }

  lemma TakeOne(all: set<string>, rest: set<string>, x: string)
    requires rest <= all && x in rest
    ensures all - rest + {x} == all - (rest - {x})
    ensures |rest - {x}| < |rest|
  {
  }

  /** The labels differ from those of the device in the state label at most. */
  predicate Overwritten(deviceLabels: Labels, labels: Labels)
  {
    labels == deviceLabels || (StateLabel in labels && labels == deviceLabels[StateLabel := labels[StateLabel]])
  }

  function Relabel(ghost deviceLabels: Labels, labels: Labels, name: string): (r: Labels)
    requires Overwritten(deviceLabels, labels)
    ensures r == deviceLabels[StateLabel := name] && Overwritten(deviceLabels, r)
  {
    labels[StateLabel := name]
  }

  lemma OneHotStep(g: Gauge, labels: Labels, s: DeviceState, names: set<string>, name: string)
    requires names <= DEVICE_STATES.Keys && name in DEVICE_STATES
    ensures g + OneHot(labels, s, names + {name}) ==
      (g + OneHot(labels, s, names))[labels[StateLabel := name] := StateValue(s, name)]
  {
    var all, tuple := names + {name}, labels[StateLabel := name];
    forall t ensures t in StateTuples(labels, all) <==> t in StateTuples(labels, names) + {tuple} {
      if t in StateTuples(labels, names) {
        var n :| n in names && t == labels[StateLabel := n];
        assert n in all;
      }
      assert name in all;
    }
    assert tuple[StateLabel] == name;
  }

  /** What the loop sets for a device is what its state calls for. */
  lemma OneHotOf(d: DeviceInfo, c: Config, pods: map<string, Claimant>)
    ensures StateCells(c, pods)(d) == OneHot(LabelsOf(d, c, pods), Shown(d.devState), DEVICE_STATES.Keys)
  {
  }

  class SharedDeviceMetric {
    const mapper: PodResourceMapper
    const nodeName: string
    var shared: Gauge

    constructor (mapper: PodResourceMapper, nodeName: string)
      ensures this.mapper == mapper && this.nodeName == nodeName && shared == map[]
    {
      this.mapper, this.nodeName, shared := mapper, nodeName, map[];
    }

    method Reset()
      modifies this
      ensures shared == map[]
    {
      shared := map[];
    }

    method UpdateMetrics(devices: seq<DeviceInfo>)
      requires mapper.Valid()
      modifies this
      ensures shared == old(shared) + Family(devices, Labelled(
          Config(nodeName, true), PodsFor(devices, mapper.lastResponse),
          Sharing(SharedFor(devices, mapper.lastResponse))))
    {
      var pods, sharedDevices := Snapshot(mapper, devices);
      ghost var cells := Labelled(Config(nodeName, true), pods, Sharing(SharedFor(devices, mapper.lastResponse)));
      UptoAll(old(shared), devices, cells);
      for i := 0 to |devices|
        invariant shared == Upto(old(shared), devices, i, cells)
      {
        PutStep(
          old(shared), devices, i, Config(nodeName, true), pods, Sharing(SharedFor(devices, mapper.lastResponse)));
        var device := devices[i];
        if !device.compute {
          continue;
        }
        var labels := BuildLabels(device, Config(nodeName, true), pods);
        var value := 0.0;
        if device.name in sharedDevices {
          value := 1.0;
        }
        assert device.name in sharedDevices <==> device.name in Elements(sharedDevices);
        shared := shared[labels := value];
      }
    }
  }
}
