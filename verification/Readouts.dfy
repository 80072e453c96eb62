/** What a reader finds in the exported families, in terms of the devices' own fields and kubelet's
    allocations (internal/collector/labels.go and the metric files beside it). */
module Readouts {
  import opened Options
  import opened Devices
  import opened PodResources
  import opened Series
  import opened Exposition
  import opened MetricList
  import opened DeviceClaims

  ghost predicate IsOf(labels: Labels, name: string)
  {
    Name in labels && labels[Name] == name
  }

  ghost predicate Describes(labels: Labels, d: DeviceInfo, nodeName: string)
  {
    && {Card, Name, UUID, DeviceID, Hostname, DriverVersion, FirmwareVersion} <= labels.Keys
    && labels[Card] == d.card && labels[Name] == d.name && labels[UUID] == d.uuid && labels[DeviceID] == d.deviceID
    && labels[Hostname] == nodeName
    && labels[DriverVersion] == d.driverVersion && labels[FirmwareVersion] == d.firmwareVersion
  }

  /** The one series of a device shows this value, or it has none. */
  ghost predicate ShowsOne(family: Gauge, d: DeviceInfo, nodeName: string, value: Option<real>)
  {
    if value.None? then forall labels :: labels in family ==> !IsOf(labels, d.name)
    else exists labels :: labels in family && IsOnlySeries(family, labels, d, nodeName, value.value)
  }

  ghost predicate IsOnlySeries(family: Gauge, labels: Labels, d: DeviceInfo, nodeName: string, value: real)
  {
    && labels in family && family[labels] == value && Describes(labels, d, nodeName)
    && forall other :: other in family && IsOf(other, d.name) ==> other == labels
  }

  lemma LabelledShowsOne(
    devices: seq<DeviceInfo>, c: Config, pods: map<string, Claimant>, value: DeviceInfo -> Option<real>, d: DeviceInfo)
    requires DistinctNames(devices) && d in devices
    ensures ShowsOne(Family(devices, Labelled(c, pods, value)), d, c.nodeName, value(d))
  {
    var family, labels := Family(devices, Labelled(c, pods, value)), LabelsOf(d, c, pods);
    OneSeriesPerDevice(devices, c, pods, value, d);
    LabelsDescribe(d, c, pods);
    TheOnlySeries(family, labels, d, c.nodeName, value(d));
  }

  lemma LabelsDescribe(d: DeviceInfo, c: Config, pods: map<string, Claimant>)
    ensures Describes(LabelsOf(d, c, pods), d, c.nodeName)
  {
    assert {Card, Name, UUID, DeviceID, Hostname, DriverVersion, FirmwareVersion} <= LabelNames(c.includePodLabels);
  }

  lemma TheOnlySeries(family: Gauge, labels: Labels, d: DeviceInfo, nodeName: string, value: Option<real>)
    requires Describes(labels, d, nodeName)
    requires forall other ::
      other in family && Name in other && other[Name] == d.name <==> value.Some? && other == labels
    requires value.Some? ==> labels in family && family[labels] == value.value
    ensures ShowsOne(family, d, nodeName, value)
  {
    assert forall other :: IsOf(other, d.name) <==> Name in other && other[Name] == d.name;
    if value.Some? {
      assert IsOnlySeries(family, labels, d, nodeName, value.value);
    }
  }

  /** Each family shows its own field of each device: memory and utilization of compute devices
      alone and only if known, health by the number of the state. */
  lemma FamiliesShowFields(metrics: MetricList, devices: seq<DeviceInfo>, seen: Seen, d: DeviceInfo)
    requires DistinctNames(devices) && d in devices
    ensures var f, node := metrics.FamiliesOf(devices, seen), metrics.nodeName;
      && ShowsOne(f.dramUsed, d, node,
           if d.compute && d.memoryUsedBytes.Some? then Some(d.memoryUsedBytes.value as real) else None)
      && ShowsOne(f.dramTotal, d, node,
           if d.compute && d.memoryTotalBytes.Some? then Some(d.memoryTotalBytes.value as real) else None)
      && ShowsOne(f.utilization, d, node, if d.compute then d.utilization else None)
      && ShowsOne(f.health, d, node,
           if d.devState == 2 then Some(0.0) else if d.devState in {1, 3, 4, 5} then Some(1.0) else None)
  {
    var c := metrics.Labelling();
    LabelledShowsOne(devices, c, PodsFor(devices, seen.memory), MemoryUsed(), d);
    LabelledShowsOne(devices, c, PodsFor(devices, seen.memory), MemoryTotal(), d);
    LabelledShowsOne(devices, c, PodsFor(devices, seen.utilization), Utilization(), d);
    LabelledShowsOne(devices, c, PodsFor(devices, seen.health), Health(), d);
  }

  /** In Kubernetes the sharing flag of a compute device is 1 if kubelet allocates it to containers
      of two pods, and 0 otherwise; no other device has one. (Neither API lists a device without a
      name.) */
  lemma FlagShowsSharing(metrics: MetricList, devices: seq<DeviceInfo>, seen: Seen, i: nat)
    requires DistinctNames(devices) && i < |devices| && devices[i].name != ""
    ensures var d, f := devices[i], metrics.FamiliesOf(devices, seen);
      ShowsOne(f.shared, d, metrics.nodeName,
        if !metrics.isKubernetes || !d.compute then None
        else Some(if exists a, b :: TwoPods(devices, seen.shared, d, a, b) then 1.0 else 0.0))
  {
    var d := devices[i];
    if metrics.isKubernetes {
      var pods, shared := PodsFor(devices, seen.shared), SharedFor(devices, seen.shared);
      LabelledShowsOne(devices, Config(metrics.nodeName, true), pods, Sharing(shared), d);
      if d.compute {
        SharedExactlyIfTwoPods(devices, seen.shared, i);
      }
    }
  }

  /** The container the labels of a series name, if they have the three labels at all. */
  ghost predicate NamesContainer(labels: Labels, who: Claimant)
  {
    && {Namespace, PodLabel, ContainerLabel} <= labels.Keys
    && labels[Namespace] == who.namespace && labels[PodLabel] == who.name && labels[ContainerLabel] == who.container
  }

  /** Outside Kubernetes no label names a container. Within, those of a compute device that kubelet
      allocates name a container it is allocated to, and all others leave the three labels empty. */
  lemma LabelsNameAContainer(
    devices: seq<DeviceInfo>, response: Response, c: Config, value: DeviceInfo -> Option<real>, i: nat, labels: Labels)
    requires DistinctNames(devices) && i < |devices| && devices[i].name != ""
    requires labels in Family(devices, Labelled(c, PodsFor(devices, response), value)) && IsOf(labels, devices[i].name)
    ensures !c.includePodLabels ==> labels.Keys !! {Namespace, PodLabel, ContainerLabel}
    ensures c.includePodLabels ==> NamesOwner(labels, devices, response, devices[i])
  {
    var d, pods := devices[i], PodsFor(devices, response);
    ItsLabels(devices, c, pods, value, d, labels);
    if c.includePodLabels {
      LabelsNameOwner(d, c, pods);
      OwnerIsAllocated(devices, response, i, labels);
    }
  }

  lemma ItsLabels(
    devices: seq<DeviceInfo>, c: Config, pods: map<string, Claimant>, value: DeviceInfo -> Option<real>,
    d: DeviceInfo, labels: Labels)
    requires DistinctNames(devices) && d in devices
    requires labels in Family(devices, Labelled(c, pods, value)) && IsOf(labels, d.name)
    ensures labels == LabelsOf(d, c, pods)
    ensures !c.includePodLabels ==> labels.Keys !! {Namespace, PodLabel, ContainerLabel}
  {
    OneSeriesPerDevice(devices, c, pods, value, d);
  }

  ghost predicate NamesOwner(labels: Labels, devices: seq<DeviceInfo>, response: Response, d: DeviceInfo)
  {
    if d.compute && exists who :: AllocatedTo(devices, response, d, who)
    then exists who :: AllocatedTo(devices, response, d, who) && NamesContainer(labels, who)
    else NamesContainer(labels, Claimant("", "", ""))
  }

  lemma LabelsNameOwner(d: DeviceInfo, c: Config, pods: map<string, Claimant>)
    requires c.includePodLabels
    ensures NamesContainer(
      LabelsOf(d, c, pods), if d.compute && d.name in pods then pods[d.name] else Claimant("", "", ""))
  {
    assert {Namespace, PodLabel, ContainerLabel} <= LabelNames(true);
  }

  lemma OwnerIsAllocated(devices: seq<DeviceInfo>, response: Response, i: nat, labels: Labels)
    requires DistinctNames(devices) && i < |devices| && devices[i].name != ""
    requires var d, pods := devices[i], PodsFor(devices, response);
      NamesContainer(labels, if d.compute && d.name in pods then pods[d.name] else Claimant("", "", ""))
    ensures NamesOwner(labels, devices, response, devices[i])
  {
    var d, pods := devices[i], PodsFor(devices, response);
    if d.compute {
      assert SpeaksForName(devices, i);
      AttributedExactlyIfAllocated(devices, response, i);
      if d.name in pods {
        ClaimsAreDeviceAllocations(devices, response, i, pods[d.name]);
      }
    }
  }
}
