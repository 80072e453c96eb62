/** The exported series: label tuples and gauge families as values
    (internal/collector/labels.go and the metric files beside it). */
module Series {
  import opened Options
  import opened Devices
  import opened PodResources

  // ---------------------------------------------------------------------------------------
  // Labels
  // ---------------------------------------------------------------------------------------

  datatype LabelName =
    | Card | Name | UUID | DeviceID | Hostname | DriverVersion | FirmwareVersion
    | Namespace | PodLabel | ContainerLabel
    | StateLabel

  type Labels = map<LabelName, string>

  const BASE_LABELS: set<LabelName> := {Card, Name, UUID, DeviceID, Hostname, DriverVersion, FirmwareVersion}
  const COMMON_LABELS: set<LabelName> := BASE_LABELS + {Namespace, PodLabel, ContainerLabel}

  /** How an exporter labels its series. */
  datatype Config = Config(nodeName: string, includePodLabels: bool)

  const NOBODY := Claimant("", "", "")

  /** Whom a series of the device names; only a compute device is attributed. */
  function Owner(d: DeviceInfo, pods: map<string, Claimant>): Claimant
  {
    if d.compute && d.name in pods then pods[d.name] else NOBODY
  }

  function LabelValue(d: DeviceInfo, nodeName: string, owner: Claimant, key: LabelName): string
  {
    match key
    case Card => d.card
    case Name => d.name
    case UUID => d.uuid
    case DeviceID => d.deviceID
    case Hostname => nodeName
    case DriverVersion => d.driverVersion
    case FirmwareVersion => d.firmwareVersion
    case Namespace => owner.namespace
    case PodLabel => owner.name
    case ContainerLabel => owner.container
    case StateLabel => ""
  }

  function LabelNames(includePodLabels: bool): set<LabelName>
  {
    if includePodLabels then COMMON_LABELS else BASE_LABELS
  }

  function LabelsOf(d: DeviceInfo, c: Config, pods: map<string, Claimant>): Labels
  {
    map key | key in LabelNames(c.includePodLabels) :: LabelValue(d, c.nodeName, Owner(d, pods), key)
  }

  method BuildLabels(d: DeviceInfo, c: Config, pods: map<string, Claimant>) returns (labels: Labels)
    ensures labels == LabelsOf(d, c, pods)
  {
    labels := map[
      Card := d.card, UUID := d.uuid, Name := d.name, DeviceID := d.deviceID, Hostname := c.nodeName,
      DriverVersion := d.driverVersion, FirmwareVersion := d.firmwareVersion];
    if c.includePodLabels {
      var info := if d.name in pods then pods[d.name] else NOBODY;
      if !d.compute {
        info := NOBODY;
      }
      labels := labels[Namespace := info.namespace];
      labels := labels[PodLabel := info.name];
      labels := labels[ContainerLabel := info.container];
    }
  }

  // ---------------------------------------------------------------------------------------
  // Families
  // ---------------------------------------------------------------------------------------

  /** A gauge family: the value of every label tuple that was set since the last reset. */
  type Gauge = map<Labels, real>

  /** The cells one device sets. */
  type Cells = DeviceInfo -> Gauge

  /** The family after the cells of every device were set in turn. */
  function Family(devices: seq<DeviceInfo>, cells: Cells): Gauge
  {
    if devices == [] then map[]
    else Family(devices[..|devices| - 1], cells) + cells(devices[|devices| - 1])
  }

  lemma FamilyStep(devices: seq<DeviceInfo>, i: nat, cells: Cells)
    requires i < |devices|
    ensures Family(devices[..i + 1], cells) == Family(devices[..i], cells) + cells(devices[i])
  {
    assert devices[..i + 1][..i] == devices[..i];
  }

  /** No series but those of the listed devices, under their present labels. */
  lemma {:induction false} NothingStale(devices: seq<DeviceInfo>, cells: Cells, labels: Labels)
    ensures labels in Family(devices, cells) <==> exists d :: d in devices && labels in cells(d)
  {
    if devices != [] {
      NothingStale(devices[..|devices| - 1], cells, labels);
      assert devices == devices[..|devices| - 1] + [devices[|devices| - 1]];
    }
  }

  ghost predicate NamesItsDevice(cells: Cells)
  {
    forall d, labels :: labels in cells(d) ==> Name in labels && labels[Name] == d.name
  }

  /** With distinct names no device overwrites another's series. */
  lemma {:induction false} SeriesArePerDevice(devices: seq<DeviceInfo>, cells: Cells, d: DeviceInfo)
    requires DistinctNames(devices) && NamesItsDevice(cells) && d in devices
    ensures forall labels ::
      labels in Family(devices, cells) && Name in labels && labels[Name] == d.name <==> labels in cells(d)
    ensures forall labels :: labels in cells(d) ==> Family(devices, cells)[labels] == cells(d)[labels]
  {
    var last := |devices| - 1;
    var before := devices[..last];
    assert devices == before + [devices[last]];
    if d == devices[last] {
      forall labels | labels in Family(before, cells) ensures Name in labels && labels[Name] != d.name {
        NothingStale(before, cells, labels);
      }
    } else {
      SeriesArePerDevice(before, cells, d);
    }
  }

  // ---------------------------------------------------------------------------------------
  // The cells of each metric
  // ---------------------------------------------------------------------------------------

  function Cell(labels: Labels, value: Option<real>): Gauge
  {
    if value.Some? then map[labels := value.value] else map[]
  }

  function AsReal(n: Option<nat>): Option<real>
  {
    if n.Some? then Some(n.value as real) else None
  }

  /** At most one series per device, whose value depends on the device alone. */
  function Labelled(c: Config, pods: map<string, Claimant>, value: DeviceInfo -> Option<real>): Cells
  {
    (d: DeviceInfo) => Cell(LabelsOf(d, c, pods), value(d))
  }

  /** Memory, utilization and sharing are exported for compute devices only. */
  function Gated(d: DeviceInfo, value: Option<real>): Option<real>
  {
    if d.compute then value else None
  }

  function MemoryUsed(): DeviceInfo -> Option<real>
  {
    (d: DeviceInfo) => Gated(d, AsReal(d.memoryUsedBytes))
  }

  function MemoryTotal(): DeviceInfo -> Option<real>
  {
    (d: DeviceInfo) => Gated(d, AsReal(d.memoryTotalBytes))
  }

  function Utilization(): DeviceInfo -> Option<real>
  {
    (d: DeviceInfo) => Gated(d, d.utilization)
  }

  function Health(): DeviceInfo -> Option<real>
  {
    (d: DeviceInfo) => d.Health()
  }

  function Sharing(shared: set<string>): DeviceInfo -> Option<real>
  {
    (d: DeviceInfo) => Gated(d, Some(if d.name in shared then 1.0 else 0.0))
  }

  const DEVICE_STATES: map<string, DeviceState> := map[
    "ready" := STATE_READY,
    "busy" := STATE_BUSY,
    "init" := STATE_INIT,
    "fault" := STATE_FAULT,
    "finish" := STATE_FINISH,
    "not_found" := STATE_UNSPECIFIED]

  /** The enum names the generated code knows. */
  predicate IsNamed(s: DeviceState)
  {
    s in {STATE_UNSPECIFIED, STATE_INIT, STATE_READY, STATE_BUSY, STATE_FAULT, STATE_FINISH}
  }

  function Shown(s: DeviceState): DeviceState
  {
    if IsNamed(s) then s else STATE_UNSPECIFIED
  }

  function StateValue(s: DeviceState, name: string): real
    requires name in DEVICE_STATES
  {
    if Shown(s) == DEVICE_STATES[name] then 1.0 else 0.0
  }

  function StateCells(c: Config, pods: map<string, Claimant>): Cells
  {
    (d: DeviceInfo) => OneHot(LabelsOf(d, c, pods), d.devState, DEVICE_STATES.Keys)
  }

  /** The tuples that extend a device's labels by a state name. */
  function StateTuples(labels: Labels, names: set<string>): set<Labels>
  {
    set name | name in names :: labels[StateLabel := name]
  }

  /** One cell per name, told apart by the state label. */
  function OneHot(labels: Labels, s: DeviceState, names: set<string>): Gauge
    requires names <= DEVICE_STATES.Keys
  {
    map tuple | tuple in StateTuples(labels, names) :: StateValue(s, tuple[StateLabel])
  }

  lemma NamedByLabels(d: DeviceInfo, c: Config, pods: map<string, Claimant>)
    ensures Name in LabelsOf(d, c, pods) && LabelsOf(d, c, pods)[Name] == d.name
  {
    assert Name in BASE_LABELS;
  }

  lemma LabelledNamesItsDevice(c: Config, pods: map<string, Claimant>, value: DeviceInfo -> Option<real>)
    ensures NamesItsDevice(Labelled(c, pods, value))
  {
    forall d: DeviceInfo, labels | labels in Labelled(c, pods, value)(d)
      ensures Name in labels && labels[Name] == d.name
    {
      assert labels in Cell(LabelsOf(d, c, pods), value(d));
      NamedByLabels(d, c, pods);
    }
  }

  lemma StateCellsNameTheirDevice(c: Config, pods: map<string, Claimant>)
    ensures NamesItsDevice(StateCells(c, pods))
  {
    forall d: DeviceInfo, labels | labels in StateCells(c, pods)(d)
      ensures Name in labels && labels[Name] == d.name
    {
      NamedByLabels(d, c, pods);
      var name :| name in DEVICE_STATES.Keys && labels == LabelsOf(d, c, pods)[StateLabel := name];
    }
  }
}
