/** The exporter's view of one device (internal/daemon/device.go). */
module Devices {
  import opened Options

  /** The v1 lifecycle enum is open: any int32 can arrive on the wire. */
  type DeviceState = int

  const STATE_UNSPECIFIED: DeviceState := 0
  const STATE_INIT: DeviceState := 1
  const STATE_READY: DeviceState := 2
  const STATE_BUSY: DeviceState := 3
  const STATE_FAULT: DeviceState := 4
  const STATE_FINISH: DeviceState := 5

  predicate IsKnown(s: DeviceState)
  {
    s == STATE_FAULT || s == STATE_INIT || s == STATE_READY || s == STATE_BUSY || s == STATE_FINISH
  }

  datatype TopologyInfo = TopologyInfo(
    numaNode: int,
    cpuList: string,
    rsdGroup: string,
    linkSpeed: Option<real>,
    linkWidth: Option<int>)

  /** An absent reading is unavailable, not zero. */
  datatype DeviceInfo = DeviceInfo(
    uuid: string,
    name: string,
    deviceID: string,
    card: string,
    pciBusID: string,
    isVF: bool,
    parentName: string,
    numVFs: Option<nat>,
    partitionMode: string,
    compute: bool,
    temperature: Option<real>,
    power: Option<real>,
    memoryUsedBytes: Option<nat>,
    memoryTotalBytes: Option<nat>,
    utilization: Option<real>,
    driverVersion: string,
    firmwareVersion: string,
    smcVersion: string,
    devState: DeviceState,
    collectionSucceeded: bool,
    pState: Option<int>,
    pcieLinkSpeed: Option<real>,
    pcieLinkWidth: Option<int>,
    topology: Option<TopologyInfo>)
  {
    predicate HasKnownState()
    {
      IsKnown(devState)
    }

    /** READY is 0, any other known state 1, an unknown state has no value. */
    function Health(): Option<real>
    {
      if !HasKnownState() then None
      else if devState == STATE_READY then Some(0.0)
      else Some(1.0)
    }
  }

  ghost predicate DistinctNames(devices: seq<DeviceInfo>)
  {
    forall i, j :: 0 <= i < j < |devices| ==> devices[i].name != devices[j].name
  }

  /** What a `*DeviceInfo` points at: one struct value, overwritten in place. */
  class DeviceCell {
    var info: DeviceInfo

    constructor (info: DeviceInfo)
      ensures this.info == info
    {
      this.info := info;
    }
  }
}
