/** A v1 inventory entry: the message fields the exporter uses. */
module Inventory {
  import opened Options

  datatype VersionInfo = VersionInfo(fwVersion: string, drvVersion: string, smcVersion: string)

  /** `npuId` is present exactly on usable compute functions. A v0 inventory leaves the last three
      fields unset. */
  datatype Entry = Entry(
    name: string,
    uuid: string,
    devId: string,
    cardName: string,
    pciBusId: string,
    isVf: bool,
    parentName: string,
    npuId: Option<nat>,
    state: int,
    versions: Option<VersionInfo>,
    memory: Option<nat>)
}
