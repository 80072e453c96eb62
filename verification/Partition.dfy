/** SR-IOV partitioning of one device, from local sysfs (internal/daemon/partition.go). */
module Partition {
  import opened Options
  import opened Decimal
  import opened Sysfs
  import opened Devices
  import opened Inventory

  /** What this host's sysfs answers while one device is classified. `enabled` is false for a
      gateway, which must not consult its own host about a remote device. */
  datatype Reads = Reads(
    enabled: bool,
    driver: Option<string>,
    physfn: Option<string>,
    sriovNumVfs: string -> Option<string>)

  // ---------------------------------------------------------------------------------------
  // Closed form
  // ---------------------------------------------------------------------------------------

  predicate IsParentEntry(p: Entry, parentName: string, bus: string)
  {
    p.name == parentName && !p.isVf && EqualFold(p.pciBusId, bus)
  }

  /** The function whose `sriov_numvfs` speaks for the device: itself, or for a VF the physical
      function its `physfn` link leads to, provided the daemon inventoried that very parent. */
  ghost function Authority(
    isVF: bool, pciBusID: string, parentName: string, inventory: seq<Entry>, host: Reads): Option<string>
  {
    if !host.enabled || !IsPciAddress(pciBusID) then None
    else if !isVF then Some(Lower(pciBusID))
    else if host.physfn.None? then None
    else
      var bus := Lower(Base(host.physfn.value));
      if IsPciAddress(bus) && exists p :: p in inventory && IsParentEntry(p, parentName, bus) then Some(bus) else None
  }

  /** The number of VFs the authority has enabled, if it can be read. */
  ghost function EnabledVfs(
    isVF: bool, pciBusID: string, parentName: string, inventory: seq<Entry>, host: Reads): Option<nat>
  {
    var bus := Authority(isVF, pciBusID, parentName, inventory, host);
    if bus.None? || host.sriovNumVfs(bus.value).None? then None
    else ParseCount(host.sriovNumVfs(bus.value).value)
  }

  /** The evidence that a VF has profile n now: its physfn link leads to a physical function that
      the daemon inventoried as its parent, and that function has n VFs enabled. */
  ghost predicate LiveProfile(pciBusID: string, parentName: string, inventory: seq<Entry>, host: Reads, n: nat)
  {
    && host.enabled && IsPciAddress(pciBusID) && host.physfn.Some?
    && var bus := Lower(Base(host.physfn.value));
       && IsPciAddress(bus)
       && (exists p :: p in inventory && IsParentEntry(p, parentName, bus))
       && host.sriovNumVfs(bus).Some? && ParseCount(host.sriovNumVfs(bus).value) == Some(n)
  }

  /** The device after classification, in terms of the one count that matters. */
  ghost function Partitioned(d: DeviceInfo, count: Option<nat>): DeviceInfo
  {
    if d.isVF then
      d.(numVFs := Some(0),
         partitionMode := if count == Some(1) then "vf1" else if count == Some(4) then "vf4" else d.partitionMode)
    else
      var compute := d.compute && (count.None? || count.value == 0);
      d.(numVFs := if count.Some? then count else if d.compute then Some(0) else d.numVFs,
         compute := compute,
         partitionMode := if compute then "none" else "hosting")
  }

  // ---------------------------------------------------------------------------------------
  // The code
  // ---------------------------------------------------------------------------------------

  method PartitionMetadata(d: DeviceCell, inventory: seq<Entry>, host: Reads)
    modifies d
    ensures d.info == Partitioned(old(d.info),
      EnabledVfs(old(d.info.isVF), old(d.info.pciBusID), old(d.info.parentName), inventory, host))
  {
    if d.info.isVF || d.info.compute {
      d.info := d.info.(numVFs := Some(0));
      if !d.info.isVF {
        d.info := d.info.(partitionMode := "none");
      }
    }
    if !d.info.isVF && !d.info.compute {
      d.info := d.info.(partitionMode := "hosting");
    }
    if !host.enabled || !IsPciAddress(d.info.pciBusID) {
      return;
    }
    var bus := Lower(d.info.pciBusID);
    if d.info.isVF {
      if host.physfn.None? {
        return;
      }
      bus := Lower(Base(host.physfn.value));
      if !IsPciAddress(bus) {
        return;
      }
      var parentMatches := IsInventoried(inventory, d.info.parentName, bus);
      if !parentMatches {
        return;
      }
    }
    var raw := host.sriovNumVfs(bus);
    if raw.None? {
      return;
    }
    var count := ParseCount(raw.value);
    if count.None? {
      return;
    }
    assert Authority(d.info.isVF, d.info.pciBusID, d.info.parentName, inventory, host) == Some(bus);
    if d.info.isVF {
      d.info := d.info.(numVFs := Some(0));
      if count.value == 1 || count.value == 4 {
        d.info := d.info.(partitionMode := if count.value == 1 then "vf1" else "vf4");
      }
    } else {
      d.info := d.info.(numVFs := Some(count.value));
      if count.value > 0 {
        d.info := d.info.(compute := false, partitionMode := "hosting");
      }
    }
  }

  /** The search for the parent of a VF. */
  method IsInventoried(inventory: seq<Entry>, parentName: string, bus: string) returns (parentMatches: bool)
    ensures parentMatches <==> exists p :: p in inventory && IsParentEntry(p, parentName, bus)
  {
    parentMatches := false;
    for i := 0 to |inventory|
      invariant !parentMatches
      invariant forall j :: 0 <= j < i ==> !IsParentEntry(inventory[j], parentName, bus)
    {
      var p := inventory[i];
      if p.name == parentName && !p.isVf && EqualFold(p.pciBusId, bus) {
        assert p in inventory && IsParentEntry(p, parentName, bus);
        return true;
      }
    }
  }

  /** Whether the function is bound to some other driver, such as vfio-pci. */
  predicate ForeignDriver(bus: string, host: Reads)
  {
    host.enabled && IsPciAddress(bus) && host.driver.Some? && Base(host.driver.value) != "rebellions"
  }

  // ---------------------------------------------------------------------------------------
  // What the classification means
  // ---------------------------------------------------------------------------------------

  /** A VF is given a profile exactly when there is that evidence for it, and the profile says for
      which count. */
  lemma ProfileMeansParentCount(d: DeviceInfo, inventory: seq<Entry>, host: Reads, n: nat)
    requires d.isVF && d.partitionMode == ""
    requires n == 1 || n == 4
    ensures var count := EnabledVfs(d.isVF, d.pciBusID, d.parentName, inventory, host);
      Partitioned(d, count).partitionMode == (if n == 1 then "vf1" else "vf4") <==>
        LiveProfile(d.pciBusID, d.parentName, inventory, host, n)
  {
    assert "vf1"[2] != "vf4"[2] && |""| == 0;
  }

  /** Classification can only withdraw a device from compute, and it does so exactly for a
      physical function seen to host VFs. */
  lemma OnlyHostingLosesCompute(d: DeviceInfo, count: Option<nat>)
    ensures Partitioned(d, count).compute <==> d.compute && (d.isVF || count.None? || count == Some(0))
    ensures !d.isVF ==> (Partitioned(d, count).partitionMode == "hosting" <==> !Partitioned(d, count).compute)
    ensures Partitioned(d, count).(numVFs := d.numVFs, compute := d.compute, partitionMode := d.partitionMode) == d
  {
    assert |"none"| != |"hosting"|;
  }

  // ---------------------------------------------------------------------------------------
  // From the files themselves
  // ---------------------------------------------------------------------------------------

  /** A VF whose `physfn` link leads to an inventoried parent gets the profile that the parent's
      `sriov_numvfs` spells out, newline and all. */
  lemma ParentFileGivesProfile(
    d: DeviceInfo, inventory: seq<Entry>, host: Reads, p: Entry, dir: string, bus: string, n: nat)
    requires d.isVF && host.enabled && IsPciAddress(d.pciBusID) && n < 0x1_0000_0000
    requires host.physfn == Some(dir + "/" + bus) && IsPciAddress(bus)
    requires p in inventory && p.name == d.parentName && !p.isVf && EqualFold(p.pciBusId, bus)
    requires host.sriovNumVfs(Lower(bus)) == Some(Itoa(n) + "\n")
    ensures var r := Partitioned(d, EnabledVfs(d.isVF, d.pciBusID, d.parentName, inventory, host));
      && r.partitionMode == (if n == 1 then "vf1" else if n == 4 then "vf4" else d.partitionMode)
      && r.numVFs == Some(0) && r.compute == d.compute
  {
    NoSlashInAddress(bus);
    BaseIsLastElement(dir, bus, "");
    assert dir + "/" + bus + "" == dir + "/" + bus;
    LowerKeepsPciAddress(bus);
    assert IsParentEntry(p, d.parentName, Lower(bus));
    PrintedCountReadsBack("", n, "");
  }

  lemma NoSlashInAddress(bus: string)
    requires IsPciAddress(bus)
    ensures '/' !in bus
  {
    forall i | 0 <= i < |bus| ensures bus[i] != '/' {
      assert i < 10 && i != 4 && i != 7 ==> IsHexDigit(bus[i]);
    }
  }

  /** A physical function hosts exactly if its own `sriov_numvfs` spells out a positive count, which
      is also what it is shown with. */
  lemma OwnFileShowsHosting(d: DeviceInfo, inventory: seq<Entry>, host: Reads, n: nat)
    requires !d.isVF && host.enabled && IsPciAddress(d.pciBusID) && n < 0x1_0000_0000
    requires host.sriovNumVfs(Lower(d.pciBusID)) == Some(Itoa(n) + "\n")
    ensures var r := Partitioned(d, EnabledVfs(d.isVF, d.pciBusID, d.parentName, inventory, host));
      && r.numVFs == Some(n) && r.compute == (d.compute && n == 0)
      && r.partitionMode == (if d.compute && n == 0 then "none" else "hosting")
  {
    PrintedCountReadsBack("", n, "");
  }

  /** Without a count only what the inventory says remains: a VF keeps its profile text, a usable
      physical function shows no VFs, an unusable one hosts an unknown number. */
  lemma WithoutCount(d: DeviceInfo, inventory: seq<Entry>, host: Reads)
    requires
      || !host.enabled || !IsPciAddress(d.pciBusID)
      || (d.isVF && host.physfn.None?)
      || (d.isVF && forall p :: p in inventory && p.name == d.parentName && !p.isVf ==>
            !EqualFold(p.pciBusId, Base(host.physfn.value)))
      || (!d.isVF && host.sriovNumVfs(Lower(d.pciBusID)).None?)
    ensures var r := Partitioned(d, EnabledVfs(d.isVF, d.pciBusID, d.parentName, inventory, host));
      && r.compute == d.compute
      && r.numVFs == (if d.isVF || d.compute then Some(0) else d.numVFs)
      && r.partitionMode == (if d.isVF then d.partitionMode else if d.compute then "none" else "hosting")
  {
    if d.isVF && host.physfn.Some? {
      LowerKeepsPciAddress(Base(host.physfn.value));
    }
  }

  /** A function is foreign exactly if this host's sysfs shows it bound to a driver that is not
      called "rebellions". */
  lemma ForeignIsAnotherDriver(bus: string, host: Reads, dir: string, name: string)
    requires name != "" && '/' !in name && host.driver == Some(dir + "/" + name)
    ensures ForeignDriver(bus, host) <==> host.enabled && IsPciAddress(bus) && name != "rebellions"
    ensures !ForeignDriver(bus, host.(driver := None))
  {
    BaseIsLastElement(dir, name, "");
    assert dir + "/" + name + "" == dir + "/" + name;
  }
}
