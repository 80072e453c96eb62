/** What a pod label on a virtual function proves, from kubelet's answer down to sysfs. */
module VfAttribution {
  import opened Devices
  import opened Partition
  import opened PodResources
  import opened Allocations
  import opened Exposition
  import V0 = CollectV0
  import V1 = CollectV1

  /** The count a profile stands for. */
  function ProfileCount(d: DeviceInfo): nat
  {
    if d.partitionMode == "vf1" then 1 else 4
  }

  /** The allocation that put `who` on the device names its present profile. */
  ghost predicate AllocatedAs(response: Response, who: Claimant, d: DeviceInfo)
  {
    || PluginAllocates(response, who, "rebellions.ai/npu-" + d.partitionMode, d.name)
    || DraAllocates(response, who, d.name + "-" + d.partitionMode)
  }

  /** An attributed device is a compute device of this inventory, and an attributed VF has a profile
      that its winner's allocation names. */
  lemma WinnerHasClaim(inventory: seq<DeviceInfo>, response: Response, name: string) returns (d: DeviceInfo)
    requires name in PodsFor(inventory, response)
    ensures d in inventory && d.compute && d.name == name
    ensures d.isVF ==> HasProfile(d) && AllocatedAs(response, PodsFor(inventory, response)[name], d)
  {
    forall n | n in Current(inventory) ensures Current(inventory)[n].name == n {
      CurrentHoldsInventory(inventory, n);
    }
    AttributedVfNamesProfile(Current(inventory), response, name, PodsFor(inventory, response)[name]);
    CurrentHoldsInventory(inventory, name);
    d := Current(inventory)[name];
  }

  lemma ModesDiffer()
    ensures "vf1" != "vf4" && "vf1" != "" && "vf4" != ""
  {
    assert "vf1"[2] != "vf4"[2];
  }

  lemma ProfileIsLiveOnV1(s: V1.Source, i: nat, d: DeviceInfo)
    requires i < |s.entries| && s.Exports(i, d) && d.isVF && HasProfile(d)
    ensures LiveProfile(d.pciBusID, d.parentName, s.entries, s.host(i), ProfileCount(d))
  {
    assert s.HasPartition(i, d) && s.HasIdentity(i, d);
    ModesDiffer();
  }

  lemma ProfileIsLiveOnV0(s: V0.Source, i: nat, d: DeviceInfo)
    requires i < |s.input.devices| && s.Exports(i, d) && d.isVF && HasProfile(d)
    ensures LiveProfile(d.pciBusID, d.parentName, s.Entries(), s.Host(i), ProfileCount(d))
  {
    assert s.HasPartition(i, d) && s.HasIdentity(i, d);
    ModesDiffer();
  }
}
