/** Which devices of an inventory kubelet's answer is attributed to, said in terms of the two alone:
    from an allocation to the series that must name its pod (internal/collector/kubernetes.go). */
module DeviceClaims {
  import opened Options
  import opened Text
  import opened Devices
  import opened PodResources
  import opened Allocations
  import opened Exposition

  /** Entry i speaks for its name: it is a compute device, and no later one carries the name. */
  ghost predicate SpeaksForName(inventory: seq<DeviceInfo>, i: nat)
  {
    && i < |inventory| && inventory[i].compute && inventory[i].name != ""
    && forall j :: i < j < |inventory| && inventory[j].compute ==> inventory[j].name != inventory[i].name
  }

  /** Kubelet gives the container this device: a physical function under its name; a VF, which must
      have a profile, through the plugin's resource for that profile or through the DRA alias that
      ends in it, unless some compute device has that alias as its very name. */
  ghost predicate AllocatedTo(inventory: seq<DeviceInfo>, response: Response, d: DeviceInfo, who: Claimant)
  {
    if !d.isVF then
      (exists resource :: PluginAllocates(response, who, resource, d.name)) || DraAllocates(response, who, d.name)
    else
      && (d.partitionMode == "vf1" || d.partitionMode == "vf4")
      && (|| PluginAllocates(response, who, "rebellions.ai/npu-" + d.partitionMode, d.name)
          || (&& DraAllocates(response, who, d.name + "-" + d.partitionMode)
              && forall e :: e in inventory && e.compute ==> e.name != d.name + "-" + d.partitionMode))
  }

  lemma LiveNames(inventory: seq<DeviceInfo>)
    ensures KeyedByName(Current(inventory))
    ensures forall name :: name in Current(inventory) <==> exists e :: e in inventory && e.compute && e.name == name
  {
    forall name | name in Current(inventory)
      ensures Current(inventory)[name].name == name && exists e :: e in inventory && e.compute && e.name == name
    {
      CurrentHoldsInventory(inventory, name);
    }
    forall e | e in inventory && e.compute ensures e.name in Current(inventory) {
      var k :| 0 <= k < |inventory| && inventory[k] == e;
      var i := LastOfName(inventory, k);
      LastComputeDeviceIsLive(inventory, i);
    }
  }

  lemma LastOfName(inventory: seq<DeviceInfo>, k: nat) returns (i: nat)
    requires k < |inventory| && inventory[k].compute
    ensures i < |inventory| && inventory[i].compute && inventory[i].name == inventory[k].name
    ensures forall j :: i < j < |inventory| && inventory[j].compute ==> inventory[j].name != inventory[i].name
    decreases |inventory| - k
  {
    if j :| k < j < |inventory| && inventory[j].compute && inventory[j].name == inventory[k].name {
      i := LastOfName(inventory, j);
    } else {
      i := k;
    }
  }

  /** A container claims a device exactly when kubelet allocates the device to it. */
  lemma ClaimsAreDeviceAllocations(inventory: seq<DeviceInfo>, response: Response, i: nat, who: Claimant)
    requires SpeaksForName(inventory, i)
    ensures Claim(inventory[i].name, who) in ClaimsFor(inventory, response) <==>
      AllocatedTo(inventory, response, inventory[i], who)
  {
    var d, m := inventory[i], Current(inventory);
    var claim := Claim(d.name, who);
    LiveNames(inventory);
    LastComputeDeviceIsLive(inventory, i);
    ClaimsAreAllocations(Some(m), response, claim);
    if claim in ClaimsFor(inventory, response) {
      AllocatedIfClaimed(inventory, response, i, who);
    }
    if AllocatedTo(inventory, response, d, who) {
      ClaimedIfAllocated(inventory, response, i, who);
    }
  }

  lemma AllocatedIfClaimed(inventory: seq<DeviceInfo>, response: Response, i: nat, who: Claimant)
    requires SpeaksForName(inventory, i) && KeyedByName(Current(inventory))
    requires forall name :: name in Current(inventory) <==> exists e :: e in inventory && e.compute && e.name == name
    requires inventory[i].name in Current(inventory) && Current(inventory)[inventory[i].name] == inventory[i]
    requires var claim := Claim(inventory[i].name, who);
      || ClaimedByPlugin(Some(Current(inventory)), response, claim)
      || ClaimedByDra(Some(Current(inventory)), response, claim)
    ensures AllocatedTo(inventory, response, inventory[i], who)
  {
    var d, m := inventory[i], Current(inventory);
    if ClaimedByPlugin(Some(m), response, Claim(d.name, who)) {
      var resource, id :|
        PluginAllocates(response, who, resource, id) && Resolved(Some(m), id, resource, false) == d.name;
      ResolvesTo(m, id, resource, false, d.name);
    } else {
      var id :| DraAllocates(response, who, id) && Resolved(Some(m), id, "", true) == d.name;
      ResolvesTo(m, id, "", true, d.name);
    }
  }

  lemma ClaimedIfAllocated(inventory: seq<DeviceInfo>, response: Response, i: nat, who: Claimant)
    requires SpeaksForName(inventory, i) && KeyedByName(Current(inventory))
    requires forall name :: name in Current(inventory) <==> exists e :: e in inventory && e.compute && e.name == name
    requires inventory[i].name in Current(inventory) && Current(inventory)[inventory[i].name] == inventory[i]
    requires AllocatedTo(inventory, response, inventory[i], who)
    ensures var claim := Claim(inventory[i].name, who);
      || ClaimedByPlugin(Some(Current(inventory)), response, claim)
      || ClaimedByDra(Some(Current(inventory)), response, claim)
  {
    var d, m := inventory[i], Current(inventory);
    var alias := d.name + "-" + d.partitionMode;
    if !d.isVF {
      if resource :| PluginAllocates(response, who, resource, d.name) {
        ResolvesTo(m, d.name, resource, false, d.name);
      } else {
        ResolvesTo(m, d.name, "", true, d.name);
      }
    } else if PluginAllocates(response, who, "rebellions.ai/npu-" + d.partitionMode, d.name) {
      ResolvesTo(m, d.name, "rebellions.ai/npu-" + d.partitionMode, false, d.name);
    } else {
      ResolvesTo(m, alias, "", true, d.name);
    }
  }

  /** So a compute device carries a pod's labels exactly when kubelet allocates it to some
      container. */
  lemma AttributedExactlyIfAllocated(inventory: seq<DeviceInfo>, response: Response, i: nat)
    requires SpeaksForName(inventory, i)
    ensures inventory[i].name in PodsFor(inventory, response) <==>
      exists who :: AllocatedTo(inventory, response, inventory[i], who)
  {
    var name := inventory[i].name;
    if name in PodsFor(inventory, response) {
      ClaimsAreDeviceAllocations(inventory, response, i, PodsFor(inventory, response)[name]);
    }
    if who :| AllocatedTo(inventory, response, inventory[i], who) {
      ClaimsAreDeviceAllocations(inventory, response, i, who);
    }
  }

  /** Among the containers it is allocated to it carries the least: by namespace first, by pod
      within the namespace, by container within the pod. */
  lemma LabelsNameTheFirstInOrder(inventory: seq<DeviceInfo>, response: Response, i: nat, other: Claimant)
    requires SpeaksForName(inventory, i) && inventory[i].name in PodsFor(inventory, response)
    requires AllocatedTo(inventory, response, inventory[i], other)
    ensures var who := PodsFor(inventory, response)[inventory[i].name];
      && AllocatedTo(inventory, response, inventory[i], who)
      && !Less(other.namespace, who.namespace)
      && (other.namespace == who.namespace ==> !Less(other.name, who.name))
      && (other.namespace == who.namespace && other.name == who.name ==> !Less(other.container, who.container))
  {
    var who := PodsFor(inventory, response)[inventory[i].name];
    ClaimsAreDeviceAllocations(inventory, response, i, who);
    ClaimsAreDeviceAllocations(inventory, response, i, other);
    NeverBoth(who.namespace, other.namespace);
    NeverBoth(who.name, other.name);
    NeverBoth(who.container, other.container);
  }

  lemma NeverBoth(a: string, b: string)
    ensures !(Less(a, b) && Less(b, a)) && !Less(a, a)
  {
    LessIrreflexive(a);
    if Less(a, b) && Less(b, a) { LessTransitive(a, b, a); }
  }

  ghost predicate TwoPods(inventory: seq<DeviceInfo>, response: Response, d: DeviceInfo, a: Claimant, b: Claimant)
  {
    && AllocatedTo(inventory, response, d, a) && AllocatedTo(inventory, response, d, b)
    && (a.namespace != b.namespace || a.name != b.name)
  }

  /** And it is flagged as shared exactly when two of those containers belong to different pods. */
  lemma SharedExactlyIfTwoPods(inventory: seq<DeviceInfo>, response: Response, i: nat)
    requires SpeaksForName(inventory, i)
    ensures inventory[i].name in SharedFor(inventory, response) <==>
      exists a, b :: TwoPods(inventory, response, inventory[i], a, b)
  {
    var d := inventory[i];
    if d.name in SharedFor(inventory, response) {
      SharedHasTwoPods(inventory, response, i);
    }
    if exists a, b :: TwoPods(inventory, response, d, a, b) {
      var a, b :| TwoPods(inventory, response, d, a, b);
      ClaimsAreDeviceAllocations(inventory, response, i, a);
      ClaimsAreDeviceAllocations(inventory, response, i, b);
      var x, y := Claim(d.name, a), Claim(d.name, b);
      assert x in ClaimsFor(inventory, response) && y in ClaimsFor(inventory, response);
    }
  }

  lemma SharedHasTwoPods(inventory: seq<DeviceInfo>, response: Response, i: nat)
    requires SpeaksForName(inventory, i) && inventory[i].name in SharedFor(inventory, response)
    ensures exists a, b :: TwoPods(inventory, response, inventory[i], a, b)
  {
    var d, claims := inventory[i], ClaimsFor(inventory, response);
    var x, y :| x in claims && y in claims && x.device == d.name == y.device && !x.who.SamePod(y.who);
    assert x == Claim(d.name, x.who) && y == Claim(d.name, y.who);
    ClaimsAreDeviceAllocations(inventory, response, i, x.who);
    ClaimsAreDeviceAllocations(inventory, response, i, y.who);
    assert TwoPods(inventory, response, d, x.who, y.who);
  }
}
