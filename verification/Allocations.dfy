/** The claims behind an attribution, read back as allocations in kubelet's answer. */
module Allocations {
  import opened Options
  import opened Devices
  import opened PodResources

  /** The device plugin gave this container the id under the given resource. */
  ghost predicate PluginAllocates(response: Response, who: Claimant, resource: string, id: string)
  {
    exists p, c, cd :: p in response && c in p.containers && who == Claimant(p.name, p.namespace, c.name)
      && cd in c.devices && cd.resourceName == resource && IsRBLNResource(resource) && id in cd.deviceIds
  }

  /** A DRA claim of this container carries a result of the vendor's driver with the given name. */
  ghost predicate DraAllocates(response: Response, who: Claimant, id: string)
  {
    exists p, c, dr, cr :: p in response && c in p.containers && who == Claimant(p.name, p.namespace, c.name)
      && dr in c.dynamicResources && cr in dr.claimResources && IsRBLNDRADriver(cr.driverName)
      && cr.deviceName == id && id != ""
  }

  lemma ContainerOfClaim(current: Live, response: Response, claim: Claim) returns (p: Pod, c: Container)
    requires claim in ResponseClaims(current, response)
    ensures p in response && c in p.containers && claim in ContainerClaims(current, p.name, p.namespace)(c)
  {
    InUnion(response, PodClaims(current), claim);
    p :| p in response && claim in PodClaims(current)(p);
    InUnion(p.containers, ContainerClaims(current, p.name, p.namespace), claim);
    c :| c in p.containers && claim in ContainerClaims(current, p.name, p.namespace)(c);
  }

  lemma PluginOfClaim(current: Live, who: Claimant, devices: seq<ContainerDevices>, claim: Claim)
    returns (cd: ContainerDevices, id: string)
    requires claim in Union(devices, PluginClaims(current, who))
    ensures cd in devices && IsRBLNResource(cd.resourceName) && id in cd.deviceIds
    ensures claim.device != "" && claim == Claim(Resolved(current, id, cd.resourceName, false), who)
  {
    InUnion(devices, PluginClaims(current, who), claim);
    cd :| cd in devices && claim in PluginClaims(current, who)(cd);
    id := IdOfClaim(current, who, cd.resourceName, cd.deviceIds, claim);
  }

  lemma ClaimOfId(current: Live, who: Claimant, resource: string, id: string, claim: Claim)
    requires claim in IdClaims(current, who, resource)(id)
    ensures claim.device != "" && claim == Claim(Resolved(current, id, resource, false), who)
  {
  }

  lemma IdOfClaim(current: Live, who: Claimant, resource: string, ids: seq<string>, claim: Claim) returns (id: string)
    requires claim in Union(ids, IdClaims(current, who, resource))
    ensures id in ids && claim.device != "" && claim == Claim(Resolved(current, id, resource, false), who)
  {
    var claims := IdClaims(current, who, resource);
    InUnion(ids, claims, claim);
    id :| id in ids && claim in claims(id);
    ClaimOfId(current, who, resource, id, claim);
  }

  lemma DynamicOfClaim(current: Live, who: Claimant, resources: seq<DynamicResource>, claim: Claim)
    returns (dr: DynamicResource, cr: ClaimResource)
    requires claim in Union(resources, DynamicClaims(current, who))
    ensures dr in resources && cr in dr.claimResources && IsRBLNDRADriver(cr.driverName) && cr.deviceName != ""
    ensures claim.device != "" && claim == Claim(Resolved(current, cr.deviceName, "", true), who)
  {
    InUnion(resources, DynamicClaims(current, who), claim);
    dr :| dr in resources && claim in DynamicClaims(current, who)(dr);
    InUnion(dr.claimResources, ResultClaims(current, who), claim);
    cr :| cr in dr.claimResources && claim in ResultClaims(current, who)(cr);
  }

  ghost predicate ClaimedByPlugin(current: Live, response: Response, claim: Claim)
  {
    exists resource, id :: PluginAllocates(response, claim.who, resource, id)
      && Resolved(current, id, resource, false) == claim.device
  }

  ghost predicate ClaimedByDra(current: Live, response: Response, claim: Claim)
  {
    exists id :: DraAllocates(response, claim.who, id) && Resolved(current, id, "", true) == claim.device
  }

  /** The claims are exactly the vendor's allocations in kubelet's answer that resolve to a
      device. */
  lemma ClaimsAreAllocations(current: Live, response: Response, claim: Claim)
    ensures claim in ResponseClaims(current, response) <==>
      claim.device != "" && (ClaimedByPlugin(current, response, claim) || ClaimedByDra(current, response, claim))
  {
    if claim in ResponseClaims(current, response) {
      var p, c := ContainerOfClaim(current, response, claim);
      var who := Claimant(p.name, p.namespace, c.name);
      if claim in Union(c.devices, PluginClaims(current, who)) {
        var cd, id := PluginOfClaim(current, who, c.devices, claim);
        assert PluginAllocates(response, who, cd.resourceName, id);
      } else {
        var dr, cr := DynamicOfClaim(current, who, c.dynamicResources, claim);
        assert DraAllocates(response, who, cr.deviceName);
      }
    } else if claim.device != "" {
      if ClaimedByPlugin(current, response, claim) {
        PluginMakesClaim(current, response, claim);
        assert false;
      }
      if ClaimedByDra(current, response, claim) {
        DraMakesClaim(current, response, claim);
        assert false;
      }
    }
  }

  lemma PluginMakesClaim(current: Live, response: Response, claim: Claim)
    requires claim.device != "" && ClaimedByPlugin(current, response, claim)
    ensures claim in ResponseClaims(current, response)
  {
    var resource, id :|
      PluginAllocates(response, claim.who, resource, id) && Resolved(current, id, resource, false) == claim.device;
    var p, c, cd := PluginContainer(response, claim.who, resource, id);
    DevicesMakeClaim(current, response, p, c, cd, id, claim);
  }

  lemma DevicesMakeClaim(
    current: Live, response: Response, p: Pod, c: Container, cd: ContainerDevices, id: string, claim: Claim)
    requires p in response && c in p.containers && claim.who == Claimant(p.name, p.namespace, c.name) && cd in c.devices
    requires claim.device != "" && IsRBLNResource(cd.resourceName) && id in cd.deviceIds
    requires Resolved(current, id, cd.resourceName, false) == claim.device
    ensures claim in ResponseClaims(current, response)
  {
    IdMakesClaim(current, cd, id, claim);
    InUnion(c.devices, PluginClaims(current, claim.who), claim);
    ContainerMakesClaim(current, response, p, c, claim);
  }

  lemma PluginContainer(response: Response, who: Claimant, resource: string, id: string)
    returns (p: Pod, c: Container, cd: ContainerDevices)
    requires PluginAllocates(response, who, resource, id)
    ensures p in response && c in p.containers && who == Claimant(p.name, p.namespace, c.name)
    ensures cd in c.devices && cd.resourceName == resource && IsRBLNResource(cd.resourceName) && id in cd.deviceIds
  {
    p, c, cd :| p in response && c in p.containers && who == Claimant(p.name, p.namespace, c.name)
      && cd in c.devices && cd.resourceName == resource && IsRBLNResource(resource) && id in cd.deviceIds;
  }

  lemma IdMakesClaim(current: Live, cd: ContainerDevices, id: string, claim: Claim)
    requires claim.device != "" && IsRBLNResource(cd.resourceName) && id in cd.deviceIds
    requires Resolved(current, id, cd.resourceName, false) == claim.device
    ensures claim in PluginClaims(current, claim.who)(cd)
  {
    var claims := IdClaims(current, claim.who, cd.resourceName);
    assert claim in claims(id);
    InUnion(cd.deviceIds, claims, claim);
  }

  lemma DraMakesClaim(current: Live, response: Response, claim: Claim)
    requires claim.device != "" && ClaimedByDra(current, response, claim)
    ensures claim in ResponseClaims(current, response)
  {
    var id :| DraAllocates(response, claim.who, id) && Resolved(current, id, "", true) == claim.device;
    var p, c, dr, cr :| p in response && c in p.containers && claim.who == Claimant(p.name, p.namespace, c.name)
      && dr in c.dynamicResources && cr in dr.claimResources && IsRBLNDRADriver(cr.driverName)
      && cr.deviceName == id && id != "";
    ResultMakesClaim(current, dr, cr, claim);
    InUnion(c.dynamicResources, DynamicClaims(current, claim.who), claim);
    ContainerMakesClaim(current, response, p, c, claim);
  }

  lemma ResultMakesClaim(current: Live, dr: DynamicResource, cr: ClaimResource, claim: Claim)
    requires claim.device != "" && cr in dr.claimResources && IsRBLNDRADriver(cr.driverName) && cr.deviceName != ""
    requires Resolved(current, cr.deviceName, "", true) == claim.device
    ensures claim in DynamicClaims(current, claim.who)(dr)
  {
    var claims := ResultClaims(current, claim.who);
    assert claim in claims(cr);
    InUnion(dr.claimResources, claims, claim);
  }

  lemma ContainerMakesClaim(current: Live, response: Response, p: Pod, c: Container, claim: Claim)
    requires p in response && c in p.containers
    requires claim in ContainerClaims(current, p.name, p.namespace)(c)
    ensures claim in ResponseClaims(current, response)
  {
    InUnion(p.containers, ContainerClaims(current, p.name, p.namespace), claim);
    InUnion(response, PodClaims(current), claim);
  }

  /** A VF is attributed only through an allocation that names its current profile: the plugin's
      resource for that profile, or the DRA alias that ends in it. An allocation under an earlier
      profile, or of the hosting function, gives it nothing. */
  lemma AttributedVfNamesProfile(current: map<string, DeviceInfo>, response: Response, device: string, who: Claimant)
    requires KeyedByName(current)
    requires Claim(device, who) in ResponseClaims(Some(current), response)
    ensures device in current
    ensures current[device].isVF ==>
      && HasProfile(current[device])
      && var mode := current[device].partitionMode;
         PluginAllocates(response, who, "rebellions.ai/npu-" + mode, device)
         || DraAllocates(response, who, device + "-" + mode)
  {
    var claim := Claim(device, who);
    ClaimsAreAllocations(Some(current), response, claim);
    if ClaimedByPlugin(Some(current), response, claim) {
      var resource, id :|
        PluginAllocates(response, who, resource, id) && Resolved(Some(current), id, resource, false) == device;
      ResolvesTo(current, id, resource, false, device);
    } else {
      var id :| DraAllocates(response, who, id) && Resolved(Some(current), id, "", true) == device;
      ResolvesTo(current, id, "", true, device);
    }
  }
}
