/** Which pod each device is attributed to (internal/collector/kubernetes.go). */
module PodResources {
  import opened Options
  import opened Text
  import opened Devices

  // ---------------------------------------------------------------------------------------
  // Kubelet's answer
  // ---------------------------------------------------------------------------------------

  datatype ContainerDevices = ContainerDevices(resourceName: string, deviceIds: seq<string>)
  datatype ClaimResource = ClaimResource(driverName: string, deviceName: string)
  datatype DynamicResource = DynamicResource(claimName: string, claimResources: seq<ClaimResource>)
  datatype Container = Container(
    name: string,
    devices: seq<ContainerDevices>,
    dynamicResources: seq<DynamicResource>)
  datatype Pod = Pod(name: string, namespace: string, containers: seq<Container>)

  type Response = seq<Pod>

  const RBLN_RESOURCE_PREFIX := "rebellions.ai"

  predicate IsRBLNResource(resourceName: string)
  {
    HasPrefix(resourceName, RBLN_RESOURCE_PREFIX + "/")
  }

  predicate IsRBLNDRADriver(driverName: string)
  {
    driverName == RBLN_RESOURCE_PREFIX || HasSuffix(driverName, "." + RBLN_RESOURCE_PREFIX)
  }

  /** The vendor's resources are the names below "rebellions.ai/", and its drivers that domain and
      the names in it. */
  lemma VendorNames(name: string)
    ensures IsRBLNResource(name) <==> exists rest: string :: name == "rebellions.ai/" + rest
    ensures IsRBLNDRADriver(name) <==> name == "rebellions.ai" || exists host: string :: name == host + ".rebellions.ai"
  {
    assert "rebellions.ai" + "/" == "rebellions.ai/" && "." + "rebellions.ai" == ".rebellions.ai";
    if IsRBLNResource(name) { assert name == "rebellions.ai/" + name[|"rebellions.ai/"|..]; }
    if HasSuffix(name, ".rebellions.ai") {
      var at := |name| - |".rebellions.ai"|;
      assert name == name[..at] + ".rebellions.ai";
    }
  }

  // ---------------------------------------------------------------------------------------
  // Claimants and their order
  // ---------------------------------------------------------------------------------------

  /** `PodResourceInfo`; the default value is what a lookup of a missing key yields. */
  datatype Claimant = Claimant(name: string, namespace: string, container: string)
  {
    predicate Before(other: Claimant)
    {
      if namespace != other.namespace then Less(namespace, other.namespace)
      else if name != other.name then Less(name, other.name)
      else Less(container, other.container)
    }

    predicate SamePod(other: Claimant)
    {
      namespace == other.namespace && name == other.name
    }
  }

  lemma BeforeIrreflexive(a: Claimant)
    ensures !a.Before(a)
  {
    LessIrreflexive(a.container);
  }

  lemma BeforeTransitive(a: Claimant, b: Claimant, c: Claimant)
    requires a.Before(b) && b.Before(c)
    ensures a.Before(c)
  {
    forall x, y, z | Less(x, y) && Less(y, z) ensures Less(x, z) && x != z {
      LessTransitive(x, y, z);
      LessIrreflexive(x);
    }
  }

  lemma BeforeTotal(a: Claimant, b: Claimant)
    ensures a == b || a.Before(b) || b.Before(a)
  {
    LessTotal(a.namespace, b.namespace);
    LessTotal(a.name, b.name);
    LessTotal(a.container, b.container);
  }

  // ---------------------------------------------------------------------------------------
  // Resolving an allocation against the live inventory
  // ---------------------------------------------------------------------------------------

  /** The compute devices of the inventory by name, a later entry replacing an earlier one. */
  function Current(inventory: seq<DeviceInfo>): map<string, DeviceInfo>
  {
    if inventory == [] then map[]
    else
      var d := inventory[|inventory| - 1];
      var before := Current(inventory[..|inventory| - 1]);
      if d.compute then before[d.name := d] else before
  }

  lemma {:induction false} CurrentHoldsInventory(inventory: seq<DeviceInfo>, name: string)
    requires name in Current(inventory)
    ensures Current(inventory)[name] in inventory
    ensures Current(inventory)[name].compute && Current(inventory)[name].name == name
  {
    var last := |inventory| - 1;
    if inventory[last].compute && inventory[last].name == name {
    } else {
      CurrentHoldsInventory(inventory[..last], name);
      assert inventory == inventory[..last] + [inventory[last]];
    }
  }

  /** A name is live exactly when some compute device carries it, whatever kind of function it is,
      and stands for the last one that does. */
  lemma {:induction false} LastComputeDeviceIsLive(inventory: seq<DeviceInfo>, i: nat)
    requires i < |inventory| && inventory[i].compute
    requires forall j :: i < j < |inventory| && inventory[j].compute ==> inventory[j].name != inventory[i].name
    ensures inventory[i].name in Current(inventory) && Current(inventory)[inventory[i].name] == inventory[i]
  {
    if i < |inventory| - 1 { LastComputeDeviceIsLive(inventory[..|inventory| - 1], i); }
  }

  predicate HasProfile(d: DeviceInfo)
  {
    d.partitionMode == "vf1" || d.partitionMode == "vf4"
  }

  predicate IsAliasOf(id: string, d: DeviceInfo)
  {
    d.isVF && HasProfile(d) && id == d.name + "-" + d.partitionMode
  }

  /** The device a DRA alias names, found by taking the alias apart instead of searching. */
  function AliasTarget(current: map<string, DeviceInfo>, id: string): string
  {
    var cut := |id| - 4;
    if cut >= 0 && id[..cut] in current && IsAliasOf(id, current[id[..cut]]) then id[..cut] else ""
  }

  function ResolveIn(current: map<string, DeviceInfo>, id: string, resource: string, dra: bool): string
  {
    if id in current then
      var d := current[id];
      if !d.isVF then id
      else if !dra && HasProfile(d) && resource == "rebellions.ai/npu-" + d.partitionMode then id
      else ""
    else if dra then AliasTarget(current, id)
    else ""
  }

  /** `current` is nil when no inventory was given: every id then stands for itself. */
  function Resolved(current: Option<map<string, DeviceInfo>>, id: string, resource: string, dra: bool): string
  {
    match current
    case None => id
    case Some(m) => ResolveIn(m, id, resource, dra)
  }

  predicate KeyedByName(current: map<string, DeviceInfo>)
  {
    forall n :: n in current ==> current[n].name == n
  }

  /** name + "-vf1" and name + "-vf4" are jointly injective, so at most one device answers to
      an alias and the order in which the map is walked cannot matter. */
  lemma AliasIsUnambiguous(current: map<string, DeviceInfo>, id: string, n: string)
    requires KeyedByName(current)
    requires n in current && IsAliasOf(id, current[n])
    ensures AliasTarget(current, id) == n
  {
    assert id == n + "-" + current[n].partitionMode;
    assert id[..|id| - 4] == n;
  }

  /** The `resolve` closure. The walk over `current` follows Go's map order, which is left
      open: `:|` may pick any key. */
  method Resolve(current: Option<map<string, DeviceInfo>>, id: string, resource: string, dra: bool)
    returns (device: string)
    requires current.Some? ==> KeyedByName(current.value)
    ensures device == Resolved(current, id, resource, dra)
  {
    if current.None? {
      return id;
    }
    var m := current.value;
    if id in m {
      var d := m[id];
      if !d.isVF {
        return id;
      }
      if !dra && HasProfile(d) && resource == "rebellions.ai/npu-" + d.partitionMode {
        return id;
      }
      return "";
    }
    if dra {
      var rest := m.Keys;
      while rest != {}
        invariant rest <= m.Keys
        invariant forall n :: n in m.Keys - rest ==> !IsAliasOf(id, m[n])
        decreases |rest|
      {
        var n :| n in rest;
        var d := m[n];
        if d.isVF && HasProfile(d) && id == d.name + "-" + d.partitionMode {
          AliasIsUnambiguous(m, id, n);
          return d.name;
        }
        rest := rest - {n};
      }
    }
    return "";
  }

  /** Exactly which allocations reach which device of a live inventory. */
  lemma ResolvesTo(m: map<string, DeviceInfo>, id: string, resource: string, dra: bool, device: string)
    requires KeyedByName(m)
    requires device != ""
    ensures ResolveIn(m, id, resource, dra) == device <==>
      device in m &&
      if !m[device].isVF then id == device
      else HasProfile(m[device]) &&
           if dra then id !in m && id == device + "-" + m[device].partitionMode
           else id == device && resource == "rebellions.ai/npu-" + m[device].partitionMode
  {
    if dra && device in m && IsAliasOf(id, m[device]) {
      AliasIsUnambiguous(m, id, device);
    }
  }

  // ---------------------------------------------------------------------------------------
  // Claims: what kubelet's answer says, without order
  // ---------------------------------------------------------------------------------------

  datatype Claim = Claim(device: string, who: Claimant)

  type Live = Option<map<string, DeviceInfo>>

  ghost function Claimed(device: string, who: Claimant): set<Claim>
  {
    if device == "" then {} else {Claim(device, who)}
  }

  ghost function Union<T>(xs: seq<T>, f: T -> set<Claim>): set<Claim>
  {
    if xs == [] then {} else Union(xs[..|xs| - 1], f) + f(xs[|xs| - 1])
  }

  ghost function IdClaims(current: Live, who: Claimant, resource: string): string -> set<Claim>
  {
    id => Claimed(Resolved(current, id, resource, false), who)
  }

  ghost function PluginClaims(current: Live, who: Claimant): ContainerDevices -> set<Claim>
  {
    (cd: ContainerDevices) =>
      if IsRBLNResource(cd.resourceName) then Union(cd.deviceIds, IdClaims(current, who, cd.resourceName)) else {}
  }

  ghost function ResultClaims(current: Live, who: Claimant): ClaimResource -> set<Claim>
  {
    (cr: ClaimResource) =>
      if IsRBLNDRADriver(cr.driverName) && cr.deviceName != ""
      then Claimed(Resolved(current, cr.deviceName, "", true), who) else {}
  }

  ghost function DynamicClaims(current: Live, who: Claimant): DynamicResource -> set<Claim>
  {
    (dr: DynamicResource) => Union(dr.claimResources, ResultClaims(current, who))
  }

  ghost function ContainerClaims(current: Live, pod: string, namespace: string): Container -> set<Claim>
  {
    (c: Container) =>
      var who := Claimant(pod, namespace, c.name);
      Union(c.devices, PluginClaims(current, who)) + Union(c.dynamicResources, DynamicClaims(current, who))
  }

  ghost function PodClaims(current: Live): Pod -> set<Claim>
  {
    (p: Pod) => Union(p.containers, ContainerClaims(current, p.name, p.namespace))
  }

  ghost function ResponseClaims(current: Live, response: Response): set<Claim>
  {
    Union(response, PodClaims(current))
  }

  lemma {:induction false} InUnion<T>(xs: seq<T>, f: T -> set<Claim>, c: Claim)
    ensures c in Union(xs, f) <==> exists x :: x in xs && c in f(x)
  {
    if xs != [] {
      InUnion(xs[..|xs| - 1], f, c);
      assert xs == xs[..|xs| - 1] + [xs[|xs| - 1]];
    }
  }

  lemma {:induction false} UnionOfConcat<T>(xs: seq<T>, ys: seq<T>, f: T -> set<Claim>)
    ensures Union(xs + ys, f) == Union(xs, f) + Union(ys, f)
  {
    if ys == [] {
      assert xs + ys == xs;
    } else {
      assert (xs + ys)[..|xs + ys| - 1] == xs + ys[..|ys| - 1];
      UnionOfConcat(xs, ys[..|ys| - 1], f);
    }
  }

  lemma UnionStep<T>(xs: seq<T>, i: nat, f: T -> set<Claim>)
    requires i < |xs|
    ensures Union(xs[..i + 1], f) == Union(xs[..i], f) + f(xs[i])
  {
    assert xs[..i + 1][..i] == xs[..i];
  }

  // ---------------------------------------------------------------------------------------
  // The attribution a set of claims calls for
  // ---------------------------------------------------------------------------------------

  ghost predicate ClaimedByTwoPods(claims: set<Claim>, device: string)
  {
    exists a, b :: a in claims && b in claims && a.device == device == b.device && !a.who.SamePod(b.who)
  }

  /** Every claimed device goes to the least of its claimants, and the devices claimed by two
      different pods are the shared ones. */
  ghost predicate Attributes(devices: map<string, Claimant>, shared: set<string>, claims: set<Claim>)
  {
    && (forall c :: c in claims ==> c.device in devices)
    && (forall d :: d in devices ==> Claim(d, devices[d]) in claims)
    && (forall c :: c in claims ==> c.who == devices[c.device] || devices[c.device].Before(c.who))
    && (forall d :: d in shared <==> ClaimedByTwoPods(claims, d))
  }

  lemma AttributionUnique(
    devices: map<string, Claimant>, shared: set<string>,
    devices': map<string, Claimant>, shared': set<string>, claims: set<Claim>)
    requires Attributes(devices, shared, claims)
    requires Attributes(devices', shared', claims)
    ensures devices == devices' && shared == shared'
  {
    forall d | d in devices ensures d in devices' && devices[d] == devices'[d] {
      var c, c' := Claim(d, devices[d]), Claim(d, devices'[d]);
      assert c in claims && c' in claims;
      if devices[d] != devices'[d] {
        BeforeTransitive(devices[d], devices'[d], devices[d]);
        BeforeIrreflexive(devices[d]);
      }
    }
    forall d | d in devices' ensures d in devices {
      assert Claim(d, devices'[d]) in claims;
    }
  }

  datatype Mapping = Mapping(devices: map<string, Claimant>, shared: set<string>)

  /** The attribution a set of claims calls for; there is exactly one. */
  ghost function AttributionOf(claims: set<Claim>): (m: Mapping)
    ensures Attributes(m.devices, m.shared, claims)
  {
    if claims == {} then Mapping(map[], {})
    else
      var c :| c in claims;
      var m := AttributionOf(claims - {c});
      AttributesGrows(m.devices, m.shared, claims - {c}, c);
      assert claims - {c} + {c} == claims;
      Assigned(m, c)
  }

  /** One run of the `assign` closure past its empty-name guard. */
  function Assigned(m: Mapping, c: Claim): Mapping
  {
    if c.device !in m.devices then m.(devices := m.devices[c.device := c.who])
    else
      var existing := m.devices[c.device];
      Mapping(
        if c.who.Before(existing) then m.devices[c.device := c.who] else m.devices,
        if existing.SamePod(c.who) then m.shared else m.shared + {c.device})
  }

  ghost function AssignedAll(history: seq<Claim>): Mapping
  {
    if history == [] then Mapping(map[], {})
    else Assigned(AssignedAll(history[..|history| - 1]), history[|history| - 1])
  }

  ghost function SeenIn(history: seq<Claim>): set<Claim>
  {
    if history == [] then {} else SeenIn(history[..|history| - 1]) + {history[|history| - 1]}
  }

  /** Although each newcomer is compared with the current winner only, the table ends up as all
      the claims together call for, in whatever order they came. */
  lemma {:induction false} AssignedAllAttributes(history: seq<Claim>)
    ensures Attributes(AssignedAll(history).devices, AssignedAll(history).shared, SeenIn(history))
  {
    if history != [] {
      var before := history[..|history| - 1];
      AssignedAllAttributes(before);
      var m := AssignedAll(before);
      AttributesGrows(m.devices, m.shared, SeenIn(before), history[|history| - 1]);
    }
  }

  /** The maps the `assign` closure captures, with the claims it has been shown so far. */
  class ClaimTable {
    var devices: map<string, Claimant>
    var shared: set<string>
    ghost var history: seq<Claim>
    ghost var claims: set<Claim>

    ghost predicate Valid()
      reads this
    {
      AssignedAll(history) == Mapping(devices, shared) && claims == SeenIn(history)
    }

    constructor ()
      ensures Valid() && claims == {}
    {
      devices, shared, history, claims := map[], {}, [], {};
    }

    method Assign(device: string, info: Claimant)
      requires Valid()
      modifies this
      ensures Valid()
      ensures claims == old(claims) + Claimed(device, info)
    {
      if device == "" {
        return;
      }
      history, claims := history + [Claim(device, info)], claims + {Claim(device, info)};
      assert history[..|history| - 1] == old(history);
      if device in devices {
        var existing := devices[device];
        if existing.namespace != info.namespace || existing.name != info.name {
          shared := shared + {device};
        }
        if !info.Before(existing) {
          return;
        }
      }
      devices := devices[device := info];
    }
  }

  /** One comparison is enough. The winner stays least by transitivity; and a newcomer whose pod
      differs from any claimant's differs from the winner's, unless the device was shared already. */
  lemma AttributesGrows(devices: map<string, Claimant>, shared: set<string>, claims: set<Claim>, c: Claim)
    requires Attributes(devices, shared, claims)
    ensures c.device !in devices ==> Attributes(devices[c.device := c.who], shared, claims + {c})
    ensures c.device in devices ==>
      var winner := devices[c.device];
      Attributes(
        if c.who.Before(winner) then devices[c.device := c.who] else devices,
        if winner.SamePod(c.who) then shared else shared + {c.device},
        claims + {c})
  {
    var all := claims + {c};
    if c.device !in devices {
      SharingWithFirst(claims, c);
    } else {
      var winner := devices[c.device];
      SharingShows(claims, winner, c);
      forall x | x in all && x.device == c.device
        ensures x.who == winner || winner.Before(x.who) || x == c
        ensures c.who.Before(winner) ==> x.who == c.who || c.who.Before(x.who)
        ensures !c.who.Before(winner) ==> x.who == winner || winner.Before(x.who)
      {
        BeforeTotal(winner, c.who);
        if c.who.Before(winner) && winner.Before(x.who) { BeforeTransitive(c.who, winner, x.who); }
      }
    }
  }

  lemma SharingWithFirst(claims: set<Claim>, c: Claim)
    requires forall x :: x in claims ==> x.device != c.device
    ensures forall d :: ClaimedByTwoPods(claims + {c}, d) <==> ClaimedByTwoPods(claims, d)
  {
    forall d | ClaimedByTwoPods(claims, d) ensures ClaimedByTwoPods(claims + {c}, d) {
      var a, b :| a in claims && b in claims && a.device == d == b.device && !a.who.SamePod(b.who);
      assert a in claims + {c} && b in claims + {c};
    }
  }

  lemma SharingShows(claims: set<Claim>, winner: Claimant, c: Claim)
    requires Claim(c.device, winner) in claims
    ensures forall d :: ClaimedByTwoPods(claims + {c}, d) <==>
      ClaimedByTwoPods(claims, d) || (d == c.device && !winner.SamePod(c.who))
  {
    var w := Claim(c.device, winner);
    forall d ensures ClaimedByTwoPods(claims + {c}, d) <==>
      ClaimedByTwoPods(claims, d) || (d == c.device && !winner.SamePod(c.who))
    {
      if ClaimedByTwoPods(claims, d) {
        var a, b :| a in claims && b in claims && a.device == d == b.device && !a.who.SamePod(b.who);
        assert a in claims + {c} && b in claims + {c};
      } else if ClaimedByTwoPods(claims + {c}, d) {
        var a, b :| a in claims + {c} && b in claims + {c} && a.device == d == b.device && !a.who.SamePod(b.who);
        assert w in claims;
      } else {
        assert w in claims + {c} && c in claims + {c};
      }
    }
  }

  /** `mapPodResources`: the nested loops over pods, containers and both allocation shapes (the
      two inner nests are the methods below). */
  method MapPodResources(response: Response, inventory: Option<seq<DeviceInfo>>)
    returns (devices: map<string, Claimant>, shared: seq<string>)
    ensures Attributes(devices, Elements(shared), ResponseClaims(LiveOf(inventory), response))
    ensures StrictlySorted(shared)
  {
    var current := CurrentOf(inventory);
    var table := new ClaimTable();
    for p := 0 to |response|
      invariant table.Valid()
      invariant table.claims == ResponseClaims(current, response[..p])
    {
      UnionStep(response, p, PodClaims(current));
      AssignPod(table, current, response[p]);
    }
    assert response[..|response|] == response;
    AssignedAllAttributes(table.history);
    devices := table.devices;
    shared := SortedKeys(table.shared);
  }

  method AssignPod(table: ClaimTable, current: Live, pod: Pod)
    requires table.Valid()
    requires current.Some? ==> KeyedByName(current.value)
    modifies table
    ensures table.Valid()
    ensures table.claims == old(table.claims) + PodClaims(current)(pod)
  {
    ghost var claims := ContainerClaims(current, pod.name, pod.namespace);
    for k := 0 to |pod.containers|
      invariant table.Valid()
      invariant table.claims == old(table.claims) + Union(pod.containers[..k], claims)
    {
      UnionStep(pod.containers, k, claims);
      var container := pod.containers[k];
      var info := Claimant(pod.name, pod.namespace, container.name);
      AssignPluginDevices(table, current, info, container.devices);
      AssignDynamicResources(table, current, info, container.dynamicResources);
    }
    assert pod.containers[..|pod.containers|] == pod.containers;
  }

  method AssignPluginDevices(table: ClaimTable, current: Live, info: Claimant, devices: seq<ContainerDevices>)
    requires table.Valid()
    requires current.Some? ==> KeyedByName(current.value)
    modifies table
    ensures table.Valid()
    ensures table.claims == old(table.claims) + Union(devices, PluginClaims(current, info))
  {
    for i := 0 to |devices|
      invariant table.Valid()
      invariant table.claims == old(table.claims) + Union(devices[..i], PluginClaims(current, info))
    {
      var cd := devices[i];
      UnionStep(devices, i, PluginClaims(current, info));
      if !IsRBLNResource(cd.resourceName) {
        continue;
      }
      AssignIds(table, current, info, cd.resourceName, cd.deviceIds);
    }
    assert devices[..|devices|] == devices;
  }

  method AssignIds(table: ClaimTable, current: Live, info: Claimant, resource: string, ids: seq<string>)
    requires table.Valid()
    requires current.Some? ==> KeyedByName(current.value)
    modifies table
    ensures table.Valid()
    ensures table.claims == old(table.claims) + Union(ids, IdClaims(current, info, resource))
  {
    ghost var claims := IdClaims(current, info, resource);
    for j := 0 to |ids|
      invariant table.Valid()
      invariant table.claims == old(table.claims) + Union(ids[..j], claims)
    {
      UnionStep(ids, j, claims);
      var device := Resolve(current, ids[j], resource, false);
      table.Assign(device, info);
    }
    assert ids[..|ids|] == ids;
  }

  method AssignDynamicResources(table: ClaimTable, current: Live, info: Claimant, resources: seq<DynamicResource>)
    requires table.Valid()
    requires current.Some? ==> KeyedByName(current.value)
    modifies table
    ensures table.Valid()
    ensures table.claims == old(table.claims) + Union(resources, DynamicClaims(current, info))
  {
    for i := 0 to |resources|
      invariant table.Valid()
      invariant table.claims == old(table.claims) + Union(resources[..i], DynamicClaims(current, info))
    {
      UnionStep(resources, i, DynamicClaims(current, info));
      var results := resources[i].claimResources;
      ghost var before := table.claims;
      ghost var claims := ResultClaims(current, info);
      for j := 0 to |results|
        invariant table.Valid()
        invariant table.claims == before + Union(results[..j], claims)
      {
        var cr := results[j];
        UnionStep(results, j, claims);
        if !IsRBLNDRADriver(cr.driverName) || cr.deviceName == "" {
          continue;
        }
        var device := Resolve(current, cr.deviceName, "", true);
        table.Assign(device, info);
      }
      assert results[..|results|] == results;
    }
    assert resources[..|resources|] == resources;
  }

  ghost function LiveOf(inventory: Option<seq<DeviceInfo>>): Live
  {
    match inventory
    case None => None
    case Some(ds) => Some(Current(ds))
  }

  /** The loop that indexes the compute devices by name. */
  method CurrentOf(inventory: Option<seq<DeviceInfo>>) returns (current: Live)
    ensures current == LiveOf(inventory)
    ensures current.Some? ==> KeyedByName(current.value)
  {
    if inventory.None? {
      return None;
    }
    var m: map<string, DeviceInfo> := map[];
    for i := 0 to |inventory.value|
      invariant m == Current(inventory.value[..i])
      invariant KeyedByName(m)
    {
      assert inventory.value[..i + 1][..i] == inventory.value[..i];
      var d := inventory.value[i];
      if d.compute {
        m := m[d.name := d];
      }
    }
    assert inventory.value[..|inventory.value|] == inventory.value;
    current := Some(m);
  }
}
