/** The inventory rebuilt from the v0 device list (internal/daemon/legacy.go, legacyInventory):
    one heap object per device, reachable both by position and through an index by PCI bus, and
    changed in place through either. */
module LegacyInventory {
  import opened Options
  import opened Sysfs
  import opened Inventory

  /** One record of the v0 GetDeviceList stream. */
  datatype LegacyDevice = LegacyDevice(
    name: string,
    uuid: string,
    devId: string,
    cardName: string,
    pciBusId: string,
    isVf: bool,
    parentName: string,
    numVfs: nat)

  class Item {
    const name: string
    const uuid: string
    const devId: string
    const cardName: string
    const pciBusId: string
    var isVf: bool
    var parentName: string
    var npuId: Option<nat>

    constructor (d: LegacyDevice)
      ensures Value() == Initial(d)
    {
      name, uuid, devId, cardName, pciBusId := d.name, d.uuid, d.devId, d.cardName, d.pciBusId;
      isVf, parentName := d.isVf, d.parentName;
      npuId := if d.isVf || d.numVfs == 0 then Some(0) else None;
    }

    function Value(): Entry
      reads this
    {
      Entry(name, uuid, devId, cardName, pciBusId, isVf, parentName, npuId, 0, None, None)
    }
  }

  // ---------------------------------------------------------------------------------------
  // The order-free closed form
  // ---------------------------------------------------------------------------------------

  function Initial(d: LegacyDevice): Entry
  {
    Entry(d.name, d.uuid, d.devId, d.cardName, d.pciBusId, d.isVf, d.parentName,
          if d.isVf || d.numVfs == 0 then Some(0) else None, 0, None, None)
  }

  /** The last device whose well-formed address is `bus`, as the index keeps it. */
  function OnBus(devices: seq<LegacyDevice>, bus: string): (r: Option<nat>)
    ensures r.Some? ==> r.value < |devices|
  {
    if devices == [] then None
    else
      var last := |devices| - 1;
      if IsPciAddress(devices[last].pciBusId) && Lower(devices[last].pciBusId) == bus then Some(last)
      else OnBus(devices[..last], bus)
  }

  /** Everything the reconstruction reads: whether local sysfs may be consulted, the devices, and
      what reading the `physfn` link of the i-th device returns. */
  datatype Input = Input(sysfs: bool, devices: seq<LegacyDevice>, physfn: nat -> Option<string>)
  {
    predicate Linked(i: nat)
      requires i < |devices|
    {
      sysfs && IsPciAddress(devices[i].pciBusId) && physfn(i).Some?
    }

    /** The position of the physical function behind device i, when it is inventoried. */
    function Parent(i: nat): (r: Option<nat>)
      requires i < |devices|
      ensures r.Some? ==> r.value < |devices|
    {
      if Linked(i) then OnBus(devices, Lower(Base(physfn(i).value))) else None
    }

    predicate IsVf(i: nat)
      requires i < |devices|
    {
      devices[i].isVf || Linked(i)
    }

    function ParentName(i: nat): string
      requires i < |devices|
    {
      if Parent(i).Some? then devices[Parent(i).value].name else devices[i].parentName
    }

    /** Device i shows that device j hosts virtual functions. */
    predicate Shows(i: nat, j: nat)
      requires i < |devices| && j < |devices|
    {
      Parent(i) == Some(j) || (IsVf(i) && ParentName(i) != "" && ParentName(i) == devices[j].name)
    }

    ghost predicate ShownBefore(k: nat, j: nat)
      requires k <= |devices| && j < |devices|
    {
      exists i :: 0 <= i < k && Shows(i, j)
    }

    /** Entry j of the result, said without any order. */
    ghost function ClosedForm(j: nat): Entry
      requires j < |devices|
    {
      Initial(devices[j]).(
        isVf := IsVf(j),
        parentName := ParentName(j),
        npuId := if ShownBefore(|devices|, j) then None else Initial(devices[j]).npuId)
    }
  }

  // ---------------------------------------------------------------------------------------
  // The two loops
  // ---------------------------------------------------------------------------------------

  /** Entry j while device k is next in the second loop. */
  ghost predicate Progress(input: Input, item: Item, k: nat, j: nat)
    requires k <= |input.devices| && j < |input.devices|
    reads item
  {
    var d := input.devices[j];
    && item.name == d.name && item.uuid == d.uuid && item.devId == d.devId
    && item.cardName == d.cardName && item.pciBusId == d.pciBusId
    && item.isVf == (if j < k then input.IsVf(j) else d.isVf)
    && item.parentName == (if j < k then input.ParentName(j) else d.parentName)
    && item.npuId == if input.ShownBefore(k, j) then None else Initial(d).npuId
  }

  method Reconstruct(input: Input) returns (inventory: seq<Item>)
    ensures |inventory| == |input.devices|
    ensures fresh(inventory) && forall i, j :: 0 <= i < j < |inventory| ==> inventory[i] != inventory[j]
    ensures forall j :: 0 <= j < |inventory| ==> inventory[j].Value() == input.ClosedForm(j)
  {
    var byBus;
    inventory, byBus := NewItems(input.devices);
    for i := 0 to |inventory|
      invariant fresh(inventory)
      invariant forall j :: 0 <= j < |inventory| ==> Progress(input, inventory[j], i, j)
    {
      Classify(input, inventory, byBus, i);
    }
  }

  /** The first loop: one item per device, and the index by bus. */
  method NewItems(devices: seq<LegacyDevice>) returns (inventory: seq<Item>, byBus: map<string, Item>)
    ensures |inventory| == |devices|
    ensures fresh(inventory) && forall i, j :: 0 <= i < j < |inventory| ==> inventory[i] != inventory[j]
    ensures forall i :: 0 <= i < |inventory| ==> inventory[i].Value() == Initial(devices[i])
    ensures Indexes(byBus, inventory, devices)
  {
    inventory := [];
    byBus := map[];
    for i := 0 to |devices|
      invariant |inventory| == i && fresh(inventory)
      invariant forall x, y :: 0 <= x < y < i ==> inventory[x] != inventory[y]
      invariant forall x :: 0 <= x < i ==> inventory[x].Value() == Initial(devices[x])
      invariant Indexes(byBus, inventory, devices[..i])
    {
      var item := new Item(devices[i]);
      IndexGrows(byBus, inventory, devices, i, item);
      inventory := inventory + [item];
      if IsPciAddress(item.pciBusId) {
        byBus := byBus[Lower(item.pciBusId) := item];
      }
    }
    assert devices[..|devices|] == devices;
  }

  /** `byBus` answers as `OnBus` does for the devices inventoried so far. */
  ghost predicate Indexes(byBus: map<string, Item>, inventory: seq<Item>, devices: seq<LegacyDevice>)
    requires |inventory| == |devices|
  {
    forall bus :: if bus in byBus then OnBus(devices, bus).Some? && byBus[bus] == inventory[OnBus(devices, bus).value]
                  else OnBus(devices, bus).None?
  }

  lemma IndexGrows(byBus: map<string, Item>, inventory: seq<Item>, devices: seq<LegacyDevice>, i: nat, item: Item)
    requires i < |devices| && |inventory| == i
    requires Indexes(byBus, inventory, devices[..i])
    ensures Indexes(
      if IsPciAddress(devices[i].pciBusId) then byBus[Lower(devices[i].pciBusId) := item] else byBus,
      inventory + [item], devices[..i + 1])
  {
    assert devices[..i + 1][..i] == devices[..i];
  }

  /** The body of the second loop for device i. */
  method Classify(input: Input, inventory: seq<Item>, byBus: map<string, Item>, i: nat)
    requires |inventory| == |input.devices| && i < |inventory|
    requires forall x, y :: 0 <= x < y < |inventory| ==> inventory[x] != inventory[y]
    requires Indexes(byBus, inventory, input.devices)
    requires forall j :: 0 <= j < |inventory| ==> Progress(input, inventory[j], i, j)
    modifies inventory
    ensures forall j :: 0 <= j < |inventory| ==> Progress(input, inventory[j], i + 1, j)
  {
    var d := inventory[i];
    FollowLink(input, inventory, byBus, i);
    label Linked:
    if d.isVf && d.parentName != "" {
      ClearNamed(inventory, d);
    }
    forall j | 0 <= j < |inventory| ensures Progress(input, inventory[j], i + 1, j) {
      assert old(Progress(input, inventory[j], i, j));
      ShownStep(input, i, j);
    }
  }

  /** One read of a `physfn` link and what it tells of the device and of its physical function. */
  method FollowLink(input: Input, inventory: seq<Item>, byBus: map<string, Item>, i: nat)
    requires |inventory| == |input.devices| && i < |inventory|
    requires forall x, y :: 0 <= x < y < |inventory| ==> inventory[x] != inventory[y]
    requires Indexes(byBus, inventory, input.devices)
    requires forall j :: 0 <= j < |inventory| ==> inventory[j].name == input.devices[j].name
    requires inventory[i].pciBusId == input.devices[i].pciBusId
    requires inventory[i].isVf == input.devices[i].isVf && inventory[i].parentName == input.devices[i].parentName
    modifies inventory
    ensures inventory[i].isVf == input.IsVf(i) && inventory[i].parentName == input.ParentName(i)
    ensures forall j :: 0 <= j < |inventory| && j != i ==>
      inventory[j].isVf == old(inventory[j].isVf) && inventory[j].parentName == old(inventory[j].parentName)
    ensures forall j :: 0 <= j < |inventory| ==>
      inventory[j].npuId == if input.Parent(i) == Some(j) then None else old(inventory[j].npuId)
  {
    var d := inventory[i];
    if input.sysfs && IsPciAddress(d.pciBusId) {
      var target := input.physfn(i);
      if target.Some? {
        d.isVf := true;
        var bus := Lower(Base(target.value));
        if bus in byBus {
          var parent := byBus[bus];
          d.parentName := parent.name;
          parent.npuId := None;
        }
      }
    }
  }

  /** The search for every item that carries the name of d's parent. */
  method ClearNamed(inventory: seq<Item>, d: Item)
    requires forall x, y :: 0 <= x < y < |inventory| ==> inventory[x] != inventory[y]
    modifies inventory`npuId
    ensures forall j :: 0 <= j < |inventory| ==>
      inventory[j].npuId == if inventory[j].name == d.parentName then None else old(inventory[j].npuId)
  {
    for k := 0 to |inventory|
      invariant forall j :: 0 <= j < |inventory| ==>
        inventory[j].npuId == if j < k && inventory[j].name == d.parentName then None else old(inventory[j].npuId)
    {
      var parent := inventory[k];
      if parent.name == d.parentName {
        parent.npuId := None;
      }
    }
  }

  lemma ShownStep(input: Input, k: nat, j: nat)
    requires k < |input.devices| && j < |input.devices|
    ensures input.ShownBefore(k + 1, j) <==> input.ShownBefore(k, j) || input.Shows(k, j)
  {
  }

  // ---------------------------------------------------------------------------------------
  // Order of the device list
  // ---------------------------------------------------------------------------------------

  /** No two well-formed addresses coincide up to case. */
  ghost predicate DistinctBuses(devices: seq<LegacyDevice>)
  {
    forall i, j :: 0 <= i < j < |devices| && IsPciAddress(devices[i].pciBusId) && IsPciAddress(devices[j].pciBusId) ==>
      Lower(devices[i].pciBusId) != Lower(devices[j].pciBusId)
  }

  /** `b` presents the devices of `a` in the order `p`, each with its own link. */
  ghost predicate Permutes(a: Input, b: Input, p: seq<nat>)
  {
    && |p| == |a.devices| == |b.devices| && a.sysfs == b.sysfs
    && (forall i :: 0 <= i < |p| ==> p[i] < |p|)
    && (forall i, j :: 0 <= i < j < |p| ==> p[i] != p[j])
    && (forall x :: 0 <= x < |p| ==> x in p)
    && (forall i :: 0 <= i < |p| ==> b.devices[i] == a.devices[p[i]] && b.physfn(i) == a.physfn(p[i]))
  }

  lemma {:induction false} OnBusFinds(devices: seq<LegacyDevice>, bus: string, j: nat)
    requires DistinctBuses(devices)
    requires j < |devices|
    ensures OnBus(devices, bus) == Some(j) <==> IsPciAddress(devices[j].pciBusId) && Lower(devices[j].pciBusId) == bus
  {
    var last := |devices| - 1;
    if j < last && !(IsPciAddress(devices[last].pciBusId) && Lower(devices[last].pciBusId) == bus) {
      OnBusFinds(devices[..last], bus, j);
    }
  }

  /** With distinct addresses, permuting the device list permutes the inventory and nothing else. */
  lemma PermutationPermutes(a: Input, b: Input, p: seq<nat>, j: nat)
    requires DistinctBuses(a.devices)
    requires Permutes(a, b, p)
    requires j < |p|
    ensures b.ClosedForm(j) == a.ClosedForm(p[j])
  {
    forall i | 0 <= i < |p|
      ensures b.IsVf(i) == a.IsVf(p[i]) && b.ParentName(i) == a.ParentName(p[i])
      ensures forall k :: 0 <= k < |p| ==> (b.Parent(i) == Some(k) <==> a.Parent(p[i]) == Some(p[k]))
    {
      ParentPermutes(a, b, p, i);
    }
    if a.ShownBefore(|p|, p[j]) {
      var x :| 0 <= x < |p| && a.Shows(x, p[j]);
      assert x in p;
      var i :| 0 <= i < |p| && p[i] == x;
      assert b.Shows(i, j);
    }
    if b.ShownBefore(|p|, j) {
      var i :| 0 <= i < |p| && b.Shows(i, j);
      assert a.Shows(p[i], p[j]);
    }
  }

  lemma ParentPermutes(a: Input, b: Input, p: seq<nat>, i: nat)
    requires DistinctBuses(a.devices)
    requires Permutes(a, b, p)
    requires i < |p|
    ensures b.IsVf(i) == a.IsVf(p[i]) && b.ParentName(i) == a.ParentName(p[i])
    ensures forall k :: 0 <= k < |p| ==> (b.Parent(i) == Some(k) <==> a.Parent(p[i]) == Some(p[k]))
  {
    assert DistinctBuses(b.devices);
    forall k | 0 <= k < |p| ensures b.Parent(i) == Some(k) <==> a.Parent(p[i]) == Some(p[k]) {
      if b.Linked(i) {
        var bus := Lower(Base(b.physfn(i).value));
        OnBusFinds(b.devices, bus, k);
        OnBusFinds(a.devices, bus, p[k]);
      }
    }
    if a.Parent(p[i]).Some? {
      assert a.Parent(p[i]).value in p;
      var k :| 0 <= k < |p| && p[k] == a.Parent(p[i]).value;
      assert b.Parent(i) == Some(k);
    }
  }
}
