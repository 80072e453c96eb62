/** What a reader of the exported series may conclude from them. */
module Exposition {
  import opened Options
  import opened Devices
  import opened PodResources
  import opened Series

  /** The attribution a metric works with: kubelet's answer resolved against the devices of the
      same collection. */
  ghost function ClaimsFor(devices: seq<DeviceInfo>, response: Response): set<Claim>
  {
    ResponseClaims(Some(Current(devices)), response)
  }

  ghost function PodsFor(devices: seq<DeviceInfo>, response: Response): map<string, Claimant>
  {
    AttributionOf(ClaimsFor(devices, response)).devices
  }

  ghost function SharedFor(devices: seq<DeviceInfo>, response: Response): set<string>
  {
    AttributionOf(ClaimsFor(devices, response)).shared
  }

  // ---------------------------------------------------------------------------------------
  // One series per device
  // ---------------------------------------------------------------------------------------

  /** Every series belongs to a listed device and carries its present labels: nothing of a removed
      device, an earlier owner or an earlier driver version is left. */
  lemma EverySeriesIsCurrent(
    devices: seq<DeviceInfo>, c: Config, pods: map<string, Claimant>, value: DeviceInfo -> Option<real>, labels: Labels)
    ensures labels in Family(devices, Labelled(c, pods, value)) <==>
      exists d :: d in devices && value(d).Some? && labels == LabelsOf(d, c, pods)
  {
    NothingStale(devices, Labelled(c, pods, value), labels);
  }

  /** A device has exactly one series when it has a value, which that series shows, and none
      otherwise. */
  lemma OneSeriesPerDevice(
    devices: seq<DeviceInfo>, c: Config, pods: map<string, Claimant>, value: DeviceInfo -> Option<real>, d: DeviceInfo)
    requires DistinctNames(devices) && d in devices
    ensures var family := Family(devices, Labelled(c, pods, value));
      && (forall labels :: labels in family && Name in labels && labels[Name] == d.name
            <==> value(d).Some? && labels == LabelsOf(d, c, pods))
      && (value(d).Some? ==> family[LabelsOf(d, c, pods)] == value(d).value)
  {
    var cells := Labelled(c, pods, value);
    LabelledNamesItsDevice(c, pods, value);
    SeriesArePerDevice(devices, cells, d);
    assert forall labels :: labels in cells(d) <==> value(d).Some? && labels == LabelsOf(d, c, pods);
  }

  // ---------------------------------------------------------------------------------------
  // Lifecycle state
  // ---------------------------------------------------------------------------------------

  function CurrentName(s: DeviceState): string
  {
    if s == STATE_READY then "ready"
    else if s == STATE_BUSY then "busy"
    else if s == STATE_INIT then "init"
    else if s == STATE_FAULT then "fault"
    else if s == STATE_FINISH then "finish"
    else "not_found"
  }

  lemma StateNamesDiffer()
    ensures "ready" != "fault" && "busy" != "init"
    ensures |DEVICE_STATES.Keys| == 6
  {
    assert "ready"[0] != "fault"[0] && "busy"[0] != "init"[0];
    assert DEVICE_STATES.Keys == {"ready", "busy", "init", "fault"} + {"finish", "not_found"};
    assert |"finish"| == 6 && |"not_found"| == 9;
    assert |{"ready", "busy"}| == 2 && |{"init", "fault"}| == 2;
    assert {"ready", "busy"} !! {"init", "fault"};
    assert {"ready", "busy", "init", "fault"} == {"ready", "busy"} + {"init", "fault"};
  }

  /** The table of names, the enum table and the switch of HasKnownState agree for every int32. */
  lemma OneNameIsCurrent(d: DeviceInfo, name: string)
    requires name in DEVICE_STATES
    ensures StateValue(d.devState, name) == if name == CurrentName(d.devState) then 1.0 else 0.0
    ensures CurrentName(d.devState) in DEVICE_STATES
    ensures CurrentName(d.devState) == "not_found" <==> d.Health().None?
    ensures CurrentName(d.devState) == "ready" <==> d.Health() == Some(0.0)
  {
    StateNamesDiffer();
  }

  lemma {:induction false} TuplesCount(labels: Labels, names: set<string>)
    ensures |StateTuples(labels, names)| == |names|
  {
    if names != {} {
      var name :| name in names;
      TuplesCount(labels, names - {name});
      var tuple := labels[StateLabel := name];
      forall t | t in StateTuples(labels, names) ensures t in StateTuples(labels, names - {name}) + {tuple} {
        var n :| n in names && t == labels[StateLabel := n];
        assert n != name ==> n in names - {name};
      }
      assert StateTuples(labels, names) == StateTuples(labels, names - {name}) + {tuple};
      assert tuple !in StateTuples(labels, names - {name}) by {
        assert forall n :: n in names - {name} ==> labels[StateLabel := n][StateLabel] != tuple[StateLabel];
      }
    }
  }

  /** Every device has six status series, of which exactly one shows 1: that of its state, or
      "not_found" for a state without a name. That one is "not_found" exactly when the health
      gauge is absent, and "ready" exactly when it is 0. */
  lemma StatusIsOneHot(devices: seq<DeviceInfo>, c: Config, pods: map<string, Claimant>, d: DeviceInfo)
    requires DistinctNames(devices) && d in devices
    ensures var family := Family(devices, StateCells(c, pods));
      var tuples := StateTuples(LabelsOf(d, c, pods), DEVICE_STATES.Keys);
      && (forall labels :: labels in family && Name in labels && labels[Name] == d.name <==> labels in tuples)
      && |tuples| == 6
      && (forall name :: name in DEVICE_STATES ==>
            family[LabelsOf(d, c, pods)[StateLabel := name]] == if name == CurrentName(d.devState) then 1.0 else 0.0)
    ensures CurrentName(d.devState) in DEVICE_STATES
    ensures CurrentName(d.devState) == "not_found" <==> d.Health().None?
    ensures CurrentName(d.devState) == "ready" <==> d.Health() == Some(0.0)
  {
    var cells := StateCells(c, pods);
    var labels := LabelsOf(d, c, pods);
    StateCellsNameTheirDevice(c, pods);
    SeriesArePerDevice(devices, cells, d);
    StateNamesDiffer();
    TuplesCount(labels, DEVICE_STATES.Keys);
    assert cells(d) == OneHot(labels, d.devState, DEVICE_STATES.Keys);
    assert cells(d).Keys == StateTuples(labels, DEVICE_STATES.Keys);
    assert "ready" in DEVICE_STATES;
    OneNameIsCurrent(d, "ready");
    forall name | name in DEVICE_STATES
      ensures labels[StateLabel := name] in cells(d)
      ensures cells(d)[labels[StateLabel := name]] == if name == CurrentName(d.devState) then 1.0 else 0.0
    {
      OneNameIsCurrent(d, name);
    }
  }

  // ---------------------------------------------------------------------------------------
  // Attribution and sharing
  // ---------------------------------------------------------------------------------------

  /** The pod labels name the least claimant of the device, and nobody when it is not claimed or
      not a compute device. */
  lemma LabelsNameTheLeastClaimant(devices: seq<DeviceInfo>, response: Response, c: Config, d: DeviceInfo)
    requires c.includePodLabels
    ensures var claims, labels := ClaimsFor(devices, response), LabelsOf(d, c, PodsFor(devices, response));
      && labels.Keys == COMMON_LABELS
      && var who := Claimant(labels[PodLabel], labels[Namespace], labels[ContainerLabel]);
         if d.compute && exists x :: x in claims && x.device == d.name
         then Claim(d.name, who) in claims
              && forall x :: x in claims && x.device == d.name ==> x.who == who || who.Before(x.who)
         else who == NOBODY
  {
  }

  /** The sharing flag of a compute device is 1 exactly when two different pods hold claims that
      resolve to it, and 0 otherwise. Both the flag and its labels come from one answer of kubelet. */
  lemma SharingFlag(devices: seq<DeviceInfo>, response: Response, nodeName: string, d: DeviceInfo)
    requires DistinctNames(devices) && d in devices
    ensures var pods := PodsFor(devices, response);
      var labels := LabelsOf(d, Config(nodeName, true), pods);
      var family := Family(devices, Labelled(Config(nodeName, true), pods, Sharing(SharedFor(devices, response))));
      && (forall other :: other in family && Name in other && other[Name] == d.name <==> d.compute && other == labels)
      && (d.compute ==> family[labels] == if ClaimedByTwoPods(ClaimsFor(devices, response), d.name) then 1.0 else 0.0)
  {
    OneSeriesPerDevice(
      devices, Config(nodeName, true), PodsFor(devices, response), Sharing(SharedFor(devices, response)), d);
  }
}
