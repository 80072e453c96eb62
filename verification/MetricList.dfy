/** The metrics of a collector, reset and set anew one after another
    (internal/collector/npu_collector.go). The mapper's sync loop may complete any number of syncs
    between two metrics, so that each reads an answer of its own. */
module MetricList {
  import opened Options
  import opened Devices
  import opened PodResources
  import opened PodMapper
  import opened Series
  import opened Exposition
  import opened Metrics

  /** Kubelet's replies to the syncs that complete before each metric's snapshot. */
  datatype Kubelet = Kubelet(
    health: seq<Result<Response>>,
    memory: seq<Result<Response>>,
    utilization: seq<Result<Response>>,
    state: seq<Result<Response>>,
    shared: seq<Result<Response>>)

  /** The answers the metrics of one collection worked with. */
  datatype Seen = Seen(health: Response, memory: Response, utilization: Response, state: Response, shared: Response)

  // The replies the mapper has received by each snapshot.

  function AfterHealth(start: seq<Result<Response>>, k: Kubelet): seq<Result<Response>>
  {
    start + k.health
  }

  function AfterMemory(start: seq<Result<Response>>, k: Kubelet): seq<Result<Response>>
  {
    AfterHealth(start, k) + k.memory
  }

  function AfterUtilization(start: seq<Result<Response>>, k: Kubelet): seq<Result<Response>>
  {
    AfterMemory(start, k) + k.utilization
  }

  function AfterState(start: seq<Result<Response>>, k: Kubelet): seq<Result<Response>>
  {
    AfterUtilization(start, k) + k.state
  }

  function AfterAll(start: seq<Result<Response>>, k: Kubelet, isKubernetes: bool): seq<Result<Response>>
  {
    if isKubernetes then AfterState(start, k) + k.shared else AfterState(start, k)
  }

  /** What each metric sees: kubelet's last successful answer when its snapshot is taken. */
  function SeenBy(start: seq<Result<Response>>, k: Kubelet, isKubernetes: bool): Seen
  {
    Seen(
      LastAnswer(AfterHealth(start, k)),
      LastAnswer(AfterMemory(start, k)),
      LastAnswer(AfterUtilization(start, k)),
      LastAnswer(AfterState(start, k)),
      LastAnswer(AfterAll(start, k, isKubernetes)))
  }

  /** An answer that was the mapper's last one at some moment since it had made `start` List calls. */
  ghost predicate HeldSince(replies: seq<Result<Response>>, start: nat, response: Response)
  {
    exists n :: start <= n <= |replies| && response == LastAnswer(replies[..n])
  }

  /** Syncs of the loop, one after another. */
  method RunSyncs(mapper: PodResourceMapper, replies: seq<Result<Response>>)
    requires mapper.Valid()
    modifies mapper
    ensures mapper.Valid() && mapper.replies == old(mapper.replies) + replies
  {
    if |replies| > 0 {
      var last := |replies| - 1;
      assert replies == replies[..last] + [replies[last]];
      RunSyncs(mapper, replies[..last]);
      var _ := mapper.SyncPodResources(replies[last]);
    }
  }

  datatype Families = Families(
    health: Gauge, dramUsed: Gauge, dramTotal: Gauge, utilization: Gauge, status: Gauge, shared: Gauge)

  const NO_FAMILIES := Families(map[], map[], map[], map[], map[], map[])

  /** A family set after a reset holds nothing else. */
  lemma NothingBefore(g: Gauge)
    ensures map[] + g == g
  {
  }

  class MetricList {
    const mapper: PodResourceMapper
    const isKubernetes: bool
    const nodeName: string
    const health: DeviceHealthMetric
    const memory: MemoryMetric
    const utilization: UtilizationMetric
    const state: DeviceStateMetric
    /** Only registered in Kubernetes. */
    const shared: SharedDeviceMetric

    constructor (mapper: PodResourceMapper, isKubernetes: bool, nodeName: string)
      ensures Wired() && Exposed() == NO_FAMILIES
      ensures this.mapper == mapper && this.isKubernetes == isKubernetes && this.nodeName == nodeName
    {
      this.mapper, this.isKubernetes, this.nodeName := mapper, isKubernetes, nodeName;
      var config := Config(nodeName, isKubernetes);
      health := new DeviceHealthMetric(mapper, config);
      memory := new MemoryMetric(mapper, config);
      utilization := new UtilizationMetric(mapper, config);
      state := new DeviceStateMetric(mapper, config);
      shared := new SharedDeviceMetric(mapper, nodeName);
    }

    function Labelling(): Config
    {
      Config(nodeName, isKubernetes)
    }

    ghost predicate Wired()
    {
      && health.mapper == memory.mapper == utilization.mapper == state.mapper == shared.mapper == mapper
      && health.config == memory.config == utilization.config == state.config == Labelling()
      && shared.nodeName == nodeName
    }

    /** The sharing flag stays unset outside Kubernetes. */
    ghost predicate Registered()
      reads shared
    {
      !isKubernetes ==> shared.shared == map[]
    }

    /** What a scrape would show. */
    ghost function Exposed(): Families
      reads health, memory, utilization, state, shared
    {
      Families(
        health.healthStatus, memory.dramUsed, memory.dramTotal,
        utilization.utilization, state.deviceStatus, shared.shared)
    }

    /** The families these devices call for, each under the answer its metric saw. */
    ghost function FamiliesOf(devices: seq<DeviceInfo>, seen: Seen): Families
    {
      Families(
        Family(devices, Labelled(Labelling(), PodsFor(devices, seen.health), Health())),
        Family(devices, Labelled(Labelling(), PodsFor(devices, seen.memory), MemoryUsed())),
        Family(devices, Labelled(Labelling(), PodsFor(devices, seen.memory), MemoryTotal())),
        Family(devices, Labelled(Labelling(), PodsFor(devices, seen.utilization), Utilization())),
        Family(devices, StateCells(Labelling(), PodsFor(devices, seen.state))),
        SharingOf(devices, seen.shared))
    }

    ghost function SharingOf(devices: seq<DeviceInfo>, response: Response): Gauge
    {
      if isKubernetes
      then
        var c := Config(nodeName, true);
        Family(devices, Labelled(c, PodsFor(devices, response), Sharing(SharedFor(devices, response))))
      else map[]
    }

    ghost predicate ShowsMemory(devices: seq<DeviceInfo>, response: Response)
      reads memory
    {
      && memory.dramUsed == Family(devices, Labelled(Labelling(), PodsFor(devices, response), MemoryUsed()))
      && memory.dramTotal == Family(devices, Labelled(Labelling(), PodsFor(devices, response), MemoryTotal()))
    }

    /** The two loops over the metrics: one resets them all after a failure, the other resets and
        sets each after a success. */
    method Publish(devices: Result<seq<DeviceInfo>>, kubelet: Kubelet) returns (ghost seen: Seen)
      requires Wired() && mapper.Valid() && Registered()
      modifies mapper, health, memory, utilization, state, shared
      ensures mapper.Valid() && Registered()
      ensures Exposed() == if devices.Ok? then FamiliesOf(devices.value, seen) else NO_FAMILIES
      ensures mapper.replies ==
        if devices.Ok? then AfterAll(old(mapper.replies), kubelet, isKubernetes) else old(mapper.replies)
      ensures devices.Ok? ==> seen == SeenBy(old(mapper.replies), kubelet, isKubernetes)
    {
      if devices.Err? {
        ResetAll();
        seen := Seen([], [], [], [], []);
      } else {
        seen := UpdateAll(devices.value, kubelet);
      }
    }

    method ResetAll()
      requires Registered()
      modifies health, memory, utilization, state, shared
      ensures Registered() && Exposed() == NO_FAMILIES
    {
      health.Reset();
      memory.Reset();
      utilization.Reset();
      state.Reset();
      if isKubernetes {
        shared.Reset();
      }
    }

    method UpdateAll(devices: seq<DeviceInfo>, kubelet: Kubelet) returns (ghost seen: Seen)
      requires Wired() && mapper.Valid() && Registered()
      modifies mapper, health, memory, utilization, state, shared
      ensures mapper.Valid() && Registered()
      ensures Exposed() == FamiliesOf(devices, seen)
      ensures mapper.replies == AfterAll(old(mapper.replies), kubelet, isKubernetes)
      ensures seen == SeenBy(old(mapper.replies), kubelet, isKubernetes)
    {
      ghost var first := UpdateHealth(devices, kubelet.health);
      ghost var second := UpdateMemory(devices, kubelet.memory);
      ghost var third := UpdateUtilization(devices, kubelet.utilization);
      ghost var fourth := UpdateState(devices, kubelet.state);
      ghost var fifth := fourth;
      if isKubernetes {
        fifth := UpdateShared(devices, kubelet.shared);
      }
      seen := Seen(first, second, third, fourth, fifth);
    }

    method UpdateHealth(devices: seq<DeviceInfo>, syncs: seq<Result<Response>>) returns (ghost held: Response)
      requires Wired() && mapper.Valid()
      modifies mapper, health
      ensures mapper.Valid() && mapper.replies == old(mapper.replies) + syncs && held == LastAnswer(mapper.replies)
      ensures health.healthStatus == Family(devices, Labelled(Labelling(), PodsFor(devices, held), Health()))
    {
      RunSyncs(mapper, syncs);
      held := mapper.lastResponse;
      health.Reset();
      health.UpdateMetrics(devices);
    }

    method UpdateMemory(devices: seq<DeviceInfo>, syncs: seq<Result<Response>>) returns (ghost held: Response)
      requires Wired() && mapper.Valid()
      modifies mapper, memory
      ensures mapper.Valid() && mapper.replies == old(mapper.replies) + syncs && held == LastAnswer(mapper.replies)
      ensures ShowsMemory(devices, held)
    {
      RunSyncs(mapper, syncs);
      held := mapper.lastResponse;
      RefreshMemory(devices);
    }

    method RefreshMemory(devices: seq<DeviceInfo>)
      requires Wired() && mapper.Valid()
      modifies memory
      ensures ShowsMemory(devices, mapper.lastResponse)
    {
      NothingBefore(Family(devices, Labelled(Labelling(), PodsFor(devices, mapper.lastResponse), MemoryUsed())));
      NothingBefore(Family(devices, Labelled(Labelling(), PodsFor(devices, mapper.lastResponse), MemoryTotal())));
      memory.Reset();
      memory.UpdateMetrics(devices);
    }

    method UpdateUtilization(devices: seq<DeviceInfo>, syncs: seq<Result<Response>>) returns (ghost held: Response)
      requires Wired() && mapper.Valid()
      modifies mapper, utilization
      ensures mapper.Valid() && mapper.replies == old(mapper.replies) + syncs && held == LastAnswer(mapper.replies)
      ensures utilization.utilization == Family(devices, Labelled(Labelling(), PodsFor(devices, held), Utilization()))
    {
      RunSyncs(mapper, syncs);
      held := mapper.lastResponse;
      utilization.Reset();
      utilization.UpdateMetrics(devices);
    }

    method UpdateState(devices: seq<DeviceInfo>, syncs: seq<Result<Response>>) returns (ghost held: Response)
      requires Wired() && mapper.Valid()
      modifies mapper, state
      ensures mapper.Valid() && mapper.replies == old(mapper.replies) + syncs && held == LastAnswer(mapper.replies)
      ensures state.deviceStatus == Family(devices, StateCells(Labelling(), PodsFor(devices, held)))
    {
      RunSyncs(mapper, syncs);
      held := mapper.lastResponse;
      RefreshState(devices);
    }

    method RefreshState(devices: seq<DeviceInfo>)
      requires Wired() && mapper.Valid()
      modifies state
      ensures state.deviceStatus == Family(devices, StateCells(Labelling(), PodsFor(devices, mapper.lastResponse)))
    {
      NothingBefore(Family(devices, StateCells(Labelling(), PodsFor(devices, mapper.lastResponse))));
      state.Reset();
      state.UpdateMetrics(devices);
    }

    method UpdateShared(devices: seq<DeviceInfo>, syncs: seq<Result<Response>>) returns (ghost held: Response)
      requires Wired() && mapper.Valid()
      modifies mapper, shared
      ensures mapper.Valid() && mapper.replies == old(mapper.replies) + syncs && held == LastAnswer(mapper.replies)
      ensures isKubernetes ==> shared.shared == SharingOf(devices, held)
    {
      RunSyncs(mapper, syncs);
      held := mapper.lastResponse;
      RefreshShared(devices);
    }

    method RefreshShared(devices: seq<DeviceInfo>)
      requires Wired() && mapper.Valid()
      modifies shared
      ensures isKubernetes ==> shared.shared == SharingOf(devices, mapper.lastResponse)
    {
      shared.Reset();
      shared.UpdateMetrics(devices);
    }
  }

  /** Every answer seen was the mapper's last one at some moment of the collection. */
  lemma SeenInCollection(start: seq<Result<Response>>, kubelet: Kubelet, isKubernetes: bool)
    ensures start <= AfterAll(start, kubelet, isKubernetes)
    ensures AllHeldSince(AfterAll(start, kubelet, isKubernetes), |start|, SeenBy(start, kubelet, isKubernetes))
  {
    var all := AfterAll(start, kubelet, isKubernetes);
    HeldLater(start, AfterHealth(start, kubelet), all);
    HeldLater(start, AfterMemory(start, kubelet), all);
    HeldLater(start, AfterUtilization(start, kubelet), all);
    HeldLater(start, AfterState(start, kubelet), all);
    HeldLater(start, all, all);
  }

  lemma HeldLater(start: seq<Result<Response>>, moment: seq<Result<Response>>, now: seq<Result<Response>>)
    requires start <= moment <= now
    ensures HeldSince(now, |start|, LastAnswer(moment))
  {
    assert now[..|moment|] == moment;
  }

  ghost predicate AllHeldSince(replies: seq<Result<Response>>, start: nat, seen: Seen)
  {
    && HeldSince(replies, start, seen.health) && HeldSince(replies, start, seen.memory)
    && HeldSince(replies, start, seen.utilization) && HeldSince(replies, start, seen.state)
    && HeldSince(replies, start, seen.shared)
  }
}
