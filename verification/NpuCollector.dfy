/** One collection end to end: the daemon is read once, then every metric is reset and set anew
    (internal/collector/npu_collector.go). */
module NpuCollector {
  import opened Options
  import opened Devices
  import opened PodMapper
  import opened MetricList
  import opened Client
  import V1 = CollectV1

  class NPUCollector {
    const client: Client
    const metrics: MetricList

    constructor (client: Client, mapper: PodResourceMapper, isKubernetes: bool, nodeName: string)
      ensures metrics.Wired() && metrics.Registered() && metrics.Exposed() == NO_FAMILIES && fresh(metrics)
      ensures this.client == client && metrics.mapper == mapper
      ensures metrics.isKubernetes == isKubernetes && metrics.nodeName == nodeName
    {
      this.client := client;
      metrics := new MetricList(mapper, isKubernetes, nodeName);
    }

    method Read(a: Answers, ghost tokens: set<string>) returns (result: Result<seq<DeviceInfo>>, ghost call: Call)
      requires client.Valid() && V1.AllTokensIn(a.v1, tokens)
      modifies client
      ensures client.Valid() && client.calls == old(client.calls) + [call]
      ensures call.result == result && call.answers == a
    {
      result, call := client.GetDeviceInfo(a, tokens);
    }

    /** A failed collection leaves no series, a successful one exactly its own. */
    method GetMetrics(a: Answers, kubelet: Kubelet, ghost tokens: set<string>)
      returns (result: Result<()>, ghost call: Call, ghost seen: Seen)
      requires metrics.Wired() && metrics.Registered()
      requires client.Valid() && metrics.mapper.Valid() && V1.AllTokensIn(a.v1, tokens)
      modifies client, metrics.mapper
      modifies metrics.health, metrics.memory, metrics.utilization, metrics.state, metrics.shared
      ensures client.Valid() && metrics.mapper.Valid() && metrics.Registered()
      ensures client.calls == old(client.calls) + [call] && call.answers == a
      ensures if call.result.Ok? then result.Ok? else result == Err(call.result.code)
      ensures metrics.Exposed() == if call.result.Ok? then metrics.FamiliesOf(call.result.value, seen) else NO_FAMILIES
      ensures metrics.mapper.replies ==
        if call.result.Ok? then AfterAll(old(metrics.mapper.replies), kubelet, metrics.isKubernetes)
        else old(metrics.mapper.replies)
      ensures call.result.Ok? ==> seen == SeenBy(old(metrics.mapper.replies), kubelet, metrics.isKubernetes)
    {
      var r;
      r, call := Read(a, tokens);
      seen := metrics.Publish(r, kubelet);
      result := if r.Ok? then Ok(()) else Err(r.code);
    }
  }
}
