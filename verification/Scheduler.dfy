/** The collection loop (internal/scheduler/scheduler.go): what holds at every cycle boundary,
    whatever the daemon, kubelet and the clock answer. */
module Scheduler {
  import opened Options
  import opened Devices
  import opened PodResources
  import opened PodMapper
  import opened MetricList
  import opened NpuCollector
  import opened Client
  import opened SchedulerRuns
  import V1 = CollectV1

  class Scheduler {
    const collector: NPUCollector
    const mapper: PodResourceMapper
    var up: real
    var consecutiveFailures: nat
    var collectedOnce: bool
    /** 0 is the zero time. */
    var waitStart: int
    ghost var cycles: Run
    ghost var log: seq<SchedulerRuns.Record>
    /** The devices of the last successful cycle and the answers its metrics read. */
    ghost var devices: seq<DeviceInfo>
    ghost var seen: Seen

    /** The counters and the log are what the cycles so far call for. */
    ghost predicate Tracks()
      reads this
    {
      && consecutiveFailures == Streak(cycles) && collectedOnce == Succeeded(cycles)
      && waitStart == WaitStart(cycles) && log == LogOf(cycles)
    }

    ghost predicate Parts()
      reads collector.client, mapper, collector.metrics.shared
    {
      && collector.metrics.mapper == mapper && collector.metrics.Wired() && collector.metrics.Registered()
      && collector.client.Valid() && mapper.Valid()
    }

    /** Either the up gauge is 0 and there is no device series, or it is 1 and every family is what
        the devices of the last cycle call for. */
    ghost predicate Published()
      reads this
      reads collector.metrics.health, collector.metrics.memory, collector.metrics.utilization
      reads collector.metrics.state, collector.metrics.shared
    {
      && (up == 0.0 || up == 1.0)
      && collector.metrics.Exposed() == if up == 1.0 then collector.metrics.FamiliesOf(devices, seen) else NO_FAMILIES
    }

    /** After a successful cycle the mapper has received kubelet's replies of the cycle, and the
        families rest on the answers that these made the last ones; a failed cycle reads none. */
    ghost predicate Fed(earlier: seq<Result<Response>>, kubelet: Kubelet, call: Call)
      reads this, mapper
    {
      var inKubernetes := collector.metrics.isKubernetes;
      if call.result.Ok?
      then mapper.replies == AfterAll(earlier, kubelet, inKubernetes) && seen == SeenBy(earlier, kubelet, inKubernetes)
      else mapper.replies == earlier
    }

    constructor (mapper: PodResourceMapper, collector: NPUCollector)
      requires collector.metrics.mapper == mapper && collector.metrics.Wired() && collector.metrics.Registered()
      requires collector.metrics.Exposed() == NO_FAMILIES
      requires collector.client.Valid() && mapper.Valid()
      ensures this.mapper == mapper && this.collector == collector
      ensures Tracks() && Parts() && Published() && cycles == []
      ensures up == 0.0
    {
      this.mapper, this.collector := mapper, collector;
      up, consecutiveFailures, collectedOnce, waitStart := 0.0, 0, false, 0;
      cycles, log, devices, seen := [], [], [], Seen([], [], [], [], []);
    }

    method RunOnce(a: Answers, kubelet: Kubelet, ghost tokens: set<string>)
      returns (result: Result<()>, ghost call: Call)
      requires Parts() && V1.AllTokensIn(a.v1, tokens)
      modifies this`up, this`devices, this`seen, collector.client, mapper
      modifies collector.metrics.health, collector.metrics.memory, collector.metrics.utilization
      modifies collector.metrics.state, collector.metrics.shared
      ensures Parts() && Published()
      ensures collector.client.calls == old(collector.client.calls) + [call] && call.answers == a
      ensures Fed(old(mapper.replies), kubelet, call)
      ensures up == if call.result.Ok? then 1.0 else 0.0
      ensures if call.result.Ok? then result.Ok? && devices == call.result.value else result == Err(call.result.code)
    {
      mapper.TriggerSync();
      result, call := GetMetrics(a, kubelet, tokens);
      if result.Err? {
        up := 0.0;
      } else {
        up := 1.0;
      }
    }

    /** The loop over the collectors, of which there is one. */
    method GetMetrics(a: Answers, kubelet: Kubelet, ghost tokens: set<string>)
      returns (result: Result<()>, ghost call: Call)
      requires Parts() && V1.AllTokensIn(a.v1, tokens)
      modifies this`devices, this`seen, collector.client, mapper
      modifies collector.metrics.health, collector.metrics.memory, collector.metrics.utilization
      modifies collector.metrics.state, collector.metrics.shared
      ensures Parts()
      ensures collector.client.calls == old(collector.client.calls) + [call] && call.answers == a
      ensures Fed(old(mapper.replies), kubelet, call)
      ensures if call.result.Ok? then result.Ok? && devices == call.result.value else result == Err(call.result.code)
      ensures collector.metrics.Exposed() ==
        if call.result.Ok? then collector.metrics.FamiliesOf(devices, seen) else NO_FAMILIES
    {
      ghost var q;
      result, call, q := collector.GetMetrics(a, kubelet, tokens);
      if result.Ok? {
        devices, seen := call.result.value, q;
      }
    }

    /** At every cycle boundary: the gauge is 1 exactly when the cycle's call succeeded, and then
        the families are those of the devices it returned. */
    method RunCycle(a: Answers, kubelet: Kubelet, now: int, ghost tokens: set<string>) returns (ghost call: Call)
      requires Tracks() && Parts() && V1.AllTokensIn(a.v1, tokens)
      modifies this, collector.client, mapper
      modifies collector.metrics.health, collector.metrics.memory, collector.metrics.utilization
      modifies collector.metrics.state, collector.metrics.shared
      ensures Tracks() && Parts() && Published()
      ensures collector.client.calls == old(collector.client.calls) + [call] && call.answers == a
      ensures Fed(old(mapper.replies), kubelet, call)
      ensures cycles == old(cycles) + [Cycle(call.result.Ok?, now)]
      ensures up == if call.result.Ok? then 1.0 else 0.0
      ensures call.result.Ok? ==> devices == call.result.value
    {
      var result;
      result, call := RunOnce(a, kubelet, tokens);
      Account(result.Ok?, now);
    }

    /** The rest of runCycle: counters and records. */
    method Account(ok: bool, now: int)
      requires Tracks()
      modifies this`consecutiveFailures, this`collectedOnce, this`waitStart, this`cycles, this`log
      ensures Tracks() && cycles == old(cycles) + [Cycle(ok, now)]
    {
      ghost var c := Cycle(ok, now);
      LogStep(cycles, c);
      cycles := cycles + [c];
      if !ok {
        if !collectedOnce {
          LogWaiting(now);
          return;
        }
        consecutiveFailures := consecutiveFailures + 1;
        log := log + [CollectionFailed(consecutiveFailures)];
        return;
      }
      collectedOnce := true;
      if consecutiveFailures > 0 {
        log := log + [CollectionRecovered(consecutiveFailures)];
        consecutiveFailures := 0;
      }
    }

    method LogWaiting(now: int)
      modifies this`waitStart, this`log
      ensures waitStart == if old(waitStart) == 0 then now else old(waitStart)
      ensures log == old(log) + [Waiting(now - waitStart >= DAEMON_WAIT_WARN_AFTER)]
    {
      if waitStart == 0 {
        waitStart := now;
      }
      var waited := now - waitStart;
      if waited >= DAEMON_WAIT_WARN_AFTER {
        log := log + [Waiting(true)];
        return;
      }
      log := log + [Waiting(false)];
    }
  }
}
