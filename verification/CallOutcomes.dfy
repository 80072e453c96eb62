/** How a GetDeviceInfo call ends, in terms of what the daemon answered: which API it was served by,
    what the collection ran on, and whose error it returns (internal/daemon/client.go). */
module CallOutcomes {
  import opened Options
  import opened Partition
  import opened Paging
  import opened Listings
  import opened MetricGroups
  import opened GroupReplies
  import opened Client
  import V0 = CollectV0
  import V1 = CollectV1

  // ---------------------------------------------------------------------------------------
  // v1
  // ---------------------------------------------------------------------------------------

  ghost predicate ReadsDevices(v1: V1.V1Daemon, s: V1.Source)
  {
    exists passed, last :: Completes(v1.inventory, passed, last) && s.entries == Collected(passed + [last])
  }

  ghost predicate ReadsTopology(v1: V1.V1Daemon, s: V1.Source)
  {
    exists passed, last :: Completes(v1.topology, passed, last)
      && s.topologies == Topologies(passed + [last]) && s.topologyFailures == Failures(passed + [last])
  }

  ghost predicate GroupEnds(v1: V1.V1Daemon, options: ClientOptions, stage: Stage)
  {
    exists reply :: LastReturns(v1.groups, options.metricGroupID, options.createMetricGroup, reply)
      && EndsOn(reply, options.metricGroupID, stage)
  }

  /** An error that is not about the device, of a query for what the listing left out. */
  predicate CannotDescribe(s: V1.Source, i: nat, code: Code)
    requires i < |s.entries|
  {
    && code != NotFound && code != FailedPrecondition
    && (|| (s.entries[i].versions.None? && s.version(i) == Err(code))
        || (&& !(s.entries[i].versions.None? && IsFatal(s.version(i)))
            && s.entries[i].memory.None? && s.entries[i].npuId.Some? && s.memory(i) == Err(code)))
  }

  predicate IsFatal<T>(reply: Result<T>)
  {
    reply.Err? && reply.code != NotFound && reply.code != FailedPrecondition
  }

  /** The first device, of those no foreign driver holds, that cannot be described. */
  ghost predicate FirstUndescribed(s: V1.Source, i: nat, code: Code)
  {
    && i < |s.entries| && !ForeignDriver(s.entries[i].pciBusId, s.host(i)) && CannotDescribe(s, i, code)
    && forall j, other :: 0 <= j < i && !ForeignDriver(s.entries[j].pciBusId, s.host(j)) ==>
         !CannotDescribe(s, j, other)
  }

  /** The first step of the v1 collection that does not succeed has this error. */
  ghost predicate V1Fails(v1: V1.V1Daemon, options: ClientOptions, s: V1.Source, code: Code)
  {
    || BreaksOff(v1.inventory, code)
    || (&& ReadsDevices(v1, s)
        && (|| BreaksOff(v1.topology, code)
            || (ReadsTopology(v1, s) && (SamplingFails(v1, options, s, code) || LoopFails(v1, options, s, code)))))
  }

  ghost predicate SamplingFails(v1: V1.V1Daemon, options: ClientOptions, s: V1.Source, code: Code)
  {
    && s.entries != []
    && (GroupEnds(v1, options, Refused(code)) || (GroupEnds(v1, options, Ready) && v1.sample == Err(code)))
  }

  ghost predicate LoopFails(v1: V1.V1Daemon, options: ClientOptions, s: V1.Source, code: Code)
  {
    && s.entries != [] && GroupEnds(v1, options, Ready) && v1.sample.Ok?
    && s.host == v1.host && s.version == v1.version && s.memory == v1.memory
    && exists i :: FirstUndescribed(s, i, code)
  }

  lemma ListedIsRead(v1: V1.V1Daemon, s: V1.Source)
    ensures V1.ListsDevices(v1, s.entries) ==> ReadsDevices(v1, s)
    ensures V1.ListsTopology(v1, s.topologies, s.topologyFailures) ==> ReadsTopology(v1, s)
  {
    if pages :| Walk(v1.inventory, pages, Finished) && s.entries == Collected(pages) {
      var passed, last := LastPage(v1.inventory, pages, Finished);
    }
    if V1.ListsTopology(v1, s.topologies, s.topologyFailures) {
      var pages :| Walk(v1.topology, pages, Finished)
        && s.topologies == Topologies(pages) && s.topologyFailures == Failures(pages);
      var passed, last := LastPage(v1.topology, pages, Finished);
    }
  }

  lemma ListingBreaksOff<T(!new)>(daemon: Daemon<T>, code: Code)
    requires V1.ListingFails(daemon, code)
    ensures BreaksOff(daemon, code)
  {
    var pages, ending :| Walk(daemon, pages, ending) && Outcome(pages, ending, ()) == Err(code);
    if ending.Failed? {
      RepliesAreReceived(daemon, pages);
      assert Breaks(daemon, pages, ending.code);
    } else {
      var passed, last := LastPage(daemon, pages, ending);
    }
  }

  lemma LoopBreaksOff(s: V1.Source, code: Code)
    requires V1.LoopAborts(s, code)
    ensures s.entries != [] && exists i :: FirstUndescribed(s, i, code)
  {
    var i :| 0 <= i < |s.entries| && s.FirstAbort(i) && s.Abort(i) == Some(code);
    AbortIsUndescribed(s, i, code);
    forall j, other | 0 <= j < i && !ForeignDriver(s.entries[j].pciBusId, s.host(j))
      ensures !CannotDescribe(s, j, other)
    {
      AbortIsUndescribed(s, j, other);
      assert !s.Skipped(j);
    }
    assert FirstUndescribed(s, i, code);
  }

  lemma AbortIsUndescribed(s: V1.Source, i: nat, code: Code)
    requires i < |s.entries|
    ensures s.Abort(i) == Some(code) <==> CannotDescribe(s, i, code)
  {
  }

  /** A v1 collection that fails has the error of the first step that did not succeed. */
  lemma FailureIsFirstOfV1(v1: V1.V1Daemon, options: ClientOptions, s: V1.Source, code: Code)
    requires V1.Gives(v1, options.metricGroupID, options.createMetricGroup, s, Err(code))
    ensures V1Fails(v1, options, s, code)
  {
    var phase :| V1.EndsAt(v1, options.metricGroupID, options.createMetricGroup, s, phase, Err(code));
    ListedIsRead(v1, s);
    match phase
    case AtDevices => ListingBreaksOff(v1.inventory, code);
    case AtTopology => ListingBreaksOff(v1.topology, code);
    case AtGroup => EndsAsLastReturned(v1.groups, options.metricGroupID, options.createMetricGroup, Refused(code));
    case AtSamples => EndsAsLastReturned(v1.groups, options.metricGroupID, options.createMetricGroup, Ready);
    case AtLoop =>
      LoopBreaksOff(s, code);
      EndsAsLastReturned(v1.groups, options.metricGroupID, options.createMetricGroup, Ready);
  }

  /** A v1 collection that succeeds has read both listings to their end, and the loop ran on them,
      on this call's samples and on this host. */
  lemma SuccessIsCompleteOverV1(options: ClientOptions, c: Call)
    requires Explained(options, c) && c.result.Ok? && c.origin.OverV1?
    ensures var v1, s := c.answers.v1, c.source;
      && ReadsDevices(v1, s) && ReadsTopology(v1, s)
      && s.host == v1.host && s.version == v1.version && s.memory == v1.memory
      && (s.entries == [] ==> c.missing == s.missing == {})
      && (s.entries != [] ==>
            && GroupEnds(v1, options, Ready) && v1.sample.Ok? && s.samples == v1.sample.value.samples
            && c.missing == s.missing
            && forall name :: name in s.missing <==> name in v1.sample.value.unreachable)
    ensures forall i, code :: 0 <= i < |c.source.entries| ==> !FirstUndescribed(c.source, i, code)
  {
    var v1, s := c.answers.v1, c.source;
    ListedIsRead(v1, s);
    if s.entries != [] {
      EndsAsLastReturned(v1.groups, options.metricGroupID, options.createMetricGroup, Ready);
    }
    forall i, code | 0 <= i < |s.entries| && !ForeignDriver(s.entries[i].pciBusId, s.host(i))
      ensures !CannotDescribe(s, i, code)
    {
      AbortIsUndescribed(s, i, code);
      assert !s.Skipped(i);
    }
  }

  // ---------------------------------------------------------------------------------------
  // v0
  // ---------------------------------------------------------------------------------------

  predicate StreamFails<T>(stream: V0.Stream<T>, code: Code)
  {
    stream == V0.NotOpened(code) || (stream.Stream? && stream.error == Some(code))
  }

  predicate StreamEnds<T>(stream: V0.Stream<T>)
  {
    stream.Stream? && stream.error.None?
  }

  /** The first version query, of a device no foreign driver holds, that fails with anything but
      "not implemented" or an error about the device. */
  ghost predicate FirstUnversioned(v0: V0.V0Daemon, s: V0.Source, i: nat, code: Code)
  {
    && i < |s.input.devices| && !ForeignDriver(s.input.devices[i].pciBusId, s.Host(i))
    && v0.version(i) == Err(code) && IsFatal(v0.version(i)) && code != Unimplemented
    && forall j :: 0 <= j < i && !ForeignDriver(s.input.devices[j].pciBusId, s.Host(j)) ==>
         !IsFatal(v0.version(j)) || v0.version(j) == Err(Unimplemented)
  }

  ghost predicate V0Fails(v0: V0.V0Daemon, code: Code)
  {
    || StreamFails(v0.devices, code)
    || (&& StreamEnds(v0.devices)
        && (|| StreamFails(v0.infos, code)
            || (&& StreamEnds(v0.infos)
                && (|| (v0.topology == Err(code) && code != Unimplemented)
                    || (&& (v0.topology.Ok? || v0.topology == Err(Unimplemented)) && v0.Listed()
                        && exists i :: FirstUnversioned(v0, v0.AsSource(), i, code))))))
  }

  lemma FailureIsFirstOfV0(v0: V0.V0Daemon, code: Code)
    requires v0.Gives(Err(code))
    ensures V0Fails(v0, code)
  {
    if v0.Listed() {
      var s := v0.AsSource();
      var i :| 0 <= i < |s.input.devices| && s.FirstAbort(i) && s.version(i) == Err(code);
      forall j | 0 <= j < i && !ForeignDriver(s.input.devices[j].pciBusId, s.Host(j))
        ensures !IsFatal(v0.version(j)) || v0.version(j) == Err(Unimplemented)
      {
        assert !s.Skipped(j);
      }
      assert FirstUnversioned(v0, s, i, code);
    }
  }

  /** What a v0 collection runs on: all records of streams that ended well, and no topology from a
      daemon that does not implement it. Without telemetry are exactly the names of devices, held
      by no foreign driver, that have no record. */
  lemma SuccessIsCompleteOverV0(options: ClientOptions, c: Call)
    requires Explained(options, c) && c.result.Ok? && c.origin.OverV0?
    ensures var v0 := c.answers.v0;
      && StreamEnds(v0.devices) && StreamEnds(v0.infos) && (v0.topology.Ok? || v0.topology == Err(Unimplemented))
      && var s := v0.AsSource();
         && s.input.devices == V0.Named(v0.devices.records) && s.infos == V0.InfoTable(v0.infos.records)
         && s.input.sysfs == v0.sysfs && s.input.physfn == v0.physfn
         && s.host == v0.host && s.version == v0.version
         && (v0.topology.Ok? ==>
               s.topology == V0.TopologyTable(v0.topology.value)
               && s.failedTopology == V0.FailedTopology(v0.topology.value))
         && (v0.topology.Err? ==> s.topology == map[] && s.failedTopology == {})
         && (forall name :: name in c.missing <==> Untold(s, name))
         && (forall i, code :: 0 <= i < |s.input.devices| ==> !FirstUnversioned(v0, s, i, code))
  {
    var s := c.answers.v0.AsSource();
    forall i | 0 <= i < |s.input.devices| && !ForeignDriver(s.input.devices[i].pciBusId, s.Host(i))
      ensures !IsFatal(s.version(i)) || s.version(i) == Err(Unimplemented)
    {
      assert !s.Skipped(i);
    }
    forall name ensures name in s.MissingNames(|s.input.devices|) <==> Untold(s, name) {
      if name in s.MissingNames(|s.input.devices|) {
        var i :| 0 <= i < |s.input.devices| && !s.Skipped(i) && s.input.devices[i].name !in s.infos
          && s.input.devices[i].name == name;
      }
    }
  }

  ghost predicate Untold(s: V0.Source, name: string)
  {
    && name !in s.infos
    && exists i :: 0 <= i < |s.input.devices| && s.input.devices[i].name == name
         && !ForeignDriver(s.input.devices[i].pciBusId, s.Host(i))
  }

  // ---------------------------------------------------------------------------------------
  // The call
  // ---------------------------------------------------------------------------------------

  /** A call is served over v0 only if the first v1 step that does not succeed is not implemented,
      and then its error is that of v0. Every other v1 error is the call's own. */
  lemma FallsBackOnUnimplementedAlone(options: ClientOptions, c: Call)
    requires Explained(options, c)
    ensures c.result.Ok? && c.origin.OverV0? ==> V1Fails(c.answers.v1, options, c.source, Unimplemented)
    ensures c.result.Err? ==>
      || (c.result.code != Unimplemented && V1Fails(c.answers.v1, options, c.source, c.result.code))
      || (V1Fails(c.answers.v1, options, c.source, Unimplemented) && V0Fails(c.answers.v0, c.result.code))
  {
    if c.result.Ok? && c.origin.OverV0? {
      FailureIsFirstOfV1(c.answers.v1, options, c.source, Unimplemented);
    }
    if c.result.Err? {
      var code := c.result.code;
      if code != Unimplemented && V1Gives(c.answers, options, c.source, Err(code)) {
        FailureIsFirstOfV1(c.answers.v1, options, c.source, code);
      } else {
        FailureIsFirstOfV1(c.answers.v1, options, c.source, Unimplemented);
        FailureIsFirstOfV0(c.answers.v0, code);
      }
    }
  }
}
