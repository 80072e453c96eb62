/** What the series of one collection prove about the host, from the call that the collection made
    to the families it left (the composition of internal/daemon/client.go with
    internal/collector/kubernetes.go and npu_collector.go). */
module EndToEnd {
  import opened Options
  import opened Devices
  import opened Inventory
  import opened InOrder
  import opened Partition
  import opened PodResources
  import opened Exposition
  import opened V0Records
  import opened VfAttribution
  import opened DoubleCounting
  import opened MetricList
  import opened Client
  import opened Text
  import opened Paging
  import opened MetricGroups
  import opened GroupReplies
  import V0 = CollectV0
  import V1 = CollectV1

  /** A device after the state lookup is one listed before it, but for what the lookup may change. */
  lemma BeforeLookup(listed: seq<DeviceInfo>, lookup: Lookup, d: DeviceInfo) returns (b: DeviceInfo)
    requires d in SupplementedAll(listed, lookup)
    ensures b in listed && Refines(b, d)
  {
    var j :| 0 <= j < |listed| && SupplementedAll(listed, lookup)[j] == d;
    b := listed[j];
    SupplementedRefines(b, lookup);
  }

  lemma AfterLookup(listed: seq<DeviceInfo>, lookup: Lookup, b: DeviceInfo) returns (d: DeviceInfo)
    requires b in listed
    ensures d in SupplementedAll(listed, lookup) && Refines(b, d)
  {
    var j :| 0 <= j < |listed| && listed[j] == b;
    d := Supplemented(b, lookup);
    assert SupplementedAll(listed, lookup)[j] == d;
    SupplementedRefines(b, lookup);
  }

  // ---------------------------------------------------------------------------------------
  // Vetting
  // ---------------------------------------------------------------------------------------

  /** Whatever a successful v1 call exports rests on a group with the configured id, the exporter's
      metrics, all-device scope and on-demand policy that the daemon returned in this very call. */
  lemma ExportsNeedVettedGroup(options: ClientOptions, call: Call)
    requires Explained(options, call) && call.result.Ok? && call.origin.OverV1?
    ensures call.result.value != [] ==> call.sampled && exists g ::
      ReturnedGroup(call.answers.v1.groups, options, g) && MaySample(g, options.metricGroupID)
  {
    if call.result.value != [] {
      SampledIfExported(options, call, call.result.value[0]);
      VettedWasReturned(call.answers.v1.groups, options);
    }
  }

  lemma SampledIfExported(options: ClientOptions, call: Call, d: DeviceInfo)
    requires Explained(options, call) && call.result.Ok? && call.origin.OverV1? && d in call.result.value
    ensures call.sampled
    ensures V1.GroupWasVetted(call.answers.v1.groups, options.metricGroupID, options.createMetricGroup)
  {
    var s := call.source;
    var b := BeforeLookup(call.origin.listed, call.answers.lookup, d);
    var i := PositionOf(|s.entries|, s.SkippedAt(), s.ExportAt(), call.origin.listed, b);
  }

  /** The last RPC of the vetting returned the group. */
  ghost predicate ReturnedGroup(service: GroupService, options: ClientOptions, g: MetricGroup)
  {
    LastReturns(service, options.metricGroupID, options.createMetricGroup, Ok(Some(g)))
  }

  lemma VettedWasReturned(service: GroupService, options: ClientOptions)
    requires V1.GroupWasVetted(service, options.metricGroupID, options.createMetricGroup)
    ensures exists g :: ReturnedGroup(service, options, g) && MaySample(g, options.metricGroupID)
  {
    EndsAsLastReturned(service, options.metricGroupID, options.createMetricGroup, Ready);
    var reply :| LastReturns(service, options.metricGroupID, options.createMetricGroup, reply)
      && EndsOn(reply, options.metricGroupID, Ready);
    assert ReturnedGroup(service, options, reply.value.value);
  }

  // ---------------------------------------------------------------------------------------
  // Pod labels
  // ---------------------------------------------------------------------------------------

  /** The inventory of this very call, and what sysfs answered when it came to the VF's entry, show
      its profile. */
  ghost predicate ProfileSeen(call: Call, d: DeviceInfo)
  {
    match call.origin
    case OverV1(_) =>
      exists i :: 0 <= i < |call.source.entries| && call.source.entries[i].name == d.name
        && LiveProfile(d.pciBusID, d.parentName, call.source.entries, call.source.host(i), ProfileCount(d))
    case OverV0 =>
      && call.answers.v0.Listed()
      && var s := call.answers.v0.AsSource();
         exists i :: 0 <= i < |s.input.devices| && s.input.devices[i].name == d.name
           && LiveProfile(d.pciBusID, d.parentName, s.Entries(), s.Host(i), ProfileCount(d))
  }

  /** A pod label on a series of a VF proves that its profile was seen in the same call, over
      either API and whatever the state lookup did, and that the pod's allocation names that
      profile. */
  lemma LabelIsCurrent(options: ClientOptions, call: Call, response: Response, name: string) returns (d: DeviceInfo)
    requires Explained(options, call) && call.result.Ok?
    requires name in PodsFor(call.result.value, response)
    ensures d in call.result.value && d.name == name && d.compute
    ensures d.isVF ==> ProfileSeen(call, d) && AllocatedAs(response, PodsFor(call.result.value, response)[name], d)
  {
    d := WinnerHasClaim(call.result.value, response, name);
    if d.isVF {
      ProfileWasSeen(options, call, d);
    }
  }

  lemma ProfileWasSeen(options: ClientOptions, call: Call, d: DeviceInfo)
    requires Explained(options, call) && call.result.Ok?
    requires d in call.result.value && d.isVF && HasProfile(d)
    ensures ProfileSeen(call, d)
  {
    match call.origin
    case OverV1(listed) =>
      var s := call.source;
      var b := BeforeLookup(listed, call.answers.lookup, d);
      var i := PositionOf(|s.entries|, s.SkippedAt(), s.ExportAt(), listed, b);
      ProfileIsLiveOnV1(s, i, b);
    case OverV0 =>
      var s := call.answers.v0.AsSource();
      var i := PositionOf(|s.input.devices|, s.SkippedAt(), s.ExportAt(), call.result.value, d);
      ProfileIsLiveOnV0(s, i, d);
  }

  // ---------------------------------------------------------------------------------------
  // Double counting
  // ---------------------------------------------------------------------------------------

  /** After a call over v1 a name is left out of the memory and utilization families exactly when
      no listed, non-foreign entry of the name counts. The state lookup makes no difference. */
  lemma CountedOnV1(options: ClientOptions, call: Call, metrics: MetricList, seen: Seen, name: string)
    requires Explained(options, call) && call.result.Ok? && call.origin.OverV1?
    ensures NotCounted(metrics.FamiliesOf(call.result.value, seen), name) <==> !SomeEntryCounts(call.source, name)
  {
    var listed, out := call.origin.listed, call.result.value;
    NotCountedIff(metrics, out, seen, name);
    ContributorsOnV1(call.source, listed, name);
    LookupKeepsContributors(listed, call.answers.lookup, name);
  }

  lemma LookupKeepsContributors(listed: seq<DeviceInfo>, lookup: Lookup, name: string)
    ensures SomeContributor(SupplementedAll(listed, lookup), name) <==> SomeContributor(listed, name)
  {
    if d :| d in SupplementedAll(listed, lookup) && d.name == name && Contributes(d) {
      var b := BeforeLookup(listed, lookup, d);
    }
    if b :| b in listed && b.name == name && Contributes(b) {
      var d := AfterLookup(listed, lookup, b);
    }
  }

  /** After a call over v0 a name is left out exactly when no record of the name, not held by a
      foreign driver, counts. */
  lemma CountedOnV0(options: ClientOptions, call: Call, metrics: MetricList, seen: Seen, name: string)
    requires Explained(options, call) && call.result.Ok? && call.origin.OverV0?
    ensures NotCounted(metrics.FamiliesOf(call.result.value, seen), name) <==>
      !SomeRecordCounts(call.answers.v0.AsSource(), name)
  {
    NotCountedIff(metrics, call.result.value, seen, name);
    ContributorsOnV0(call.answers.v0.AsSource(), call.result.value, name);
  }

  /** After a call over v0 the parent of an exported VF is left out, without condition. */
  lemma ParentsNotCountedOnV0(options: ClientOptions, call: Call, metrics: MetricList, seen: Seen, v: DeviceInfo)
    requires Explained(options, call) && call.result.Ok? && call.origin.OverV0?
    requires v in call.result.value && v.isVF && v.parentName != ""
    ensures NotCounted(metrics.FamiliesOf(call.result.value, seen), v.parentName)
  {
    ParentsDoNotContributeOnV0(call.answers.v0.AsSource(), call.result.value, v);
    NotCountedIff(metrics, call.result.value, seen, v.parentName);
  }

  // ---------------------------------------------------------------------------------------
  // A call over v1 that counts twice
  // ---------------------------------------------------------------------------------------

  /** A daemon that answers every request with one page. */
  function OnePage<T>(items: seq<T>): Daemon<T>
  {
    (k: nat, token: string) => Ok(Page(items, [], ""))
  }

  lemma OnePageWalk<T>(items: seq<T>)
    ensures Walk(OnePage(items), [Page(items, [], "")], Finished)
  {
    assert IsReply(OnePage(items), [Page(items, [], "")], 0);
    assert [Page(items, [], "")][..0] == [];
  }

  /** It lists the exporter's own group, and a usable function with a usable VF of it. */
  ghost function ParentAndVfDaemon(): V1.V1Daemon
  {
    var s := ParentAndVf();
    V1.V1Daemon(
      OnePage(s.entries), OnePage([]),
      GroupService(OnePage([Requested("g")]), Err(OtherCode), OnePage([])),
      Ok(V1.SampleReply([], [])), s.host, s.version, s.memory)
  }

  lemma GroupIsVetted()
    ensures V1.GroupWasVetted(ParentAndVfDaemon().groups, "g", false)
  {
    var g, groups := Requested("g"), ParentAndVfDaemon().groups;
    var pages := [Page([g], [], "")];
    OnePageWalk([g]);
    assert pages[..0] == [];
    assert g in pages[0].items && Lists(pages[0], "g");
    assert pages[0].items[0] == g && IsFirstWith(pages[0].items, "g", g);
    assert Stops(groups.first, "g", pages, Mentioned) && Concludes("g", pages, Mentioned, Ok(Some(g)));
    assert CallEndsWith(groups, "g", false, Ok(Some(g)), Ok(None), Ready);
  }

  lemma ParentAndVfAreListed()
    ensures V1.Listed(ParentAndVfDaemon(), ParentAndVf())
  {
    var e := ParentAndVf().entries;
    OnePageWalk(e);
    OnePageWalk<TopologyEntry>([]);
    var page := Page(e, [], "");
    assert Elements<string>([]) == {};
    assert e[..1] == [e[0]] && e[..1][..0] == [] && Usable(e[..1], {}) == [e[0]];
    assert Usable(e, {}) == e;
    var noPages: seq<Page<Entry>> := [];
    assert [page][..0] == noPages && Collected([page]) == e;
    var none: Page<TopologyEntry> := Page([], [], "");
    var noTopology: seq<Page<TopologyEntry>> := [];
    FailuresGrow(noTopology, none);
    assert noTopology + [none] == [none] && Failures(noTopology) == {};
    assert [none][..0] == noTopology && Topologies([none]) == map[];
  }

  lemma ParentAndVfAreGiven()
    ensures V1.Gives(ParentAndVfDaemon(), "g", false, ParentAndVf(), Ok((ParentAndVfDevices(), {})))
  {
    GroupIsVetted();
    ParentAndVfAreListed();
    BothAreExported();
    assert Elements<string>([]) == {};
    assert V1.IsSource(ParentAndVfDaemon(), "g", false, ParentAndVf());
    assert V1.EndsAt(ParentAndVfDaemon(), "g", false, ParentAndVf(), V1.AtLoop, Ok((ParentAndVfDevices(), {})));
  }

  /** A call against it, whatever v0 would answer; the state lookup is not implemented. */
  ghost function ParentAndVfCall(v0: V0.V0Daemon): Call
  {
    Call(
      Answers(ParentAndVfDaemon(), v0, V0.NotOpened(Unimplemented)), Ok(ParentAndVfDevices()),
      true, OverV1(ParentAndVfDevices()), ParentAndVf(), {})
  }

  lemma ParentAndVfAreExplained(v0: V0.V0Daemon)
    ensures Explained(ClientOptions("g", false), ParentAndVfCall(v0))
  {
    GroupIsVetted();
    ParentAndVfAreGiven();
    NothingToSupplement(ParentAndVfDevices(), V0.NotOpened(Unimplemented));
  }

  /** The answers of this call account for its result, and in the families set from it both the VF
      and its parent are counted. */
  lemma BothAreCounted(v0: V0.V0Daemon, metrics: MetricList, seen: Seen)
    ensures var call := ParentAndVfCall(v0);
      && Explained(ClientOptions("g", false), call) && call.result.Ok?
      && call.source.entries == [UsableEntry("p", "", false, ""), UsableEntry("v", "", true, "p")]
      && !NotCounted(metrics.FamiliesOf(call.result.value, seen), "p")
      && !NotCounted(metrics.FamiliesOf(call.result.value, seen), "v")
  {
    var options, call := ClientOptions("g", false), ParentAndVfCall(v0);
    ParentAndVfAreExplained(v0);
    CountedOnV1(options, call, metrics, seen, "p");
    CountedOnV1(options, call, metrics, seen, "v");
    BothCount();
  }
}
