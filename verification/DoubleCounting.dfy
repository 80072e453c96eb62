/** Memory and utilization are exported for a hosting physical function or for its virtual
    functions: which collections guarantee that it is never for both
    (internal/daemon/legacy.go, client.go, partition.go and the gate of memory_metrics.go). */
module DoubleCounting {
  import opened Options
  import opened Decimal
  import opened Sysfs
  import opened Devices
  import opened Inventory
  import opened Partition
  import opened InOrder
  import opened PodResources
  import opened Series
  import opened Exposition
  import opened MetricList
  import S = Samples
  import V0 = CollectV0
  import V1 = CollectV1

  // ---------------------------------------------------------------------------------------
  // From series to devices
  // ---------------------------------------------------------------------------------------

  ghost predicate NoSeries(family: Gauge, name: string)
  {
    forall labels :: labels in family ==> Name in labels && labels[Name] != name
  }

  /** No memory or utilization series carries the name. */
  ghost predicate NotCounted(f: Families, name: string)
  {
    NoSeries(f.dramUsed, name) && NoSeries(f.dramTotal, name) && NoSeries(f.utilization, name)
  }

  /** The device is exported in some of these families. */
  predicate Contributes(d: DeviceInfo)
  {
    d.compute && (d.memoryUsedBytes.Some? || d.memoryTotalBytes.Some? || d.utilization.Some?)
  }

  /** Some device of the name contributes. */
  ghost predicate SomeContributor(out: seq<DeviceInfo>, name: string)
  {
    exists d :: d in out && d.name == name && Contributes(d)
  }

  lemma NoSeriesWithoutValue(
    out: seq<DeviceInfo>, c: Config, pods: map<string, Claimant>, value: DeviceInfo -> Option<real>, name: string)
    ensures NoSeries(Family(out, Labelled(c, pods, value)), name) <==>
      forall d :: d in out && d.name == name ==> value(d).None?
  {
    forall d | d in out && d.name == name && value(d).Some?
      ensures !NoSeries(Family(out, Labelled(c, pods, value)), name)
    {
      ValueGivesSeries(out, c, pods, value, d);
    }
    if forall d :: d in out && d.name == name ==> value(d).None? {
      forall labels | labels in Family(out, Labelled(c, pods, value)) ensures Name in labels && labels[Name] != name {
        var d := SeriesHasDevice(out, c, pods, value, labels);
      }
    }
  }

  lemma ValueGivesSeries(
    out: seq<DeviceInfo>, c: Config, pods: map<string, Claimant>, value: DeviceInfo -> Option<real>, d: DeviceInfo)
    requires d in out && value(d).Some?
    ensures var labels := LabelsOf(d, c, pods);
      labels in Family(out, Labelled(c, pods, value)) && Name in labels && labels[Name] == d.name
  {
    NamedByLabels(d, c, pods);
    NothingStale(out, Labelled(c, pods, value), LabelsOf(d, c, pods));
  }

  lemma SeriesHasDevice(
    out: seq<DeviceInfo>, c: Config, pods: map<string, Claimant>, value: DeviceInfo -> Option<real>, labels: Labels)
    returns (d: DeviceInfo)
    requires labels in Family(out, Labelled(c, pods, value))
    ensures d in out && value(d).Some? && Name in labels && labels[Name] == d.name
  {
    NothingStale(out, Labelled(c, pods, value), labels);
    d :| d in out && labels in Labelled(c, pods, value)(d);
    NamedByLabels(d, c, pods);
  }

  /** A name is left out exactly when no device that carries it passes the export gate with a
      reading, whatever answers of kubelet the metrics read. */
  lemma NotCountedIff(metrics: MetricList, out: seq<DeviceInfo>, seen: Seen, name: string)
    ensures NotCounted(metrics.FamiliesOf(out, seen), name) <==> !SomeContributor(out, name)
  {
    NoSeriesWithoutValue(out, metrics.Labelling(), PodsFor(out, seen.memory), MemoryUsed(), name);
    NoSeriesWithoutValue(out, metrics.Labelling(), PodsFor(out, seen.memory), MemoryTotal(), name);
    NoSeriesWithoutValue(out, metrics.Labelling(), PodsFor(out, seen.utilization), Utilization(), name);
  }

  // ---------------------------------------------------------------------------------------
  // v1
  // ---------------------------------------------------------------------------------------

  /** A sample that gives a compute device of that name a memory or utilization reading. */
  ghost predicate HasValidSample(s: V1.Source, name: string)
  {
    && name != "" && name !in s.missing
    && exists x :: x in s.samples && x.device == name && (S.MemoryUsed(true)(x).Some? || S.Utilization(true)(x).Some?)
  }

  /** Entry i counts: the daemon calls it usable, sysfs does not show it hosting VFs, and its size
      is known or some sample is valid. */
  ghost predicate Counts(s: V1.Source, i: nat)
    requires i < |s.entries|
  {
    && s.entries[i].npuId.Some? && (s.entries[i].isVf || s.Count(i).None? || s.Count(i) == Some(0))
    && (V1.SizeIsKnown(s, i) || HasValidSample(s, s.entries[i].name))
  }

  /** Some entry of the name is neither foreign nor barred from counting. */
  ghost predicate SomeEntryCounts(s: V1.Source, name: string)
  {
    exists i :: 0 <= i < |s.entries| && !s.Skipped(i) && s.entries[i].name == name && Counts(s, i)
  }

  lemma ReadingsComeFromSamples(s: V1.Source, d: DeviceInfo)
    requires s.HasReadings(d) && d.compute
    ensures d.memoryUsedBytes.Some? || d.utilization.Some? <==> HasValidSample(s, d.name)
  {
    var own := s.OwnSamples(d.name);
    S.ReadingNeedsValidSample(own, S.MemoryUsed(true));
    S.ReadingNeedsValidSample(own, S.Utilization(true));
    forall x ensures x in S.OfDevice(s.samples, d.name) <==> x in s.samples && x.device == d.name {
      S.InOfDevice(s.samples, d.name, x);
    }
  }

  lemma ContributesIffCounts(s: V1.Source, i: nat, d: DeviceInfo)
    requires i < |s.entries| && s.Exports(i, d)
    ensures Contributes(d) <==> Counts(s, i)
  {
    assert s.HasPartition(i, d) && s.HasSpecs(i, d) && s.HasIdentity(i, d);
    if d.compute {
      ReadingsComeFromSamples(s, d);
    }
  }

  /** Over v1: some device of the name contributes exactly when some listed, non-foreign entry of
      the name counts. */
  lemma ContributorsOnV1(s: V1.Source, listed: seq<DeviceInfo>, name: string)
    requires s.ExportsAll(listed)
    ensures SomeContributor(listed, name) <==> SomeEntryCounts(s, name)
  {
    if d :| d in listed && d.name == name && Contributes(d) {
      var i := PositionOf(|s.entries|, s.SkippedAt(), s.ExportAt(), listed, d);
      assert s.HasIdentity(i, d);
      ContributesIffCounts(s, i, d);
    }
    if i :| 0 <= i < |s.entries| && !s.Skipped(i) && s.entries[i].name == name && Counts(s, i) {
      var d := ResultAt(|s.entries|, s.SkippedAt(), s.ExportAt(), listed, i);
      assert s.HasIdentity(i, d);
      ContributesIffCounts(s, i, d);
    }
  }

  // ---------------------------------------------------------------------------------------
  // v0
  // ---------------------------------------------------------------------------------------

  /** Over v0 no device named as the parent of an exported VF contributes. */
  lemma ParentsDoNotContributeOnV0(s: V0.Source, out: seq<DeviceInfo>, v: DeviceInfo)
    requires s.ExportsAll(out) && v in out && v.isVF && v.parentName != ""
    ensures !SomeContributor(out, v.parentName)
  {
    forall p | p in out && p.name == v.parentName ensures !Contributes(p) {
      V0.ParentsCarryNoCompute(s, out, v, p);
    }
  }

  // ---------------------------------------------------------------------------------------
  // Inputs for which v1 falls short
  // ---------------------------------------------------------------------------------------

  function UsableEntry(name: string, bus: string, isVf: bool, parent: string): Entry
  {
    Entry(name, "", "", "", bus, isVf, parent, Some(0), STATE_READY, Some(VersionInfo("", "", "")), Some(64))
  }

  ghost function SourceOf(entries: seq<Entry>, host: Reads): V1.Source
  {
    V1.Source(entries, map[], {}, {}, [], (i: nat) => host, (i: nat) => Err(OtherCode), (i: nat) => Err(OtherCode))
  }

  ghost function UsableDevice(e: Entry, count: Option<nat>, mode: string, compute: bool): DeviceInfo
  {
    DeviceInfo(
      "", e.name, "", "", e.pciBusId, e.isVf, e.parentName, count, mode, compute,
      None, None, None, Some(64), None, "", "", "", STATE_READY, true, None, None, None, None)
  }

  /** A usable function and a usable VF of it, where sysfs may not be consulted. */
  ghost function ParentAndVf(): V1.Source
  {
    SourceOf(
      [UsableEntry("p", "", false, ""), UsableEntry("v", "", true, "p")],
      Reads(false, None, None, (bus: string) => None))
  }

  ghost function ParentAndVfDevices(): seq<DeviceInfo>
  {
    var e := ParentAndVf().entries;
    [UsableDevice(e[0], Some(0), "none", true), UsableDevice(e[1], Some(0), "", true)]
  }

  lemma BothCount()
    ensures SomeEntryCounts(ParentAndVf(), "p") && SomeEntryCounts(ParentAndVf(), "v")
  {
    var s := ParentAndVf();
    assert s.Count(0).None? && !s.Skipped(0) && Counts(s, 0) && s.entries[0].name == "p";
    assert !s.Skipped(1) && Counts(s, 1) && s.entries[1].name == "v";
  }

  lemma BothAreExported()
    ensures V1.LoopGives(ParentAndVf(), Ok((ParentAndVfDevices(), {})))
  {
    var s, out := ParentAndVf(), ParentAndVfDevices();
    var p, v := out[0], out[1];
    assert s.HasIdentity(0, p) && s.HasSpecs(0, p) && s.HasPartition(0, p) && s.HasReadings(p);
    assert s.HasIdentity(1, v) && s.HasSpecs(1, v) && s.HasPartition(1, v) && s.HasReadings(v);
    assert s.Exports(0, p) && s.Exports(1, v);
    ResultsGrow(0, s.SkippedAt(), s.ExportAt(), [], p);
    ResultsGrow(1, s.SkippedAt(), s.ExportAt(), [p], v);
    assert [] + [p] == [p] && [p] + [v] == out;
  }

  const BUS := "0000:01:00.0"

  lemma OneIsParsed()
    ensures ParseCount("1") == Some(1)
  {
    assert TrimSpace("1") == "1";
    assert IsDecimal("1") && "1"[..0] == "";
    assert DigitsValue("1") == DigitsValue("1"[..0]) * 10 + 1;
  }

  lemma BusIsAnAddress()
    ensures IsPciAddress(BUS)
  {
    assert BUS[4] == ':' && BUS[7] == ':' && BUS[10] == '.' && BUS[11] == '0';
    assert BUS == ['0', '0', '0', '0', ':', '0', '1', ':', '0', '0', '.', '0'];
  }

  /** The claim on fields, that a function without compute has no total memory, fails where sysfs
      shows one VF on a function the daemon calls usable. */
  lemma TotalMemoryOfHostingFunction() returns (s: V1.Source, d: DeviceInfo)
    ensures s.entries == [UsableEntry("p", BUS, false, "")] && s.Exports(0, d)
    ensures !d.compute && d.partitionMode == "hosting" && d.memoryTotalBytes == Some(64)
  {
    OneIsParsed();
    BusIsAnAddress();
    s := SourceOf([UsableEntry("p", BUS, false, "")], Reads(true, None, None, (bus: string) => Some("1")));
    assert s.Count(0) == Some(1);
    d := UsableDevice(s.entries[0], Some(1), "hosting", false);
    assert s.HasIdentity(0, d);
    assert s.HasSpecs(0, d);
    assert s.HasPartition(0, d);
    assert s.HasReadings(d);
  }
}
