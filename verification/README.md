# Verification of the RBLN metrics exporter

A Dafny 4.11 model of the part of the exporter that turns unreliable inputs into one consistent
set of series. Those inputs are kubelet's allocations, paged v1 inventories, streamed v0 records
and local sysfs. `dafny verify dfyconfig.toml` checks everything.

How the model is laid out:

- **Pod attribution** (`PodResources`, `Allocations`, `DeviceClaims`, `Attribution`, `PodMapper`,
  `WakeUp`, `VfAttribution`). The nested loops of `mapPodResources` fill a claim table; what they produce is
  specified by the *set* of claims in kubelet's answer, so that order, repetition and the union of
  device-plugin and DRA answers follow from the specification. The mapper's cache and log are a class, the
  trigger channel is a state machine over all interleavings.
- **Inventory and partitions** (`LegacyInventory`, `Partition`, `Sysfs`). The v0 reconstruction
  mutates aliased heap objects through a bus index; its result is an order-free closed form.
- **Collection** (`Paging`, `Listings`, `Samples`, `MetricGroups`, `GroupReplies`, `GroupProtocol`,
  `CollectV0`, `V0Records`, `CollectV1`, `MemorySize`, `InOrder`, `Transitions`, `TransitionRuns`,
  `Client`, `CallOutcomes`, `StateNames`). Each RPC is an arbitrary reply; the
  contracts say exactly which replies lead to which devices or which error. Log records are ghost
  events, and what they add up to is stated over whole runs.
- **Export** (`Series`, `Exposition`, `Readouts`, `Metrics`, `MetricList`, `NpuCollector`, `SchedulerRuns`,
  `Scheduler`, `DoubleCounting`, `EndToEnd`). A gauge family is a map from label tuples to values; at every
  cycle boundary the families are a function of the last cycle.

A method is proved against a specification function or predicate, and those are tied to the inputs
by laws of their own: `DeviceClaims`, `V0Records`, `Listings`, `GroupReplies`, `CallOutcomes`,
`StateNames` and `Readouts` say what comes out in terms of the daemon's replies, kubelet's answer
and the host's files alone, with the numbers and texts of the interfaces written out.

Modelling choices:

- String order is lexicographic (`Text.Less`), as in Go; Dafny's own `<` on strings is a prefix test.
- A map that Go walks in arbitrary order is walked with `:|`, so every order is covered.
- An RPC is a reply value or a function from the request (and its position in the loop) to a reply; error codes other than
  Unimplemented, AlreadyExists, NotFound and FailedPrecondition are one. A sysfs read is an arbitrary
  optional text. The clock is an arbitrary integer per cycle, 0 being the zero time.
- A paging loop's termination needs the daemon's tokens to come from some finite set, a ghost
  parameter. Messages are bounded in size, so one exists; the code does not use it.
- A loop over list elements inside another loop is often a method of its own, and the metric list
  of a collector is spelled out as its members.
- The sync loop may complete any number of syncs between two metrics of one collection.

Two statements that one might expect do not hold over v1; each is given with an input and the exact
condition. A physical function that hosts VFs can hold a total memory although it is not a compute
device (`DoubleCounting.TotalMemoryOfHostingFunction`, condition in `CollectV1.HostingFunctionOnV1`);
the export gate keeps it out of the series. And a VF and its parent can both be in the memory families
(`EndToEnd.BothAreCounted`): a name is left out exactly when no entry of it counts
(`EndToEnd.CountedOnV1`). Over v0, which infers hosting from the VFs themselves, the parent is
always left out (`EndToEnd.ParentsNotCountedOnV0`).

## Model

| member | source | states |
|---|---|---|
| PodResources.BeforeTransitive | internal/collector/kubernetes.go:46-58 | the order of claimants by namespace, pod and container is transitive |
| PodResources.BeforeTotal | internal/collector/kubernetes.go:46-58 | any two different claimants are ordered, so a least one exists |
| Text.LessIsBytewise | internal/collector/kubernetes.go:46-58 | one text comes before another exactly if it is a proper prefix of it or smaller at the first place where they differ |
| PodResources.VendorNames | internal/collector/kubernetes.go:27-36 | the vendor's resources are exactly the names under `rebellions.ai/`, its DRA drivers exactly that domain and the names in it |
| PodResources.AliasIsUnambiguous | internal/collector/kubernetes.go:219-225 | name-vf1 and name-vf4 are jointly injective: at most one device answers to an alias |
| PodResources.Resolve | internal/collector/kubernetes.go:206-227 | resolution gives the same device whatever order the map of live devices is walked in |
| PodResources.ResolvesTo | internal/collector/kubernetes.go:206-227 | an allocation reaches a device exactly if it names a live PF, or a live VF together with its present profile (by resource for the plugin, by suffix for DRA) |
| PodResources.ClaimTable.Assign | internal/collector/kubernetes.go:232-250 | one more claim leaves the table as the whole claim history calls for; an empty device name is ignored |
| PodResources.AttributesGrows | internal/collector/kubernetes.go:236-244 | comparing a newcomer with the current winner only is enough to keep both the least claimant and the exact set of shared devices |
| PodResources.AssignedAllAttributes | internal/collector/kubernetes.go:232-250 | after any sequence of claims every device has its least claimant, and shared are exactly the devices claimed by two different pods |
| PodResources.AttributionUnique | internal/collector/kubernetes.go:232-250 | a set of claims has only one such attribution |
| PodResources.MapPodResources | internal/collector/kubernetes.go:196-289 | for every answer and inventory: least claimant per device, and a strictly sorted list of exactly the devices two pods claim |
| PodResources.CurrentHoldsInventory | internal/collector/kubernetes.go:197-205 | the resolution map holds compute devices of the inventory under their own names |
| PodResources.LastComputeDeviceIsLive | internal/collector/kubernetes.go:197-205 | the last compute entry of a name, VF or not, is what the name resolves to |
| DeviceClaims.ClaimsAreDeviceAllocations | internal/collector/kubernetes.go:196-284 | said of inventory and answer alone: a container claims a compute device exactly if kubelet allocates it that PF by name, or that VF by the resource of its profile or by its DRA alias, which no compute device carries as its name |
| DeviceClaims.AttributedExactlyIfAllocated | internal/collector/kubernetes.go:196-289 | so a compute device, VF or not, is attributed exactly if some container is allocated it |
| DeviceClaims.LabelsNameTheFirstInOrder | internal/collector/kubernetes.go:236-249 | and to a container that is allocated it and that no other such container precedes by namespace, pod and name |
| DeviceClaims.SharedExactlyIfTwoPods | internal/collector/kubernetes.go:236-244 | and it is shared exactly if containers of two pods are allocated it |
| Text.SortedKeys | internal/collector/kubernetes.go:286-288 | sorting the keys of the shared set gives the strictly sorted list of its elements |
| Text.StrictlySortedUnique | internal/collector/kubernetes.go:286-288 | strictly sorted lists are equal if their sets are, which is why comparing lists detects changes of the set |
| Allocations.ClaimsAreAllocations | internal/collector/kubernetes.go:252-284 | a claim on a device exists exactly when kubelet reports a matching plugin or DRA allocation for that container |
| Allocations.AttributedVfNamesProfile | internal/collector/kubernetes.go:210-225 | the winner on a VF holds an allocation that names the VF's present profile |
| Attribution.OrderIndependent | internal/collector/kubernetes.go:171-177 | answers that report the same plugin and DRA allocations per container map to the same devices and the same shared list, however they order, repeat or split pods, containers, resources, claims and ids |
| Attribution.ConcatenationMerges | internal/collector/kubernetes.go:171-177 | mapping two answers together is merging their mappings: pointwise least, shared devices united with those whose winners are of different pods |
| Attribution.MergeIdempotent | internal/collector/kubernetes.go:171-177 | merging a mapping with itself changes nothing |
| Attribution.MergeCommutative | internal/collector/kubernetes.go:171-177 | the order of the merged answers does not matter |
| Attribution.MergeAssociative | internal/collector/kubernetes.go:171-177 | nor does their grouping |
| PodMapper.PodResourceMapper.SyncPodResources | internal/collector/kubernetes.go:140-169 | the cache is the mapping of the last answer; a failed sync changes nothing; a sharing record is written exactly when the set of shared devices changed |
| PodMapper.PodResourceMapper.TriggerSync | internal/collector/kubernetes.go:98-106 | never blocks and leaves one request pending; the no-op mapper ignores it |
| PodMapper.PodResourceMapper.SharedSnapshot | internal/collector/kubernetes.go:117-124 | devices and shared list are those of one answer |
| PodMapper.PodResourceMapper.SnapshotFor | internal/collector/kubernetes.go:189-194 | the last answer resolved against the inventory of this collection |
| PodMapper.SharedSetOf | internal/collector/kubernetes.go:158-166 | the cached shared list carries exactly the set of devices two pods claim |
| PodMapper.SharedMeansTwoPods | internal/collector/kubernetes.go:158-166 | a device is in the cached set exactly if kubelet gives it to two pods by either kind of allocation |
| PodMapper.SharingIsReported | internal/collector/kubernetes.go:158-166 | one record, of the sorted devices now shared or else of those that were, exactly if the set changed |
| PodMapper.PodResourceMapper.SyncTurn | internal/collector/kubernetes.go:126-138 | one turn of the loop takes one request and syncs once |
| PodMapper.FieldsMirrorProtocol | internal/collector/kubernetes.go:98-138 | in every run of triggers, changes of kubelet, turns and cancellation, however interleaved, the mapper's channel and answer are those of the protocol |
| PodMapper.HeldAnswerIsFresh | internal/collector/kubernetes.go:126-138 | so in every run a mapper at rest after a successful sync holds kubelet's allocations at a version no older than any trigger saw |
| WakeUp.BacklogNeverExceedsOne | internal/collector/kubernetes.go:98-106 | at most one request waits, in every interleaving |
| WakeUp.NoLostWakeUp | internal/collector/kubernetes.go:98-138 | after a trigger returned, a request is pending or taken, or a List call has started since |
| WakeUp.TriggerIsCovered | internal/collector/kubernetes.go:98-138 | in every reachable state the allocations a trigger saw are pending, being listed, or (if the last sync succeeded) in the cache |
| WakeUp.NoLostUpdate | internal/collector/kubernetes.go:126-138 | a loop at rest after a successful sync has a cache as new as kubelet was at every trigger |
| WakeUp.DrainRefreshes | internal/collector/kubernetes.go:126-138 | from every reachable state short of cancellation at most five steps of the loop alone make the cache that new |
| VfAttribution.WinnerHasClaim | internal/collector/kubernetes.go:206-227 | an attributed device is a compute device of this inventory, and an attributed VF has a profile that its winner's allocation names |
| EndToEnd.LabelIsCurrent | internal/collector/kubernetes.go:187-194 | over either API and whatever the state lookup did, a pod label on a VF proves that its profile was seen in the same call and that the allocation names that profile |
| EndToEnd.ProfileWasSeen | internal/daemon/partition.go:30-68 | a profile in a call's result is the VF count of an inventoried parent, read from sysfs for that very entry |
| LegacyInventory.Reconstruct | internal/daemon/legacy.go:121-157 | the two in-place loops over aliased items give the order-free closed form: VF if told or linked, parent by link else by record, usable unless the record or any VF shows it hosting |
| LegacyInventory.FollowLink | internal/daemon/legacy.go:137-147 | following one physfn link updates the linked item and its parent, whichever objects they are |
| LegacyInventory.ClearNamed | internal/daemon/legacy.go:148-154 | every item of that name loses its usable mark, and nothing else changes |
| LegacyInventory.PermutationPermutes | internal/daemon/legacy.go:121-157 | with distinct addresses, permuting the device list permutes the inventory and nothing else |
| Partition.PartitionMetadata | internal/daemon/partition.go:15-76 | the in-place classification is a function of one count, that of the device's authority in sysfs |
| Partition.ProfileMeansParentCount | internal/daemon/partition.go:30-68 | a VF is given a profile exactly if its inventoried parent has one or four VFs enabled |
| Partition.OnlyHostingLosesCompute | internal/daemon/partition.go:15-28 | classification withdraws compute exactly from a PF seen to host VFs, and touches no other field than the three of the partition |
| Partition.ParentFileGivesProfile | internal/daemon/partition.go:30-68 | a VF whose link leads to an inventoried parent is shown as vf1 or vf4 if the parent's file reads 1 or 4, newline included, and with no other profile |
| Partition.OwnFileShowsHosting | internal/daemon/partition.go:69-75 | a PF whose own file reads n is shown with n VFs, and hosts exactly if n > 0 |
| Partition.WithoutCount | internal/daemon/partition.go:15-59 | without sysfs, address, link, inventoried parent or file, only what the inventory says is shown |
| Partition.ForeignIsAnotherDriver | internal/daemon/partition.go:78-86 | a function is foreign exactly if its driver link ends in another name than the vendor's |
| Sysfs.LowerKeepsPciAddress | internal/daemon/partition.go:13 | lower-casing keeps PCI addresses addresses and does not change anything twice |
| Sysfs.FourPartsMakeAddress | internal/daemon/partition.go:13 | every four, two and two hexadecimal digits and an octal digit make a PCI address, |
| Sysfs.AddressHasFourParts | internal/daemon/partition.go:13 | and nothing else does |
| Sysfs.EqualFoldIgnoresCase | internal/daemon/partition.go:43 | addresses are compared up to the case of their letters and nothing else |
| Sysfs.BaseIsLastElement | internal/daemon/partition.go:35 | the base of a path is what follows its last slash, trailing slashes aside |
| Sysfs.CountIsDecimalInBlanks | internal/daemon/partition.go:52-59 | a decimal text below 2^32 with any white space around it is read as its value, |
| Sysfs.PrintedCountReadsBack | internal/daemon/partition.go:52-59 | in particular every printed count and the newline after it, |
| Sysfs.CountNeedsDecimal | internal/daemon/partition.go:52-59 | and nothing else is read as a count |
| Paging.ListDevices | internal/daemon/client.go:177-204 | the listing follows the token path; it fails with the daemon's error or on a repeated token, and otherwise returns the named, reachable entries of every page in order |
| Paging.ListTopology | internal/daemon/client.go:206-235 | the same for topology: the entries of the path, page by page, and all unreachable names |
| Listings.ListsWhatItReceives | internal/daemon/client.go:177-204 | in terms of the replies: a list only after a last page without a token, reached under tokens all new; an error only of a request or for an old token |
| Listings.ListsTopologyItReceives | internal/daemon/client.go:206-235 | the same for topology |
| Listings.EntriesStay | internal/daemon/client.go:188-195 | each entry of a page is kept in its place, unless it has no name or its own page reports it unreachable, |
| Listings.PagesFollow | internal/daemon/client.go:177-204 | and the pages follow one another |
| Listings.LastEntryIsTopology | internal/daemon/client.go:217-226 | the last entry on the last page that lists a device without reporting it unreachable is its topology |
| Paging.TopologyIsLatest | internal/daemon/client.go:217-226 | a device's topology is its last entry on a page that does not report it unreachable |
| Paging.RequestsBounded | internal/daemon/client.go:177-235 | however the daemon answers, a loop sends at most one request more than there are tokens |
| Paging.WalkUnique | internal/daemon/client.go:177-235 | the answers determine the pages and the way a loop ends |
| Paging.PagerNeverFails | internal/smdtest/server.go:74-85 | following its own tokens never takes the offset pager out of range |
| Paging.PagerNeverRepeats | internal/smdtest/server.go:74-85 | the pager never hands out a token twice |
| Paging.PagerTokensAreFinite | internal/smdtest/server.go:74-85 | the pager's tokens are the printed positions of the list, so the client's loops end |
| Paging.WalkReassembles | internal/smdtest/server.go:74-85 | for any page size a walk along the pager's tokens reaches the end and collects the named part of the list, in order |
| Paging.ListingReassembles | internal/smdtest/server.go:74-93 | against the pager, with any page size, the result of the listing is the named part of the server's list, in order |
| Listings.PagingIsInvisible | internal/smdtest/server.go:74-93 | for every page size, a client reads back a server's list of named devices whole and in order |
| Listings.PagesAreFull | internal/smdtest/server.go:74-85 | every page but the last has the requested size, or 1000, and its token leads to the entry after it |
| Decimal.ItoaRoundTrips | internal/smdtest/server.go:75-83 | a printed offset reads back as itself |
| Decimal.DigitsArePositional | internal/smdtest/server.go:75-83 | the value of a decimal text is positional: a text before another counts for its value times a power of ten |
| Samples.ApplySample | internal/daemon/client.go:237-276 | one sample sets its reading if valid and in scope, and otherwise changes nothing |
| Samples.Replay | internal/daemon/client.go:158-162 | replaying a device's samples gives, for each reading, the last valid sample |
| Samples.LastReadingIsLast | internal/daemon/client.go:237-276 | that reading comes from some valid sample after which no other is valid: a later invalid one erases nothing |
| Samples.IndexSamples | internal/daemon/client.go:108-117 | the index holds, per reachable device and in order, exactly its samples |
| Samples.OtherDevicesDoNotMatter | internal/daemon/client.go:112-117 | another device's sample anywhere in the response is invisible |
| Samples.LastInResponse | internal/daemon/client.go:112-117 | over the flat response: the reading of a device is that of the position after which no sample of it is valid |
| Samples.ReadingsAreLast | internal/daemon/client.go:237-276 | for each of the five metrics by number, with its bounds, its unit and the devices it applies to |
| MetricGroups.SortInPlace | internal/daemon/metric_group.go:54-57 | the in-place sort gives a sorted permutation |
| MetricGroups.SortedListsAgree | internal/daemon/metric_group.go:54-57 | sorted lists are equal if their multisets are |
| MetricGroups.ValidateMetricGroup | internal/daemon/metric_group.go:50-64 | a group is accepted exactly if it has the configured id, the five metrics as a multiset, all-device scope and on-demand policy |
| MetricGroups.FindMetricGroup | internal/daemon/metric_group.go:66-93 | the search goes on only under new tokens; it returns the first group of that id on the first page that speaks of it, none only after a complete walk without mention, and an error for an unreachable mention, a repeated token or a failed request |
| MetricGroups.SearchUnique | internal/daemon/metric_group.go:66-93 | the daemon's answers determine the pages a search receives and why it stops |
| MetricGroups.SearchesOnce | internal/daemon/metric_group.go:66-93 | and so its one result |
| MetricGroups.SearchRequestsBounded | internal/daemon/metric_group.go:66-93 | a search sends at most one request more than there are tokens, the failing one included |
| MetricGroups.EnsureMetricGroup | internal/daemon/metric_group.go:23-48 | search, creation and second search end, reply by reply, in readiness or in the refusal that is returned |
| MetricGroups.ReadyMeansReturned | internal/daemon/metric_group.go:23-48 | readiness means that the last RPC this call made returned an acceptable group, and that nothing was created without permission |
| MetricGroups.CallEndsOnce | internal/daemon/metric_group.go:23-48 | on given answers a call ends at one stage: one that may be refused is never ready |
| GroupReplies.FoundExactlyOnItsPage | internal/daemon/metric_group.go:66-93 | in terms of the replies: a group is returned exactly if it is the first of its id on a page that does not report it unreachable, reached under new tokens over pages that do not mention it |
| GroupReplies.AbsentExactlyOnAllPages | internal/daemon/metric_group.go:66-93 | none is returned exactly if the pages end and none mentions it |
| GroupReplies.FailsExactlyOnBadReply | internal/daemon/metric_group.go:66-93 | a search fails exactly with the error of a request, on an unreachable mention or on an old token |
| GroupReplies.EndsAsLastReturned | internal/daemon/metric_group.go:23-64 | a call is ready exactly if its last RPC returned a group with the id, the five metric numbers each once, all devices and on-demand sampling; otherwise it is refused, with the error of that RPC if it had one |
| GroupProtocol.Server.CreateMetricGroup | internal/smdtest/server.go:126-142 | the idempotency key is the id; a second creation is refused and changes nothing |
| GroupProtocol.Server.ListMetricGroups | internal/smdtest/server.go:116-124 | lists exactly the stored groups, in any order |
| GroupProtocol.AtMostOneCreate | internal/smdtest/server.go:126-142 | in every interleaving of any number of exporters a group is created at most once, only if absent, and then stays as it is |
| GroupProtocol.EveryExporterSamples | internal/daemon/metric_group.go:23-48 | an exporter whose group starts acceptable, or absent and creatable, is never refused, whatever the others do |
| GroupProtocol.SamplesKeepPace | internal/daemon/metric_group.go:23-48 | and at most four of its own RPCs separate two samples |
| GroupProtocol.UnacceptableIsNeverSampled | internal/daemon/metric_group.go:50-64 | a group that is present but not acceptable is never sampled |
| GroupProtocol.SearchOfListing | internal/daemon/metric_group.go:66-93 | the client's search over the server's listing finds what the machine says |
| GroupProtocol.CallIsMachineRun | internal/daemon/metric_group.go:23-48 | a call of the client's code against the server ends at the stage the machine's exporter reaches, whatever other exporters do between its requests, a creation by one of them included |
| MemorySize.DefinedExactlyInRange | internal/daemon/legacy.go:258-265 | a size is exported exactly if the rounded product is a number in [0, 2^64) |
| MemorySize.NearestAndMonotone | internal/daemon/legacy.go:258-265 | it is within one half of the exact product, and a larger input never gives a smaller size |
| MemorySize.RecoversCount | internal/daemon/legacy.go:258-265 | a count of bytes divided by 2^30 is recovered exactly |
| CollectV0.LegacyTotalInfo | internal/daemon/legacy.go:38-56 | all records by name, the last one winning, or nothing if the stream does not end well |
| CollectV0.LegacyDevices | internal/daemon/legacy.go:101-119 | all named records in order, or nothing |
| CollectV0.LegacyTopology | internal/daemon/legacy.go:159-177 | the entries without error and the names with one; a daemon without the RPC has neither |
| CollectV0.Classify | internal/daemon/legacy.go:195-207 | identity and partition of a v0 device are those of the reconstructed inventory and sysfs; an unknown VF count is not shown as zero |
| CollectV0.CollectDevice | internal/daemon/legacy.go:190-247 | one device with every field as its listing, record, topology and version query call for; only an error of that query that is neither "not implemented" nor about the device ends the collection |
| CollectV0.ReadingsInScope | internal/daemon/legacy.go:211-245 | temperature and power only on PFs, memory and utilization only on compute devices, none negative; without a record the daemon vouches for there is no reading and no success |
| CollectV0.CollectDevices | internal/daemon/legacy.go:190-248 | every device no foreign driver holds is exported in order, field by field, with the names lacking telemetry; or the error of the first fatal version query |
| InOrder.PositionsKept | internal/daemon/legacy.go:190-248 | result p is that of the p-th position that is not skipped, and no other is |
| CollectV0.Collect | internal/daemon/legacy.go:179-249 | nothing is returned unless all listings are complete; otherwise the first error is |
| CollectV0.GivesOnce | internal/daemon/legacy.go:179-249 | on given answers a v0 collection has one result |
| CollectV0.ParentsCarryNoCompute | internal/daemon/legacy.go:148-154 | no device named as the parent of an exported VF is a compute device or holds memory or utilization |
| V0Records.IdentityIsRecorded | internal/daemon/legacy.go:195-200 | in terms of the records: identity is the record's, a VF is what the record or a physfn link says, link speed and width only on PFs |
| V0Records.ParentIsRecorded | internal/daemon/legacy.go:137-147 | the parent is the last function at the address its link leads to, up to case, or else the one the record names |
| V0Records.ComputeIsRecorded | internal/daemon/legacy.go:126-154 | a device is a compute device exactly if its record says VF or lists no VFs, no record shows it as hosting by link or by parent name, and, on a PF, sysfs shows no VFs |
| V0Records.NumVfsIsRecorded | internal/daemon/legacy.go:195-207 | the VFs of a PF are those sysfs counts, else none on a compute device, else those its record lists if any |
| V0Records.ReadingsAreRecorded | internal/daemon/legacy.go:211-245 | each reading is that of the vouched-for record in its unit, and only if finite and not negative |
| V0Records.StatusIsRecorded | internal/daemon/legacy.go:209-247 | versions come from record and version query; collection succeeds exactly if topology, record and query did |
| V0Records.LastRecordCounts | internal/daemon/legacy.go:38-56 | the last record of a name in the stream is its record |
| V0Records.NamedRecordsStay | internal/daemon/legacy.go:101-119 | the device list keeps every named record in its place |
| V0Records.LastTopologyCounts | internal/daemon/legacy.go:159-177 | the last entry of a device without an error is its topology |
| V0Records.ContributorsOnV0 | internal/daemon/legacy.go:121-248 | a name contributes exactly if some record of it, held by no foreign driver, counts in this sense and its last total-info record, vouched for, yields a size or a utilization |
| CollectV1.Describe | internal/daemon/client.go:124-153 | identity, versions and memory of a v1 device; the fallback queries are made only for what is missing, and only an error that is not about the device is fatal |
| CollectV1.CollectDevice | internal/daemon/client.go:120-163 | one device with all its fields, or the fatal error |
| CollectV1.CollectDevices | internal/daemon/client.go:119-165 | every device no foreign driver holds, in order, or the first fatal error |
| CollectV1.Collect | internal/daemon/client.go:90-166 | success means complete listings, samples only from a group vetted in this call (none without devices), and every device described; a failure is that of the first step that did not succeed |
| CollectV1.NoLaterEnd | internal/daemon/client.go:90-118 | a collection that ends at one step gets to no later one |
| CollectV1.GivesOnce | internal/daemon/client.go:90-166 | on given answers a v1 collection has one result |
| CollectV1.ReadingsInScope | internal/daemon/client.go:237-276 | utilization is in 0..100 and only on compute devices, memory in use too, temperature and non-negative power only on PFs, and an unreachable device has no reading and did not succeed |
| CollectV1.OthersSamplesAreInvisible | internal/daemon/client.go:112-162 | adding or removing another device's sample changes no field of a device |
| CollectV1.SpecsAreListedOrQueried | internal/daemon/client.go:125-153 | versions and memory size are those of the listing, or of the query made in its place; collection succeeds exactly if the device was reachable and no such query failed |
| CollectV1.PartitionIsCounted | internal/daemon/partition.go:15-76 | how a v1 device is shown as partitioned, from the VFs counted on it or on its parent |
| CollectV1.ReadingsAreLastSamples | internal/daemon/client.go:112-162 | each reading is that of the last sample in the response that is of the device and valid for it |
| CollectV1.HostingFunctionOnV1 | internal/daemon/client.go:136-154 | a PF counts exactly if the daemon calls it usable and sysfs does not show it hosting; one that does not count has no reading, yet holds a total memory exactly if the daemon calls it usable, sysfs shows VFs on it, and the listing or the memory query gave its size |
| Transitions.OtherRecordsAreNotTallied | internal/daemon/client.go:284-301 | a collection writes no device record about a device it does not list |
| TransitionRuns.WrittenOnce | internal/daemon/client.go:278-307 | with distinct names each record is written at most once per collection, exactly on its edge |
| TransitionRuns.DegradedOncePerFaultRun | internal/daemon/client.go:293-297 | over any run the "entered degraded" records of a device are its maximal stretches of FAULT |
| TransitionRuns.RecoveredOncePerHealedRun | internal/daemon/client.go:298-300 | the "recovered" records are those stretches that a known other state follows immediately |
| TransitionRuns.GoneOncePerDisappearance | internal/daemon/client.go:302-306 | the "no longer present" records are the present-to-absent edges |
| TransitionRuns.FirstSuccessIsReportedOnce | internal/daemon/client.go:279-282 | the first success is reported once |
| TransitionRuns.TelemetryAlternates | internal/daemon/client.go:286-292 | while a device stays listed its "unavailable" and "recovered" records alternate |
| TransitionRuns.UnavailableOncePerLoss | internal/daemon/client.go:286-289 | over any run the "unavailable" records are the collections that list the device without telemetry after one that did not miss it |
| TransitionRuns.RecoveredOncePerReturn | internal/daemon/client.go:290-292 | and the "recovered" records those that list it with telemetry after one that missed it |
| Client.Client.GetDeviceInfo | internal/daemon/client.go:67-88 | v1 first, v0 only if v1 is not implemented; the result is accounted for by the answers, a v1 result with devices only after a group was vetted and sampled; a failed call leaves state and log untouched, a successful one extends the run |
| Client.ExplainedOnce | internal/daemon/client.go:67-88 | under the same options the answers determine the devices, the API and the error of a call |
| CallOutcomes.FallsBackOnUnimplementedAlone | internal/daemon/client.go:67-81 | v0 is used only if the first v1 step that did not succeed is not implemented; any other first error is the call's own, and else that of v0 |
| CallOutcomes.FailureIsFirstOfV1 | internal/daemon/client.go:90-153 | step by step: a v1 error is that of the first listing, vetting RPC, sampling or per-device query that did not succeed, errors about a single device excepted |
| CallOutcomes.SuccessIsCompleteOverV1 | internal/daemon/client.go:90-166 | a v1 success rests on both listings read to their end, on this call's samples and unreachable names, and on no query that failed fatally |
| CallOutcomes.SuccessIsCompleteOverV0 | internal/daemon/legacy.go:179-249 | a v0 success rests on streams that ended well; without telemetry are exactly the names, held by no foreign driver, that have no record |
| EndToEnd.ExportsNeedVettedGroup | internal/daemon/client.go:101-105 | whatever a v1 call exports rests on a group with the configured id, the exporter's metrics, all-device scope and on-demand policy that the daemon returned in this call |
| Client.Client.Ask | internal/daemon/client.go:70-78 | which of the two paths is taken and what their results make of the call |
| Client.Client.RecordDeviceTransitions | internal/daemon/client.go:278-307 | the log of the client is at any time what the run of its successful collections calls for |
| Client.Client.SupplementLegacyStates | internal/daemon/legacy.go:58-99 | every device is supplemented as its own state and the complete lookup say; warnings are the rising edges of the failed flag |
| Client.Client.LookUp | internal/daemon/legacy.go:58-99 | the flag says whether the lookup was needed and failed, and a warning is written only when it was not set |
| Client.SupplementKeepsWhatIsKnown | internal/daemon/legacy.go:58-99 | only unspecified states change, success only turns false, readings stay; a stream error applies none of the records before it, and "not implemented" changes nothing |
| Client.StateAfterLookup | internal/daemon/legacy.go:20-36 | a device stays unspecified exactly if no record of a complete lookup gives it a known status |
| StateNames.V1NumbersAreNamed | internal/collector/device_state_metrics.go:12-19 | against a table of the v1 enum: the current name and the health of every number |
| StateNames.ListedStateIsShown | internal/daemon/client.go:124 | a v1 device is shown in the state that is listed |
| StateNames.RecordedStateIsShown | internal/daemon/legacy.go:20-36 | against a table of the v0 enum: name and health of a v0 device, and "entered degraded" exactly for its fault number |
| StateNames.LookedUpStateIsShown | internal/daemon/legacy.go:83-98 | the same for a v1 device of unspecified state with a record in a complete lookup |
| StateNames.WithoutLookupItFails | internal/daemon/legacy.go:66-94 | without such a record, or if the lookup breaks off, the device keeps its state and counts as not collected; not so if the lookup is not implemented |
| Client.WarningsCountRises | internal/daemon/legacy.go:75-82 | the warnings over any sequence of lookups count the stretches of failed ones |
| Series.BuildLabels | internal/collector/labels.go:73-95 | the labels assigned step by step are, label by label, the device's values, with pod labels only for a compute device |
| Series.NothingStale | internal/collector/npu_collector.go:63-66 | a family holds a series exactly if a listed device sets it |
| Series.SeriesArePerDevice | internal/collector/npu_collector.go:63-66 | with distinct names no device overwrites another's series |
| Exposition.EverySeriesIsCurrent | internal/collector/npu_collector.go:55-66 | every series carries the present labels of a listed device that has a value, and each such device has one |
| Exposition.OneSeriesPerDevice | internal/collector/memory_metrics.go:52-64 | exactly one series with the value for a device that has one, none otherwise |
| Exposition.OneNameIsCurrent | internal/collector/device_state_metrics.go:12-19 | for every int32 state exactly one name is current; it is not_found exactly if health is absent and ready exactly if health is 0 |
| Exposition.StatusIsOneHot | internal/collector/device_state_metrics.go:51-68 | a device has exactly six status series, exactly one of which is 1, in agreement with its health gauge |
| Exposition.LabelsNameTheLeastClaimant | internal/collector/labels.go:84-92 | the pod labels name the least claimant, and nobody if the device is not claimed or not a compute device |
| Exposition.SharingFlag | internal/collector/shared_device_metrics.go:44-60 | the flag of a compute device is 1 exactly if two pods claim it, under labels from the same answer |
| Readouts.FamiliesShowFields | internal/collector/memory_metrics.go:49-65 | in each family a device has one series under its own card, ids, versions and host, with exactly its own field as value, if it is known and, but for health, the device a compute device |
| Readouts.FlagShowsSharing | internal/collector/shared_device_metrics.go:44-60 | in Kubernetes a compute device has the flag 1 exactly if containers of two pods are allocated it, else 0 |
| Readouts.LabelsNameAContainer | internal/collector/labels.go:73-95 | in Kubernetes the series of an allocated compute device names a container that is allocated it, and any other leaves the three labels empty; elsewhere there are none |
| Metrics.MemoryMetric.UpdateMetrics | internal/collector/memory_metrics.go:49-65 | both memory families are set as the devices and one snapshot call for |
| Metrics.UtilizationMetric.UpdateMetrics | internal/collector/utilization_metrics.go:40-49 | the same for utilization |
| Metrics.DeviceHealthMetric.UpdateMetrics | internal/collector/health_metrics.go:32-39 | the same for health |
| Metrics.DeviceStateMetric.UpdateMetrics | internal/collector/device_state_metrics.go:51-68 | the same for the six status series of each device |
| Metrics.DeviceStateMetric.SetStates | internal/collector/device_state_metrics.go:59-66 | one labels map, overwritten for each name in any order, sets one cell per name |
| Metrics.SharedDeviceMetric.UpdateMetrics | internal/collector/shared_device_metrics.go:44-60 | the same for the sharing flag, flag and labels from one snapshot |
| Metrics.SnapshotIs | internal/collector/kubernetes.go:189-194 | a snapshot is the one attribution that its answer calls for |
| MetricList.MetricList.UpdateAll | internal/collector/npu_collector.go:63-66 | after all updates the families are a function of the devices and of kubelet's replies up to each snapshot; the mapper has received exactly those replies, its sharing log included |
| MetricList.SeenInCollection | internal/collector/npu_collector.go:63-66 | every answer the families rest on was the mapper's last one at some moment of the collection |
| MetricList.MetricList.ResetAll | internal/collector/npu_collector.go:57-59 | after a failure nothing is exposed |
| NpuCollector.NPUCollector.GetMetrics | internal/collector/npu_collector.go:52-69 | a failed collection leaves no series, a successful one exactly those of the devices it returned |
| Scheduler.Scheduler.RunOnce | internal/scheduler/scheduler.go:42-52 | the up gauge says whether the collection succeeded; 0 goes with no device series, 1 with exactly those of this collection, under the answers that kubelet's replies in it supplied |
| Scheduler.Scheduler.RunCycle | internal/scheduler/scheduler.go:72-91 | at every cycle boundary: gauge, families, counters and log are what the cycles so far and the last call account for, and no family rests on an answer older than the cycle |
| Scheduler.Scheduler.Account | internal/scheduler/scheduler.go:75-90 | the counters and records of one more cycle |
| SchedulerRuns.FailuresAreConserved | internal/scheduler/scheduler.go:75-90 | what the recovery records report plus the running streak is every failure after the first success |
| SchedulerRuns.StreakIsOutage | internal/scheduler/scheduler.go:80-83 | the streak is exactly the failures since the last success |
| SchedulerRuns.RecordsCarryTheOutage | internal/scheduler/scheduler.go:75-90 | in an outage of n cycles the next record is of failure n+1, or of a recovery from n; a success without an outage writes none |
| SchedulerRuns.WaitIsLogged | internal/scheduler/scheduler.go:97-114 | until the first success each cycle writes exactly one waiting record |
| SchedulerRuns.NoWaitAfterSuccess | internal/scheduler/scheduler.go:76-79 | no waiting record follows a success |
| SchedulerRuns.WaitEscalatesOnce | internal/scheduler/scheduler.go:97-114 | under a clock that does not step back, waiting records go from info to warn at most once and never back |
| SchedulerRuns.WaitIsMeasuredFromFirstReading | internal/scheduler/scheduler.go:97-114 | for every clock: a waiting record is a warning exactly if ten minutes have passed since the first reading that was not the zero time |
| DoubleCounting.NotCountedIff | internal/collector/memory_metrics.go:52-64 | a name is in no memory or utilization family exactly if no device that carries it is a compute device with such a reading |
| DoubleCounting.ParentsDoNotContributeOnV0 | internal/daemon/legacy.go:148-154 | over v0 no device named as the parent of an exported VF contributes to them |
| DoubleCounting.ContributorsOnV1 | internal/daemon/client.go:119-165 | over v1 a name contributes exactly if a listed, non-foreign entry of it is usable, not seen to host VFs, and of known size or with a valid sample |
| DoubleCounting.TotalMemoryOfHostingFunction | internal/daemon/client.go:150-154 | a concrete v1 inventory whose hosting PF has a total memory although it is not a compute device |
| EndToEnd.CountedOnV1 | internal/daemon/partition.go:69-75 | after any successful v1 call, state lookup included, a name is left out of the families exactly if no such entry counts |
| EndToEnd.CountedOnV0 | internal/daemon/legacy.go:121-248 | after any successful v0 call a name is left out of the families exactly if no record of it counts |
| EndToEnd.BothAreCounted | internal/daemon/partition.go:15-31 | a concrete v1 call, without sysfs, after which a VF and its parent are both in the families |
| EndToEnd.ParentsNotCountedOnV0 | internal/daemon/legacy.go:148-154 | after any successful v0 call no memory or utilization series names the parent of an exported VF |

## Left out

- gRPC transport, TLS, contexts, deadlines and retries: every RPC is a reply or an error code.
- Sysfs itself: each read is an arbitrary optional text; only what the code does with the text is modelled.
- The text of PCIe link speed and width: a topology entry carries the numbers it parses to.
- Rounding of floating-point divisions by 1000 and 1e6 and of the conversion of byte counts to floating point: readings are reals.
- Unicode: white space is the ASCII set, and lower-casing touches ASCII letters only.
- Integer widths of VF counts and P-states in messages: unbounded, except where the code checks a range.
- Hardware, power-state, PCIe-link, collection-success and device-info families: they follow the pattern of the modelled ones.
- The names of the families and the environment variable that selects them.
- Scrapes during a collection, and agreement of labels between families of one cycle: the code promises neither, since each metric resets and snapshots for itself.
- Several clients or gateway scrapes of one client at a time: a lock serializes calls, so a run of calls is a sequence.
- Changes of a paged list between two of its pages: a daemon may answer anything, but the pager is modelled over one list.
- Paging.ServePage: an offset token beyond the list, which the original would turn into a crash of the test server, fails the request.
- Saturation of clock differences beyond about 292 years.
- Log levels, attributes and the "selected API" record; a record is modelled where its occurrence is promised.
- The request behind each sync that completes during a collection: any sync may (`MetricList.RunSyncs`); the trigger protocol is stated beside it.
- Changes of a metric group by other tools while exporters run: the protocol machine lets exporters alone change the groups.
