/** The cache of kubelet's last answer (internal/collector/kubernetes.go, PodResourceMapper).
    Each critical section is one method; the sync loop is the only writer. */
module PodMapper {
  import opened Options
  import opened Text
  import opened Devices
  import opened PodResources
  import opened Allocations
  import opened Attribution
  import W = WakeUp

  datatype Record =
    | DevicesShared(devices: seq<string>)
    | SharingResolved(devices: seq<string>)

  /** The answer of the last List call that succeeded; before the first one nothing is allocated. */
  function LastAnswer(replies: seq<Result<Response>>): Response
  {
    if replies == [] then []
    else if replies[|replies| - 1].Ok? then replies[|replies| - 1].value
    else LastAnswer(replies[..|replies| - 1])
  }

  /** The devices an answer assigns to more than one pod, as a set. */
  ghost function SharedIn(response: Response): set<string>
  {
    var claims := ResponseClaims(None, response);
    set c | c in claims && ClaimedByTwoPods(claims, c.device) :: c.device
  }

  /** The log a run of List calls leaves: one record per successful sync after which the list of
      shared devices differs from the one before, naming the devices now shared, or, when none
      is, those that were. The sorted lists differ exactly when the sets do. */
  ghost function SharingLog(replies: seq<Result<Response>>): seq<Record>
  {
    if replies == [] then []
    else
      var earlier := replies[..|replies| - 1];
      SharingLog(earlier) + Reported(SharedList(earlier), SharedList(replies))
  }

  /** The sorted list of the devices that the last answer assigns to more than one pod. */
  ghost function SharedList(replies: seq<Result<Response>>): seq<string>
  {
    SortedOf(SharedIn(LastAnswer(replies)))
  }

  /** The record of a sync in terms of the shared lists before and after it. */
  function Reported(before: seq<string>, after: seq<string>): seq<Record>
  {
    if before == after then []
    else if |after| > 0 then [DevicesShared(after)]
    else [SharingResolved(before)]
  }

  lemma ReplyStep(replies: seq<Result<Response>>, reply: Result<Response>)
    ensures LastAnswer(replies + [reply]) == if reply.Ok? then reply.value else LastAnswer(replies)
    ensures SharingLog(replies + [reply]) ==
      SharingLog(replies) + Reported(SharedList(replies), SharedList(replies + [reply]))
  {
    assert (replies + [reply])[..|replies|] == replies;
  }

  ghost predicate Follows(
    replies: seq<Result<Response>>, devices: map<string, Claimant>, shared: seq<string>,
    last: Response, log: seq<Record>)
  {
    && last == LastAnswer(replies)
    && IsMappingOf(devices, shared, None, last)
    && log == SharingLog(replies)
  }

  lemma StoringFollows(
    replies: seq<Result<Response>>, devices: map<string, Claimant>, shared: seq<string>,
    last: Response, log: seq<Record>,
    response: Response, devices': map<string, Claimant>, shared': seq<string>)
    requires Follows(replies, devices, shared, last, log)
    requires IsMappingOf(devices', shared', None, response)
    ensures Follows(replies + [Ok(response)], devices', shared', response, log + Reported(shared, shared'))
  {
    SharedSetOf(devices, shared, last);
    SharedSetOf(devices', shared', response);
    ReplyStep(replies, Ok(response));
  }

  lemma FailingFollows(
    replies: seq<Result<Response>>, devices: map<string, Claimant>, shared: seq<string>,
    last: Response, log: seq<Record>,
    code: Code)
    requires Follows(replies, devices, shared, last, log)
    ensures Follows(replies + [Err(code)], devices, shared, last, log)
  {
    ReplyStep(replies, Err(code));
  }

  // The effect of each critical section on the channel and the answer held.

  function Triggered(syncRequests: Option<nat>): Option<nat>
  {
    if syncRequests.None? then None else Some(1)
  }

  function Received(syncRequests: Option<nat>): Option<nat>
  {
    if syncRequests.Some? && syncRequests.value > 0 then Some(syncRequests.value - 1) else syncRequests
  }

  function Stored(lastResponse: Response, reply: Result<Response>): Response
  {
    if reply.Ok? then reply.value else lastResponse
  }

  class PodResourceMapper {
    var podResourcesByDevice: map<string, Claimant>
    var sharedDevices: seq<string>
    /** The requests waiting in the channel of capacity 1; nil in the no-op mapper. */
    var syncRequests: Option<nat>
    var lastResponse: Response
    ghost var replies: seq<Result<Response>>
    ghost var log: seq<Record>

    /** The cached fields are those of the last answer, and the log is that of all answers. */
    ghost predicate Valid()
      reads this
    {
      && (syncRequests.Some? ==> syncRequests.value <= 1)
      && Follows(replies, podResourcesByDevice, sharedDevices, lastResponse, log)
    }

    constructor (noop: bool)
      ensures Valid() && replies == [] && lastResponse == []
      ensures syncRequests == if noop then None else Some(0)
    {
      podResourcesByDevice, sharedDevices, lastResponse := map[], [], [];
      syncRequests := if noop then None else Some(0);
      replies, log := [], [];
    }

    method TriggerSync()
      requires Valid()
      modifies this`syncRequests
      ensures Valid()
      ensures syncRequests == Triggered(old(syncRequests))
    {
      if syncRequests.None? {
        return;
      }
      if syncRequests.value < 1 {
        syncRequests := Some(syncRequests.value + 1);
      }
    }

    /** The sync loop takes the pending request out of the channel. */
    method ReceiveRequest()
      requires Valid() && syncRequests.Some? && syncRequests.value > 0
      modifies this`syncRequests
      ensures Valid()
      ensures syncRequests == Received(old(syncRequests))
    {
      syncRequests := Some(syncRequests.value - 1);
    }

    /** One turn of the sync loop. */
    method SyncTurn(reply: Result<Response>)
      requires Valid() && syncRequests.Some? && syncRequests.value > 0
      modifies this`syncRequests, this`podResourcesByDevice, this`sharedDevices
      modifies this`lastResponse, this`replies, this`log
      ensures Valid()
      ensures syncRequests == Received(old(syncRequests)) && lastResponse == Stored(old(lastResponse), reply)
    {
      ReceiveRequest();
      var _ := SyncPodResources(reply);
    }

    /** `reply` is what kubelet's List call returned. */
    method SyncPodResources(reply: Result<Response>) returns (ok: bool)
      requires Valid()
      modifies this`podResourcesByDevice, this`sharedDevices, this`lastResponse, this`replies, this`log
      ensures Valid()
      ensures replies == old(replies) + [reply]
      ensures ok == reply.Ok?
      ensures lastResponse == Stored(old(lastResponse), reply) && (!ok ==> log == old(log))
      ensures !ok ==> podResourcesByDevice == old(podResourcesByDevice) && sharedDevices == old(sharedDevices)
    {
      if reply.Err? {
        FailingFollows(replies, podResourcesByDevice, sharedDevices, lastResponse, log, reply.code);
        replies := replies + [reply];
        return false;
      }
      var devices, shared := MapPodResources(reply.value, None);
      Store(reply.value, devices, shared);
      return true;
    }

    /** The sync after kubelet's answer was mapped: the cache, and a record when the list of shared
        devices changed. */
    method Store(response: Response, devices: map<string, Claimant>, shared: seq<string>)
      requires Valid() && IsMappingOf(devices, shared, None, response)
      modifies this`podResourcesByDevice, this`sharedDevices, this`lastResponse, this`replies, this`log
      ensures Valid() && replies == old(replies) + [Ok(response)] && lastResponse == response
    {
      StoringFollows(replies, podResourcesByDevice, sharedDevices, lastResponse, log, response, devices, shared);
      var previouslyShared := sharedDevices;
      ghost var record := ReportSharing(previouslyShared, shared);
      lastResponse, podResourcesByDevice, sharedDevices, replies, log :=
        response, devices, shared, replies + [Ok(response)], log + record;
    }

    method ReportSharing(previouslyShared: seq<string>, shared: seq<string>) returns (ghost record: seq<Record>)
      ensures record == Reported(previouslyShared, shared)
    {
      record := [];
      if previouslyShared != shared {
        if |shared| > 0 {
          record := [DevicesShared(shared)];
        } else {
          record := [SharingResolved(previouslyShared)];
        }
      }
    }

    method SharedSnapshot() returns (devices: map<string, Claimant>, shared: seq<string>)
      requires Valid()
      ensures IsMappingOf(devices, shared, None, lastResponse)
    {
      return podResourcesByDevice, sharedDevices;
    }

    /** Resolves the last answer against the inventory of this collection. */
    method SnapshotFor(inventory: seq<DeviceInfo>) returns (devices: map<string, Claimant>, shared: seq<string>)
      requires Valid()
      ensures IsMappingOf(devices, shared, Some(Current(inventory)), lastResponse)
    {
      devices, shared := MapPodResources(lastResponse, Some(inventory));
    }
  }

  /** What a successful sync adds to the log: nothing while the set of shared devices stays, the
      sorted names of the devices now shared, or, when none is left, of those that were. */
  lemma SharingIsReported(replies: seq<Result<Response>>, response: Response)
    ensures var before, after := SharedIn(LastAnswer(replies)), SharedIn(response);
      var log, all := SharingLog(replies), SharingLog(replies + [Ok(response)]);
      && (before == after ==> all == log)
      && (before != after && after != {} ==>
            |all| == |log| + 1 && log <= all && all[|log|].DevicesShared? && StrictlySorted(all[|log|].devices)
            && (forall d :: d in all[|log|].devices <==> d in after))
      && (before != after && after == {} ==>
            |all| == |log| + 1 && log <= all && all[|log|].SharingResolved? && StrictlySorted(all[|log|].devices)
            && (forall d :: d in all[|log|].devices <==> d in before))
  {
    var before, after := SharedIn(LastAnswer(replies)), SharedIn(response);
    ReplyStep(replies, Ok(response));
    assert forall d :: d in SortedOf(after) <==> d in Elements(SortedOf(after));
    assert forall d :: d in SortedOf(before) <==> d in Elements(SortedOf(before));
    if after != {} {
      var d :| d in after;
      assert d in SortedOf(after);
    }
    if before != after { assert Elements(SortedOf(before)) != Elements(SortedOf(after)); }
  }

  /** A device is shared in an answer exactly when two pods are allocated it, the plugin and DRA taken
      together; a failed sync adds nothing to the log. */
  lemma SharedMeansTwoPods(response: Response, device: string)
    requires device != ""
    ensures device in SharedIn(response) <==> exists a, b :: AllocatesTwo(response, device, a, b)
  {
    var claims := ResponseClaims(None, response);
    forall who ensures Claim(device, who) in claims <==> Allocates(response, who, device) {
      AllocationsAreClaims(response, who, device);
    }
    if ClaimedByTwoPods(claims, device) {
      var x, y :| x in claims && y in claims && x.device == device == y.device && !x.who.SamePod(y.who);
      assert x == Claim(device, x.who) && y == Claim(device, y.who);
      assert AllocatesTwo(response, device, x.who, y.who);
    }
    if a, b :| AllocatesTwo(response, device, a, b) {
      var x, y := Claim(device, a), Claim(device, b);
      assert x in claims && y in claims && !x.who.SamePod(y.who);
      assert ClaimedByTwoPods(claims, device);
    }
  }

  ghost predicate Allocates(response: Response, who: Claimant, device: string)
  {
    (exists resource :: PluginAllocates(response, who, resource, device)) || DraAllocates(response, who, device)
  }

  ghost predicate AllocatesTwo(response: Response, device: string, a: Claimant, b: Claimant)
  {
    Allocates(response, a, device) && Allocates(response, b, device) && (a.namespace != b.namespace || a.name != b.name)
  }

  lemma AllocationsAreClaims(response: Response, who: Claimant, device: string)
    requires device != ""
    ensures Claim(device, who) in ResponseClaims(None, response) <==> Allocates(response, who, device)
  {
    ClaimsAreAllocations(None, response, Claim(device, who));
    if resource :| PluginAllocates(response, who, resource, device) {
      assert Resolved(None, device, resource, false) == device;
      assert ClaimedByPlugin(None, response, Claim(device, who));
    }
    if DraAllocates(response, who, device) {
      assert Resolved(None, device, "", true) == device;
      assert ClaimedByDra(None, response, Claim(device, who));
    }
  }

  // ---------------------------------------------------------------------------------------
  // The mapper in the trigger protocol
  // ---------------------------------------------------------------------------------------

  /** What the methods above leave in the mapper after a run of the protocol, whose steps they are.
      `kubelet` gives kubelet's allocations at each version, `initial` the answer held at first. */
  datatype Fields = Fields(syncRequests: Option<nat>, lastResponse: Response)

  ghost function FieldsAfter(steps: seq<W.Step>, kubelet: nat -> Response, initial: Response): Fields
  {
    if steps == [] then Fields(Some(0), initial)
    else
      var f := FieldsAfter(steps[..|steps| - 1], kubelet, initial);
      match steps[|steps| - 1]
      case Trigger => f.(syncRequests := Triggered(f.syncRequests))
      case TakeRequest => f.(syncRequests := Received(f.syncRequests))
      case ListReturns(ok, version) =>
        f.(lastResponse := Stored(f.lastResponse, if ok then Ok(kubelet(version)) else Err(OtherCode)))
      case _ => f
  }

  /** In every run, however triggers, changes of kubelet, turns of the loop and its cancellation
      interleave, the channel holds the protocol's backlog, and after a successful sync the answer
      held is kubelet's at the version the protocol has cached. */
  lemma {:induction false} FieldsMirrorProtocol(steps: seq<W.Step>, kubelet: nat -> Response, initial: Response)
    requires W.Run(steps).Some?
    ensures var f, s := FieldsAfter(steps, kubelet, initial), W.Run(steps).value;
      f.syncRequests == Some(s.backlog) && (s.lastSyncOk ==> f.lastResponse == kubelet(s.cached))
  {
    if steps != [] {
      FieldsMirrorProtocol(steps[..|steps| - 1], kubelet, initial);
      W.BacklogNeverExceedsOne(steps[..|steps| - 1]);
    }
  }

  /** So in every run a mapper at rest after a successful sync holds kubelet's allocations at a
      version no older than any trigger so far saw. */
  lemma HeldAnswerIsFresh(steps: seq<W.Step>, i: nat, kubelet: nat -> Response, initial: Response)
    returns (version: nat)
    requires W.Run(steps).Some? && i < |steps| && steps[i] == W.Trigger
    requires W.Run(steps).value.phase == W.Waiting && W.Run(steps).value.lastSyncOk
    requires FieldsAfter(steps, kubelet, initial).syncRequests == Some(0)
    ensures FieldsAfter(steps, kubelet, initial).lastResponse == kubelet(version)
    ensures W.Run(steps[..i]).Some? && W.Run(steps[..i]).value.kubelet <= version
  {
    FieldsMirrorProtocol(steps, kubelet, initial);
    W.NoLostUpdate(steps, i);
    version := W.Run(steps).value.cached;
  }

  /** The sorted list of shared devices carries exactly the set: comparing two such lists is
      comparing the sets. */
  lemma SharedSetOf(devices: map<string, Claimant>, shared: seq<string>, response: Response)
    requires IsMappingOf(devices, shared, None, response)
    ensures shared == SortedOf(SharedIn(response))
  {
    forall d ensures d in Elements(shared) <==> d in SharedIn(response) {
      if ClaimedByTwoPods(ResponseClaims(None, response), d) {
        var c :| c in ResponseClaims(None, response) && c.device == d;
      }
    }
    StrictlySortedUnique(shared, SortedOf(SharedIn(response)));
  }
}
