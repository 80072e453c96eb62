/** Several exporters sharing one daemon: the client stages of internal/daemon/metric_group.go
    interleaved freely, one RPC at a time, against the group handlers of
    internal/smdtest/server.go. */
module GroupProtocol {
  import opened Options
  import opened Paging
  import opened MetricGroups

  /** The daemon side. */
  class Server {
    var groups: map<string, MetricGroup>
    var created: seq<string>

    constructor ()
      ensures groups == map[] && created == []
    {
      groups, created := map[], [];
    }

    method CreateMetricGroup(g: MetricGroup) returns (reply: Result<Option<MetricGroup>>)
      modifies this
      ensures (groups, reply) == Create(old(groups), g)
      ensures created == old(created) + if reply.Ok? then [g.id] else []
    {
      if g.id in groups {
        return Err(AlreadyExists);
      }
      created := created + [g.id];
      groups := groups[g.id := g];
      return Ok(Some(g));
    }

    /** One page with every group, in the arbitrary order of a Go map. */
    method ListMetricGroups() returns (items: seq<MetricGroup>)
      ensures forall g :: g in items <==> g in groups.Values
    {
      items := [];
      var rest := groups.Keys;
      while rest != {}
        invariant rest <= groups.Keys
        invariant forall g :: g in items <==> exists k :: k in groups.Keys - rest && groups[k] == g
        decreases |rest|
      {
        var k :| k in rest;
        items := items + [groups[k]];
        rest := rest - {k};
      }
    }

    method SampleMetrics(id: string) returns (reply: Result<()>)
      ensures reply == SampleReply(groups, id)
    {
      return if id in groups then Ok(()) else Err(NotFound);
    }
  }

  function Create(
    groups: map<string, MetricGroup>, g: MetricGroup): (map<string, MetricGroup>, Result<Option<MetricGroup>>)
  {
    if g.id in groups then (groups, Err(AlreadyExists)) else (groups[g.id := g], Ok(Some(g)))
  }

  /** A group that is not stored cannot be sampled. */
  function SampleReply(groups: map<string, MetricGroup>, id: string): Result<()>
  {
    if id in groups then Ok(()) else Err(NotFound)
  }

  /** What a search over the listed groups returns. Groups are stored under their own id. */
  function Found(groups: map<string, MetricGroup>, id: string): Result<Option<MetricGroup>>
  {
    Ok(if id in groups then Some(groups[id]) else None)
  }

  ghost predicate Keyed(groups: map<string, MetricGroup>)
  {
    forall k :: k in groups ==> groups[k].id == k
  }

  /** `samples` counts the cycles in which the exporter sampled, `steps` its RPCs. */
  datatype Exporter = Exporter(id: string, mayCreate: bool, stage: Stage, samples: nat, steps: nat)

  datatype System = System(groups: map<string, MetricGroup>, creates: seq<string>, exporters: seq<Exporter>)

  /** The next RPC of exporter i. After sampling, or after a refusal, its next cycle begins. */
  ghost function Step(s: System, i: nat): System
    requires i < |s.exporters|
  {
    var e := s.exporters[i].(steps := s.exporters[i].steps + 1);
    match e.stage
    case Searching | SearchingAgain =>
      s.(exporters := s.exporters[i := e.(stage := Next(e.stage, e.id, e.mayCreate, Found(s.groups, e.id)))])
    case Creating =>
      var (groups, reply) := Create(s.groups, Requested(e.id));
      System(groups, s.creates + (if reply.Ok? then [e.id] else []),
             s.exporters[i := e.(stage := Next(e.stage, e.id, e.mayCreate, reply))])
    case Ready =>
      s.(exporters := s.exporters[i :=
        if SampleReply(s.groups, e.id).Ok? then e.(stage := Searching, samples := e.samples + 1)
        else e.(stage := Searching)])
    case Refused(_) =>
      s.(exporters := s.exporters[i := e.(stage := Searching)])
  }

  /** A schedule names, in order, the exporters that take a step. */
  ghost predicate IsSchedule(schedule: seq<nat>, s: System)
  {
    forall k :: 0 <= k < |schedule| ==> schedule[k] < |s.exporters|
  }

  ghost function Run(s: System, schedule: seq<nat>): (r: System)
    requires IsSchedule(schedule, s)
    ensures |r.exporters| == |s.exporters|
  {
    if schedule == [] then s else Step(Run(s, schedule[..|schedule| - 1]), schedule[|schedule| - 1])
  }

  ghost predicate Fresh(s: System)
  {
    && Keyed(s.groups) && s.creates == []
    && forall i :: 0 <= i < |s.exporters| ==>
         s.exporters[i].stage == Searching && s.exporters[i].samples == 0 && s.exporters[i].steps == 0
  }

  function Count(xs: seq<string>, x: string): nat
  {
    if xs == [] then 0 else Count(xs[..|xs| - 1], x) + if xs[|xs| - 1] == x then 1 else 0
  }

  /** A step touches one exporter, and the groups only by creating an absent one. */
  lemma StepEffect(s: System, i: nat)
    requires i < |s.exporters|
    ensures var t, e := Step(s, i), s.exporters[i];
      && |t.exporters| == |s.exporters|
      && (forall j :: 0 <= j < |s.exporters| && j != i ==> t.exporters[j] == s.exporters[j])
      && t.exporters[i].id == e.id && t.exporters[i].mayCreate == e.mayCreate && t.exporters[i].steps == e.steps + 1
      && if e.stage == Creating && e.id !in s.groups
         then t.groups == s.groups[e.id := Requested(e.id)] && t.creates == s.creates + [e.id]
         else t.groups == s.groups && t.creates == s.creates
  {
  }

  ghost predicate CreatedOnce(s: System, r: System, id: string)
  {
    && Count(r.creates, id) == (if id in r.groups && id !in s.groups then 1 else 0)
    && (id in s.groups ==> id in r.groups && r.groups[id] == s.groups[id])
    && (id in r.groups && id !in s.groups ==> r.groups[id] == Requested(id))
  }

  lemma CountOfAppend(xs: seq<string>, y: string, x: string)
    ensures Count(xs + [y], x) == Count(xs, x) + if y == x then 1 else 0
  {
    assert (xs + [y])[..|xs|] == xs;
  }

  /** In every interleaving a group is created at most once, and only if it was absent; a group
      that was there stays as it was. */
  lemma {:induction false} AtMostOneCreate(s: System, schedule: seq<nat>, id: string)
    requires Fresh(s) && IsSchedule(schedule, s)
    ensures CreatedOnce(s, Run(s, schedule), id)
  {
    if schedule != [] {
      var earlier, i := schedule[..|schedule| - 1], schedule[|schedule| - 1];
      AtMostOneCreate(s, earlier, id);
      var before := Run(s, earlier);
      StepEffect(before, i);
      CountOfAppend(before.creates, before.exporters[i].id, id);
    }
  }

  lemma RequestedIsAcceptable(id: string)
    ensures Acceptable(Some(Requested(id)), id)
  {
  }

  /** The group an exporter is after can be had: present and acceptable, or absent and creatable. */
  ghost predicate Attainable(groups: map<string, MetricGroup>, e: Exporter)
  {
    if e.id in groups then Acceptable(Some(groups[e.id]), e.id) else e.mayCreate
  }

  function Rank(stage: Stage): nat
  {
    match stage
    case Searching => 0
    case Creating => 1
    case SearchingAgain => 2
    case Ready => 3
    case Refused(_) => 0
  }

  ghost predicate OnTrack(groups: map<string, MetricGroup>, e: Exporter)
  {
    && !e.stage.Refused?
    && (e.stage == SearchingAgain || e.stage == Ready ==> e.id in groups)
    && e.steps <= 4 * e.samples + Rank(e.stage)
  }

  /** One step of the exporter itself, its group being absent or acceptable. */
  lemma OwnStepStaysOnTrack(s: System, i: nat)
    requires i < |s.exporters|
    requires OnTrack(s.groups, s.exporters[i]) && Attainable(s.groups, s.exporters[i])
    ensures OnTrack(Step(s, i).groups, Step(s, i).exporters[i])
  {
    RequestedIsAcceptable(s.exporters[i].id);
  }

  /** If its group starts absent or acceptable, an exporter that may create it is never refused,
      whatever the others do, and samples in every cycle: four of its own RPCs at most separate
      two samples. */
  lemma {:induction false} EveryExporterSamples(s: System, schedule: seq<nat>, i: nat)
    requires Fresh(s) && IsSchedule(schedule, s)
    requires i < |s.exporters| && Attainable(s.groups, s.exporters[i])
    ensures var r := Run(s, schedule);
      && r.exporters[i].id == s.exporters[i].id && r.exporters[i].mayCreate == s.exporters[i].mayCreate
      && OnTrack(r.groups, r.exporters[i])
  {
    if schedule != [] {
      var earlier, k := schedule[..|schedule| - 1], schedule[|schedule| - 1];
      EveryExporterSamples(s, earlier, i);
      var before := Run(s, earlier);
      StepEffect(before, k);
      AtMostOneCreate(s, earlier, s.exporters[i].id);
      RequestedIsAcceptable(s.exporters[i].id);
      if k == i { OwnStepStaysOnTrack(before, i); }
    }
  }

  lemma SamplesKeepPace(s: System, schedule: seq<nat>, i: nat)
    requires Fresh(s) && IsSchedule(schedule, s)
    requires i < |s.exporters| && Attainable(s.groups, s.exporters[i])
    ensures var e := Run(s, schedule).exporters[i];
      !e.stage.Refused? && e.steps <= 4 * e.samples + 3
  {
    EveryExporterSamples(s, schedule, i);
  }

  ghost predicate Barred(s: System, r: System, i: nat)
    requires i < |s.exporters| == |r.exporters|
  {
    var e := r.exporters[i];
    && e.id == s.exporters[i].id && e.samples == 0 && (e.stage == Searching || e.stage.Refused?)
  }

  lemma OwnStepStaysBarred(s: System, r: System, i: nat)
    requires i < |s.exporters| == |r.exporters|
    requires Barred(s, r, i)
    requires s.exporters[i].id in r.groups && !Acceptable(Some(r.groups[s.exporters[i].id]), s.exporters[i].id)
    ensures Barred(s, Step(r, i), i)
  {
  }

  /** A group that is present and not acceptable is never sampled. */
  lemma {:induction false} UnacceptableIsNeverSampled(s: System, schedule: seq<nat>, i: nat)
    requires Fresh(s) && IsSchedule(schedule, s)
    requires i < |s.exporters|
    requires var e := s.exporters[i]; e.id in s.groups && !Acceptable(Some(s.groups[e.id]), e.id)
    ensures Barred(s, Run(s, schedule), i)
  {
    if schedule != [] {
      var earlier, k := schedule[..|schedule| - 1], schedule[|schedule| - 1];
      UnacceptableIsNeverSampled(s, earlier, i);
      var before := Run(s, earlier);
      StepEffect(before, k);
      AtMostOneCreate(s, earlier, s.exporters[i].id);
      if k == i { OwnStepStaysBarred(s, before, i); }
    }
  }

  // ---------------------------------------------------------------------------------------
  // The machine and the client's code
  // ---------------------------------------------------------------------------------------

  /** The daemon answers every list request with one page that holds exactly these groups. */
  ghost predicate Serves(daemon: Daemon<MetricGroup>, items: seq<MetricGroup>, groups: map<string, MetricGroup>)
  {
    && (forall g :: g in items <==> g in groups.Values)
    && (forall k, token :: daemon(k, token) == Ok(Page(items, [], "")))
  }

  /** The client's search over that page finds what the machine says. */
  lemma SearchOfListing(
    daemon: Daemon<MetricGroup>, items: seq<MetricGroup>, groups: map<string, MetricGroup>, id: string,
    result: Result<Option<MetricGroup>>)
    requires Keyed(groups) && Serves(daemon, items, groups)
    requires Searches(daemon, id, result)
    ensures result == Found(groups, id)
  {
    var pages, stop :| Stops(daemon, id, pages, stop) && Concludes(id, pages, stop, result);
    OnePage(daemon, Page(items, [], ""), id, pages, stop);
    if id in groups { assert groups[id] in groups.Values && Lists(pages[0], id); }
    assert Lists(pages[0], id) ==> id in groups;
    assert forall g :: IsFirstWith(items, id, g) ==> g in groups.Values;
  }

  lemma OnePage(
    daemon: Daemon<MetricGroup>, page: Page<MetricGroup>, id: string, pages: seq<Page<MetricGroup>>, stop: Stop)
    requires page.next == "" && forall k, token :: daemon(k, token) == Ok(page)
    requires Stops(daemon, id, pages, stop)
    ensures pages == [page]
    ensures stop == if id in page.unreachable || Lists(page, id) then Mentioned else Ended(Finished)
  {
    assert IsReply(daemon, [page], 0);
    assert [page][..0] == [];
    SearchUnique(daemon, id, pages, stop, [page],
      if id in page.unreachable || Lists(page, id) then Mentioned else Ended(Finished));
  }

  /** The moments of one call of exporter i: `first` when it searches, `second` when it would create,
      `third` when it would search again. In between the other exporters take any steps. */
  ghost predicate Moments(first: System, mid: seq<nat>, second: System, post: seq<nat>, third: System, i: nat)
  {
    && i < |first.exporters| && Keyed(first.groups)
    && OthersRun(Step(first, i), mid, second, i)
    && OthersRun(Step(second, i), post, third, i)
  }

  ghost predicate OthersRun(s: System, schedule: seq<nat>, r: System, i: nat)
  {
    IsSchedule(schedule, s) && i !in schedule && r == Run(s, schedule)
  }

  lemma {:induction false} OthersLeaveAlone(s: System, schedule: seq<nat>, i: nat)
    requires IsSchedule(schedule, s) && i !in schedule && i < |s.exporters| && Keyed(s.groups)
    ensures Run(s, schedule).exporters[i] == s.exporters[i] && Keyed(Run(s, schedule).groups)
  {
    if schedule != [] {
      var earlier, k := schedule[..|schedule| - 1], schedule[|schedule| - 1];
      OthersLeaveAlone(s, earlier, i);
      StepEffect(Run(s, earlier), k);
    }
  }

  /** What the RPCs of the call answer on this server: a listing of what is stored at the first
      moment, the reply to the creation at the second, a listing at the third. */
  ghost predicate Answers(service: GroupService, first: System, second: System, third: System, id: string)
  {
    && (exists items :: Serves(service.first, items, first.groups))
    && service.created == Create(second.groups, Requested(id)).1
    && (exists items :: Serves(service.second, items, third.groups))
  }

  /** A call of the client's code against this server ends where the machine's exporter ends,
      whatever the other exporters do between its RPCs: after its search, after the creation, or,
      if another exporter created the group in between, after the second search. */
  lemma CallIsMachineRun(
    service: GroupService, first: System, mid: seq<nat>, second: System, post: seq<nat>, third: System,
    i: nat, stage: Stage)
    requires Moments(first, mid, second, post, third, i) && first.exporters[i].stage == Searching
    requires Answers(service, first, second, third, first.exporters[i].id)
    requires CallEnds(service, first.exporters[i].id, first.exporters[i].mayCreate, stage)
    ensures i < |second.exporters| == |third.exporters|
    ensures stage ==
      if second.exporters[i].stage != Creating then second.exporters[i].stage
      else if third.exporters[i].stage != SearchingAgain then third.exporters[i].stage
      else Step(third, i).exporters[i].stage
  {
    var e := first.exporters[i];
    ReachesMoments(first, mid, second, post, third, i);
    var found, foundAgain :| CallEndsWith(service, e.id, e.mayCreate, found, foundAgain, stage);
    var items :| Serves(service.first, items, first.groups);
    SearchOfListing(service.first, items, first.groups, e.id, found);
    if SearchesAgain(e.id, e.mayCreate, found, service.created) {
      var again :| Serves(service.second, again, third.groups);
      SearchOfListing(service.second, again, third.groups, e.id, foundAgain);
    }
    DrivenByMoments(first, second, third, e.id, e.mayCreate, foundAgain);
  }

  /** The exporter arrives at each moment as its own last step left it. */
  lemma ReachesMoments(first: System, mid: seq<nat>, second: System, post: seq<nat>, third: System, i: nat)
    requires Moments(first, mid, second, post, third, i)
    ensures i < |second.exporters| == |third.exporters| && Keyed(third.groups)
    ensures second.exporters[i] == Step(first, i).exporters[i] && third.exporters[i] == Step(second, i).exporters[i]
  {
    StepEffect(first, i);
    OthersLeaveAlone(Step(first, i), mid, i);
    StepEffect(second, i);
    OthersLeaveAlone(Step(second, i), post, i);
  }

  lemma DrivenByMoments(
    first: System, second: System, third: System, id: string, mayCreate: bool, foundAgain: Result<Option<MetricGroup>>)
    requires var a := Next(Searching, id, mayCreate, Found(first.groups, id));
      a == Creating && Next(a, id, mayCreate, Create(second.groups, Requested(id)).1) == SearchingAgain ==>
        foundAgain == Found(third.groups, id)
    ensures
      Driven(id, mayCreate, Found(first.groups, id), Create(second.groups, Requested(id)).1, foundAgain) ==
        var a := Next(Searching, id, mayCreate, Found(first.groups, id));
        var b := Next(a, id, mayCreate, Create(second.groups, Requested(id)).1);
        if a != Creating then a else if b != SearchingAgain then b
        else Next(b, id, mayCreate, Found(third.groups, id))
  {
  }
}
