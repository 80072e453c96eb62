/** What the vetting of the metric group says about the daemon's replies, page by page and group by
    group (internal/daemon/metric_group.go). */
module GroupReplies {
  import opened Options
  import opened Paging
  import opened Listings
  import opened MetricGroups

  // ---------------------------------------------------------------------------------------
  // One search
  // ---------------------------------------------------------------------------------------

  ghost predicate Silent(page: Page<MetricGroup>, id: string)
  {
    id !in page.unreachable && forall g :: g in page.items ==> g.id != id
  }

  /** Pages after which the search goes on: none speaks of the group, and each brings a new token. */
  ghost predicate Passed(pages: seq<Page<MetricGroup>>, id: string)
  {
    Fresh(pages) && forall k :: 0 <= k < |pages| ==> Silent(pages[k], id)
  }

  ghost predicate Finds(
    daemon: Daemon<MetricGroup>, id: string, g: MetricGroup, passed: seq<Page<MetricGroup>>, page: Page<MetricGroup>)
  {
    && Received(daemon, passed + [page]) && Passed(passed, id)
    && id !in page.unreachable && g.id == id
    && exists i :: 0 <= i < |page.items| && page.items[i] == g && forall j :: 0 <= j < i ==> page.items[j].id != id
  }

  ghost predicate FindsNone(
    daemon: Daemon<MetricGroup>, id: string, passed: seq<Page<MetricGroup>>, page: Page<MetricGroup>)
  {
    Received(daemon, passed + [page]) && Passed(passed, id) && Silent(page, id) && page.next == ""
  }

  ghost predicate BreaksSearch(daemon: Daemon<MetricGroup>, id: string, code: Code, passed: seq<Page<MetricGroup>>)
  {
    && Received(daemon, passed) && Passed(passed, id)
    && daemon(|passed|, if passed == [] then "" else passed[|passed| - 1].next) == Err(code)
  }

  /** A page that says the group is unreachable, or a silent one that brings an old token. */
  ghost predicate GivesUp(
    daemon: Daemon<MetricGroup>, id: string, passed: seq<Page<MetricGroup>>, page: Page<MetricGroup>)
  {
    && Received(daemon, passed + [page]) && Passed(passed, id)
    && (id in page.unreachable || (Silent(page, id) && page.next != "" && exists k ::
          0 <= k < |passed| && passed[k].next == page.next))
  }

  lemma PathOf(daemon: Daemon<MetricGroup>, id: string, passed: seq<Page<MetricGroup>>, page: Page<MetricGroup>)
    ensures var all := passed + [page];
      && |all| - 1 == |passed| && all[..|all| - 1] == passed && all[|all| - 1] == page
      && (Replies(daemon, all) <==> Received(daemon, all))
      && (DistinctTokens(passed) && NoMention(passed, id) <==> Passed(passed, id))
      && (NoMention(all, id) <==> NoMention(passed, id) && Silent(page, id))
      && (Lists(page, id) <==> exists g :: g in page.items && g.id == id)
  {
    var all := passed + [page];
    RepliesAreReceived(daemon, all);
    PassedPages(passed, id);
    if NoMention(all, id) {
      assert all[|passed|] == page;
      forall k | 0 <= k < |passed| ensures id !in passed[k].unreachable && !Lists(passed[k], id) {
        assert all[k] == passed[k];
      }
    }
  }

  lemma PassedPages(pages: seq<Page<MetricGroup>>, id: string)
    ensures DistinctTokens(pages) && NoMention(pages, id) <==> Passed(pages, id)
  {
    forall k | 0 <= k < |pages|
      ensures Silent(pages[k], id) <==> id !in pages[k].unreachable && !Lists(pages[k], id)
    {
    }
  }

  /** A search returns a group exactly when the daemon's replies lead to a page on which it is the
      first of that id, and no reply before speaks of the id. */
  lemma FoundExactlyOnItsPage(daemon: Daemon<MetricGroup>, id: string, g: MetricGroup)
    ensures Searches(daemon, id, Ok(Some(g))) <==> exists passed, page :: Finds(daemon, id, g, passed, page)
  {
    if Searches(daemon, id, Ok(Some(g))) {
      var pages, stop :| Stops(daemon, id, pages, stop) && Concludes(id, pages, stop, Ok(Some(g)));
      var passed, page := pages[..|pages| - 1], pages[|pages| - 1];
      assert pages == passed + [page];
      PathOf(daemon, id, passed, page);
      assert Finds(daemon, id, g, passed, page);
    }
    if passed, page :| Finds(daemon, id, g, passed, page) {
      var pages := passed + [page];
      PathOf(daemon, id, passed, page);
      assert g in page.items;
      assert Stops(daemon, id, pages, Mentioned) && Concludes(id, pages, Mentioned, Ok(Some(g)));
    }
  }

  /** It returns none exactly when the replies lead to a last page and none speaks of the id. */
  lemma AbsentExactlyOnAllPages(daemon: Daemon<MetricGroup>, id: string)
    ensures Searches(daemon, id, Ok(None)) <==> exists passed, page :: FindsNone(daemon, id, passed, page)
  {
    if Searches(daemon, id, Ok(None)) {
      var pages, stop :| Stops(daemon, id, pages, stop) && Concludes(id, pages, stop, Ok(None));
      var passed, page := pages[..|pages| - 1], pages[|pages| - 1];
      assert pages == passed + [page];
      PathOf(daemon, id, passed, page);
      assert FindsNone(daemon, id, passed, page);
    }
    if passed, page :| FindsNone(daemon, id, passed, page) {
      var pages := passed + [page];
      PathOf(daemon, id, passed, page);
      assert Stops(daemon, id, pages, Ended(Finished)) && Concludes(id, pages, Ended(Finished), Ok(None));
    }
  }

  /** It fails exactly with the error of a request, or on a page that says the group is unreachable
      or repeats a token. */
  lemma FailsExactlyOnBadReply(daemon: Daemon<MetricGroup>, id: string, code: Code)
    ensures Searches(daemon, id, Err(code)) <==>
      (exists passed :: BreaksSearch(daemon, id, code, passed))
      || (code == OtherCode && exists passed, page :: GivesUp(daemon, id, passed, page))
  {
    if Searches(daemon, id, Err(code)) {
      var pages, stop :| Stops(daemon, id, pages, stop) && Concludes(id, pages, stop, Err(code));
      FailureIsSeen(daemon, id, code, pages, stop);
    }
    if passed :| BreaksSearch(daemon, id, code, passed) {
      RepliesAreReceived(daemon, passed);
      PassedPages(passed, id);
      assert Stops(daemon, id, passed, Ended(Failed(code))) && Concludes(id, passed, Ended(Failed(code)), Err(code));
    }
    if code == OtherCode {
      if passed, page :| GivesUp(daemon, id, passed, page) {
        GivingUpIsFailure(daemon, id, passed, page);
      }
    }
  }

  lemma FailureIsSeen(
    daemon: Daemon<MetricGroup>, id: string, code: Code, pages: seq<Page<MetricGroup>>, stop: Stop)
    requires Stops(daemon, id, pages, stop) && Concludes(id, pages, stop, Err(code))
    ensures (exists passed :: BreaksSearch(daemon, id, code, passed))
      || (code == OtherCode && exists passed, page :: GivesUp(daemon, id, passed, page))
  {
    if stop.Ended? && stop.ending.Failed? {
      RepliesAreReceived(daemon, pages);
      PassedPages(pages, id);
      assert BreaksSearch(daemon, id, code, pages);
    } else {
      var passed, page := pages[..|pages| - 1], pages[|pages| - 1];
      assert pages == passed + [page];
      PathOf(daemon, id, passed, page);
      if stop.Ended? {
        var k :| 0 <= k < |pages| - 1 && pages[k].next == page.next;
        assert passed[k] == pages[k];
      }
      assert GivesUp(daemon, id, passed, page);
    }
  }

  lemma GivingUpIsFailure(
    daemon: Daemon<MetricGroup>, id: string, passed: seq<Page<MetricGroup>>, page: Page<MetricGroup>)
    requires GivesUp(daemon, id, passed, page)
    ensures Searches(daemon, id, Err(OtherCode))
  {
    var pages := passed + [page];
    PathOf(daemon, id, passed, page);
    if id in page.unreachable {
      assert Stops(daemon, id, pages, Mentioned) && Concludes(id, pages, Mentioned, Err(OtherCode));
    } else {
      var k :| 0 <= k < |passed| && passed[k].next == page.next;
      assert pages[k] == passed[k];
      assert Stops(daemon, id, pages, Ended(Repeated)) && Concludes(id, pages, Ended(Repeated), Err(OtherCode));
    }
  }

  // ---------------------------------------------------------------------------------------
  // One call
  // ---------------------------------------------------------------------------------------

  /** The group the exporter may sample: of the configured id, with temperature, power, utilization,
      memory in use and p-state, each once and nothing else, of all devices, on demand. */
  ghost predicate MaySample(g: MetricGroup, id: string)
  {
    && g.id == id && multiset(g.metricIds) == multiset{100, 101, 200, 300, 500}
    && g.allDevices && g.onDemand
  }

  /** The last RPC of the call: the search, the creation after it found nothing, or the search after
      that was answered by "already exists". */
  ghost predicate LastReturns(
    service: GroupService, id: string, mayCreate: bool, reply: Result<Option<MetricGroup>>)
  {
    if reply != Ok(None) && Searches(service.first, id, reply) then true
    else if !mayCreate then reply == Ok(None) && Searches(service.first, id, Ok(None))
    else
      && Searches(service.first, id, Ok(None))
      && if service.created == Err(AlreadyExists) then Searches(service.second, id, reply) else reply == service.created
  }

  /** A call is ready exactly when its last RPC returned a group that may be sampled, and refused
      exactly with the error of that RPC, or for want of such a group. */
  lemma EndsAsLastReturned(service: GroupService, id: string, mayCreate: bool, stage: Stage)
    ensures CallEnds(service, id, mayCreate, stage) <==>
      exists reply :: LastReturns(service, id, mayCreate, reply) && EndsOn(reply, id, stage)
  {
    if CallEnds(service, id, mayCreate, stage) {
      var found, foundAgain :| CallEndsWith(service, id, mayCreate, found, foundAgain, stage);
      var last := if mayCreate then LastReply(service, found, foundAgain) else found;
      DrivenByLast(service, id, mayCreate, found, foundAgain, last);
      SamplingIsAcceptable(id, last);
      LastOfCall(service, id, mayCreate, found, foundAgain, last);
      assert LastReturns(service, id, mayCreate, last) && EndsOn(last, id, stage);
    }
    if reply :| LastReturns(service, id, mayCreate, reply) && EndsOn(reply, id, stage) {
      CallWith(service, id, mayCreate, reply, stage);
    }
  }

  ghost predicate EndsOn(reply: Result<Option<MetricGroup>>, id: string, stage: Stage)
  {
    match reply
    case Err(code) => stage == Refused(code)
    case Ok(g) => stage == if g.Some? && MaySample(g.value, id) then Ready else Refused(OtherCode)
  }

  lemma SamplingIsAcceptable(id: string, reply: Result<Option<MetricGroup>>)
    ensures reply.Ok? && reply.value.Some? ==> (Acceptable(reply.value, id) <==> MaySample(reply.value.value, id))
  {
    assert multiset(EXPORTER_METRIC_IDS) == multiset{100, 101, 200, 300, 500};
  }

  lemma LastOfCall(
    service: GroupService, id: string, mayCreate: bool,
    found: Result<Option<MetricGroup>>, foundAgain: Result<Option<MetricGroup>>, last: Result<Option<MetricGroup>>)
    requires Searches(service.first, id, found)
    requires SearchesAgain(id, mayCreate, found, service.created) ==> Searches(service.second, id, foundAgain)
    requires last == if mayCreate then LastReply(service, found, foundAgain) else found
    ensures LastReturns(service, id, mayCreate, last)
  {
  }

  lemma CallWith(
    service: GroupService, id: string, mayCreate: bool, reply: Result<Option<MetricGroup>>, stage: Stage)
    requires LastReturns(service, id, mayCreate, reply) && EndsOn(reply, id, stage)
    ensures CallEnds(service, id, mayCreate, stage)
  {
    var found := if reply != Ok(None) && Searches(service.first, id, reply) then reply else Ok(None);
    var last := if mayCreate then LastReply(service, found, reply) else found;
    assert last == reply;
    DrivenByLast(service, id, mayCreate, found, reply, last);
    SamplingIsAcceptable(id, last);
    assert CallEndsWith(service, id, mayCreate, found, reply, stage);
  }
}
