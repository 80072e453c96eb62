/** Finding, creating and vetting the metric group a client samples
    (internal/daemon/metric_group.go). */
module MetricGroups {
  import opened Options
  import opened Paging
  import opened Samples

  datatype MetricGroup = MetricGroup(
    id: string, name: string, metricIds: seq<MetricId>, allDevices: bool, onDemand: bool)

  const EXPORTER_METRIC_IDS: seq<MetricId> :=
    [TEMPERATURE_MILLI_CELSIUS, POWER_MICRO_WATT, UTILIZATION_PERCENT_MILLI, MEMORY_USED_BYTES, PSTATE]

  // ---------------------------------------------------------------------------------------
  // validateMetricGroup
  // ---------------------------------------------------------------------------------------

  /** A group that may be sampled: the configured one, with exactly the exporter's metrics in any
      order, over all devices, on demand. */
  ghost predicate Acceptable(g: Option<MetricGroup>, id: string)
  {
    && g.Some? && g.value.id == id
    && multiset(g.value.metricIds) == multiset(EXPORTER_METRIC_IDS)
    && g.value.allDevices && g.value.onDemand
  }

  ghost predicate Sorted(s: seq<MetricId>)
  {
    forall i, j :: 0 <= i < j < |s| ==> s[i] <= s[j]
  }

  /** `slices.Sort`. */
  method SortInPlace(a: array<MetricId>)
    modifies a
    ensures Sorted(a[..])
    ensures multiset(a[..]) == multiset(old(a[..]))
  {
    for n := 0 to a.Length
      invariant Sorted(a[..n])
      invariant multiset(a[..]) == multiset(old(a[..]))
    {
      Insert(a, n);
    }
    assert a[..a.Length] == a[..];
  }

  /** Moves element n down to its place among the sorted elements before it. */
  method Insert(a: array<MetricId>, n: nat)
    requires n < a.Length && Sorted(a[..n])
    modifies a
    ensures Sorted(a[..n + 1])
    ensures multiset(a[..]) == multiset(old(a[..]))
  {
    var j := n;
    while j > 0 && a[j - 1] > a[j]
      invariant 0 <= j <= n
      invariant forall x, y :: 0 <= x < y <= n && y != j ==> a[x] <= a[y]
      invariant multiset(a[..]) == multiset(old(a[..]))
    {
      a[j - 1], a[j] := a[j], a[j - 1];
      j := j - 1;
    }
  }

  lemma {:induction false} SortedListsAgree(s: seq<MetricId>, t: seq<MetricId>)
    requires Sorted(s) && Sorted(t) && multiset(s) == multiset(t)
    ensures s == t
  {
    SameLength(s, t);
    if s != [] {
      SameFirst(s, t);
      TailMultiset(s);
      TailMultiset(t);
      SortedTail(s);
      SortedTail(t);
      SortedListsAgree(s[1..], t[1..]);
      SameTail(s, t);
    }
  }

  lemma SameLength(s: seq<MetricId>, t: seq<MetricId>)
    requires multiset(s) == multiset(t)
    ensures |s| == |t|
  {
    assert |multiset(s)| == |multiset(t)|;
  }

  lemma SameFirst(s: seq<MetricId>, t: seq<MetricId>)
    requires Sorted(s) && Sorted(t) && multiset(s) == multiset(t) && s != [] && t != []
    ensures s[0] == t[0]
  {
    assert s[0] in multiset(t) && t[0] in multiset(s);
    SortedFirst(s, t[0]);
    SortedFirst(t, s[0]);
  }

  lemma SameTail(s: seq<MetricId>, t: seq<MetricId>)
    requires s != [] && t != [] && s[0] == t[0] && s[1..] == t[1..]
    ensures s == t
  {
    assert s == [s[0]] + s[1..] && t == [t[0]] + t[1..];
  }

  lemma TailMultiset(s: seq<MetricId>)
    requires s != []
    ensures multiset(s[1..]) == multiset(s) - multiset{s[0]}
  {
    assert s == [s[0]] + s[1..];
  }

  lemma SortedTail(s: seq<MetricId>)
    requires s != [] && Sorted(s)
    ensures Sorted(s[1..])
  {
  }

  lemma SortedFirst(s: seq<MetricId>, x: MetricId)
    requires Sorted(s) && x in s
    ensures s[0] <= x
  {
  }

  method ValidateMetricGroup(g: Option<MetricGroup>, id: string) returns (ok: bool)
    ensures ok <==> Acceptable(g, id)
  {
    if g.None? || g.value.id != id {
      return false;
    }
    var same := SameMetrics(g.value.metricIds);
    return same && g.value.allDevices && g.value.onDemand;
  }

  /** Compares sorted copies of the two lists. */
  method SameMetrics(ids: seq<MetricId>) returns (same: bool)
    ensures same <==> multiset(ids) == multiset(EXPORTER_METRIC_IDS)
  {
    var got := new MetricId[|ids|](i requires 0 <= i < |ids| => ids[i]);
    var want := new MetricId[|EXPORTER_METRIC_IDS|](
      i requires 0 <= i < |EXPORTER_METRIC_IDS| => EXPORTER_METRIC_IDS[i]);
    assert got[..] == ids && want[..] == EXPORTER_METRIC_IDS;
    SortInPlace(got);
    SortInPlace(want);
    if multiset(got[..]) == multiset(want[..]) { SortedListsAgree(got[..], want[..]); }
    return got[..] == want[..];
  }

  // ---------------------------------------------------------------------------------------
  // findMetricGroup
  // ---------------------------------------------------------------------------------------

  ghost predicate Lists(page: Page<MetricGroup>, id: string)
  {
    exists g :: g in page.items && g.id == id
  }

  ghost predicate IsFirstWith(items: seq<MetricGroup>, id: string, g: MetricGroup)
  {
    exists i :: 0 <= i < |items| && items[i] == g && g.id == id && forall j :: 0 <= j < i ==> items[j].id != id
  }

  /** Page k is the first to speak of the group. */
  ghost predicate FirstMention(pages: seq<Page<MetricGroup>>, id: string, k: nat)
  {
    && k < |pages| && (id in pages[k].unreachable || Lists(pages[k], id))
    && NoMention(pages[..k], id)
  }

  ghost predicate NoMention(pages: seq<Page<MetricGroup>>, id: string)
  {
    forall k :: 0 <= k < |pages| ==> id !in pages[k].unreachable && !Lists(pages[k], id)
  }

  /** Why a search sends no further request: the last page speaks of the group, or the walk ended
      and no page did. */
  datatype Stop = Mentioned | Ended(ending: Ending)

  /** The search receives exactly these pages. It goes on only under tokens it has not seen. */
  ghost predicate Stops(daemon: Daemon<MetricGroup>, id: string, pages: seq<Page<MetricGroup>>, stop: Stop)
  {
    match stop
    case Mentioned =>
      && |pages| > 0 && Replies(daemon, pages) && DistinctTokens(pages[..|pages| - 1])
      && FirstMention(pages, id, |pages| - 1)
    case Ended(ending) => Walk(daemon, pages, ending) && NoMention(pages, id)
  }

  /** What the search makes of them: an error if the page cannot vouch for the group, the first
      group of that id on it, or the outcome of the walk. */
  ghost predicate Concludes(id: string, pages: seq<Page<MetricGroup>>, stop: Stop, result: Result<Option<MetricGroup>>)
  {
    match stop
    case Mentioned =>
      |pages| > 0 &&
      var page := pages[|pages| - 1];
      if id in page.unreachable then result == Err(OtherCode)
      else result.Ok? && result.value.Some? && IsFirstWith(page.items, id, result.value.value)
    case Ended(ending) => result == Outcome(pages, ending, None)
  }

  ghost predicate Searches(daemon: Daemon<MetricGroup>, id: string, result: Result<Option<MetricGroup>>)
  {
    exists pages, stop :: Stops(daemon, id, pages, stop) && Concludes(id, pages, stop, result)
  }

  function SearchRequests(pages: seq<Page<MetricGroup>>, stop: Stop): nat
  {
    match stop
    case Mentioned => |pages|
    case Ended(ending) => Requests(pages, ending)
  }

  /** However the daemon answers, a search sends at most one request more than there are tokens. */
  lemma SearchRequestsBounded(
    daemon: Daemon<MetricGroup>, id: string, pages: seq<Page<MetricGroup>>, stop: Stop, tokens: set<string>)
    requires TokensIn(daemon, tokens)
    requires Stops(daemon, id, pages, stop)
    ensures SearchRequests(pages, stop) <= |tokens| + 1
  {
    match stop
    case Ended(ending) =>
      RequestsBounded(daemon, pages, ending, tokens);
    case Mentioned =>
      var path := pages[..|pages| - 1];
      forall k | 0 <= k < |path| ensures path[k].next in tokens {
        assert IsReply(daemon, pages, k);
      }
      DistinctTokensCount(path);
      SubsetIsNoLarger(TokensOf(path), tokens);
  }

  /** The daemon's answers determine the pages the search receives and why it stops. */
  lemma SearchUnique(
    daemon: Daemon<MetricGroup>, id: string, p: seq<Page<MetricGroup>>, a: Stop, q: seq<Page<MetricGroup>>, b: Stop)
    requires Stops(daemon, id, p, a) && Stops(daemon, id, q, b)
    ensures p == q && a == b
  {
    StopsNoLater(daemon, id, p, a, q, b);
    StopsNoLater(daemon, id, q, b, p, a);
    SamePrefix(daemon, p, q, |p|);
    assert p == q;
    if a.Ended? && b.Ended? {
      WalkUnique(daemon, p, a.ending, q, b.ending);
    }
  }

  lemma StopsNoLater(
    daemon: Daemon<MetricGroup>, id: string, p: seq<Page<MetricGroup>>, a: Stop, q: seq<Page<MetricGroup>>, b: Stop)
    requires Stops(daemon, id, p, a) && Stops(daemon, id, q, b)
    ensures |q| <= |p|
  {
    var n := |p|;
    if n < |q| {
      SamePrefix(daemon, p, q, n);
      assert q[..n] == p;
      GoesOn(daemon, id, q, b, n);
      assert false;
    }
  }

  /** Before its last page a search has met no mention, no empty and no repeated token. */
  lemma GoesOn(daemon: Daemon<MetricGroup>, id: string, pages: seq<Page<MetricGroup>>, stop: Stop, n: nat)
    requires Stops(daemon, id, pages, stop) && n < |pages|
    ensures NoMention(pages[..n], id) && DistinctTokens(pages[..n])
    ensures daemon(n, TokenAt(pages[..n], n)).Ok?
  {
    var path := pages[..|pages| - 1];
    assert IsReply(daemon, pages, n);
    assert TokenAt(pages[..n], n) == TokenAt(pages, n);
    assert forall k :: 0 <= k < n ==> pages[..n][k] == path[k] == pages[k];
  }

  /** So there is one result. */
  lemma SearchesOnce(
    daemon: Daemon<MetricGroup>, id: string, r: Result<Option<MetricGroup>>, r': Result<Option<MetricGroup>>)
    requires Searches(daemon, id, r) && Searches(daemon, id, r')
    ensures r == r'
  {
    var p, a :| Stops(daemon, id, p, a) && Concludes(id, p, a, r);
    var q, b :| Stops(daemon, id, q, b) && Concludes(id, q, b, r');
    SearchUnique(daemon, id, p, a, q, b);
  }

  method FindMetricGroup(daemon: Daemon<MetricGroup>, id: string, ghost tokens: set<string>)
    returns (result: Result<Option<MetricGroup>>)
    requires TokensIn(daemon, tokens)
    ensures Searches(daemon, id, result)
  {
    ghost var pages, stop;
    result, pages, stop := WalkMetricGroups(daemon, id, tokens);
  }

  /** The loop of the search. */
  method WalkMetricGroups(daemon: Daemon<MetricGroup>, id: string, ghost tokens: set<string>)
    returns (result: Result<Option<MetricGroup>>, ghost pages: seq<Page<MetricGroup>>, ghost stop: Stop)
    requires TokensIn(daemon, tokens)
    ensures Stops(daemon, id, pages, stop) && Concludes(id, pages, stop, result)
  {
    var token := "";
    var seen: set<string> := {};
    var k := 0;
    pages := [];
    while true
      invariant k == |pages| && token == TokenAt(pages, k)
      invariant Walking(daemon, pages, seen, tokens)
      invariant NoMention(pages, id)
      decreases |tokens| - |seen|
    {
      var r := daemon(k, token);
      if r.Err? {
        return Err(r.code), pages, Ended(Failed(r.code));
      }
      var page := r.value;
      RepliesGrow(daemon, pages, page);
      NextPage(daemon, pages, seen, tokens, page);
      assert (pages + [page])[..|pages|] == pages;
      var spoken, answer := ReadPage(page, id);
      pages := pages + [page];
      if spoken {
        return answer, pages, Mentioned;
      }
      token := page.next;
      if token == "" {
        return Ok(None), pages, Ended(Finished);
      }
      if token in seen {
        return Err(OtherCode), pages, Ended(Repeated);
      }
      seen := seen + {token};
      k := k + 1;
    }
  }

  /** Whether a page speaks of the group, and what it says. */
  method ReadPage(page: Page<MetricGroup>, id: string) returns (spoken: bool, answer: Result<Option<MetricGroup>>)
    ensures spoken <==> id in page.unreachable || Lists(page, id)
    ensures spoken ==> Concludes(id, [page], Mentioned, answer)
  {
    var refs := RefSet(page.unreachable);
    if id in refs {
      return true, Err(OtherCode);
    }
    for i := 0 to |page.items|
      invariant forall j :: 0 <= j < i ==> page.items[j].id != id
    {
      var g := page.items[i];
      if g.id == id {
        return true, Ok(Some(g));
      }
    }
    return false, Ok(None);
  }

  // ---------------------------------------------------------------------------------------
  // ensureMetricGroup, one RPC at a time
  // ---------------------------------------------------------------------------------------

  datatype Stage = Searching | Creating | SearchingAgain | Ready | Refused(code: Code)

  ghost function Vetted(g: Option<MetricGroup>, id: string): Stage
  {
    if Acceptable(g, id) then Ready else Refused(OtherCode)
  }

  /** Where the client stands after the reply to the RPC of its current stage. */
  ghost function Next(stage: Stage, id: string, mayCreate: bool, reply: Result<Option<MetricGroup>>): Stage
  {
    match (stage, reply)
    case (Searching, Err(code)) => Refused(code)
    case (Searching, Ok(None)) => if mayCreate then Creating else Refused(OtherCode)
    case (Searching, Ok(Some(g))) => Vetted(Some(g), id)
    case (Creating, Err(AlreadyExists)) => SearchingAgain
    case (Creating, Err(code)) => Refused(code)
    case (Creating, Ok(g)) => Vetted(g, id)
    case (SearchingAgain, Err(code)) => Refused(code)
    case (SearchingAgain, Ok(g)) => Vetted(g, id)
    case _ => stage
  }

  /** The group the exporter asks for. The daemon names it after the idempotency key. */
  function Requested(id: string): MetricGroup
  {
    MetricGroup(id, "rbln-metrics-exporter", EXPORTER_METRIC_IDS, true, true)
  }

  /** The RPCs of one call: the two searches and the reply to the creation between them. */
  datatype GroupService = GroupService(
    first: Daemon<MetricGroup>,
    created: Result<Option<MetricGroup>>,
    second: Daemon<MetricGroup>)

  /** The call ends at a stage with what its own RPCs returned, `found` and, if the group was
      created by another client in between, `foundAgain`. */
  ghost predicate CallEnds(service: GroupService, id: string, mayCreate: bool, stage: Stage)
  {
    exists found, foundAgain :: CallEndsWith(service, id, mayCreate, found, foundAgain, stage)
  }

  ghost predicate CallEndsWith(
    service: GroupService, id: string, mayCreate: bool,
    found: Result<Option<MetricGroup>>, foundAgain: Result<Option<MetricGroup>>, stage: Stage)
  {
    && Searches(service.first, id, found)
    && (SearchesAgain(id, mayCreate, found, service.created) ==> Searches(service.second, id, foundAgain))
    && Driven(id, mayCreate, found, service.created, foundAgain) == stage
  }

  /** The creation was answered by "already exists". */
  predicate SearchesAgain(
    id: string, mayCreate: bool, found: Result<Option<MetricGroup>>, created: Result<Option<MetricGroup>>)
  {
    found == Ok(None) && mayCreate && created == Err(AlreadyExists)
  }

  function EndOf(result: Result<()>): Stage
  {
    match result
    case Ok(_) => Ready
    case Err(code) => Refused(code)
  }

  /** The reply to the last RPC of a call that was not refused before. */
  function LastReply(
    service: GroupService, found: Result<Option<MetricGroup>>, foundAgain: Result<Option<MetricGroup>>)
    : Result<Option<MetricGroup>>
  {
    if found != Ok(None) then found
    else if service.created == Err(AlreadyExists) then foundAgain
    else service.created
  }

  /** A call that ends ready holds an acceptable group that the last RPC it made returned. */
  lemma ReadyMeansReturned(
    service: GroupService, id: string, mayCreate: bool,
    found: Result<Option<MetricGroup>>, foundAgain: Result<Option<MetricGroup>>)
    requires CallEndsWith(service, id, mayCreate, found, foundAgain, Ready)
    ensures var last := LastReply(service, found, foundAgain); last.Ok? && Acceptable(last.value, id)
    ensures found == Ok(None) ==> mayCreate
  {
  }

  /** The call succeeds only with an acceptable group in hand that one of its own RPCs returned. */
  method EnsureMetricGroup(service: GroupService, id: string, mayCreate: bool, ghost tokens: set<string>)
    returns (result: Result<()>)
    requires TokensIn(service.first, tokens) && TokensIn(service.second, tokens)
    ensures CallEnds(service, id, mayCreate, EndOf(result))
  {
    var found, last;
    ghost var foundAgain;
    found, last, foundAgain := SearchOrCreate(service, id, mayCreate, tokens);
    if last.Err? {
      result := Err(last.code);
    } else if found == Ok(None) && !mayCreate {
      result := Err(OtherCode);
    } else {
      var ok := ValidateMetricGroup(last.value, id);
      result := if ok then Ok(()) else Err(OtherCode);
    }
    DrivenByLast(service, id, mayCreate, found, foundAgain, last);
    assert CallEndsWith(service, id, mayCreate, found, foundAgain, EndOf(result));
  }

  /** The RPCs of the call; `last` is the reply to the last one made. */
  method SearchOrCreate(service: GroupService, id: string, mayCreate: bool, ghost tokens: set<string>)
    returns (found: Result<Option<MetricGroup>>, last: Result<Option<MetricGroup>>,
             ghost foundAgain: Result<Option<MetricGroup>>)
    requires TokensIn(service.first, tokens) && TokensIn(service.second, tokens)
    ensures Searches(service.first, id, found)
    ensures SearchesAgain(id, mayCreate, found, service.created) ==> Searches(service.second, id, foundAgain)
    ensures last == if mayCreate then LastReply(service, found, foundAgain) else found
  {
    found := FindMetricGroup(service.first, id, tokens);
    last, foundAgain := found, Ok(None);
    if found == Ok(None) && mayCreate {
      last := service.created;
      if service.created == Err(AlreadyExists) {
        last := FindMetricGroup(service.second, id, tokens);
        foundAgain := last;
      }
    }
  }

  /** The stage at which a call ends follows from the last reply alone. */
  lemma DrivenByLast(
    service: GroupService, id: string, mayCreate: bool,
    found: Result<Option<MetricGroup>>, foundAgain: Result<Option<MetricGroup>>, last: Result<Option<MetricGroup>>)
    requires last == if mayCreate then LastReply(service, found, foundAgain) else found
    ensures Driven(id, mayCreate, found, service.created, foundAgain) ==
      if last.Err? then Refused(last.code) else Vetted(last.value, id)
  {
    if found == Ok(None) && mayCreate {
      assert Next(Searching, id, mayCreate, found) == Creating;
      if service.created == Err(AlreadyExists) {
        assert last == foundAgain;
      } else {
        assert last == service.created;
      }
    } else {
      assert last == found;
    }
  }

  /** A call ends at one stage only: readiness rules out every refusal. */
  lemma CallEndsOnce(service: GroupService, id: string, mayCreate: bool, a: Stage, b: Stage)
    requires CallEnds(service, id, mayCreate, a) && CallEnds(service, id, mayCreate, b)
    ensures a == b
  {
    var f, fa :| CallEndsWith(service, id, mayCreate, f, fa, a);
    var g, ga :| CallEndsWith(service, id, mayCreate, g, ga, b);
    SearchesOnce(service.first, id, f, g);
    if SearchesAgain(id, mayCreate, f, service.created) {
      SearchesOnce(service.second, id, fa, ga);
    }
    OnlyItsRepliesMatter(id, mayCreate, f, service.created, fa, ga);
  }

  lemma OnlyItsRepliesMatter(
    id: string, mayCreate: bool, found: Result<Option<MetricGroup>>, created: Result<Option<MetricGroup>>,
    a: Result<Option<MetricGroup>>, b: Result<Option<MetricGroup>>)
    requires SearchesAgain(id, mayCreate, found, created) ==> a == b
    ensures Driven(id, mayCreate, found, created, a) == Driven(id, mayCreate, found, created, b)
  {
  }

  ghost function Driven(
    id: string, mayCreate: bool,
    found: Result<Option<MetricGroup>>, created: Result<Option<MetricGroup>>,
    foundAgain: Result<Option<MetricGroup>>): Stage
  {
    var a := Next(Searching, id, mayCreate, found);
    if a != Creating then a
    else
      var b := Next(a, id, mayCreate, created);
      if b != SearchingAgain then b else Next(b, id, mayCreate, foundAgain)
  }
}
