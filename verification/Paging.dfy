/** Token paging: the client loops of internal/daemon/client.go against an arbitrary daemon, and
    against the offset-token pager of internal/smdtest/server.go. */
module Paging {
  import opened Options
  import opened Text
  import opened Decimal
  import opened Devices
  import opened Inventory

  /** One reply. `unreachable` names the entities the daemon could not read for this page. */
  datatype Page<+T> = Page(items: seq<T>, unreachable: seq<string>, next: string)

  /** What the daemon answers to the k-th request of a loop, which carries the given token. */
  type Daemon<!T> = (nat, string) -> Result<Page<T>>

  /** All continuation tokens come from a finite set. Messages are bounded in size, so every
      daemon has such a set; the code does not know it. */
  ghost predicate TokensIn<T(!new)>(daemon: Daemon<T>, tokens: set<string>)
  {
    forall k, token :: daemon(k, token).Ok? && daemon(k, token).value.next != "" ==>
      daemon(k, token).value.next in tokens
  }

  // ---------------------------------------------------------------------------------------
  // Walks along the token path
  // ---------------------------------------------------------------------------------------

  datatype Ending = Finished | Failed(code: Code) | Repeated

  function TokenAt<T>(pages: seq<Page<T>>, k: nat): string
    requires k <= |pages|
  {
    if k == 0 then "" else pages[k - 1].next
  }

  /** Page k is the reply to request k, sent with the token of the page before it. */
  ghost predicate IsReply<T>(daemon: Daemon<T>, pages: seq<Page<T>>, k: nat)
    requires k < |pages|
  {
    daemon(k, TokenAt(pages, k)) == Ok(pages[k])
  }

  ghost predicate Replies<T>(daemon: Daemon<T>, pages: seq<Page<T>>)
  {
    forall k {:trigger IsReply(daemon, pages, k)} :: 0 <= k < |pages| ==> IsReply(daemon, pages, k)
  }

  ghost predicate DistinctTokens<T>(pages: seq<Page<T>>)
  {
    && (forall k :: 0 <= k < |pages| ==> pages[k].next != "")
    && (forall i, k :: 0 <= i < k < |pages| ==> pages[i].next != pages[k].next)
  }

  ghost predicate Walk<T>(daemon: Daemon<T>, pages: seq<Page<T>>, ending: Ending)
  {
    && Replies(daemon, pages)
    && match ending
       case Failed(code) =>
         DistinctTokens(pages) && daemon(|pages|, TokenAt(pages, |pages|)) == Err(code)
       case Finished =>
         |pages| > 0 && DistinctTokens(pages[..|pages| - 1]) && pages[|pages| - 1].next == ""
       case Repeated =>
         && |pages| > 0 && DistinctTokens(pages[..|pages| - 1]) && pages[|pages| - 1].next != ""
         && exists k :: 0 <= k < |pages| - 1 && pages[k].next == pages[|pages| - 1].next
  }

  function Requests<T>(pages: seq<Page<T>>, ending: Ending): nat
  {
    |pages| + if ending.Failed? then 1 else 0
  }

  ghost function TokensOf<T>(pages: seq<Page<T>>): set<string>
  {
    set k | 0 <= k < |pages| :: pages[k].next
  }

  lemma {:induction false} DistinctTokensCount<T>(pages: seq<Page<T>>)
    requires DistinctTokens(pages)
    ensures |TokensOf(pages)| == |pages|
  {
    if pages != [] {
      var last := |pages| - 1;
      DistinctTokensCount(pages[..last]);
      assert TokensOf(pages) == TokensOf(pages[..last]) + {pages[last].next};
    }
  }

  lemma SubsetIsNoLarger<T>(a: set<T>, b: set<T>)
    requires a <= b
    ensures |a| <= |b|
  {
    assert b == a + (b - a);
  }

  /** However the daemon answers, a loop sends at most one request more than there are tokens. */
  lemma RequestsBounded<T(!new)>(daemon: Daemon<T>, pages: seq<Page<T>>, ending: Ending, tokens: set<string>)
    requires TokensIn(daemon, tokens)
    requires Walk(daemon, pages, ending)
    ensures Requests(pages, ending) <= |tokens| + 1
  {
    var path := if ending.Failed? then pages else pages[..|pages| - 1];
    forall k | 0 <= k < |path| ensures path[k].next in tokens {
      assert IsReply(daemon, pages, k);
    }
    DistinctTokensCount(path);
    SubsetIsNoLarger(TokensOf(path), tokens);
  }

  /** The daemon's answers determine the walk. */
  lemma WalkUnique<T>(daemon: Daemon<T>, p: seq<Page<T>>, e: Ending, q: seq<Page<T>>, f: Ending)
    requires Walk(daemon, p, e) && Walk(daemon, q, f)
    ensures p == q && e == f
  {
    NoLonger(daemon, p, e, q, f);
    NoLonger(daemon, q, f, p, e);
    SamePrefix(daemon, p, q, |p|);
    assert p == q;
  }

  lemma NoLonger<T>(daemon: Daemon<T>, p: seq<Page<T>>, e: Ending, q: seq<Page<T>>, f: Ending)
    requires Walk(daemon, p, e) && Walk(daemon, q, f)
    ensures |q| <= |p|
  {
    var n := |p|;
    if n < |q| {
      SamePrefix(daemon, p, q, n);
      assert TokenAt(p, n) == TokenAt(q, n);
      assert IsReply(daemon, q, n);
      // The longer walk goes on past p, so the tokens of p are distinct.
      var path := q[..|q| - 1];
      assert DistinctTokens(path);
      forall k | 0 <= k < n ensures path[k].next == p[k].next {
        assert path[k] == q[k] == p[k];
      }
      assert false;
    }
  }

  lemma {:induction false} SamePrefix<T>(daemon: Daemon<T>, p: seq<Page<T>>, q: seq<Page<T>>, n: nat)
    requires Replies(daemon, p) && Replies(daemon, q)
    requires n <= |p| && n <= |q|
    ensures forall k :: 0 <= k < n ==> p[k] == q[k]
  {
    if n > 0 {
      SamePrefix(daemon, p, q, n - 1);
      assert TokenAt(p, n - 1) == TokenAt(q, n - 1);
      assert IsReply(daemon, p, n - 1);
      assert IsReply(daemon, q, n - 1);
    }
  }


  // ---------------------------------------------------------------------------------------
  // listDevices
  // ---------------------------------------------------------------------------------------

  /** The entries of a list that have a name and are not reported unreachable with it. */
  function Usable(items: seq<Entry>, unreachable: set<string>): seq<Entry>
  {
    if items == [] then []
    else
      var d := items[|items| - 1];
      Usable(items[..|items| - 1], unreachable) + if d.name != "" && d.name !in unreachable then [d] else []
  }

  function Collected(pages: seq<Page<Entry>>): seq<Entry>
  {
    if pages == [] then []
    else
      var page := pages[|pages| - 1];
      Collected(pages[..|pages| - 1]) + Usable(page.items, Elements(page.unreachable))
  }

  /** The result of a listing that walked `pages`; a repeated token is an error of no particular
      gRPC code. */
  function Outcome<T, R>(pages: seq<Page<T>>, ending: Ending, value: R): Result<R>
  {
    match ending
    case Finished => Ok(value)
    case Failed(code) => Err(code)
    case Repeated => Err(OtherCode)
  }

  /** The walk that this daemon's answers determine has this result. */
  ghost predicate ListingGives(daemon: Daemon<Entry>, result: Result<seq<Entry>>)
  {
    exists pages, ending :: Walk(daemon, pages, ending) && result == Outcome(pages, ending, Collected(pages))
  }

  method ListDevices(daemon: Daemon<Entry>, ghost tokens: set<string>)
    returns (result: Result<seq<Entry>>, ghost pages: seq<Page<Entry>>, ghost ending: Ending)
    requires TokensIn(daemon, tokens)
    ensures Walk(daemon, pages, ending) && result == Outcome(pages, ending, Collected(pages))
    ensures ListingGives(daemon, result)
  {
    var out: seq<Entry> := [];
    var token := "";
    var seen: set<string> := {};
    var k := 0;
    pages := [];
    while true
      invariant k == |pages| && token == TokenAt(pages, k)
      invariant Walking(daemon, pages, seen, tokens)
      invariant out == Collected(pages)
      decreases |tokens| - |seen|
    {
      var r := daemon(k, token);
      if r.Err? {
        ending := Failed(r.code);
        return Err(r.code), pages, ending;
      }
      var page := r.value;
      var unavailable := RefSet(page.unreachable);
      var usable := UsableItems(page.items, unavailable);
      out := out + usable;
      NextPage(daemon, pages, seen, tokens, page);
      assert (pages + [page])[..|pages|] == pages;
      pages := pages + [page];
      token := page.next;
      if token == "" {
        return Ok(out), pages, Finished;
      }
      if token in seen {
        return Err(OtherCode), pages, Repeated;
      }
      seen := seen + {token};
      k := k + 1;
    }
  }

  method UsableItems(items: seq<Entry>, unavailable: set<string>) returns (out: seq<Entry>)
    ensures out == Usable(items, unavailable)
  {
    out := [];
    for i := 0 to |items|
      invariant out == Usable(items[..i], unavailable)
    {
      assert items[..i + 1][..i] == items[..i];
      var d := items[i];
      if d.name != "" && d.name !in unavailable {
        out := out + [d];
      }
    }
    assert items[..|items|] == items;
  }

  /** The loop that collects the references of the unreachable entities. */
  method RefSet(refs: seq<string>) returns (unavailable: set<string>)
    ensures unavailable == Elements(refs)
  {
    unavailable := {};
    for i := 0 to |refs|
      invariant unavailable == Elements(refs[..i])
    {
      unavailable := unavailable + {refs[i]};
    }
    assert refs[..|refs|] == refs;
  }

  lemma TokenSeen<T>(pages: seq<Page<T>>, page: Page<T>)
    requires DistinctTokens(pages) && page.next != ""
    ensures page.next in TokensOf(pages) <==> exists k :: 0 <= k < |pages| && (pages + [page])[k].next == page.next
    ensures page.next !in TokensOf(pages) ==> DistinctTokens(pages + [page])
    ensures TokensOf(pages + [page]) == TokensOf(pages) + {page.next}
  {
    var all := pages + [page];
    forall t | t in TokensOf(pages) + {page.next} ensures t in TokensOf(all) {
      if t in TokensOf(pages) {
        var k :| 0 <= k < |pages| && pages[k].next == t;
        assert all[k].next == t;
      } else {
        assert all[|pages|].next == t;
      }
    }
    if k :| 0 <= k < |pages| && all[k].next == page.next {
      assert pages[k].next == page.next;
    }
    if page.next in TokensOf(pages) {
      var k :| 0 <= k < |pages| && pages[k].next == page.next;
      assert all[k].next == page.next;
    }
  }

  /** What a loop knows between two requests. */
  ghost predicate Walking<T>(daemon: Daemon<T>, pages: seq<Page<T>>, seen: set<string>, tokens: set<string>)
  {
    Replies(daemon, pages) && DistinctTokens(pages) && seen == TokensOf(pages) && seen <= tokens
  }

  lemma NextPage<T(!new)>(daemon: Daemon<T>, pages: seq<Page<T>>, seen: set<string>, tokens: set<string>, page: Page<T>)
    requires TokensIn(daemon, tokens)
    requires Walking(daemon, pages, seen, tokens)
    requires daemon(|pages|, TokenAt(pages, |pages|)) == Ok(page)
    ensures page.next == "" ==> Walk(daemon, pages + [page], Finished)
    ensures page.next != "" && page.next in seen ==> Walk(daemon, pages + [page], Repeated)
    ensures page.next != "" && page.next !in seen ==>
      Walking(daemon, pages + [page], seen + {page.next}, tokens)
      && |tokens| - |seen + {page.next}| < |tokens| - |seen| && |seen + {page.next}| <= |tokens|
  {
    var walked := pages + [page];
    RepliesGrow(daemon, pages, page);
    assert walked[..|walked| - 1] == pages;
    if page.next != "" {
      TokenSeen(pages, page);
      if page.next in seen {
        var k :| 0 <= k < |pages| && walked[k].next == page.next;
        assert 0 <= k < |walked| - 1 && walked[k].next == walked[|walked| - 1].next;
      } else {
        GrowthIsStrict(seen, page.next, tokens);
      }
    }
  }

  lemma RepliesGrow<T>(daemon: Daemon<T>, pages: seq<Page<T>>, page: Page<T>)
    requires Replies(daemon, pages)
    requires daemon(|pages|, TokenAt(pages, |pages|)) == Ok(page)
    ensures Replies(daemon, pages + [page])
  {
    var walked := pages + [page];
    forall k | 0 <= k < |walked| ensures IsReply(daemon, walked, k) {
      assert TokenAt(walked, k) == TokenAt(pages, k);
      assert k < |pages| ==> IsReply(daemon, pages, k);
    }
  }

  lemma GrowthIsStrict(seen: set<string>, token: string, tokens: set<string>)
    requires seen <= tokens && token in tokens && token !in seen
    ensures |seen| < |seen + {token}| <= |tokens|
  {
    SubsetIsNoLarger(seen + {token}, tokens);
  }

  // ---------------------------------------------------------------------------------------
  // listTopology
  // ---------------------------------------------------------------------------------------

  /** A topology entry; the link texts stand for the numbers they parse to. */
  datatype TopologyEntry = TopologyEntry(deviceName: string, info: TopologyInfo)

  function Located(
    items: seq<TopologyEntry>, unreachable: set<string>, known: map<string, TopologyInfo>): map<string, TopologyInfo>
  {
    if items == [] then known
    else
      var e := items[|items| - 1];
      var before := Located(items[..|items| - 1], unreachable, known);
      if e.deviceName in unreachable then before else before[e.deviceName := e.info]
  }

  function Topologies(pages: seq<Page<TopologyEntry>>): map<string, TopologyInfo>
  {
    if pages == [] then map[]
    else
      var page := pages[|pages| - 1];
      Located(page.items, Elements(page.unreachable), Topologies(pages[..|pages| - 1]))
  }

  ghost function Failures(pages: seq<Page<TopologyEntry>>): set<string>
  {
    set k, ref | 0 <= k < |pages| && ref in pages[k].unreachable :: ref
  }

  ghost predicate TopologyGives(daemon: Daemon<TopologyEntry>, result: Result<(map<string, TopologyInfo>, set<string>)>)
  {
    exists pages, ending :: Walk(daemon, pages, ending)
      && result == Outcome(pages, ending, (Topologies(pages), Failures(pages)))
  }

  method ListTopology(daemon: Daemon<TopologyEntry>, ghost tokens: set<string>)
    returns (result: Result<(map<string, TopologyInfo>, set<string>)>,
             ghost pages: seq<Page<TopologyEntry>>, ghost ending: Ending)
    requires TokensIn(daemon, tokens)
    ensures Walk(daemon, pages, ending) && result == Outcome(pages, ending, (Topologies(pages), Failures(pages)))
    ensures TopologyGives(daemon, result)
  {
    var out: map<string, TopologyInfo> := map[];
    var failures: set<string> := {};
    var token := "";
    var seen: set<string> := {};
    var k := 0;
    pages := [];
    while true
      invariant k == |pages| && token == TokenAt(pages, k)
      invariant Walking(daemon, pages, seen, tokens)
      invariant out == Topologies(pages) && failures == Failures(pages)
      decreases |tokens| - |seen|
    {
      var r := daemon(k, token);
      if r.Err? {
        ending := Failed(r.code);
        return Err(r.code), pages, ending;
      }
      var page := r.value;
      var unavailable := RefSet(page.unreachable);
      failures := failures + unavailable;
      out := LocateEntries(page.items, unavailable, out);
      FailuresGrow(pages, page);
      NextPage(daemon, pages, seen, tokens, page);
      assert (pages + [page])[..|pages|] == pages;
      pages := pages + [page];
      token := page.next;
      if token == "" {
        return Ok((out, failures)), pages, Finished;
      }
      if token in seen {
        return Err(OtherCode), pages, Repeated;
      }
      seen := seen + {token};
      k := k + 1;
    }
  }

  method LocateEntries(items: seq<TopologyEntry>, unavailable: set<string>, known: map<string, TopologyInfo>)
    returns (out: map<string, TopologyInfo>)
    ensures out == Located(items, unavailable, known)
  {
    out := known;
    for i := 0 to |items|
      invariant out == Located(items[..i], unavailable, known)
    {
      assert items[..i + 1][..i] == items[..i];
      var e := items[i];
      if e.deviceName !in unavailable {
        out := out[e.deviceName := e.info];
      }
    }
    assert items[..|items|] == items;
  }

  lemma FailuresGrow(pages: seq<Page<TopologyEntry>>, page: Page<TopologyEntry>)
    ensures Failures(pages + [page]) == Failures(pages) + Elements(page.unreachable)
  {
    var all := pages + [page];
    forall ref | ref in Failures(pages) + Elements(page.unreachable) ensures ref in Failures(all) {
      if ref in Failures(pages) {
        var k :| 0 <= k < |pages| && ref in pages[k].unreachable;
        assert all[k] == pages[k];
      } else {
        assert all[|pages|] == page;
      }
    }
  }

  /** The entry a page gives device `name`: a listed entry and no report that it is unreachable. */
  ghost predicate Gives(page: Page<TopologyEntry>, name: string, info: TopologyInfo)
  {
    TopologyEntry(name, info) in page.items && name !in page.unreachable
  }

  lemma {:induction false} LocatedFinds(
    items: seq<TopologyEntry>, unreachable: set<string>, known: map<string, TopologyInfo>, name: string)
    ensures name in unreachable || (forall e :: e in items ==> e.deviceName != name) ==>
      (name in Located(items, unreachable, known) <==> name in known)
      && (name in known ==> Located(items, unreachable, known)[name] == known[name])
    ensures name !in unreachable && (exists e :: e in items && e.deviceName == name) ==>
      name in Located(items, unreachable, known)
      && TopologyEntry(name, Located(items, unreachable, known)[name]) in items
  {
    if items != [] {
      var last := |items| - 1;
      LocatedFinds(items[..last], unreachable, known, name);
      assert items == items[..last] + [items[last]];
    }
  }

  /** A device has a topology exactly when some page gives it one, and it is the latest such
      page's. */
  lemma {:induction false} TopologyIsLatest(pages: seq<Page<TopologyEntry>>, name: string)
    ensures name !in Topologies(pages) <==> forall k, info :: 0 <= k < |pages| ==> !Gives(pages[k], name, info)
    ensures name in Topologies(pages) ==>
      exists k :: 0 <= k < |pages| && Gives(pages[k], name, Topologies(pages)[name])
        && forall j, info :: k < j < |pages| ==> !Gives(pages[j], name, info)
  {
    if pages != [] {
      var last := |pages| - 1;
      var page, earlier := pages[last], pages[..last];
      TopologyIsLatest(earlier, name);
      LocatedFinds(page.items, Elements(page.unreachable), Topologies(earlier), name);
      if name !in page.unreachable && exists e :: e in page.items && e.deviceName == name {
        assert Gives(page, name, Topologies(pages)[name]);
      } else {
        assert forall info :: Gives(page, name, info) ==> TopologyEntry(name, info).deviceName == name;
        if name in Topologies(pages) {
          var k :| 0 <= k < |earlier| && Gives(earlier[k], name, Topologies(earlier)[name])
            && forall j, info :: k < j < |earlier| ==> !Gives(earlier[j], name, info);
          assert Gives(pages[k], name, Topologies(pages)[name]);
          forall j, info | k < j < |pages| ensures !Gives(pages[j], name, info) {
            if j < last { assert pages[j] == earlier[j]; }
          }
        }
      }
      assert forall k :: 0 <= k < last ==> earlier[k] == pages[k];
    }
  }

  // ---------------------------------------------------------------------------------------
  // The offset-token pager
  // ---------------------------------------------------------------------------------------

  function PageEnd(start: nat, limit: int, length: nat): nat
  {
    var end := start + if limit <= 0 then 1000 else limit;
    if end < length then end else length
  }

  /** `page`. A token outside the list makes the original slice out of range; the request fails. */
  function ServePage<T>(items: seq<T>, token: string, limit: int): Result<Page<T>>
  {
    var start := Atoi(token);
    if start < 0 || start > |items| then Err(OtherCode)
    else
      var end := PageEnd(start, limit, |items|);
      Ok(Page(items[start..end], [], if end < |items| then Itoa(end) else ""))
  }

  ghost predicate ServedBy<T(!new)>(daemon: Daemon<T>, items: seq<T>, limit: int)
  {
    forall k, token :: daemon(k, token) == ServePage(items, token, limit)
  }

  function Start(k: nat, limit: int, length: nat): nat
  {
    if k == 0 then 0 else PageEnd(Start(k - 1, limit, length), limit, length)
  }

  lemma {:induction false} StartsGrow(i: nat, k: nat, limit: int, length: nat)
    requires i < k && Start(k, limit, length) < length
    ensures Start(i, limit, length) < Start(k, limit, length)
  {
    if i < k - 1 { StartsGrow(i, k - 1, limit, length); }
  }

  /** Following the tokens, page k starts where page k-1 ended. */
  lemma {:induction false} PagesTile<T(!new)>(daemon: Daemon<T>, items: seq<T>, limit: int, pages: seq<Page<T>>, k: nat)
    requires ServedBy(daemon, items, limit)
    requires Replies(daemon, pages) && k <= |pages|
    requires forall j :: 0 <= j < k - 1 ==> pages[j].next != ""
    ensures Start(k, limit, |items|) <= |items|
    ensures k > 0 ==>
      && pages[k - 1].items == items[Start(k - 1, limit, |items|)..Start(k, limit, |items|)]
      && pages[k - 1].unreachable == []
      && pages[k - 1].next == if Start(k, limit, |items|) < |items| then Itoa(Start(k, limit, |items|)) else ""
  {
    if k > 0 {
      PagesTile(daemon, items, limit, pages, k - 1);
      var start := Start(k - 1, limit, |items|);
      assert IsReply(daemon, pages, k - 1);
      TokenReadsAs(start);
      assert Atoi(TokenAt(pages, k - 1)) == start;
      assert ServePage(items, TokenAt(pages, k - 1), limit) == Ok(pages[k - 1]);
    }
  }

  lemma TokenReadsAs(n: nat)
    ensures Atoi(Itoa(n)) == n && Atoi("") == 0
  {
    ItoaRoundTrips(n);
  }

  lemma {:induction false} UsableOfConcat(a: seq<Entry>, b: seq<Entry>, unreachable: set<string>)
    ensures Usable(a + b, unreachable) == Usable(a, unreachable) + Usable(b, unreachable)
  {
    if b == [] {
      assert a + b == a;
    } else {
      assert (a + b)[..|a + b| - 1] == a + b[..|b| - 1];
      UsableOfConcat(a, b[..|b| - 1], unreachable);
    }
  }

  lemma {:induction false} CollectedSoFar(
    daemon: Daemon<Entry>, items: seq<Entry>, limit: int, pages: seq<Page<Entry>>, k: nat)
    requires ServedBy(daemon, items, limit)
    requires Replies(daemon, pages) && k <= |pages|
    requires forall j :: 0 <= j < k - 1 ==> pages[j].next != ""
    ensures Start(k, limit, |items|) <= |items|
    ensures Collected(pages[..k]) == Usable(items[..Start(k, limit, |items|)], {})
  {
    PagesTile(daemon, items, limit, pages, k);
    if k > 0 {
      CollectedSoFar(daemon, items, limit, pages, k - 1);
      CollectedStep(pages, k - 1);
      UsableOfSlice(items, Start(k - 1, limit, |items|), Start(k, limit, |items|));
    }
  }

  lemma CollectedStep(pages: seq<Page<Entry>>, k: nat)
    requires k < |pages| && pages[k].unreachable == []
    ensures Collected(pages[..k + 1]) == Collected(pages[..k]) + Usable(pages[k].items, {})
  {
    assert pages[..k + 1][..k] == pages[..k];
    assert Elements<string>([]) == {};
  }

  lemma UsableOfSlice(items: seq<Entry>, a: nat, b: nat)
    requires a <= b <= |items|
    ensures Usable(items[..b], {}) == Usable(items[..a], {}) + Usable(items[a..b], {})
  {
    assert items[..a] + items[a..b] == items[..b];
    UsableOfConcat(items[..a], items[a..b], {});
  }

  lemma PagerNeverFails(daemon: Daemon<Entry>, items: seq<Entry>, limit: int, pages: seq<Page<Entry>>, code: Code)
    requires ServedBy(daemon, items, limit)
    ensures !Walk(daemon, pages, Failed(code))
  {
    if Walk(daemon, pages, Failed(code)) {
      PagesTile(daemon, items, limit, pages, |pages|);
      ItoaRoundTrips(Start(|pages|, limit, |items|));
      assert false;
    }
  }

  lemma PagerNeverRepeats(daemon: Daemon<Entry>, items: seq<Entry>, limit: int, pages: seq<Page<Entry>>)
    requires ServedBy(daemon, items, limit)
    ensures !Walk(daemon, pages, Repeated)
  {
    if Walk(daemon, pages, Repeated) {
      var n := |pages|;
      var k :| 0 <= k < n - 1 && pages[k].next == pages[n - 1].next;
      EarlierTokens(pages);
      TokensDiffer(daemon, items, limit, pages, k, n - 1);
      assert false;
    }
  }

  lemma TokensDiffer<T(!new)>(daemon: Daemon<T>, items: seq<T>, limit: int, pages: seq<Page<T>>, i: nat, k: nat)
    requires ServedBy(daemon, items, limit)
    requires Replies(daemon, pages) && i < k < |pages|
    requires forall j :: 0 <= j <= k ==> pages[j].next != ""
    ensures pages[i].next != pages[k].next
  {
    PagesTile(daemon, items, limit, pages, i + 1);
    PagesTile(daemon, items, limit, pages, k + 1);
    StartsGrow(i + 1, k + 1, limit, |items|);
    ItoaRoundTrips(Start(i + 1, limit, |items|));
    ItoaRoundTrips(Start(k + 1, limit, |items|));
  }

  lemma EarlierTokens<T>(pages: seq<Page<T>>)
    requires |pages| > 0 && DistinctTokens(pages[..|pages| - 1])
    ensures forall j :: 0 <= j < |pages| - 1 ==> pages[j].next != ""
  {
    assert forall j :: 0 <= j < |pages| - 1 ==> pages[j] == pages[..|pages| - 1][j];
  }

  /** The tokens the pager hands out: the printed positions of the list. */
  ghost function PagerTokens(length: nat): set<string>
  {
    set n | 0 <= n <= length :: Itoa(n)
  }

  lemma PagerTokensAreFinite<T(!new)>(daemon: Daemon<T>, items: seq<T>, limit: int)
    requires ServedBy(daemon, items, limit)
    ensures TokensIn(daemon, PagerTokens(|items|))
  {
    forall k, token | daemon(k, token).Ok? && daemon(k, token).value.next != ""
      ensures daemon(k, token).value.next in PagerTokens(|items|)
    {
      assert daemon(k, token) == ServePage(items, token, limit);
      var end := PageEnd(Atoi(token), limit, |items|);
      assert 0 <= end <= |items|;
    }
  }

  /** Against the pager, for every list and every limit, a listing neither fails nor repeats a
      token: it walks to the end and collects the named entries, all of them, in order. */
  lemma WalkReassembles(daemon: Daemon<Entry>, items: seq<Entry>, limit: int, pages: seq<Page<Entry>>, ending: Ending)
    requires ServedBy(daemon, items, limit)
    requires Walk(daemon, pages, ending)
    ensures ending == Finished && Collected(pages) == Usable(items, {})
  {
    if ending.Failed? {
      PagerNeverFails(daemon, items, limit, pages, ending.code);
    }
    PagerNeverRepeats(daemon, items, limit, pages);
    EarlierTokens(pages);
    CollectedSoFar(daemon, items, limit, pages, |pages|);
    PagesTile(daemon, items, limit, pages, |pages|);
    assert pages[..|pages|] == pages;
    assert items[..|items|] == items;
  }

  /** `ListDevices` composed with the pager: it can be called with the pager's tokens, and what it
      returns is the named part of the list. */
  lemma ListingReassembles(daemon: Daemon<Entry>, items: seq<Entry>, limit: int, result: Result<seq<Entry>>)
    requires ServedBy(daemon, items, limit)
    requires ListingGives(daemon, result)
    ensures TokensIn(daemon, PagerTokens(|items|))
    ensures result == Ok(Usable(items, {}))
  {
    PagerTokensAreFinite(daemon, items, limit);
    var pages, ending :| Walk(daemon, pages, ending) && result == Outcome(pages, ending, Collected(pages));
    WalkReassembles(daemon, items, limit, pages, ending);
  }
}
