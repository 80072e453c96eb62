/** What the paged listings make of the daemon's replies, reply by reply and entry by entry
    (internal/daemon/client.go, listDevices and listTopology). */
module Listings {
  import opened Options
  import opened Text
  import opened Decimal
  import opened Devices
  import opened Inventory
  import opened Paging

  // ---------------------------------------------------------------------------------------
  // Replies
  // ---------------------------------------------------------------------------------------

  /** The daemon's replies, each to a request with the token of the one before. */
  ghost predicate Received<T>(daemon: Daemon<T>, pages: seq<Page<T>>)
  {
    forall k :: 0 <= k < |pages| ==> daemon(k, if k == 0 then "" else pages[k - 1].next) == Ok(pages[k])
  }

  /** Every page brings a token that none before it brought. */
  ghost predicate Fresh<T>(pages: seq<Page<T>>)
  {
    && (forall k :: 0 <= k < |pages| ==> pages[k].next != "")
    && (forall i, k :: 0 <= i < k < |pages| ==> pages[i].next != pages[k].next)
  }

  lemma RepliesAreReceived<T>(daemon: Daemon<T>, pages: seq<Page<T>>)
    ensures Replies(daemon, pages) <==> Received(daemon, pages)
  {
    forall k | 0 <= k < |pages|
      ensures IsReply(daemon, pages, k) <==> daemon(k, if k == 0 then "" else pages[k - 1].next) == Ok(pages[k])
    {
    }
  }

  /** A listing is complete with a page that brings no token. */
  ghost predicate Completes<T>(daemon: Daemon<T>, passed: seq<Page<T>>, last: Page<T>)
  {
    Received(daemon, passed + [last]) && Fresh(passed) && last.next == ""
  }

  /** It breaks off with the error of a request, */
  ghost predicate Breaks<T>(daemon: Daemon<T>, passed: seq<Page<T>>, code: Code)
  {
    && Received(daemon, passed) && Fresh(passed)
    && daemon(|passed|, if passed == [] then "" else passed[|passed| - 1].next) == Err(code)
  }

  /** or with a page that brings an old token. */
  ghost predicate Loops<T>(daemon: Daemon<T>, passed: seq<Page<T>>, last: Page<T>)
  {
    && Received(daemon, passed + [last]) && Fresh(passed)
    && last.next != "" && exists k :: 0 <= k < |passed| && passed[k].next == last.next
  }

  ghost predicate BreaksOff<T(!new)>(daemon: Daemon<T>, code: Code)
  {
    || (exists passed :: Breaks(daemon, passed, code))
    || (code == OtherCode && exists passed, last :: Loops(daemon, passed, last))
  }

  lemma WalkReceives<T>(daemon: Daemon<T>, passed: seq<Page<T>>, last: Page<T>)
    ensures Walk(daemon, passed + [last], Finished) <==> Completes(daemon, passed, last)
    ensures Walk(daemon, passed + [last], Repeated) <==> Loops(daemon, passed, last)
  {
    var all := passed + [last];
    assert all[..|all| - 1] == passed && all[|all| - 1] == last;
    RepliesAreReceived(daemon, all);
    assert forall k :: 0 <= k < |passed| ==> all[k] == passed[k];
  }

  lemma LastPage<T>(daemon: Daemon<T>, pages: seq<Page<T>>, ending: Ending)
    returns (passed: seq<Page<T>>, last: Page<T>)
    requires Walk(daemon, pages, ending) && !ending.Failed?
    ensures pages == passed + [last]
    ensures ending.Finished? ==> Completes(daemon, passed, last)
    ensures ending.Repeated? ==> Loops(daemon, passed, last)
  {
    passed, last := pages[..|pages| - 1], pages[|pages| - 1];
    assert pages == passed + [last];
    WalkReceives(daemon, passed, last);
  }

  /** A listing of devices gives a list exactly when the replies lead to a last page, and then what
      they add up to; it fails exactly when they break off. */
  lemma ListsWhatItReceives(daemon: Daemon<Entry>, result: Result<seq<Entry>>)
    requires ListingGives(daemon, result)
    ensures result.Ok? ==> exists passed, last ::
      Completes(daemon, passed, last) && result.value == Collected(passed + [last])
    ensures result.Err? ==> BreaksOff(daemon, result.code)
  {
    var pages, ending :| Walk(daemon, pages, ending) && result == Outcome(pages, ending, Collected(pages));
    if ending.Failed? {
      RepliesAreReceived(daemon, pages);
      assert Breaks(daemon, pages, ending.code);
    } else {
      var passed, last := LastPage(daemon, pages, ending);
    }
  }

  lemma ListsTopologyItReceives(daemon: Daemon<TopologyEntry>, result: Result<(map<string, TopologyInfo>, set<string>)>)
    requires TopologyGives(daemon, result)
    ensures result.Ok? ==> exists passed, last ::
      Completes(daemon, passed, last) && result.value == (Topologies(passed + [last]), Failures(passed + [last]))
    ensures result.Err? ==> BreaksOff(daemon, result.code)
  {
    var pages, ending :| Walk(daemon, pages, ending)
      && result == Outcome(pages, ending, (Topologies(pages), Failures(pages)));
    if ending.Failed? {
      RepliesAreReceived(daemon, pages);
      assert Breaks(daemon, pages, ending.code);
    } else {
      var passed, last := LastPage(daemon, pages, ending);
    }
  }

  // ---------------------------------------------------------------------------------------
  // Devices
  // ---------------------------------------------------------------------------------------

  /** Every entry of a page stands in the list, in its place, unless it has no name or its own page
      reports it unreachable. */
  lemma EntriesStay(a: seq<Entry>, e: Entry, b: seq<Entry>, unreachable: seq<string>, next: string)
    ensures Collected([Page(a + [e] + b, unreachable, next)]) ==
      Collected([Page(a, unreachable, next)])
        + (if e.name == "" || e.name in unreachable then [] else [e])
        + Collected([Page(b, unreachable, next)])
    ensures Collected([Page([], unreachable, next)]) == []
  {
    OnePageIsItsEntries(Page(a + [e] + b, unreachable, next));
    OnePageIsItsEntries(Page(a, unreachable, next));
    OnePageIsItsEntries(Page(b, unreachable, next));
    OnePageIsItsEntries(Page([], unreachable, next));
    EntryOfPage(a, e, b, Elements(unreachable));
  }

  lemma EntryOfPage(a: seq<Entry>, e: Entry, b: seq<Entry>, unreachable: set<string>)
    ensures Usable(a + [e] + b, unreachable) == Usable(a, unreachable)
      + (if e.name == "" || e.name in unreachable then [] else [e]) + Usable(b, unreachable)
  {
    UsableOfConcat(a + [e], b, unreachable);
    UsableOfConcat(a, [e], unreachable);
    assert [e][..0] == [];
    assert Usable([e], unreachable) == if e.name == "" || e.name in unreachable then [] else [e];
  }

  lemma OnePageIsItsEntries(page: Page<Entry>)
    ensures Collected([page]) == Usable(page.items, Elements(page.unreachable))
  {
    assert [page][..0] == [];
  }

  /** The entries of the pages follow one another. */
  lemma {:induction false} PagesFollow(a: seq<Page<Entry>>, b: seq<Page<Entry>>)
    ensures Collected(a + b) == Collected(a) + Collected(b) && Collected([]) == []
  {
    if b == [] {
      assert a + b == a;
    } else {
      assert (a + b)[..|a + b| - 1] == a + b[..|b| - 1];
      PagesFollow(a, b[..|b| - 1]);
    }
  }

  lemma {:induction false} NothingToDrop(items: seq<Entry>)
    requires forall e :: e in items ==> e.name != ""
    ensures Usable(items, {}) == items
  {
    if items != [] {
      NothingToDrop(items[..|items| - 1]);
      assert items == items[..|items| - 1] + [items[|items| - 1]];
    }
  }

  /** Against the pager, for every page size, a client reads back the server's list of named devices,
      whole and in order. */
  lemma PagingIsInvisible(daemon: Daemon<Entry>, items: seq<Entry>, limit: int, result: Result<seq<Entry>>)
    requires ServedBy(daemon, items, limit) && ListingGives(daemon, result)
    requires forall e :: e in items ==> e.name != ""
    ensures result == Ok(items)
  {
    ListingReassembles(daemon, items, limit, result);
    NothingToDrop(items);
  }

  /** Every page but the last is full: of the requested size, or of 1000 if none is requested. Its
      token leads on to the entry after it. */
  lemma PagesAreFull(items: seq<Entry>, token: string, limit: int)
    requires ServePage(items, token, limit).Ok? && ServePage(items, token, limit).value.next != ""
    ensures var page := ServePage(items, token, limit).value;
      && |page.items| == (if limit <= 0 then 1000 else limit)
      && Atoi(page.next) == Atoi(token) + |page.items|
  {
    TokenReadsAs(PageEnd(Atoi(token), limit, |items|));
  }

  // ---------------------------------------------------------------------------------------
  // Topology
  // ---------------------------------------------------------------------------------------

  /** Entry i of page k gives the device its topology. */
  ghost predicate GivenAt(pages: seq<Page<TopologyEntry>>, k: nat, i: nat, name: string)
  {
    && k < |pages| && i < |pages[k].items| && pages[k].items[i].deviceName == name && name !in pages[k].unreachable
    && (forall j :: i < j < |pages[k].items| ==> pages[k].items[j].deviceName != name)
    && (forall l :: k < l < |pages| && name !in pages[l].unreachable ==>
          forall e :: e in pages[l].items ==> e.deviceName != name)
  }

  /** A device's topology is its last entry on the last page that lists it without reporting it
      unreachable. */
  lemma {:induction false} LastEntryIsTopology(pages: seq<Page<TopologyEntry>>, k: nat, i: nat, name: string)
    requires GivenAt(pages, k, i, name)
    ensures name in Topologies(pages) && Topologies(pages)[name] == pages[k].items[i].info
  {
    var last := |pages| - 1;
    var earlier, page := pages[..last], pages[last];
    if k == last {
      LastOnPage(page.items, Elements(page.unreachable), Topologies(earlier), name, i);
    } else {
      assert GivenAt(earlier, k, i, name);
      LastEntryIsTopology(earlier, k, i, name);
      LocatedFinds(page.items, Elements(page.unreachable), Topologies(earlier), name);
    }
  }

  lemma {:induction false} LastOnPage(
    items: seq<TopologyEntry>, unreachable: set<string>, known: map<string, TopologyInfo>, name: string, i: nat)
    requires i < |items| && items[i].deviceName == name && name !in unreachable
    requires forall j :: i < j < |items| ==> items[j].deviceName != name
    ensures name in Located(items, unreachable, known) && Located(items, unreachable, known)[name] == items[i].info
  {
    if i < |items| - 1 { LastOnPage(items[..|items| - 1], unreachable, known, name, i); }
  }

  /** Collection fails for every name that some page reports. */
  lemma ReportedNamesFail(pages: seq<Page<TopologyEntry>>, name: string)
    ensures name in Failures(pages) <==> exists k :: 0 <= k < |pages| && name in pages[k].unreachable
  {
  }
}
