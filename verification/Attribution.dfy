/** Why the attribution may be computed in kubelet's order, and why the device-plugin and DRA
    answers may simply be unioned. */
module Attribution {
  import opened Text
  import opened PodResources
  import opened Allocations

  // ---------------------------------------------------------------------------------------
  // Order and repetition do not matter
  // ---------------------------------------------------------------------------------------

  /** The two answers report the same allocations, container by container: the same ids under the
      same plugin resources, and the same DRA results. How they order, repeat or split pods,
      containers, resources, claims and lists of ids is left open. */
  ghost predicate SameAllocations(a: Response, b: Response)
  {
    && (forall who, resource, id :: PluginAllocates(a, who, resource, id) <==> PluginAllocates(b, who, resource, id))
    && (forall who, id :: DraAllocates(a, who, id) <==> DraAllocates(b, who, id))
  }

  lemma SameClaims(current: Live, a: Response, b: Response)
    requires SameAllocations(a, b)
    ensures ResponseClaims(current, a) == ResponseClaims(current, b)
  {
    forall claim ensures claim in ResponseClaims(current, a) <==> claim in ResponseClaims(current, b) {
      ClaimsAreAllocations(current, a, claim);
      ClaimsAreAllocations(current, b, claim);
    }
  }

  /** What `MapPodResources` promises of its two results. */
  ghost predicate IsMappingOf(devices: map<string, Claimant>, shared: seq<string>, current: Live, response: Response)
  {
    Attributes(devices, Elements(shared), ResponseClaims(current, response)) && StrictlySorted(shared)
  }

  /** Answers with the same allocations give the same labels and the same shared list. */
  lemma OrderIndependent(
    current: Live, a: Response, b: Response,
    devices: map<string, Claimant>, shared: seq<string>,
    devices': map<string, Claimant>, shared': seq<string>)
    requires SameAllocations(a, b)
    requires IsMappingOf(devices, shared, current, a)
    requires IsMappingOf(devices', shared', current, b)
    ensures devices == devices' && shared == shared'
  {
    SameClaims(current, a, b);
    AttributionUnique(devices, Elements(shared), devices', Elements(shared'), ResponseClaims(current, a));
    StrictlySortedUnique(shared, shared');
  }

  // ---------------------------------------------------------------------------------------
  // Merging two attributions
  // ---------------------------------------------------------------------------------------

  function Least(a: Claimant, b: Claimant): Claimant
  {
    if b.Before(a) then b else a
  }

  predicate WinnersDiffer(m: Mapping, n: Mapping, d: string)
  {
    d in m.devices && d in n.devices && !m.devices[d].SamePod(n.devices[d])
  }

  function Merge(m: Mapping, n: Mapping): Mapping
  {
    Mapping(
      map d | d in m.devices.Keys + n.devices.Keys ::
        if d !in n.devices then m.devices[d]
        else if d !in m.devices then n.devices[d]
        else Least(m.devices[d], n.devices[d]),
      m.shared + n.shared
        + set d | d in m.devices.Keys && WinnersDiffer(m, n, d))
  }

  lemma LeastIsLattice(a: Claimant, b: Claimant, c: Claimant)
    ensures Least(a, b) == Least(b, a)
    ensures Least(Least(a, b), c) == Least(a, Least(b, c))
    ensures a == Least(a, b) || Least(a, b).Before(a)
  {
    BeforeTotal(a, b);
    BeforeTotal(b, c);
    BeforeTotal(a, c);
    forall x: Claimant, y: Claimant, z: Claimant | x.Before(y) && y.Before(z) ensures x.Before(z) && x != z {
      BeforeTransitive(x, y, z);
      BeforeIrreflexive(x);
    }
  }

  /** Two attributions merged are the attribution of all the claims of both. Sharing only visible
      across the two shows up as different winners. */
  lemma MergeAttributes(m: Mapping, a: set<Claim>, n: Mapping, b: set<Claim>)
    requires Attributes(m.devices, m.shared, a)
    requires Attributes(n.devices, n.shared, b)
    ensures Attributes(Merge(m, n).devices, Merge(m, n).shared, a + b)
  {
    var r := Merge(m, n);
    forall c | c in a + b ensures c.who == r.devices[c.device] || r.devices[c.device].Before(c.who) {
      MergedWinnerIsLeast(m, a, n, b, c);
    }
    forall d ensures d in r.shared <==> ClaimedByTwoPods(a + b, d) {
      MergedSharing(m, a, n, b, d);
    }
  }

  lemma MergedWinnerIsLeast(m: Mapping, a: set<Claim>, n: Mapping, b: set<Claim>, c: Claim)
    requires Attributes(m.devices, m.shared, a)
    requires Attributes(n.devices, n.shared, b)
    requires c in a + b
    ensures c.device in Merge(m, n).devices
    ensures c.who == Merge(m, n).devices[c.device] || Merge(m, n).devices[c.device].Before(c.who)
  {
    var d := c.device;
    if d in m.devices && d in n.devices {
      var x, y := m.devices[d], n.devices[d];
      LeastIsLattice(x, y, x);
      LeastIsLattice(y, x, x);
      if x.Before(c.who) && Least(x, y).Before(x) { BeforeTransitive(Least(x, y), x, c.who); }
      if y.Before(c.who) && Least(x, y).Before(y) { BeforeTransitive(Least(x, y), y, c.who); }
    }
  }

  lemma MergedSharing(m: Mapping, a: set<Claim>, n: Mapping, b: set<Claim>, d: string)
    requires Attributes(m.devices, m.shared, a)
    requires Attributes(n.devices, n.shared, b)
    ensures d in Merge(m, n).shared <==> ClaimedByTwoPods(a + b, d)
  {
    if ClaimedByTwoPods(a, d) {
      var x, y :| x in a && y in a && x.device == d == y.device && !x.who.SamePod(y.who);
      assert x in a + b && y in a + b;
    } else if ClaimedByTwoPods(b, d) {
      var x, y :| x in b && y in b && x.device == d == y.device && !x.who.SamePod(y.who);
      assert x in a + b && y in a + b;
    } else if WinnersDiffer(m, n, d) {
      var x, y := Claim(d, m.devices[d]), Claim(d, n.devices[d]);
      assert x in a + b && y in a + b;
    } else {
      // Within each side all claimants are of the winner's pod, and the winners agree.
      forall x, y | x in a + b && y in a + b && x.device == d == y.device ensures x.who.SamePod(y.who) {
        assert x in a ==> Claim(d, m.devices[d]) in a && x.who.SamePod(m.devices[d]);
        assert x in b ==> Claim(d, n.devices[d]) in b && x.who.SamePod(n.devices[d]);
        assert y in a ==> y.who.SamePod(m.devices[d]);
        assert y in b ==> y.who.SamePod(n.devices[d]);
      }
    }
  }

  /** Mapping two responses together is merging their two mappings. */
  lemma ConcatenationMerges(current: Live, a: Response, b: Response, m: Mapping, n: Mapping, both: Mapping)
    requires Attributes(m.devices, m.shared, ResponseClaims(current, a))
    requires Attributes(n.devices, n.shared, ResponseClaims(current, b))
    requires Attributes(both.devices, both.shared, ResponseClaims(current, a + b))
    ensures both == Merge(m, n)
  {
    UnionOfConcat(a, b, PodClaims(current));
    MergeAttributes(m, ResponseClaims(current, a), n, ResponseClaims(current, b));
    AttributionUnique(
      both.devices, both.shared, Merge(m, n).devices, Merge(m, n).shared, ResponseClaims(current, a + b));
  }

  lemma MergeIdempotent(m: Mapping)
    ensures Merge(m, m) == m
  {
    forall d | d in m.devices ensures Merge(m, m).devices[d] == m.devices[d] {
      BeforeIrreflexive(m.devices[d]);
    }
    assert Merge(m, m).devices == m.devices;
    assert Merge(m, m).shared == m.shared;
  }

  lemma MergeCommutative(m: Mapping, n: Mapping)
    ensures Merge(m, n) == Merge(n, m)
  {
    forall d | d in m.devices && d in n.devices
      ensures Least(m.devices[d], n.devices[d]) == Least(n.devices[d], m.devices[d])
    {
      LeastIsLattice(m.devices[d], n.devices[d], m.devices[d]);
    }
    assert Merge(m, n).devices == Merge(n, m).devices;
    assert Merge(m, n).shared == Merge(n, m).shared;
  }

  lemma MergeAssociative(m: Mapping, n: Mapping, o: Mapping)
    ensures Merge(Merge(m, n), o) == Merge(m, Merge(n, o))
  {
    var l, r := Merge(Merge(m, n), o), Merge(m, Merge(n, o));
    assert l.devices.Keys == r.devices.Keys;
    forall d | d in l.devices ensures l.devices[d] == r.devices[d] {
      if d in m.devices && d in n.devices && d in o.devices {
        LeastIsLattice(m.devices[d], n.devices[d], o.devices[d]);
      }
    }
    assert l.devices == r.devices;
    forall d ensures d in l.shared <==> d in r.shared {
    }
    assert l.shared == r.shared;
  }
}
