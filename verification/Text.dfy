/** Go's string order, prefix and suffix tests, and `slices.Sorted` over the keys of a set. */
module Text {

  /** Go compares strings byte by byte, a proper prefix coming first. Dafny's own `<` on
      strings means "is a proper prefix of", so it is not used anywhere. */
  predicate Less(a: string, b: string)
  {
    |b| > 0 && (|a| == 0 || a[0] < b[0] || (a[0] == b[0] && Less(a[1..], b[1..])))
  }

  lemma {:induction false} LessIrreflexive(a: string)
    ensures !Less(a, a)
  {
    if |a| > 0 { LessIrreflexive(a[1..]); }
  }

  lemma {:induction false} LessTransitive(a: string, b: string, c: string)
    requires Less(a, b) && Less(b, c)
    ensures Less(a, c)
  {
    if |a| > 0 && a[0] == b[0] == c[0] { LessTransitive(a[1..], b[1..], c[1..]); }
  }

  lemma {:induction false} LessTotal(a: string, b: string)
    ensures a == b || Less(a, b) || Less(b, a)
  {
    if |a| > 0 && |b| > 0 && a[0] == b[0] {
      LessTotal(a[1..], b[1..]);
      assert a == [a[0]] + a[1..] && b == [b[0]] + b[1..];
    }
  }

  /** Bytewise: at the first difference the smaller byte, or the end of the text, comes first. */
  lemma {:induction false} LessIsBytewise(a: string, b: string)
    ensures Less(a, b) <==> exists k :: FirstDifference(a, b, k)
  {
    if a != [] && b != [] && a[0] == b[0] {
      LessIsBytewise(a[1..], b[1..]);
      if Less(a, b) {
        var k :| FirstDifference(a[1..], b[1..], k);
        assert a == [a[0]] + a[1..] && b == [b[0]] + b[1..];
        assert a[..k + 1] == [a[0]] + a[1..][..k] && b[..k + 1] == [b[0]] + b[1..][..k];
        assert FirstDifference(a, b, k + 1);
      }
      if k :| FirstDifference(a, b, k) {
        assert k > 0;
        assert a[1..][..k - 1] == a[..k][1..] && b[1..][..k - 1] == b[..k][1..];
        assert FirstDifference(a[1..], b[1..], k - 1);
      }
    } else if Less(a, b) {
      assert a[..0] == b[..0];
      assert FirstDifference(a, b, 0);
    } else {
      assert forall k :: 0 < k <= |a| && k < |b| ==> a[..k][0] == a[0] && b[..k][0] == b[0];
    }
  }

  ghost predicate FirstDifference(a: string, b: string, k: int)
  {
    && 0 <= k <= |a| && k < |b| && a[..k] == b[..k]
    && (k == |a| || a[k] < b[k])
  }

  predicate HasPrefix(s: string, prefix: string)
  {
    prefix <= s
  }

  predicate HasSuffix(s: string, suffix: string)
  {
    |suffix| <= |s| && s[|s| - |suffix|..] == suffix
  }

  function Elements<T>(s: seq<T>): set<T>
  {
    set x | x in s
  }

  ghost predicate StrictlySorted(s: seq<string>)
  {
    forall i, j :: 0 <= i < j < |s| ==> Less(s[i], s[j])
  }

  /** A strictly sorted list is determined by its elements. */
  lemma {:induction false} StrictlySortedUnique(a: seq<string>, b: seq<string>)
    requires StrictlySorted(a) && StrictlySorted(b)
    requires Elements(a) == Elements(b)
    ensures a == b
  {
    assert |a| > 0 ==> a[0] in Elements(b);
    assert |b| > 0 ==> b[0] in Elements(a);
    if |a| > 0 {
      FirstIsLeast(a, b[0]);
      FirstIsLeast(b, a[0]);
      if a[0] != b[0] { LessTransitive(a[0], b[0], a[0]); LessIrreflexive(a[0]); }
      TailElements(a);
      TailElements(b);
      StrictlySortedUnique(a[1..], b[1..]);
      assert a == [a[0]] + a[1..] && b == [b[0]] + b[1..];
    }
  }

  lemma FirstIsLeast(a: seq<string>, x: string)
    requires StrictlySorted(a) && x in a
    ensures x == a[0] || Less(a[0], x)
  {
  }

  lemma TailElements(a: seq<string>)
    requires StrictlySorted(a) && |a| > 0
    ensures Elements(a[1..]) == Elements(a) - {a[0]}
  {
    assert a == [a[0]] + a[1..];
    if a[0] in a[1..] {
      var i :| 1 <= i < |a| && a[i] == a[0];
      LessIrreflexive(a[0]);
    }
  }

  /** `slices.Sorted(maps.Keys(keys))`: the keys come out of the map in any order and each is
      inserted at its place. */
  method SortedKeys(keys: set<string>) returns (sorted: seq<string>)
    ensures StrictlySorted(sorted)
    ensures Elements(sorted) == keys
  {
    sorted := [];
    var rest := keys;
    while rest != {}
      invariant rest <= keys
      invariant StrictlySorted(sorted)
      invariant Elements(sorted) == keys - rest
      decreases |rest|
    {
      var key :| key in rest;
      var at := 0;
      while at < |sorted| && Less(sorted[at], key)
        invariant 0 <= at <= |sorted|
        invariant forall i :: 0 <= i < at ==> Less(sorted[i], key)
      {
        at := at + 1;
      }
      InsertionKeepsOrder(sorted, key, at);
      sorted := sorted[..at] + [key] + sorted[at..];
      rest := rest - {key};
    }
  }

  lemma InsertionKeepsOrder(s: seq<string>, key: string, at: nat)
    requires StrictlySorted(s) && key !in s && at <= |s|
    requires forall i :: 0 <= i < at ==> Less(s[i], key)
    requires at < |s| ==> !Less(s[at], key)
    ensures StrictlySorted(s[..at] + [key] + s[at..])
    ensures Elements(s[..at] + [key] + s[at..]) == Elements(s) + {key}
  {
    var t := s[..at] + [key] + s[at..];
    forall i | at <= i < |s| ensures Less(key, s[i]) {
      LessTotal(s[at], key);
      if i > at { LessTransitive(key, s[at], s[i]); }
    }
    forall x ensures x in t <==> x in s || x == key {
      assert s == s[..at] + s[at..];
    }
  }

  /** Where a key belongs in a sorted list. */
  function Place(s: seq<string>, key: string): (at: nat)
    ensures at <= |s| && (forall i :: 0 <= i < at ==> Less(s[i], key)) && (at < |s| ==> !Less(s[at], key))
  {
    if s == [] || !Less(s[0], key) then 0 else Place(s[1..], key) + 1
  }

  /** The sorted list of a set. */
  ghost function SortedOf(keys: set<string>): (s: seq<string>)
    ensures StrictlySorted(s) && Elements(s) == keys
  {
    if keys == {} then []
    else
      var key :| key in keys;
      var rest := SortedOf(keys - {key});
      var at := Place(rest, key);
      assert key !in Elements(rest);
      InsertionKeepsOrder(rest, key, at);
      rest[..at] + [key] + rest[at..]
  }
}
