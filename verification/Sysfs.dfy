/** What the exporter does with PCI addresses and with the text it reads from sysfs. The reads
    themselves are oracles: each read returns some text or fails. */
module Sysfs {
  import opened Options
  import opened Decimal

  predicate IsHexDigit(c: char)
  {
    '0' <= c <= '9' || 'a' <= c <= 'f' || 'A' <= c <= 'F'
  }

  /** The regular expression `^[0-9a-fA-F]{4}:[0-9a-fA-F]{2}:[0-9a-fA-F]{2}\.[0-7]$`. */
  predicate IsPciAddress(s: string)
  {
    && |s| == 12
    && s[4] == ':' && s[7] == ':' && s[10] == '.' && '0' <= s[11] <= '7'
    && (forall i :: 0 <= i < 10 && i != 4 && i != 7 ==> IsHexDigit(s[i]))
  }

  function LowerChar(c: char): char
  {
    if 'A' <= c <= 'Z' then (c as int + 32) as char else c
  }

  /** `strings.ToLower`; only ASCII letters can make two PCI addresses meet. */
  function Lower(s: string): (r: string)
    ensures |r| == |s|
    ensures forall i :: 0 <= i < |s| ==> r[i] == LowerChar(s[i])
  {
    seq(|s|, i requires 0 <= i < |s| => LowerChar(s[i]))
  }

  predicate EqualFold(a: string, b: string)
  {
    Lower(a) == Lower(b)
  }

  lemma LowerKeepsPciAddress(s: string)
    ensures Lower(Lower(s)) == Lower(s)
    ensures IsPciAddress(Lower(s)) <==> IsPciAddress(s)
  {
    if IsPciAddress(Lower(s)) {
      forall i | 0 <= i < 10 && i != 4 && i != 7 ensures IsHexDigit(s[i]) {
        assert IsHexDigit(Lower(s)[i]);
      }
    }
  }

  function TrimRightSlashes(path: string): string
  {
    if path != "" && path[|path| - 1] == '/' then TrimRightSlashes(path[..|path| - 1]) else path
  }

  function AfterLastSlash(path: string): string
  {
    if path == "" || path[|path| - 1] == '/' then ""
    else AfterLastSlash(path[..|path| - 1]) + [path[|path| - 1]]
  }

  /** `filepath.Base`: the last element of the path. */
  function Base(path: string): string
  {
    if path == "" then "."
    else if TrimRightSlashes(path) == "" then "/"
    else AfterLastSlash(TrimRightSlashes(path))
  }

  predicate IsSpace(c: char)
  {
    c == ' ' || c == '\t' || c == '\n' || c == '\r' || c == 11 as char || c == 12 as char
  }

  function TrimSpace(s: string): string
  {
    if s == "" then ""
    else if IsSpace(s[0]) then TrimSpace(s[1..])
    else if IsSpace(s[|s| - 1]) then TrimSpace(s[..|s| - 1])
    else s
  }

  /** `strconv.ParseUint(strings.TrimSpace(raw), 10, 32)`. */
  function ParseCount(raw: string): Option<nat>
  {
    var digits := TrimSpace(raw);
    if IsDecimal(digits) && DigitsValue(digits) < 0x1_0000_0000 then Some(DigitsValue(digits)) else None
  }

  // ---------------------------------------------------------------------------------------
  // What these texts mean
  // ---------------------------------------------------------------------------------------

  /** Upper-case ASCII letters become the lower-case ones at the same place in the alphabet; every
      other character stays. */
  lemma LowerMapsTheAlphabet(c: char, k: nat)
    ensures k < 26 ==> LowerChar((65 + k) as char) == (97 + k) as char
    ensures (c as int < 65 || c as int > 90) ==> LowerChar(c) == c
  {
  }

  predicate SameLetter(a: char, b: char)
  {
    || a == b
    || (65 <= a as int <= 90 && b as int == a as int + 32)
    || (65 <= b as int <= 90 && a as int == b as int + 32)
  }

  /** Equality up to the case of ASCII letters. */
  lemma EqualFoldIgnoresCase(a: string, b: string)
    ensures EqualFold(a, b) <==> |a| == |b| && forall i :: 0 <= i < |a| ==> SameLetter(a[i], b[i])
  {
    if EqualFold(a, b) {
      assert |a| == |Lower(a)| == |Lower(b)| == |b|;
      forall i | 0 <= i < |a| ensures SameLetter(a[i], b[i]) {
        assert Lower(a)[i] == Lower(b)[i];
      }
    } else if |a| == |b| {
      var i :| 0 <= i < |a| && Lower(a)[i] != Lower(b)[i];
      assert !SameLetter(a[i], b[i]);
    }
  }

  const HEX_DIGITS: set<char> := {
    '0', '1', '2', '3', '4', '5', '6', '7', '8', '9',
    'a', 'b', 'c', 'd', 'e', 'f', 'A', 'B', 'C', 'D', 'E', 'F'}

  predicate IsHex(s: string, length: nat)
  {
    |s| == length && forall i :: 0 <= i < |s| ==> s[i] in HEX_DIGITS
  }

  lemma HexDigits(c: char)
    ensures IsHexDigit(c) <==> c in HEX_DIGITS
  {
    var decimal, lower, upper := c as int - 48, c as int - 97, c as int - 65;
    assert IsHexDigit(c) ==> 0 <= decimal < 10 || 0 <= lower < 6 || 0 <= upper < 6;
  }

  /** A PCI address is domain:bus:device.function with four, two and two hexadecimal digits and an
      octal one. */
  lemma FourPartsMakeAddress(domain: string, bus: string, device: string, octal: char)
    requires IsHex(domain, 4) && IsHex(bus, 2) && IsHex(device, 2) && '0' <= octal <= '7'
    ensures IsPciAddress(domain + ":" + bus + ":" + device + "." + [octal])
  {
    var s := domain + ":" + bus + ":" + device + "." + [octal];
    forall i | 0 <= i < 10 && i != 4 && i != 7 ensures IsHexDigit(s[i]) {
      HexDigits(s[i]);
      assert s[i] == if i < 4 then domain[i] else if i < 7 then bus[i - 5] else device[i - 8];
    }
  }

  lemma AddressHasFourParts(s: string)
    requires IsPciAddress(s)
    ensures |s| == 12 && IsHex(s[..4], 4) && IsHex(s[5..7], 2) && IsHex(s[8..10], 2) && '0' <= s[11] <= '7'
    ensures s == s[..4] + ":" + s[5..7] + ":" + s[8..10] + "." + [s[11]]
  {
    forall i | 0 <= i < 10 && i != 4 && i != 7 ensures s[i] in HEX_DIGITS {
      HexDigits(s[i]);
    }
  }

  predicate AllSlashes(s: string)
  {
    forall i :: 0 <= i < |s| ==> s[i] == '/'
  }

  /** The base of a path is what stands after its last slash, slashes at the very end aside. */
  lemma BaseIsLastElement(dir: string, name: string, slashes: string)
    requires name != "" && '/' !in name && AllSlashes(slashes)
    ensures Base(dir + "/" + name + slashes) == name && Base(name + slashes) == name
    ensures Base("") == "." && (slashes != "" ==> Base(slashes) == "/")
  {
    TrimmedOf(dir + "/" + name, slashes);
    TrimmedOf(name, slashes);
    TrimmedToNothing(slashes);
    LastElement(dir + "/", name);
    LastElement("", name);
    assert "" + name == name;
    assert (dir + "/" + name)[|dir + "/" + name| - 1] == name[|name| - 1];
  }

  lemma {:induction false} TrimmedOf(path: string, slashes: string)
    requires path != "" && path[|path| - 1] != '/' && AllSlashes(slashes)
    ensures TrimRightSlashes(path + slashes) == path
  {
    if slashes == "" {
      assert path + slashes == path;
    } else {
      assert (path + slashes)[..|path + slashes| - 1] == path + slashes[..|slashes| - 1];
      TrimmedOf(path, slashes[..|slashes| - 1]);
    }
  }

  lemma {:induction false} TrimmedToNothing(slashes: string)
    requires AllSlashes(slashes)
    ensures TrimRightSlashes(slashes) == ""
  {
    if slashes != "" { TrimmedToNothing(slashes[..|slashes| - 1]); }
  }

  lemma {:induction false} LastElement(dir: string, name: string)
    requires '/' !in name && (dir != "" ==> dir[|dir| - 1] == '/')
    ensures AfterLastSlash(dir + name) == name
  {
    if name == "" {
      assert dir + name == dir;
    } else {
      assert (dir + name)[..|dir + name| - 1] == dir + name[..|name| - 1];
      LastElement(dir, name[..|name| - 1]);
    }
  }

  predicate Blank(s: string)
  {
    forall i :: 0 <= i < |s| ==> s[i] in [' ', '\t', '\n', '\r', 11 as char, 12 as char]
  }

  /** White space around a text that neither begins nor ends with any is trimmed, whatever its
      kind and amount. */
  lemma {:induction false} TrimsBlanks(a: string, core: string, b: string)
    requires Blank(a) && Blank(b)
    requires core != "" && !Blank([core[0]]) && !Blank([core[|core| - 1]])
    ensures TrimSpace(a + core + b) == core
    decreases |a| + |b|
  {
    var s := a + core + b;
    if a != "" {
      assert s[1..] == a[1..] + core + b;
      TrimsBlanks(a[1..], core, b);
    } else if b != "" {
      assert s[..|s| - 1] == a + core + b[..|b| - 1] && s[0] == core[0];
      TrimsBlanks(a, core, b[..|b| - 1]);
    } else {
      assert s == core;
    }
  }

  lemma {:induction false} TrimmedIsInside(s: string) returns (a: string, b: string)
    ensures Blank(a) && Blank(b) && s == a + TrimSpace(s) + b
    decreases |s|
  {
    a, b := "", "";
    if s == "" {
    } else if IsSpace(s[0]) {
      a, b := TrimmedIsInside(s[1..]);
      assert s == [s[0]] + s[1..];
      a := [s[0]] + a;
      assert s == a + TrimSpace(s) + b;
    } else if IsSpace(s[|s| - 1]) {
      var last := |s| - 1;
      a, b := TrimmedIsInside(s[..last]);
      assert s == s[..last] + [s[last]];
      b := b + [s[last]];
      assert s == a + TrimSpace(s) + b;
    }
  }

  /** A count is a decimal number below 2^32 with any white space around it. */
  lemma CountIsDecimalInBlanks(a: string, digits: string, b: string)
    requires Blank(a) && Blank(b) && IsDecimal(digits)
    ensures ParseCount(a + digits + b) ==
      if DigitsValue(digits) < 0x1_0000_0000 then Some(DigitsValue(digits)) else None
  {
    DigitIsNotBlank(digits[0]);
    DigitIsNotBlank(digits[|digits| - 1]);
    TrimsBlanks(a, digits, b);
  }

  lemma DigitIsNotBlank(c: char)
    requires '0' <= c <= '9'
    ensures !Blank([c])
  {
    assert [c][0] == c;
  }

  /** So a printed count reads back, also with the newline that the kernel adds. */
  lemma PrintedCountReadsBack(a: string, n: nat, b: string)
    requires Blank(a) && Blank(b) && n < 0x1_0000_0000
    ensures ParseCount(a + Itoa(n) + b) == Some(n) && ParseCount(Itoa(n) + "\n") == Some(n)
  {
    ItoaRoundTrips(n);
    CountIsDecimalInBlanks(a, Itoa(n), b);
    CountIsDecimalInBlanks("", Itoa(n), "\n");
    assert "" + Itoa(n) == Itoa(n);
  }

  /** Nothing else is a count. */
  lemma CountNeedsDecimal(raw: string) returns (a: string, digits: string, b: string)
    ensures ParseCount(raw).Some? ==>
      Blank(a) && Blank(b) && IsDecimal(digits) && raw == a + digits + b && ParseCount(raw) == Some(DigitsValue(digits))
  {
    a, b := TrimmedIsInside(raw);
    digits := TrimSpace(raw);
  }
}
