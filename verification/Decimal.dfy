/** Decimal text: what `strconv.Itoa` prints and `strconv` parses back. */
module Decimal {
  predicate AllDigits(s: string)
  {
    forall i :: 0 <= i < |s| ==> '0' <= s[i] <= '9'
  }

  predicate IsDecimal(s: string)
  {
    s != "" && AllDigits(s)
  }

  function DigitsValue(s: string): nat
    requires AllDigits(s)
  {
    if s == "" then 0
    else DigitsValue(s[..|s| - 1]) * 10 + (s[|s| - 1] as int - '0' as int)
  }

  function Itoa(n: nat): string
  {
    if n < 10 then [('0' as int + n) as char]
    else Itoa(n / 10) + [('0' as int + n % 10) as char]
  }

  /** `strconv.Atoi` of a page token, whose error the pager ignores: text that is not a number
      reads as 0. */
  function Atoi(s: string): int
  {
    if IsDecimal(s) then DigitsValue(s)
    else if s != "" && s[0] == '-' && IsDecimal(s[1..]) then -(DigitsValue(s[1..]) as int)
    else if s != "" && s[0] == '+' && IsDecimal(s[1..]) then DigitsValue(s[1..])
    else 0
  }

  lemma {:induction false} ItoaRoundTrips(n: nat)
    ensures IsDecimal(Itoa(n)) && DigitsValue(Itoa(n)) == n
  {
    if n >= 10 {
      ItoaRoundTrips(n / 10);
      assert Itoa(n)[..|Itoa(n)| - 1] == Itoa(n / 10);
    } else {
      assert Itoa(n)[..0] == "";
    }
  }

  function Power10(n: nat): nat
  {
    if n == 0 then 1 else 10 * Power10(n - 1)
  }

  /** The notation is positional, to base ten, with the highest digit first. */
  lemma {:induction false} DigitsArePositional(a: string, b: string)
    requires AllDigits(a) && AllDigits(b)
    ensures AllDigits(a + b) && DigitsValue(a + b) == DigitsValue(a) * Power10(|b|) + DigitsValue(b)
    ensures |b| == 1 ==> DigitsValue(b) == b[0] as int - '0' as int
  {
    if b == "" {
      assert a + b == a;
    } else {
      var last := |b| - 1;
      DigitsArePositional(a, b[..last]);
      assert (a + b)[..|a + b| - 1] == a + b[..last];
      PowerStep(DigitsValue(a), last);
    }
  }

  lemma PowerStep(x: nat, n: nat)
    ensures x * Power10(n + 1) == x * Power10(n) * 10
  {
  }
}
