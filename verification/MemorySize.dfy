/** Byte counts from a v0 memory size in GiB (internal/daemon/legacy.go, legacyBytes). Widening
    float32 to float64, scaling by 2^30, rounding to an integer and converting a value below 2^64
    are all exact, so finite inputs are modelled as reals. */
module MemorySize {
  import opened Options
  import opened Floats

  const GIB: real := 1073741824.0
  const TWO_TO_THE_64: nat := 0x1_0000_0000_0000_0000

  /** `math.Round`: half away from zero. */
  function Round(x: real): int
  {
    if x >= 0.0 then (x + 0.5).Floor else -((0.5 - x).Floor)
  }

  function LegacyBytes(gib: Float): Option<nat>
  {
    if !gib.Finite? then None
    else
      var n := Round(gib.value * GIB);
      if n < 0 || n >= TWO_TO_THE_64 then None else Some(n)
  }

  lemma RoundIsNearest(x: real)
    ensures -0.5 <= Round(x) as real - x <= 0.5
    ensures Round(x) as real - x == 0.5 ==> x >= 0.0
    ensures Round(x) as real - x == -0.5 ==> x < 0.0
  {
  }

  lemma RoundIsMonotone(x: real, y: real)
    requires x <= y
    ensures Round(x) <= Round(y)
  {
    RoundIsNearest(x);
    RoundIsNearest(y);
    assert Round(x) > Round(y) ==> Round(x) as real >= Round(y) as real + 1.0;
  }

  /** A size has a byte count exactly when its rounded value fits in 64 unsigned bits: the product
      is above -1/2 and below 2^64 - 1/2. */
  lemma DefinedExactlyInRange(gib: Float)
    ensures LegacyBytes(gib).Some? <==>
      gib.Finite? && -0.5 < gib.value * 1073741824.0 < 18446744073709551615.5
  {
    if gib.Finite? {
      var x := gib.value * GIB;
      RoundIsNearest(x);
    }
  }

  /** The count is within one half of the exact product, and a larger size never has a smaller
      count. */
  lemma NearestAndMonotone(a: Float, b: Float)
    requires LegacyBytes(a).Some? && LegacyBytes(b).Some?
    ensures -0.5 < LegacyBytes(a).value as real - a.value * 1073741824.0 <= 0.5
    ensures a.value <= b.value ==> LegacyBytes(a).value <= LegacyBytes(b).value
  {
    RoundIsNearest(a.value * GIB);
    if a.value <= b.value {
      assert a.value * GIB <= b.value * GIB;
      RoundIsMonotone(a.value * GIB, b.value * GIB);
    }
  }

  /** Every 64-bit count comes back from the size it stands for. */
  lemma RecoversCount(n: nat)
    requires n < 0x1_0000_0000_0000_0000
    ensures LegacyBytes(Finite(n as real / 1073741824.0)) == Some(n)
  {
    assert n as real / GIB * GIB == n as real;
  }
}
