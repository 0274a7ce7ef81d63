/**
  The latency of a Report (adapter/report.go): nanoseconds written as binary64
  seconds and read back. Rounding is stated by what it means: the nearest
  number with a 53-bit significand, whichever way a tie goes.
*/
module Latency {
  function Pow2(n: nat): (r: real)
    ensures r >= 1.0
  {
    if n == 0 then 1.0 else 2.0 * Pow2(n - 1)
  }

  const SIGNIFICAND: int := 0x20_0000_0000_0000 // 2^53

  function Abs(x: real): real {
    if x < 0.0 then -x else x
  }

  /** z is m scaled by 2^q, up or down. */
  predicate Spells(m: int, q: nat, z: real) {
    z == m as real * Pow2(q) || z * Pow2(q) == m as real
  }

  /** z has a significand of 53 bits: it is a binary64, as far as its exponent is in range. */
  ghost predicate IsFloat(z: real) {
    exists m: int, q: nat :: -SIGNIFICAND <= m <= SIGNIFICAND && Spells(m, q, z)
  }

  /** y is x rounded to nearest. */
  ghost predicate Rounds(x: real, y: real) {
    IsFloat(y) && forall z :: IsFloat(z) ==> Abs(x - y) <= Abs(x - z)
  }

  /** math.Round: half away from zero. */
  function Round(x: real): int {
    if x >= 0.0 then (x + 0.5).Floor else -((-x + 0.5).Floor)
  }

  /** The nearest integer, and of two the one farther from zero. */
  lemma RoundIs(x: real, k: int)
    ensures Round(x) == k <==> (if x >= 0.0 then k as real - 0.5 <= x < k as real + 0.5 else k as real - 0.5 < x <= k as real + 0.5)
  {
  }

  lemma Divided(m: real, p: real)
    requires p != 0.0
    ensures m / p * p == m
  {
  }

  lemma Distributes(x: real, z: real, p: real)
    ensures (x - z) * p == x * p - z * p
  {
  }

  lemma AbsScales(x: real, p: real)
    requires p >= 0.0
    ensures Abs(x) * p == Abs(x * p)
  {
    if x < 0.0 {
      Distributes(0.0, x, p);
      assert -x == 0.0 - x;
      Negative(x, p);
    } else {
      Positive(x, p);
    }
  }

  lemma Negative(x: real, p: real)
    requires x < 0.0 && p >= 0.0
    ensures x * p <= 0.0
  {
  }

  lemma Positive(x: real, p: real)
    requires x >= 0.0 && p >= 0.0
    ensures x * p >= 0.0
  {
  }

  /** Half the distance between multiples of 1 / 2^q. */
  function HalfStep(q: nat): real {
    0.5 / Pow2(q)
  }

  lemma Within(a: real, p: real)
    requires a * p <= 0.5 && p > 0.0
    ensures a <= 0.5 / p
  {
  }

  lemma NextWhole(u: real) returns (m: int)
    requires Abs(u) <= SIGNIFICAND as real
    ensures -SIGNIFICAND <= m <= SIGNIFICAND && Abs(u - m as real) <= 0.5
  {
    m := (u + 0.5).Floor;
  }

  /** Scaled down by p, what was within a half is within half of 1 / p. */
  lemma WithinStep(x: real, z: real, p: real, u: real, w: real)
    requires p > 0.0 && u == x * p && w == z * p && Abs(u - w) <= 0.5
    ensures Abs(x - z) <= 0.5 / p
  {
    AbsScales(x - z, p);
    Distributes(x, z, p);
    Within(Abs(x - z), p);
  }

  lemma DownIsFloat(m: int, q: nat, z: real)
    requires -SIGNIFICAND <= m <= SIGNIFICAND && z * Pow2(q) == m as real
    ensures IsFloat(z)
  {
    assert Spells(m, q, z);
  }

  /** A number of size at most 2^53 / 2^q has a neighbour among the multiples of 1 / 2^q that is within half of one. */
  lemma Neighbour(x: real, q: nat) returns (z: real)
    requires Abs(x) * Pow2(q) <= SIGNIFICAND as real
    ensures IsFloat(z) && Abs(x - z) <= HalfStep(q)
  {
    AbsScales(x, Pow2(q));
    var m := NextWhole(x * Pow2(q));
    z := m as real / Pow2(q);
    Divided(m as real, Pow2(q));
    DownIsFloat(m, q, z);
    WithinStep(x, z, Pow2(q), x * Pow2(q), m as real);
  }

  /** So rounding such a number is off by at most half a multiple. */
  lemma RoundingError(x: real, y: real, q: nat)
    requires Rounds(x, y) && Abs(x) * Pow2(q) <= SIGNIFICAND as real
    ensures Abs(x - y) <= HalfStep(q)
  {
    var z := Neighbour(x, q);
  }

  /** A float rounds to itself. */
  lemma FloatRounds(x: real, y: real)
    requires IsFloat(x) && Rounds(x, y)
    ensures y == x
  {
    assert Abs(x - x) == 0.0;
  }

  lemma WholeIsFloat(d: int)
    requires -SIGNIFICAND <= d <= SIGNIFICAND
    ensures IsFloat(d as real)
  {
    assert Spells(d, 0, d as real);
  }

  lemma Pow2Add(a: nat, b: nat)
    ensures Pow2(a + b) == Pow2(a) * Pow2(b)
    decreases a
  {
    if a > 0 {
      Pow2Add(a - 1, b);
      assert 2.0 * (Pow2(a - 1) * Pow2(b)) == (2.0 * Pow2(a - 1)) * Pow2(b);
    } else {
      assert 1.0 * Pow2(b) == Pow2(b);
    }
  }

  const SECOND: real := 1000000000.0
  const LIMIT: int := 0x40_0000 * 1000000000 // 2^22 seconds

  lemma Powers()
    ensures Pow2(1) == 2.0 && Pow2(31) == 2147483648.0
  {
    assert Pow2(4) == 16.0;
    Pow2Add(4, 4);
    Pow2Add(8, 8);
    Pow2Add(8, 4);
    Pow2Add(12, 3);
    Pow2Add(16, 15);
  }

  /** An approximation of d by less than half rounds to d. */
  lemma RoundsBack(d: int, p: real)
    requires Abs(d as real - p) < 0.5
    ensures Round(p) == d
  {
  }

  /** The seconds, as written: off by at most 2^-32. */
  lemma SecondsError(d: int, s: real)
    requires -LIMIT < d < LIMIT && Rounds(d as real / SECOND, s)
    ensures Abs(d as real / SECOND - s) <= 1.0 / 4294967296.0
  {
    Powers();
    var x := d as real / SECOND;
    assert x * SECOND == d as real;
    assert Abs(x) <= 4194304.0;
    RoundingError(x, s, 31);
  }

  /** The product, as computed: off by at most 1/4 from a number off by at most 10^9 / 2^32. */
  lemma ProductError(d: int, s: real, p: real)
    requires -LIMIT < d < LIMIT && Abs(d as real / SECOND - s) <= 1.0 / 4294967296.0 && Rounds(s * SECOND, p)
    ensures Abs(d as real - p) < 0.5
  {
    Powers();
    var x := d as real / SECOND;
    assert x * SECOND == d as real;
    assert Abs(d as real - s * SECOND) <= 0.2329;
    assert Abs(s * SECOND) * Pow2(1) <= SIGNIFICAND as real;
    RoundingError(s * SECOND, p, 1);
  }

  /**
    The round trip: a Duration of less than 2^22 seconds, either side of zero,
    converted to binary64 nanoseconds (f), divided to seconds (s), multiplied
    back (p) and rounded, is the Duration.
  */
  lemma LatencyRoundTrips(d: int, f: real, s: real, p: real)
    requires -LIMIT < d < LIMIT
    requires Rounds(d as real, f) && Rounds(f / SECOND, s) && Rounds(s * SECOND, p)
    ensures Round(p) == d
  {
    WholeIsFloat(d);
    FloatRounds(d as real, f);
    SecondsError(d, s);
    ProductError(d, s, p);
    RoundsBack(d, p);
  }
}
