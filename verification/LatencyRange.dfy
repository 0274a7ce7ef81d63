/**
  Which latencies of a Report its own reader refuses (adapter/report.go):
  those of the last 512 ns of a Duration's range, whose seconds read back as
  2^63 nanoseconds.
*/
module LatencyRange {
  import opened Basics
  import opened Latency
  import opened LatencyBound
  import opened Report

  const TOP: int := 0x8000_0000_0000_0000 // 2^63

  // ----- where the floats lie -----

  lemma Doubled(z: real)
    requires IsFloat(z)
    ensures IsFloat(2.0 * z)
  {
    var m: int, q: nat :| -SIGNIFICAND <= m <= SIGNIFICAND && Spells(m, q, z);
    if z * Pow2(q) == m as real && q > 0 {
      DoubledDown(z, m, q);
    } else {
      DoubledUp(z, m, q);
    }
  }

  lemma DoubledDown(z: real, m: int, q: nat)
    requires -SIGNIFICAND <= m <= SIGNIFICAND && q > 0 && z * Pow2(q) == m as real
    ensures IsFloat(2.0 * z)
  {
    Twice(z, Pow2(q - 1));
    TwiceLeft(z, Pow2(q - 1));
    assert Spells(m, q - 1, 2.0 * z);
  }

  lemma DoubledUp(z: real, m: int, q: nat)
    requires -SIGNIFICAND <= m <= SIGNIFICAND && z == m as real * Pow2(q)
    ensures IsFloat(2.0 * z)
  {
    Twice(m as real, Pow2(q));
    assert Spells(m, q + 1, 2.0 * z);
  }

  lemma Halved(z: real)
    requires IsFloat(2.0 * z)
    ensures IsFloat(z)
  {
    var m: int, q: nat :| -SIGNIFICAND <= m <= SIGNIFICAND && Spells(m, q, 2.0 * z);
    if 2.0 * z == m as real * Pow2(q) && q > 0 {
      HalvedDown(z, m, q);
    } else {
      HalvedUp(z, m, q);
    }
  }

  lemma HalvedDown(z: real, m: int, q: nat)
    requires -SIGNIFICAND <= m <= SIGNIFICAND && q > 0 && 2.0 * z == m as real * Pow2(q)
    ensures IsFloat(z)
  {
    Twice(m as real, Pow2(q - 1));
    assert Spells(m, q - 1, z);
  }

  lemma HalvedUp(z: real, m: int, q: nat)
    requires -SIGNIFICAND <= m <= SIGNIFICAND && 2.0 * z * Pow2(q) == m as real
    ensures IsFloat(z)
  {
    Twice(z, Pow2(q));
    TwiceLeft(z, Pow2(q));
    assert Spells(m, q + 1, z);
  }

  /** Multiplying by a power of two keeps a float one, and so does dividing. */
  lemma {:induction false} ScaledFloat(z: real, n: nat, w: real)
    requires w == z * Pow2(n)
    ensures IsFloat(z) <==> IsFloat(w)
    decreases n
  {
    if n > 0 {
      var h := z * Pow2(n - 1);
      ScaledFloat(z, n - 1, h);
      Twice(z, Pow2(n - 1));
      assert w == 2.0 * h;
      if IsFloat(h) {
        Doubled(h);
      }
      if IsFloat(2.0 * h) {
        Halved(h);
      }
    } else {
      assert w == z;
    }
  }

  lemma Whole(z: real) returns (k: int)
    requires IsFloat(z) && Abs(z) >= N / 2.0
    ensures z == k as real
  {
    WholeAbove(z);
    k := Round(z);
  }

  lemma Pow10()
    ensures Pow2(10) == 1024.0 && Pow2(11) == 2048.0
  {
    assert Pow2(5) == 32.0;
    Pow2Add(5, 5);
    assert Pow2(11) == 2.0 * Pow2(10);
  }

  lemma Pow19()
    ensures Pow2(19) == 524288.0
  {
    Pow10();
    assert Pow2(4) == 16.0;
    Pow2Add(4, 4);
    Pow2Add(11, 8);
  }

  /** From 2^62 on, floats are multiples of 1024, and from 2^63 on of 2048. */
  lemma TopGrid(z: real) returns (k: int)
    requires IsFloat(z) && z >= 4611686018427387904.0
    ensures z == 1024.0 * k as real
    ensures z >= TOP as real ==> k % 2 == 0
  {
    Pow10();
    var w := z / 1024.0;
    ScaledFloat(w, 10, z);
    k := Whole(w);
    if z >= TOP as real {
      ScaledFloat(z / 2048.0, 11, z);
      var h := Whole(z / 2048.0);
      assert k == 2 * h;
    }
  }

  lemma TopAreFloats()
    ensures IsFloat(TOP as real) && IsFloat((TOP - 1024) as real)
  {
    Pow10();
    assert Spells(SIGNIFICAND, 10, TOP as real);
    assert Spells(SIGNIFICAND - 1, 10, (TOP - 1024) as real);
  }

  lemma Opposite(x: real, y: real)
    requires Rounds(x, y)
    ensures Rounds(-x, -y)
  {
    OppositeFloat(y);
    forall z | IsFloat(z)
      ensures Abs(-x - -y) <= Abs(-x - z)
    {
      OppositeFloat(z);
      assert Abs(x - y) <= Abs(x - -z);
    }
  }

  lemma OppositeFloat(z: real)
    requires IsFloat(z)
    ensures IsFloat(-z)
  {
    var m: int, q: nat :| -SIGNIFICAND <= m <= SIGNIFICAND && Spells(m, q, z);
    OppositeSpells(m, q, z);
  }

  lemma OppositeSpells(m: int, q: nat, z: real)
    requires Spells(m, q, z)
    ensures Spells(-m, q, -z)
  {
    assert (-m) as real == -(m as real);
    if z == m as real * Pow2(q) {
      OppositeProduct(m as real, Pow2(q));
    } else {
      OppositeProduct(z, Pow2(q));
    }
  }

  lemma OppositeProduct(a: real, p: real)
    ensures -a * p == -(a * p)
  {
  }

  // ----- rounding at the top of the range -----

  /** Rounding keeps the order. */
  lemma Monotone(x: real, y: real, fx: real, fy: real)
    requires x < y && Rounds(x, fx) && Rounds(y, fy)
    ensures fx <= fy
  {
    assert Abs(x - fx) <= Abs(x - fy) && Abs(y - fy) <= Abs(y - fx);
  }

  /** The nanoseconds of the last 512 of the range round to 2^63, the others to 2^63 - 1024 or less. */
  lemma TopRounds(d: int, f: real)
    requires d < TOP && Rounds(d as real, f)
    ensures d > TOP - 512 ==> f == TOP as real
    ensures d < TOP - 512 ==> f <= (TOP - 1024) as real
    ensures f == TOP as real || f <= (TOP - 1024) as real
  {
    TopAreFloats();
    if f >= 4611686018427387904.0 {
      var k := TopGrid(f);
    }
  }

  /** Doubling commutes with rounding. */
  lemma RoundsDoubled(x: real, s: real)
    requires Rounds(x, s)
    ensures Rounds(2.0 * x, 2.0 * s)
  {
    Doubled(s);
    forall z | IsFloat(z)
      ensures Abs(2.0 * x - 2.0 * s) <= Abs(2.0 * x - z)
    {
      Halved(z / 2.0);
      assert Abs(x - s) <= Abs(x - z / 2.0);
    }
  }

  lemma {:induction false} RoundsScaled(x: real, s: real, n: nat, a: real, u: real)
    requires Rounds(x, s) && a == x * Pow2(n) && u == s * Pow2(n)
    ensures Rounds(a, u)
    decreases n
  {
    if n > 0 {
      Twice(x, Pow2(n - 1));
      Twice(s, Pow2(n - 1));
      RoundsScaled(x, s, n - 1, a / 2.0, u / 2.0);
      RoundsDoubled(a / 2.0, u / 2.0);
    } else {
      assert a == x && u == s;
    }
  }

  /** A number past 2^52 and next to the whole number k rounds to k. */
  lemma WholeNear(a: real, u: real, k: int)
    requires Rounds(a, u) && 4503599627370496 < k < SIGNIFICAND && Abs(a - k as real) < 0.4
    ensures u == k as real
  {
    WholeIsFloat(k);
    assert Abs(a - u) <= Abs(a - k as real);
    Near(u, k);
  }

  lemma Near(u: real, k: int)
    requires IsFloat(u) && Abs(u - k as real) < 0.8 && k > 4503599627370496
    ensures u == k as real
  {
    assert k as real >= 4503599627370497.0;
    var j := Whole(u);
    Equal(j, k);
  }

  lemma Equal(j: int, k: int)
    requires Abs(j as real - k as real) < 0.8
    ensures j == k
  {
    assert (j - k) as real == j as real - k as real;
  }

  /** s is k / 2^19 when that is the float next to x. */
  lemma SecondsAre(x: real, s: real, k: int)
    requires Rounds(x, s) && 4503599627370496 < k < SIGNIFICAND && Abs(x * 524288.0 - k as real) < 0.4
    ensures s * 524288.0 == k as real
  {
    Pow19();
    RoundsScaled(x, s, 19, x * 524288.0, s * 524288.0);
    WholeNear(x * 524288.0, s * 524288.0, k);
  }

  /** 2^63 nanoseconds are written as a number of seconds that reads back as 2^63. */
  lemma TopReads(s: real, p: real)
    requires Rounds(TOP as real / SECOND, s) && Rounds(s * SECOND, p)
    ensures p == TOP as real
  {
    SecondsAre(TOP as real / SECOND, s, 4835703278458517);
    TopAreFloats();
    assert Abs(s * SECOND - p) <= Abs(s * SECOND - TOP as real);
    var k := TopGrid(p);
  }

  /** The largest float below is written as a number of seconds that reads back as itself. */
  lemma BelowReads(s: real, p: real)
    requires Rounds((TOP - 1024) as real / SECOND, s) && Rounds(s * SECOND, p)
    ensures p == (TOP - 1024) as real
  {
    SecondsAre((TOP - 1024) as real / SECOND, s, 4835703278458516);
    TopAreFloats();
    assert Abs(s * SECOND - p) <= Abs(s * SECOND - (TOP - 1024) as real);
    var k := TopGrid(p);
  }

  /** -2^63 nanoseconds read back as themselves. */
  lemma BottomReads(s: real, p: real)
    requires Rounds(-(TOP as real) / SECOND, s) && Rounds(s * SECOND, p)
    ensures p == -(TOP as real)
  {
    OppositeSeconds(TOP as real, s);
    Opposite(-(TOP as real) / SECOND, s);
    Opposite(s * SECOND, p);
    TopReads(-s, -p);
  }

  lemma OppositeSeconds(f: real, s: real)
    ensures -(-f / SECOND) == f / SECOND && -(s * SECOND) == -s * SECOND
  {
  }

  // ----- what the reader refuses -----

  /** The nanoseconds read back for f nanoseconds, before math.Round. */
  function Nanos(rn: real -> real, f: real): real {
    rn(rn(f / SECOND) * SECOND)
  }

  ghost predicate RoundsToNearest(rn: real -> real) {
    forall x :: Rounds(x, rn(x))
  }

  lemma RnMonotone(rn: real -> real, x: real, y: real)
    requires RoundsToNearest(rn) && x <= y
    ensures rn(x) <= rn(y)
  {
    if x < y {
      Monotone(x, y, rn(x), rn(y));
    }
  }

  ghost predicate Increasing(rn: real -> real) {
    forall x, y :: x <= y ==> rn(x) <= rn(y)
  }

  lemma RnIncreasing(rn: real -> real)
    requires RoundsToNearest(rn)
    ensures Increasing(rn)
  {
    forall x, y | x <= y
      ensures rn(x) <= rn(y)
    {
      RnMonotone(rn, x, y);
    }
  }

  lemma DivideOrder(f: real, g: real, p: real)
    requires f <= g && p > 0.0
    ensures f / p <= g / p
  {
  }

  lemma NanosMonotone(rn: real -> real, f: real, g: real)
    requires Increasing(rn) && f <= g
    ensures Nanos(rn, f) <= Nanos(rn, g)
  {
    DivideOrder(f, g, SECOND);
    var s, t := rn(f / SECOND), rn(g / SECOND);
    assert s <= t;
    Scaled(s, t, SECOND);
  }

  lemma TopNanos(rn: real -> real)
    requires RoundsToNearest(rn)
    ensures Nanos(rn, TOP as real) == TOP as real
  {
    TopReads(rn(TOP as real / SECOND), Nanos(rn, TOP as real));
  }

  lemma BelowNanos(rn: real -> real)
    requires RoundsToNearest(rn)
    ensures Nanos(rn, (TOP - 1024) as real) == (TOP - 1024) as real
  {
    BelowReads(rn((TOP - 1024) as real / SECOND), Nanos(rn, (TOP - 1024) as real));
  }

  lemma BottomNanos(rn: real -> real)
    requires RoundsToNearest(rn)
    ensures Nanos(rn, -(TOP as real)) == -(TOP as real)
  {
    BottomReads(rn(-(TOP as real) / SECOND), Nanos(rn, -(TOP as real)));
  }

  /** Where the nanoseconds of a Duration lie once they are a float. */
  lemma NanosIn(rn: real -> real, d: int)
    requires RoundsToNearest(rn) && -TOP <= d < TOP
    ensures -(TOP as real) <= rn(d as real)
    ensures rn(d as real) == TOP as real || rn(d as real) <= (TOP - 1024) as real
  {
    TopRounds(d, rn(d as real));
    TopAreFloats();
    OppositeFloat(TOP as real);
    FloatRounds(-(TOP as real), rn(-(TOP as real)));
    RnMonotone(rn, -(TOP as real), d as real);
  }

  lemma NanosWithin(rn: real -> real, f: real)
    requires RoundsToNearest(rn) && -(TOP as real) <= f <= (TOP - 1024) as real
    ensures -(TOP as real) <= Nanos(rn, f) <= (TOP - 1024) as real
  {
    BottomNanos(rn);
    BelowNanos(rn);
    RnIncreasing(rn);
    NanosMonotone(rn, -(TOP as real), f);
    NanosMonotone(rn, f, (TOP - 1024) as real);
  }

  lemma RoundWithin(p: real)
    requires -(TOP as real) <= p <= (TOP - 1024) as real
    ensures IsInt(Round(p))
  {
  }

  lemma DurationIs(lib: Library, d: int)
    ensures DurationOf(lib, Seconds(lib, d)).None? <==> !IsInt(Round(Nanos(lib.rn, lib.rn(d as real))))
  {
  }

  /** The reader refuses a written latency exactly when its nanoseconds rounded to 2^63, which no other Duration's do. */
  lemma Refused(lib: Library, d: int)
    requires RoundsToNearest(lib.rn) && -TOP <= d < TOP
    ensures DurationOf(lib, Seconds(lib, d)).None? <==> lib.rn(d as real) == TOP as real
  {
    DurationIs(lib, d);
    NanosIn(lib.rn, d);
    if lib.rn(d as real) == TOP as real {
      TopNanos(lib.rn);
      RoundsBack(TOP, TOP as real);
    } else {
      NanosWithin(lib.rn, lib.rn(d as real));
      RoundWithin(Nanos(lib.rn, lib.rn(d as real)));
    }
  }

  // ----- ties -----

  /** y's significand, of 53 bits, is even. */
  ghost predicate IsEven(y: real) {
    exists m: int, q: nat :: SIGNIFICAND / 2 <= m < SIGNIFICAND && m % 2 == 0 && Spells(m, q, Abs(y))
  }

  /** Of two floats equally near, rn takes the even one, as binary64 arithmetic does. */
  ghost predicate TiesToEven(rn: real -> real) {
    forall x, z :: Rounds(x, z) && z != rn(x) ==> IsEven(rn(x))
  }

  lemma {:induction false} Pow2Monotone(a: nat, b: nat)
    requires a <= b
    ensures Pow2(a) <= Pow2(b)
    decreases b
  {
    if a < b {
      Pow2Monotone(a, b - 1);
    }
  }

  /** An even significand goes with a multiple of 2048 there. */
  lemma EvenMultiple(y: real, m: int, q: nat) returns (k: int)
    requires y == m as real * Pow2(q) && 0 <= m < SIGNIFICAND && m % 2 == 0 && y >= (TOP - 1024) as real
    ensures y == 2048.0 * k as real
  {
    Pow10();
    var h := m / 2;
    Twice(h as real, Pow2(q));
    assert y == h as real * Pow2(q + 1);
    EvenScale(y, h as real, q + 1);
    k := Eleven(h, q + 1);
  }

  lemma Eleven(h: int, r: nat) returns (k: int)
    requires r >= 11
    ensures h as real * Pow2(r) == 2048.0 * k as real
  {
    Pow10();
    k := WholeScaled(h, r - 11);
    Pow2Add(r - 11, 11);
    Apart(h as real, Pow2(r - 11), 2048.0);
  }

  lemma Apart(a: real, b: real, c: real)
    ensures a * (b * c) == c * (a * b)
  {
  }

  lemma EvenScale(y: real, h: real, r: nat)
    requires y == h * Pow2(r) && 0.0 <= h < 4503599627370496.0 && y >= (TOP - 1024) as real
    ensures r >= 11
  {
    PowSmall(r);
    SmallProduct(h, Pow2(r));
  }

  lemma SmallProduct(h: real, p: real)
    requires 0.0 <= h < 4503599627370496.0 && p > 0.0
    ensures p <= 1024.0 ==> h * p < (TOP - 1024) as real
  {
    Scaled(h, 4503599627370496.0, p);
    assert p <= 1024.0 ==> 4503599627370496.0 * p <= 4611686018427387904.0;
  }

  lemma PowSmall(r: nat)
    ensures r < 11 ==> Pow2(r) <= 1024.0
  {
    Pow10();
    if r < 11 {
      Pow2Monotone(r, 10);
    }
  }

  lemma Odd(y: real)
    requires y == (TOP - 1024) as real
    ensures !IsEven(y)
  {
    assert Abs(y) == y;
    forall m: int, q: nat | SIGNIFICAND / 2 <= m < SIGNIFICAND && m % 2 == 0
      ensures !Spells(m, q, y)
    {
      NotSpelled(y, m, q);
    }
  }

  lemma NotSpelled(y: real, m: int, q: nat)
    requires y == (TOP - 1024) as real && 0 < m < SIGNIFICAND && m % 2 == 0
    ensures !Spells(m, q, y)
  {
    Positive(m as real, Pow2(q));
    Scaled(1.0, Pow2(q), y);
    if y == m as real * Pow2(q) {
      var k := EvenMultiple(y, m, q);
    }
  }

  /** Halfway between the two floats, both are nearest. */
  lemma HalfwayTies()
    ensures Rounds((TOP - 512) as real, TOP as real) && Rounds((TOP - 512) as real, (TOP - 1024) as real)
  {
    TopAreFloats();
    forall z | IsFloat(z)
      ensures Abs((TOP - 512) as real - z) >= 512.0
    {
      if z >= 4611686018427387904.0 {
        var k := TopGrid(z);
      }
    }
  }

  /**
    UnmarshalJSON refuses what MarshalJSON wrote exactly for the latencies of
    2^63 - 512 nanoseconds or more; at 2^63 - 512 itself that is the tie going
    to even.
  */
  lemma LatencyRefused(lib: Library, d: int)
    requires RoundsToNearest(lib.rn) && -TOP <= d < TOP
    ensures d != TOP - 512 ==> (DurationOf(lib, Seconds(lib, d)).None? <==> d > TOP - 512)
    ensures TiesToEven(lib.rn) ==> (DurationOf(lib, Seconds(lib, d)).None? <==> d >= TOP - 512)
  {
    Refused(lib, d);
    TopRounds(d, lib.rn(d as real));
    if d == TOP - 512 && TiesToEven(lib.rn) {
      HalfwayTies();
      Odd((TOP - 1024) as real);
    }
  }
}
