/**
  The latency of a Report past 2^22 seconds (adapter/report.go), where the
  round trip is no longer exact: the three roundings and math.Round together
  are off by less than one part in 2^51.
*/
module LatencyBound {
  import opened Latency

  const N: real := 9007199254740992.0 // 2^53

  /** The power of two at or just below a. */
  lemma {:induction false} Binade(a: real) returns (q: nat)
    requires a >= 1.0
    ensures Pow2(q) <= a < Pow2(q + 1)
    decreases a.Floor
  {
    if a < 2.0 {
      q := 0;
      assert Pow2(1) == 2.0 * Pow2(0);
    } else {
      var r := Binade(a / 2.0);
      q := r + 1;
    }
  }

  lemma Scaled(a: real, b: real, p: real)
    requires a <= b && p >= 0.0
    ensures a * p <= b * p
  {
  }

  lemma QuotientAbs(x: real, p: real)
    requires p > 0.0
    ensures Abs(x / p) == Abs(x) / p
  {
    if x < 0.0 {
      assert (-x) / p == -(x / p);
      Quotient(x, 0.0, p);
    } else {
      Quotient(-x, 0.0, p);
      assert (-x) / p == -(x / p);
    }
  }

  lemma HalfOf(e: real, p: real)
    requires Abs(e) <= 0.5 && p > 0.0
    ensures Abs(e * p) <= 0.5 * p
  {
    AbsScales(e, p);
    Scaled(Abs(e), 0.5, p);
  }

  /** The whole number next to u, and its distance scaled by p. */
  lemma Nearest(x: real, u: real, p: real) returns (m: int)
    requires Abs(u) <= N && p > 0.0 && u * p == x
    ensures -SIGNIFICAND <= m <= SIGNIFICAND && Abs(x - m as real * p) <= 0.5 * p
  {
    m := (u + 0.5).Floor;
    var v := m as real;
    var e := (u - v) * p;
    HalfOf(u - v, p);
    assert Abs(e) <= 0.5 * p;
    Distributes(u, v, p);
    assert e == u * p - v * p;
    assert x - m as real * p == e;
  }

  lemma MultipleIsFloat(m: int, q: nat)
    requires -SIGNIFICAND <= m <= SIGNIFICAND
    ensures IsFloat(m as real * Pow2(q))
  {
    assert Spells(m, q, m as real * Pow2(q));
  }

  /** A number of size at most 2^53 * 2^q has a neighbour among the multiples of 2^q that is within half of one. */
  lemma NeighbourUp(x: real, q: nat) returns (z: real)
    requires Abs(x) / Pow2(q) <= N
    ensures IsFloat(z) && Abs(x - z) <= 0.5 * Pow2(q)
  {
    QuotientAbs(x, Pow2(q));
    Divided(x, Pow2(q));
    var m := Nearest(x, x / Pow2(q), Pow2(q));
    z := m as real * Pow2(q);
    MultipleIsFloat(m, q);
  }

  lemma Pow53()
    ensures Pow2(52) * 2.0 == N && Pow2(53) == N
  {
    Powers();
    Pow2Add(31, 21);
    assert Pow2(4) == 16.0;
    Pow2Add(4, 4);
    Pow2Add(8, 8);
    Pow2Add(16, 5);
    assert Pow2(5) == 32.0;
  }

  lemma Quotient(a: real, b: real, p: real)
    requires p > 0.0 && a <= b * p
    ensures a / p <= b
  {
  }

  /** Rounding is off by at most one part in 2^53. */
  lemma Relative(x: real, y: real)
    requires Rounds(x, y) && Abs(x) >= 1.0
    ensures N * Abs(x - y) <= Abs(x)
  {
    var a := Abs(x);
    var q := Binade(a);
    Pow53();
    if q <= 52 {
      Fine(x, y, q);
    } else {
      Coarse(x, y, q);
    }
  }

  lemma Fine(x: real, y: real, q: nat)
    requires Rounds(x, y) && q <= 52 && Pow2(q) <= Abs(x) < Pow2(q + 1)
    ensures N * Abs(x - y) <= Abs(x)
  {
    FineNear(x, y, q, 52 - q);
    FineUnit(q, 52 - q);
  }

  lemma FineNear(x: real, y: real, q: nat, k: nat)
    requires Rounds(x, y) && q + k == 52 && Abs(x) < Pow2(q + 1)
    ensures Abs(x - y) <= HalfStep(k)
  {
    FineSize(Abs(x), q, k);
    RoundingError(x, y, k);
  }

  lemma FineSize(a: real, q: nat, k: nat)
    requires q + k == 52 && a < Pow2(q + 1)
    ensures a * Pow2(k) <= SIGNIFICAND as real
  {
    FineHigh(q, k);
    Scaled(a, Pow2(q + 1), Pow2(k));
  }

  lemma HalfDoubles(k: nat)
    ensures HalfStep(k) == 2.0 * HalfStep(k + 1)
  {
    Halves(0.5, Pow2(k));
  }

  lemma Halves(a: real, p: real)
    requires p > 0.0
    ensures a / p == 2.0 * (a / (2.0 * p))
  {
    Divided(a, p);
    Divided(a, 2.0 * p);
    Twice(a / (2.0 * p), p);
    TwiceLeft(a / (2.0 * p), p);
    Cancel(a / p, 2.0 * (a / (2.0 * p)), p);
  }

  lemma TwiceLeft(a: real, p: real)
    ensures 2.0 * a * p == 2.0 * (a * p)
  {
  }

  /** The step's half is one part in 2^53 of the binade's start. */
  lemma {:induction false} FineUnit(q: nat, k: nat)
    requires q + k == 52
    ensures N * HalfStep(k) == Pow2(q)
    decreases q
  {
    if q > 0 {
      FineUnit(q - 1, k + 1);
      HalfDoubles(k);
    } else {
      Pow53();
    }
  }

  lemma FineHigh(q: nat, k: nat)
    requires q + k == 52
    ensures Pow2(q + 1) * Pow2(k) == N
  {
    Pow53();
    Pow2Add(q + 1, k);
  }

  lemma Cancel(a: real, b: real, p: real)
    requires p > 0.0 && a * p == b * p
    ensures a == b
  {
    assert (a - b) * p == 0.0;
  }

  lemma Coarse(x: real, y: real, q: nat)
    requires Rounds(x, y) && q > 52 && Pow2(q) <= Abs(x) < Pow2(q + 1)
    ensures N * Abs(x - y) <= Abs(x)
  {
    var k: nat := q - 52;
    Pow53();
    Pow2Add(52, k);
    Pow2Add(53, k);
    Quotient(Abs(x), N, Pow2(k));
    var z := NeighbourUp(x, k);
  }

  lemma WholeRounds(k: int, p: real)
    requires p == k as real
    ensures Round(p) as real == p
  {
    RoundsBack(k, p);
  }

  /** A number of size at least 2^52 is scaled down at most once. */
  lemma SmallScale(p: real, m: int, q: nat)
    requires p * Pow2(q) == m as real && -SIGNIFICAND <= m <= SIGNIFICAND && Abs(p) >= N / 2.0
    ensures q < 2
  {
    if q >= 2 {
      Pow2Least(q);
      AbsScales(p, Pow2(q));
      Scaled(4.0, Pow2(q), Abs(p));
      assert false;
    }
  }

  lemma ScaledDown(p: real, m: int, q: nat) returns (k: int)
    requires p * Pow2(q) == m as real && -SIGNIFICAND <= m <= SIGNIFICAND && Abs(p) >= N / 2.0
    ensures p == k as real
  {
    SmallScale(p, m, q);
    if q == 0 {
      k := m;
      assert Pow2(q) == 1.0;
    } else {
      k := m / 2;
      assert Pow2(q) == 2.0 * Pow2(0);
      assert p * 2.0 == m as real;
    }
  }

  /** A float of size at least 2^52 is whole. */
  lemma WholeAbove(p: real)
    requires IsFloat(p) && Abs(p) >= N / 2.0
    ensures Round(p) as real == p
  {
    var m: int, q: nat :| -SIGNIFICAND <= m <= SIGNIFICAND && Spells(m, q, p);
    var k: int;
    if p == m as real * Pow2(q) {
      k := WholeScaled(m, q);
    } else {
      k := ScaledDown(p, m, q);
    }
    WholeRounds(k, p);
  }

  lemma {:induction false} Pow2Least(q: nat)
    requires q >= 2
    ensures Pow2(q) >= 4.0
  {
    if q > 2 {
      Pow2Least(q - 1);
    } else {
      assert Pow2(2) == 2.0 * Pow2(1);
    }
  }

  lemma Twice(a: real, p: real)
    ensures a * (2.0 * p) == 2.0 * (a * p)
  {
  }

  lemma {:induction false} WholeScaled(m: int, q: nat) returns (k: int)
    ensures m as real * Pow2(q) == k as real
  {
    if q == 0 {
      k := m;
      assert Pow2(q) == 1.0 && m as real * 1.0 == k as real;
    } else {
      var h := WholeScaled(m, q - 1);
      k := 2 * h;
      Twice(m as real, Pow2(q - 1));
    }
  }

  /** The three roundings together: off by at most 3 parts in 2^53 and a little. */
  lemma Chain(d: real, f: real, s: real, p: real)
    requires Abs(d) >= LIMIT as real
    requires Rounds(d, f) && Rounds(f / SECOND, s) && Rounds(s * SECOND, p)
    ensures N * Abs(d - p) <= 3.0001 * Abs(d)
    ensures f == d ==> N * Abs(d - p) <= 2.0001 * Abs(d)
  {
    Relative(d, f);
    var x := f / SECOND;
    assert x * SECOND == f;
    Relative(x, s);
    assert N * Abs(f - s * SECOND) <= Abs(f);
    Relative(s * SECOND, p);
    Errors(d, f, s * SECOND, p);
  }

  lemma Errors(d: real, f: real, t: real, p: real)
    requires N * Abs(d - f) <= Abs(d) && N * Abs(f - t) <= Abs(f) && N * Abs(t - p) <= Abs(t)
    ensures N * Abs(d - p) <= 3.0001 * Abs(d)
    ensures f == d ==> N * Abs(d - p) <= 2.0001 * Abs(d)
  {
  }

  /**
    A Duration of 2^22 seconds or more reads back with an error of less than
    one part in 2^51 of it.
  */
  lemma LatencyDiffers(d: int, f: real, s: real, p: real)
    requires LIMIT <= d < 0x8000_0000_0000_0000 || -0x8000_0000_0000_0000 <= d <= -LIMIT
    requires Rounds(d as real, f) && Rounds(f / SECOND, s) && Rounds(s * SECOND, p)
    ensures N / 4.0 * Abs((Round(p) - d) as real) < Abs(d as real)
  {
    if -SIGNIFICAND <= d <= SIGNIFICAND {
      WholeIsFloat(d);
      FloatRounds(d as real, f);
      Chain(d as real, f, s, p);
      assert Abs(Round(p) as real - p) <= 0.5;
    } else {
      Chain(d as real, f, s, p);
      WholeAbove(p);
    }
    assert (Round(p) - d) as real == Round(p) as real - d as real;
  }
}
