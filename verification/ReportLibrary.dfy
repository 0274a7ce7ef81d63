/**
  The libraries that the Report's round trip relies on can be had: every real
  has a nearest 53-bit number, and floats can be spelled so that they read back.
*/
module ReportLibrary {
  import opened Basics
  import opened JsonTree
  import opened Latency
  import opened LatencyBound
  import opened LatencyRange
  import opened Report

  // ----- every real is rounded -----

  /** The whole number next to a is no farther than any other. */
  lemma NoneNearer(a: real, k: int, j: int)
    requires Abs(a - k as real) <= 0.5
    ensures Abs(a - k as real) <= Abs(a - j as real)
  {
    if j < k {
      assert j as real <= k as real - 1.0;
    } else if j > k {
      assert j as real >= k as real + 1.0;
    }
  }

  /** Between 2^52 and 2^53 floats are the whole numbers. */
  lemma WholeBetween(a: real) returns (y: real)
    requires N / 2.0 <= a < N
    ensures Rounds(a, y)
  {
    var k := NextWhole(a);
    y := k as real;
    WholeIsFloat(k);
    forall z | IsFloat(z)
      ensures Abs(a - y) <= Abs(a - z)
    {
      if Abs(z) >= N / 2.0 {
        var j := Whole(z);
        NoneNearer(a, k, j);
      } else {
        NoneNearer(a, k, 0x10_0000_0000_0000);
      }
    }
  }

  lemma RoundsHalved(x: real, s: real)
    requires Rounds(2.0 * x, 2.0 * s)
    ensures Rounds(x, s)
  {
    Halved(s);
    forall z | IsFloat(z)
      ensures Abs(x - s) <= Abs(x - z)
    {
      Doubled(z);
      assert Abs(2.0 * x - 2.0 * s) <= Abs(2.0 * x - 2.0 * z);
    }
  }

  lemma {:induction false} LargeRounds(x: real) returns (y: real)
    requires x >= N / 2.0
    ensures Rounds(x, y)
    decreases x.Floor
  {
    if x < N {
      y := WholeBetween(x);
    } else {
      var s := LargeRounds(x / 2.0);
      y := 2.0 * s;
      RoundsDoubled(x / 2.0, s);
    }
  }

  lemma {:induction false} SmallRounds(x: real, n: nat) returns (y: real)
    requires 0.0 < x < N && x * Pow2(n) >= N / 2.0
    ensures Rounds(x, y)
    decreases n
  {
    if x >= N / 2.0 {
      y := WholeBetween(x);
    } else {
      assert n > 0;
      Twice(x, Pow2(n - 1));
      TwiceLeft(x, Pow2(n - 1));
      var s := SmallRounds(2.0 * x, n - 1);
      y := s / 2.0;
      RoundsHalved(x, y);
    }
  }

  lemma {:induction false} Pow2Grows(n: nat)
    ensures Pow2(n) >= n as real
  {
    if n > 0 {
      Pow2Grows(n - 1);
    }
  }

  /** Doubling a positive number often enough brings it past 2^52. */
  lemma Reaches(x: real) returns (n: nat)
    requires 0.0 < x < N
    ensures x * Pow2(n) >= N / 2.0
  {
    var c := N / x;
    QuotientPositive(N, x);
    n := c.Floor + 1;
    Pow2Grows(n);
    Scaled(c, Pow2(n), x);
    Divided(N, x);
  }

  lemma QuotientPositive(a: real, p: real)
    requires a > 0.0 && p > 0.0
    ensures a / p > 0.0
  {
    Divided(a, p);
  }

  lemma ZeroRounds()
    ensures Rounds(0.0, 0.0)
  {
    WholeIsFloat(0);
  }

  /** Every real has a nearest float. */
  lemma EveryRounds(x: real) returns (y: real)
    ensures Rounds(x, y)
  {
    if x == 0.0 {
      y := 0.0;
      ZeroRounds();
    } else if x < 0.0 {
      var s := PositiveRounds(-x);
      y := -s;
      Opposite(-x, s);
    } else {
      y := PositiveRounds(x);
    }
  }

  lemma PositiveRounds(x: real) returns (y: real)
    requires x > 0.0
    ensures Rounds(x, y)
  {
    if x >= N / 2.0 {
      y := LargeRounds(x);
    } else {
      var n := Reaches(x);
      y := SmallRounds(x, n);
    }
  }

  lemma SomeRounding(x: real)
    ensures exists y :: Rounds(x, y)
  {
    var y := EveryRounds(x);
  }

  ghost function RoundingOf(x: real): (y: real)
    ensures Rounds(x, y)
  {
    SomeRounding(x);
    var y :| Rounds(x, y);
    y
  }

  // ----- a spelling of floats -----

  /** A significand, a scale, and which way it scales. */
  datatype Parts = Parts(m: int, q: nat, up: bool)

  predicate SpelledBy(x: real, p: Parts) {
    if p.up then x == p.m as real * Pow2(p.q) else x * Pow2(p.q) == p.m as real
  }

  lemma OneValue(x: real, y: real, p: Parts)
    requires SpelledBy(x, p) && SpelledBy(y, p)
    ensures x == y
  {
    if !p.up {
      Cancel(x, y, Pow2(p.q));
    }
  }

  lemma FloatHasParts(x: real)
    requires IsFloat(x)
    ensures exists p :: SpelledBy(x, p)
  {
    var m: int, q: nat :| -SIGNIFICAND <= m <= SIGNIFICAND && Spells(m, q, x);
    SpelledByOne(x, m, q);
  }

  lemma SpelledByOne(x: real, m: int, q: nat)
    requires Spells(m, q, x)
    ensures SpelledBy(x, Parts(m, q, true)) || SpelledBy(x, Parts(m, q, false))
  {
  }

  ghost function PartsOf(x: real): (p: Parts)
    requires IsFloat(x)
    ensures SpelledBy(x, p)
  {
    FloatHasParts(x);
    var p :| SpelledBy(x, p);
    p
  }

  /** The parts in unary. */
  function Code(p: Parts): string {
    [if p.m < 0 then '-' else '+', if p.up then '*' else '/'] +
    seq(if p.m < 0 then -p.m else p.m, _ => '1') + seq(p.q, _ => '0')
  }

  lemma CodeAt(p: Parts, k: nat)
    requires 2 <= k < |Code(p)|
    ensures Code(p)[k] == '1' <==> k - 2 < if p.m < 0 then -p.m else p.m
  {
  }

  lemma CodeInjective(p: Parts, r: Parts)
    requires Code(p) == Code(r)
    ensures p == r
  {
    assert Code(p)[0] == Code(r)[0] && Code(p)[1] == Code(r)[1];
    var a, b := if p.m < 0 then -p.m else p.m, if r.m < 0 then -r.m else r.m;
    assert |Code(p)| == 2 + a + p.q && |Code(r)| == 2 + b + r.q;
    if a < b {
      CodeAt(p, 2 + a);
      CodeAt(r, 2 + a);
    } else if b < a {
      CodeAt(p, 2 + b);
      CodeAt(r, 2 + b);
    }
  }

  ghost function TextFor(x: real): string {
    if IsFloat(x) then Code(PartsOf(x)) else ""
  }

  ghost function FloatFor(s: string): Option<real> {
    if exists x :: IsFloat(x) && TextFor(x) == s then
      var x :| IsFloat(x) && TextFor(x) == s;
      Some(x)
    else None
  }

  lemma FloatReads(x: real)
    requires IsFloat(x)
    ensures FloatFor(TextFor(x)) == Some(x)
  {
    var s := TextFor(x);
    assert exists y :: IsFloat(y) && TextFor(y) == s;
    var y := FloatFor(s).value;
    CodeInjective(PartsOf(x), PartsOf(y));
    OneValue(x, y, PartsOf(x));
  }

  // ----- a library -----

  /** What the round trip relies on can be met: by a library of which null is the only JSON, and every float is spelled in unary. */
  lemma LibraryExists() returns (lib: Library)
    ensures Faithful(lib)
  {
    lib := Library(s => if s == "null" then Some(Null) else None, _ => "null", x => TextFor(x), s => FloatFor(s), x => RoundingOf(x));
    forall x | IsFloat(x)
      ensures lib.floatOf(lib.floatText(x)) == Some(x)
    {
      FloatReads(x);
    }
  }
}
