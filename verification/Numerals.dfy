/** Decimal numerals: every text of digits is some zeros and the numeral of its value. */
module Numerals {
  import opened Basics
  import opened Folds
  import opened PathText

  function Zeros(k: nat): string {
    if k == 0 then "" else "0" + Zeros(k - 1)
  }

  /** t spells n, with zeros before it perhaps. */
  predicate Spells(t: string, k: nat, n: nat) {
    t == Zeros(k) + Itoa(n)
  }

  lemma {:induction false} DecimalOfItoa(n: nat)
    ensures var s := Itoa(n); s != "" && AllDigits(s) && Decimal(s) == n
  {
    var s := Itoa(n);
    if n < 10 {
      assert s[..0] == "";
      assert Decimal(s[..0]) == 0;
    } else {
      DecimalOfItoa(n / 10);
      assert s[..|s| - 1] == Itoa(n / 10);
    }
  }

  lemma {:induction false} LeadingZero(s: string)
    requires AllDigits(s)
    ensures AllDigits("0" + s) && Decimal("0" + s) == Decimal(s)
    decreases |s|
  {
    if s == "" {
      assert ("0" + s)[..0] == "";
    } else {
      LeadingZero(s[..|s| - 1]);
      assert ("0" + s)[..|s|] == "0" + s[..|s| - 1];
    }
  }

  lemma {:induction false} NumeralReads(k: nat, n: nat)
    ensures var t := Zeros(k) + Itoa(n); t != "" && AllDigits(t) && Decimal(t) == n
  {
    if k == 0 {
      DecimalOfItoa(n);
      assert "" + Itoa(n) == Itoa(n);
    } else {
      NumeralReads(k - 1, n);
      LeadingZero(Zeros(k - 1) + Itoa(n));
      assert "0" + Zeros(k - 1) + Itoa(n) == "0" + (Zeros(k - 1) + Itoa(n));
    }
  }

  /** The numeral of ten times n and one digit more. */
  lemma MoreDigits(n: nat, d: char)
    requires n > 0 && IsDigit(d)
    ensures Itoa(10 * n + Digit(d)) == Itoa(n) + [d]
  {
  }

  lemma OneDigit(d: char)
    requires IsDigit(d)
    ensures Itoa(Digit(d)) == [d]
  {
  }

  lemma {:induction false} Zeroed(k: nat)
    ensures Zeros(k) + "0" == "0" + Zeros(k) == Zeros(k + 1)
  {
    if k > 0 {
      Zeroed(k - 1);
      assert "0" + Zeros(k - 1) + "0" == "0" + (Zeros(k - 1) + "0");
    }
  }

  lemma {:induction false} DigitsSpell(t: string) returns (k: nat)
    requires t != "" && AllDigits(t)
    ensures Spells(t, k, Decimal(t))
    decreases |t|
  {
    var init, d := t[..|t| - 1], t[|t| - 1];
    if init == "" {
      k := 0;
      OneDigit(d);
      assert t == [d] && Decimal(t) == Digit(d);
    } else {
      var m := DigitsSpell(init);
      assert t == init + [d];
      if Decimal(init) == 0 {
        k := m + 1;
        OneDigit(d);
        Zeroed(m);
        assert Itoa(0) == "0";
      } else {
        k := m;
        MoreDigits(Decimal(init), d);
        assert Zeros(m) + Itoa(Decimal(init)) + [d] == Zeros(m) + (Itoa(Decimal(init)) + [d]);
      }
    }
  }

  /** A text of digits spells exactly its value. */
  lemma NumeralIs(t: string, n: nat)
    ensures (exists k :: Spells(t, k, n)) <==> t != "" && AllDigits(t) && Decimal(t) == n
  {
    if t != "" && AllDigits(t) && Decimal(t) == n {
      var k := DigitsSpell(t);
    }
    forall k | Spells(t, k, n) ensures t != "" && AllDigits(t) && Decimal(t) == n {
      NumeralReads(k, n);
    }
  }

  lemma NoSign(k: nat, n: nat)
    ensures var t := Zeros(k) + Itoa(n); t != "" && t[0] != '+' && t[0] != '-'
  {
    NumeralReads(k, n);
    var t := Zeros(k) + Itoa(n);
    assert IsDigit(t[0]);
  }

  // ----- level keys -----

  /** key spells level n: a numeral of at most 2^32 - 1, after a plus sign perhaps. */
  ghost predicate IsLevel(key: string, n: nat) {
    n <= 4294967295 && ((exists k :: Spells(key, k, n)) || exists k :: key == "+" + (Zeros(k) + Itoa(n)))
  }

  /** What a legend or a list of a score's probabilities reads as a level, and as which. */
  lemma LevelIs(key: string, n: nat)
    ensures LevelOf(key) == Some(n) <==> IsLevel(key, n)
  {
    NumeralIs(Unsigned(key), n);
    if key != "" && key[0] == '+' {
      assert key == "+" + key[1..];
      forall k ensures !Spells(key, k, n) {
        NoSign(k, n);
      }
      forall k | Spells(Unsigned(key), k, n) ensures key == "+" + (Zeros(k) + Itoa(n)) {
      }
      forall k | key == "+" + (Zeros(k) + Itoa(n)) ensures Spells(Unsigned(key), k, n) {
        assert ("+" + (Zeros(k) + Itoa(n)))[1..] == Zeros(k) + Itoa(n);
      }
    } else {
      forall k ensures key != "+" + (Zeros(k) + Itoa(n)) {
      }
    }
  }

  // ----- token counts -----

  /** text spells the token count n: a numeral below 2^64, or minus zero. */
  ghost predicate IsCountText(text: string, n: nat) {
    n < 18446744073709551616 && ((text == "-0" && n == 0) || exists k :: Spells(text, k, n))
  }
}
