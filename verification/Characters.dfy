/** UTF-8 by code points, and how each is written as safe text. */
module Characters {
  import Utf8
  import Utf8Repair
  import opened SafeText

  /** A code point that is no surrogate. */
  predicate Scalar(r: int) {
    0 <= r < 0xD800 || 0xE000 <= r < 0x110000
  }

  lemma TwoBytes(r: nat)
    requires 0x80 <= r < 0x800
    ensures Utf8.IsSequence(Encode(r)) && Rune(Encode(r)) == r
  {
    assert r == r / 64 * 64 + r % 64;
  }

  lemma Sixties(r: nat)
    ensures r / 4096 == r / 64 / 64 && r / 262144 == r / 64 / 64 / 64
    ensures r == (r / 4096 * 64 + r / 64 % 64) * 64 + r % 64
    ensures r == ((r / 262144 * 64 + r / 4096 % 64) * 64 + r / 64 % 64) * 64 + r % 64
  {
    assert r == r / 64 * 64 + r % 64;
    assert r / 64 == r / 64 / 64 * 64 + r / 64 % 64;
  }

  lemma ThreeBytes(r: nat)
    requires 0x800 <= r < 0x10000 && Scalar(r)
    ensures Utf8.IsSequence(Encode(r)) && Rune(Encode(r)) == r
  {
    Sixties(r);
  }

  lemma FourBytes(r: nat)
    requires 0x10000 <= r < 0x110000
    ensures Utf8.IsSequence(Encode(r)) && Rune(Encode(r)) == r
  {
    Sixties(r);
  }

  lemma ScalarEncodes(r: nat)
    requires Scalar(r)
    ensures Utf8.IsSequence(Encode(r)) && Rune(Encode(r)) == r
  {
    if 0x80 <= r < 0x800 {
      TwoBytes(r);
    } else if 0x800 <= r < 0x10000 {
      ThreeBytes(r);
    } else if r >= 0x10000 {
      FourBytes(r);
    }
  }

  /** Table 3-7 has exactly the encodings of the scalar values. */
  lemma SequenceIs(u: string)
    requires Utf8.IsSequence(u)
    ensures Scalar(Rune(u)) && u == Encode(Rune(u))
  {
    EncodeRune(u);
  }

  /** What is not UTF-8 is replaced by U+FFFD, and a cut is marked with U+2026. */
  lemma MarksAre()
    ensures Utf8Repair.REPLACEMENT == Encode(0xFFFD) && ELLIPSIS == Encode(0x2026)
  {
  }

  // ----- how a character is written -----

  /** The format characters: soft hyphen, letter mark, vowel separator, zero-width, separators, bidirectional, annotation and tag characters. */
  predicate Formats(r: nat) {
    || r == 0xAD || r == 0x61C || r == 0x180E || r == 0xFEFF
    || 0x200B <= r <= 0x200F || 0x2028 <= r <= 0x202E || 0x2060 <= r <= 0x206F || 0xFFF9 <= r <= 0xFFFB || 0xE0000 <= r <= 0xE007F
  }

  lemma {:induction false} RangesAre(r: nat, ranges: seq<(nat, nat)>)
    ensures InRanges(r, ranges) <==> exists k :: 0 <= k < |ranges| && ranges[k].0 <= r <= ranges[k].1
  {
    if ranges != [] {
      RangesAre(r, ranges[1..]);
      if InRanges(r, ranges[1..]) {
        var k :| 0 <= k < |ranges[1..]| && ranges[1..][k].0 <= r <= ranges[1..][k].1;
        assert ranges[k + 1].0 <= r <= ranges[k + 1].1;
      }
    }
  }

  lemma FormatsAre(r: nat)
    ensures HidesText(r) <==> Formats(r)
  {
    RangesAre(r, HIDDEN);
    if Formats(r) {
      assert HIDDEN[0].0 <= r <= HIDDEN[0].1 || HIDDEN[1].0 <= r <= HIDDEN[1].1 || HIDDEN[2].0 <= r <= HIDDEN[2].1
          || HIDDEN[3].0 <= r <= HIDDEN[3].1 || HIDDEN[4].0 <= r <= HIDDEN[4].1 || HIDDEN[5].0 <= r <= HIDDEN[5].1
          || HIDDEN[6].0 <= r <= HIDDEN[6].1 || HIDDEN[7].0 <= r <= HIDDEN[7].1 || HIDDEN[8].0 <= r <= HIDDEN[8].1;
    }
  }

  const HEXADECIMAL := "0123456789abcdef"

  lemma HexIs(d: nat)
    requires d < 16
    ensures Hex(d) == HEXADECIMAL[d]
  {
  }

  /** t spells v in n lower-case hexadecimal digits. */
  predicate SpellsHex(t: string, v: nat, n: nat) {
    |t| == n && (n > 0 ==> t[n - 1] == HEXADECIMAL[v % 16] && SpellsHex(t[..n - 1], v / 16, n - 1))
  }

  lemma {:induction false} HexSpells(v: nat, n: nat)
    ensures SpellsHex(HexDigits(v, n), v, n)
  {
    if n > 0 {
      HexIs(v % 16);
      HexSpells(v / 16, n - 1);
      assert HexDigits(v, n)[..n - 1] == HexDigits(v / 16, n - 1);
    }
  }

  /** The letter of a named escape. */
  function Letter(r: nat): string {
    match r
    case 7 => "a"
    case 8 => "b"
    case 9 => "t"
    case 10 => "n"
    case 11 => "v"
    case 12 => "f"
    case 13 => "r"
    case _ => ""
  }

  /** text is how the scalar r is written: itself, or the escape of a backslash, of a control character or of a format character. */
  predicate WrittenAs(r: nat, double: bool, text: string)
    requires Scalar(r)
  {
    if r == 0x5C then text == if double then "\\\\" else "\\"
    else if 7 <= r <= 13 then text == "\\" + Letter(r)
    else if r < 0x20 || r == 0x7F then text != "" && |text| >= 2 && text[..2] == "\\x" && SpellsHex(text[2..], r, 2)
    else if 0x80 <= r < 0xA0 || (Formats(r) && r < 0x10000) then |text| >= 2 && text[..2] == "\\u" && SpellsHex(text[2..], r, 4)
    else if Formats(r) then |text| >= 2 && text[..2] == "\\U" && SpellsHex(text[2..], r, 8)
    else text == Encode(r)
  }

  /** A mark of two characters and what follows it. */
  lemma Marked(mark: string, digits: string)
    requires |mark| == 2
    ensures (mark + digits)[..2] == mark && (mark + digits)[2..] == digits
  {
  }

  lemma QuoteWritten(r: nat, double: bool)
    requires Scalar(r) && r != 0x5C && Unsafe(r)
    ensures WrittenAs(r, double, QuoteRune(r))
  {
    FormatsAre(r);
    if r < 0x20 || r == 0x7F {
      HexSpells(r, BYTE_DIGITS);
      Marked("\\x", HexDigits(r, BYTE_DIGITS));
    } else if r < 0x10000 {
      HexSpells(r, SHORT_DIGITS);
      Marked("\\u", HexDigits(r, SHORT_DIGITS));
    } else {
      HexSpells(r, LONG_DIGITS);
      Marked("\\U", HexDigits(r, LONG_DIGITS));
    }
  }

  /** The first character of a text, as it is written, and the characters it counts as: one when it is itself. */
  lemma CharacterWritten(r: nat, rest: string, double: bool)
    requires Scalar(r)
    ensures var p := PieceAt(Encode(r) + rest, double);
            && WrittenAs(r, double, p.text) && p.size == |Encode(r)| && p.width == if p.text == Encode(r) then 1 else |p.text|
  {
    ScalarEncodes(r);
    Utf8.SeqLenOfSequence(Encode(r), rest);
    assert (Encode(r) + rest)[..|Encode(r)|] == Encode(r);
    FormatsAre(r);
    if r == 0x5C {
      assert Encode(r) == "\\";
    } else if Unsafe(r) {
      QuoteWritten(r, double);
      EscapeDiffers(r);
    }
  }

  lemma EscapeDiffers(r: nat)
    requires Scalar(r) && r != 0x5C && Unsafe(r)
    ensures QuoteRune(r) != Encode(r)
  {
    assert QuoteRune(r)[0] == '\\';
  }

  /** A byte that begins no character is written alone, in hexadecimal. */
  lemma ByteWritten(s: string, double: bool)
    requires Bytes(s) && s != "" && Utf8.SeqLen(s) == 0
    ensures var p := PieceAt(s, double);
            p.size == 1 && p.width == |p.text| == 4 && p.text[..2] == "\\x" && SpellsHex(p.text[2..], s[0] as int, 2)
  {
    HexSpells(s[0] as int, BYTE_DIGITS);
    Marked("\\x", HexDigits(s[0] as int, BYTE_DIGITS));
  }
}
