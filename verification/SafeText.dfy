/**
  Text the SDK did not write, escaped and cut (internal/engine/text.go), and
  the field paths that hold it (text.go). A Go string is a string of bytes.
*/
module SafeText {
  import opened Basics
  import Utf8

  predicate Bytes(s: string) {
    forall i :: 0 <= i < |s| ==> s[i] as int < 256
  }

  // ----- runes -----

  /** The code point a well-formed sequence encodes. */
  function Rune(u: string): (r: nat)
    requires Utf8.IsSequence(u)
    ensures |u| == 1 <==> r < 0x80
    ensures |u| <= 2 <==> r < 0x800
    ensures |u| <= 3 <==> r < 0x10000
    ensures r < 0x110000
  {
    var b := u[0] as int;
    if |u| == 1 then b
    else if |u| == 2 then (b - 0xC0) * 64 + (u[1] as int - 0x80)
    else if |u| == 3 then ((b - 0xE0) * 64 + (u[1] as int - 0x80)) * 64 + (u[2] as int - 0x80)
    else (((b - 0xF0) * 64 + (u[1] as int - 0x80)) * 64 + (u[2] as int - 0x80)) * 64 + (u[3] as int - 0x80)
  }

  function Byte(b: nat): char
    requires b < 256
  {
    b as char
  }

  function ByteOr(b: nat): char {
    if b < 256 then Byte(b) else Byte(0)
  }

  /** The UTF-8 of a code point. */
  function Encode(r: nat): string
    requires r < 0x110000
  {
    if r < 0x80 then [Byte(r)]
    else if r < 0x800 then [Byte(0xC0 + r / 64), Byte(0x80 + r % 64)]
    else if r < 0x10000 then [Byte(0xE0 + r / 4096), Byte(0x80 + r / 64 % 64), Byte(0x80 + r % 64)]
    else [Byte(0xF0 + r / 262144), Byte(0x80 + r / 4096 % 64), Byte(0x80 + r / 64 % 64), Byte(0x80 + r % 64)]
  }

  lemma SixBits(hi: nat, lo: nat)
    requires lo < 64
    ensures (hi * 64 + lo) / 64 == hi && (hi * 64 + lo) % 64 == lo
  {
  }

  lemma TwelveBits(a: nat, b: nat, c: nat)
    requires b < 64 && c < 64
    ensures var r := (a * 64 + b) * 64 + c; r / 4096 == a && r / 64 % 64 == b && r % 64 == c
  {
    SixBits(a * 64 + b, c);
    SixBits(a, b);
  }

  lemma EighteenBits(a: nat, b: nat, c: nat, d: nat)
    requires b < 64 && c < 64 && d < 64
    ensures var r := ((a * 64 + b) * 64 + c) * 64 + d; r / 262144 == a && r / 4096 % 64 == b && r / 64 % 64 == c && r % 64 == d
  {
    SixBits((a * 64 + b) * 64 + c, d);
    TwelveBits(a, b, c);
  }

  lemma EncodeRune(u: string)
    requires Utf8.IsSequence(u)
    ensures Encode(Rune(u)) == u
  {
    if |u| == 2 {
      SixBits(u[0] as int - 0xC0, u[1] as int - 0x80);
    } else if |u| == 3 {
      EncodeThree(u);
    } else if |u| == 4 {
      EncodeFour(u);
    }
  }

  lemma EncodeThree(u: string)
    requires Utf8.IsSequence(u) && |u| == 3
    ensures Encode(Rune(u)) == u
  {
    assert Utf8.IsCont(u[2]);
    TwelveBits(u[0] as int - 0xE0, u[1] as int - 0x80, u[2] as int - 0x80);
  }

  lemma EncodeFour(u: string)
    requires Utf8.IsSequence(u) && |u| == 4
    ensures Encode(Rune(u)) == u
  {
    assert Utf8.IsCont(u[2]) && Utf8.IsCont(u[3]);
    EighteenBits(u[0] as int - 0xF0, u[1] as int - 0x80, u[2] as int - 0x80, u[3] as int - 0x80);
  }

  // ----- escapes -----

  /** The code points that reorder, join or hide the text around them, as ranges. */
  const HIDDEN: seq<(nat, nat)> := [
    (0x00AD, 0x00AD), (0x061C, 0x061C), (0x180E, 0x180E), (0x200B, 0x200F), (0x2028, 0x202E), (0x2060, 0x206F),
    (0xFEFF, 0xFEFF), (0xFFF9, 0xFFFB), (0xE0000, 0xE007F)]

  predicate InRanges(r: nat, ranges: seq<(nat, nat)>) {
    ranges != [] && (ranges[0].0 <= r <= ranges[0].1 || InRanges(r, ranges[1..]))
  }

  /** hidesText */
  predicate HidesText(r: nat) {
    InRanges(r, HIDDEN)
  }

  lemma {:induction false} RangesFrom(r: nat, ranges: seq<(nat, nat)>, least: nat)
    requires InRanges(r, ranges) && forall k :: 0 <= k < |ranges| ==> least <= ranges[k].0
    ensures least <= r
  {
    if !(ranges[0].0 <= r <= ranges[0].1) {
      RangesFrom(r, ranges[1..], least);
    }
  }

  /** A control character, or one that reorders or hides the text around it. */
  predicate Unsafe(r: nat) {
    r < 0x20 || 0x7F <= r < 0xA0 || HidesText(r)
  }

  function Hex(d: nat): char
    requires d < 16
  {
    if d < 10 then '0' + d as char else 'a' + (d - 10) as char
  }

  /** v in n hexadecimal digits. */
  function HexDigits(v: nat, n: nat): (s: string)
    ensures |s| == n
  {
    if n == 0 then "" else HexDigits(v / 16, n - 1) + [Hex(v % 16)]
  }

  const BYTE_DIGITS: nat := 2
  const SHORT_DIGITS: nat := 4
  const LONG_DIGITS: nat := 8

  function HexValue(c: char): nat {
    if '0' <= c <= '9' then c as int - '0' as int
    else if 'a' <= c <= 'f' then c as int - 'a' as int + 10
    else 0
  }

  function HexNumber(s: string): nat {
    if s == "" then 0 else HexNumber(s[..|s| - 1]) * 16 + HexValue(s[|s| - 1])
  }

  function Power16(n: nat): nat {
    if n == 0 then 1 else 16 * Power16(n - 1)
  }

  lemma {:induction false} HexRoundTrip(v: nat, n: nat)
    requires v < Power16(n)
    ensures HexNumber(HexDigits(v, n)) == v
  {
    if n > 0 {
      var hi, lo := v / 16, v % 16;
      assert v == 16 * hi + lo && hi < Power16(n - 1);
      HexRoundTrip(hi, n - 1);
      OneMoreDigit(HexDigits(hi, n - 1), lo);
    }
  }

  lemma OneMoreDigit(t: string, lo: nat)
    requires lo < 16
    ensures HexNumber(t + [Hex(lo)]) == HexNumber(t) * 16 + lo
  {
    assert HexValue(Hex(lo)) == lo;
    assert (t + [Hex(lo)])[..|t|] == t;
  }

  /** The escape of an unsafe code point, as strconv quotes it. */
  function QuoteRune(r: nat): string {
    if r == 7 then "\\a"
    else if r == 8 then "\\b"
    else if r == 12 then "\\f"
    else if r == 10 then "\\n"
    else if r == 13 then "\\r"
    else if r == 9 then "\\t"
    else if r == 11 then "\\v"
    else if r < 0x20 || r == 0x7F then "\\x" + HexDigits(r, BYTE_DIGITS)
    else if r < 0x10000 then "\\u" + HexDigits(r, SHORT_DIGITS)
    else "\\U" + HexDigits(r, LONG_DIGITS)
  }

  /** How one character is written: its text, how many characters that is, and how many bytes of the source it stands for. */
  datatype Piece = Piece(text: string, width: nat, size: nat)

  function Escape(esc: string, size: nat): Piece {
    Piece(esc, |esc|, size)
  }

  /** The first character of s, as it is written; a character stands for a byte. */
  function PieceAt(s: string, double: bool): (p: Piece)
    requires s != ""
    ensures 0 < p.size <= |s| && 0 < p.width <= 10
  {
    var n := Utf8.SeqLen(s);
    if n == 0 then Escape("\\x" + HexDigits(s[0] as int % 256, BYTE_DIGITS), 1)
    else if s[0] == '\\' then (if double then Escape("\\\\", 1) else Piece("\\", 1, 1))
    else if Unsafe(Rune(s[..n])) then Escape(QuoteRune(Rune(s[..n])), n)
    else Piece(s[..n], 1, n)
  }

  /** U+2026 */
  const ELLIPSIS: string := "\U{E2}" + "\U{80}" + "\U{A6}"

  /** The characters of s, as they are written. */
  function Pieces(s: string, double: bool): seq<Piece>
    decreases |s|
  {
    if s == "" then [] else var p := PieceAt(s, double); [p] + Pieces(s[p.size..], double)
  }

  function Texts(ps: seq<Piece>): string {
    if ps == [] then "" else ps[0].text + Texts(ps[1..])
  }

  function Widths(ps: seq<Piece>): nat {
    if ps == [] then 0 else ps[0].width + Widths(ps[1..])
  }

  /** The pieces ps cut at limit characters: whole pieces while they fit, then one ellipsis. */
  function Cut(ps: seq<Piece>, limit: int): string {
    if ps == [] then ""
    else if ps[0].width > limit then ELLIPSIS
    else ps[0].text + Cut(ps[1..], limit - ps[0].width)
  }

  /** s in full, and cut at limit characters. */
  function Full(s: string, double: bool): string
  {
    Texts(Pieces(s, double))
  }

  function Rendered(s: string, limit: int, double: bool): string
  {
    Cut(Pieces(s, double), limit)
  }

  /** What is written and what is still to come of the pieces rest, with room for so many characters. */
  ghost predicate Awaits(out: string, rest: seq<Piece>, room: int, want: string) {
    out + Cut(rest, room) == want
  }

  lemma OneMore(out: string, rest: seq<Piece>, room: int, want: string)
    requires rest != [] && Awaits(out, rest, room, want)
    ensures rest[0].width <= room ==> Awaits(out + rest[0].text, rest[1..], room - rest[0].width, want)
    ensures rest[0].width > room ==> out + ELLIPSIS == want
  {
    assert out + (rest[0].text + Cut(rest[1..], room - rest[0].width)) == out + rest[0].text + Cut(rest[1..], room - rest[0].width);
  }

  /** AppendSafeText; t is what is left of s. */
  method AppendSafeText(dst: string, s: string, limit: int, double: bool) returns (out: string)
    ensures out == dst + Rendered(s, limit, double)
  {
    out := dst;
    var n := 0;
    var t := s;
    ghost var want := dst + Rendered(s, limit, double);
    while t != ""
      invariant Awaits(out, Pieces(t, double), limit - n, want)
      decreases |t|
    {
      var p := PieceAt(t, double);
      OneMore(out, Pieces(t, double), limit - n, want);
      if n + p.width > limit {
        return out + ELLIPSIS;
      }
      out := out + p.text;
      n := n + p.width;
      t := t[p.size..];
    }
  }

  /** The first k pieces of ps are what a cut at limit keeps of them. */
  predicate KeptAt(ps: seq<Piece>, limit: int, k: nat) {
    && k < |ps| && Cut(ps, limit) == Texts(ps[..k]) + ELLIPSIS
    && Widths(ps[..k]) <= Max(limit, 0) && limit < Widths(ps[..k]) + ps[k].width
    && CutChars(ps, limit) == Widths(ps[..k]) + 1
  }

  lemma {:induction false} CutFits(ps: seq<Piece>, limit: int)
    requires ps == [] || Widths(ps) <= limit
    ensures Cut(ps, limit) == Texts(ps)
    decreases |ps|
  {
    if ps != [] {
      CutFits(ps[1..], limit - ps[0].width);
    }
  }

  lemma TextsHead(ps: seq<Piece>, j: nat)
    requires ps != [] && j < |ps|
    ensures Texts(ps[..j + 1]) == ps[0].text + Texts(ps[1..][..j]) && Widths(ps[..j + 1]) == ps[0].width + Widths(ps[1..][..j])
  {
    assert ps[..j + 1][1..] == ps[1..][..j];
  }

  lemma KeptAfter(ps: seq<Piece>, limit: int, j: nat)
    requires ps != [] && ps[0].width <= limit && KeptAt(ps[1..], limit - ps[0].width, j)
    ensures KeptAt(ps, limit, j + 1)
  {
    TextsHead(ps, j);
  }

  lemma {:induction false} CutKeeps(ps: seq<Piece>, limit: int) returns (k: nat)
    requires ps != [] && Widths(ps) > limit
    ensures KeptAt(ps, limit, k)
    decreases |ps|
  {
    if ps[0].width <= limit {
      var j := CutKeeps(ps[1..], limit - ps[0].width);
      KeptAfter(ps, limit, j);
      k := j + 1;
    } else {
      k := 0;
      assert ps[..0] == [];
    }
  }

  lemma {:induction false} TextsPrefix(ps: seq<Piece>, k: nat)
    requires k <= |ps|
    ensures Texts(ps[..k]) <= Texts(ps)
    decreases |ps|
  {
    if k > 0 {
      TextsHead(ps, k - 1);
      TextsPrefix(ps[1..], k - 1);
    } else {
      assert ps[..0] == [];
    }
  }

  /**
    A rendering is full exactly when it fits; else it is whole pieces of the
    full one, at most limit characters of them, and one ellipsis, and the next
    piece would not have fitted.
  */
  lemma CutIs(ps: seq<Piece>, limit: int) returns (k: nat)
    ensures ps == [] || Widths(ps) <= limit ==> Cut(ps, limit) == Texts(ps)
    ensures ps != [] && Widths(ps) > limit ==> KeptAt(ps, limit, k)
    ensures k <= |ps| && Texts(ps[..k]) <= Texts(ps)
  {
    k := 0;
    if ps != [] && Widths(ps) > limit {
      k := CutKeeps(ps, limit);
    } else {
      CutFits(ps, limit);
    }
    TextsPrefix(ps, k);
  }

  // ----- nothing is lost that is not cut -----

  /** The character a hexadecimal escape stands for. */
  function FromHex(h: string): string {
    Encode(if HexNumber(h) < 0x110000 then HexNumber(h) else 0)
  }

  lemma FromHexDigits(r: nat, n: nat)
    requires r < 0x110000 && r < Power16(n)
    ensures FromHex(HexDigits(r, n)) == Encode(r)
  {
    HexRoundTrip(r, n);
  }

  /** The bytes an escaped text stands for. */
  function Unescaped(t: string): string
    decreases |t|
  {
    if t == "" then ""
    else if t[0] != '\\' || |t| == 1 then [t[0]] + Unescaped(t[1..])
    else if t[1] == 'x' && |t| >= 4 then [ByteOr(HexNumber(t[2..4]))] + Unescaped(t[4..])
    else if t[1] == 'u' && |t| >= 6 then FromHex(t[2..6]) + Unescaped(t[6..])
    else if t[1] == 'U' && |t| >= 10 then FromHex(t[2..10]) + Unescaped(t[10..])
    else [Named(t[1])] + Unescaped(t[2..])
  }

  function Named(c: char): char {
    if c == 'a' then Byte(7)
    else if c == 'b' then Byte(8)
    else if c == 'f' then Byte(12)
    else if c == 'n' then Byte(10)
    else if c == 'r' then Byte(13)
    else if c == 't' then Byte(9)
    else if c == 'v' then Byte(11)
    else c
  }

  lemma HeadUnescaped(c: char, rest: string)
    requires c != '\\'
    ensures Unescaped([c] + rest) == [c] + Unescaped(rest)
  {
    assert ([c] + rest)[1..] == rest;
  }

  lemma {:induction false} PlainUnescaped(u: string, rest: string)
    requires forall k :: 0 <= k < |u| ==> u[k] != '\\'
    ensures Unescaped(u + rest) == u + Unescaped(rest)
    decreases |u|
  {
    if u == "" {
      assert u + rest == rest;
    } else {
      PlainUnescaped(u[1..], rest);
      HeadUnescaped(u[0], u[1..] + rest);
      Headed(u, rest);
      Headed(u, Unescaped(rest));
    }
  }

  lemma Headed(u: string, v: string)
    requires u != ""
    ensures [u[0]] + (u[1..] + v) == u + v
  {
  }

  /** A hexadecimal escape stands for its number, whatever follows. */
  lemma EscapeParsed(h: string, rest: string)
    ensures |h| == 2 ==> Unescaped("\\x" + h + rest) == [ByteOr(HexNumber(h))] + Unescaped(rest)
    ensures |h| == 4 ==> Unescaped("\\u" + h + rest) == FromHex(h) + Unescaped(rest)
    ensures |h| == 8 ==> Unescaped("\\U" + h + rest) == FromHex(h) + Unescaped(rest)
  {
    var n := |h| + 2;
    assert ("\\x" + h + rest)[2..n] == h && ("\\x" + h + rest)[n..] == rest;
    assert ("\\u" + h + rest)[2..n] == h && ("\\u" + h + rest)[n..] == rest;
    assert ("\\U" + h + rest)[2..n] == h && ("\\U" + h + rest)[n..] == rest;
  }

  lemma Powers()
    ensures Power16(BYTE_DIGITS) == 0x100 && Power16(SHORT_DIGITS) == 0x10000 && Power16(LONG_DIGITS) == 0x1_0000_0000
  {
    assert Power16(2) == 0x100 && Power16(4) == 0x10000 && Power16(6) == 0x100_0000 && Power16(8) == 0x1_0000_0000;
  }

  /** An ASCII control character. */
  lemma ControlUnescaped(r: nat, rest: string)
    requires r < 0x20 || r == 0x7F
    ensures Unescaped(QuoteRune(r) + rest) == [Byte(r)] + Unescaped(rest)
  {
    if 7 <= r <= 13 {
      assert (QuoteRune(r) + rest)[2..] == rest;
    } else {
      Powers();
      HexRoundTrip(r, BYTE_DIGITS);
      EscapeParsed(HexDigits(r, BYTE_DIGITS), rest);
    }
  }

  lemma WideUnescaped(r: nat, rest: string)
    requires 0x80 <= r < 0x110000
    ensures Unescaped(QuoteRune(r) + rest) == Encode(r) + Unescaped(rest)
  {
    Powers();
    var n := if r < 0x10000 then SHORT_DIGITS else LONG_DIGITS;
    FromHexDigits(r, n);
    EscapeParsed(HexDigits(r, n), rest);
  }

  lemma QuoteUnescaped(r: nat, rest: string)
    requires r < 0x110000 && Unsafe(r)
    ensures Unescaped(QuoteRune(r) + rest) == Encode(r) + Unescaped(rest)
  {
    if r < 0x80 {
      if HidesText(r) {
        RangesFrom(r, HIDDEN, 0xAD);
      }
      ControlUnescaped(r, rest);
    } else {
      WideUnescaped(r, rest);
    }
  }

  /** A byte that is not UTF-8. */
  lemma InvalidUnescaped(b: nat, rest: string)
    requires b < 256
    ensures Unescaped("\\x" + HexDigits(b, BYTE_DIGITS) + rest) == [Byte(b)] + Unescaped(rest)
  {
    Powers();
    HexRoundTrip(b, BYTE_DIGITS);
    EscapeParsed(HexDigits(b, BYTE_DIGITS), rest);
  }

  /** A character written as it is. */
  lemma SequenceUnescaped(u: string, rest: string)
    requires Utf8.IsSequence(u) && u[0] != '\\'
    ensures Unescaped(u + rest) == u + Unescaped(rest)
  {
    assert forall k :: 2 <= k < |u| ==> Utf8.IsCont(u[k]);
    PlainUnescaped(u, rest);
  }

  lemma InvalidPiece(s: string, rest: string)
    requires s != "" && Bytes(s) && Utf8.SeqLen(s) == 0
    ensures var p := PieceAt(s, true); Unescaped(p.text + rest) == s[..p.size] + Unescaped(rest)
  {
    InvalidPieceIs(s);
    InvalidUnescaped(s[0] as int, rest);
  }

  lemma InvalidPieceIs(s: string)
    requires s != "" && Bytes(s) && Utf8.SeqLen(s) == 0
    ensures PieceAt(s, true).size == 1 && PieceAt(s, true).text == "\\x" + HexDigits(s[0] as int, BYTE_DIGITS)
    ensures s[..1] == [Byte(s[0] as int)]
  {
  }

  lemma BackslashPiece(s: string, rest: string)
    requires s != "" && s[0] == '\\'
    ensures var p := PieceAt(s, true); Unescaped(p.text + rest) == s[..p.size] + Unescaped(rest)
  {
    assert Utf8.SeqLen(s) == 1 && s[..1] == [s[0]];
    BackslashUnescaped(rest);
  }

  lemma BackslashUnescaped(rest: string)
    ensures Unescaped("\\\\" + rest) == "\\" + Unescaped(rest)
  {
    assert ("\\\\" + rest)[2..] == rest;
  }

  /** A piece stands for the bytes it was made of, whatever follows. */
  lemma PieceUnescaped(s: string, rest: string)
    requires s != "" && Bytes(s)
    ensures var p := PieceAt(s, true); Unescaped(p.text + rest) == s[..p.size] + Unescaped(rest)
  {
    if Utf8.SeqLen(s) == 0 {
      InvalidPiece(s, rest);
    } else if s[0] == '\\' {
      BackslashPiece(s, rest);
    } else {
      SequencePiece(s, rest);
    }
  }

  lemma SequencePiece(s: string, rest: string)
    requires s != "" && Bytes(s) && Utf8.SeqLen(s) > 0 && s[0] != '\\'
    ensures var p := PieceAt(s, true); Unescaped(p.text + rest) == s[..p.size] + Unescaped(rest)
  {
    var u := s[..Utf8.SeqLen(s)];
    if Unsafe(Rune(u)) {
      QuoteUnescaped(Rune(u), rest);
      EncodeRune(u);
    } else {
      SequenceUnescaped(u, rest);
    }
  }

  /** Doubling loses nothing: the full rendering stands for exactly the bytes rendered. */
  lemma {:induction false} FullUnescaped(s: string)
    requires Bytes(s)
    ensures Unescaped(Full(s, true)) == s
    decreases |s|
  {
    if s != "" {
      var p := PieceAt(s, true);
      FullUnescaped(s[p.size..]);
      PieceUnescaped(s, Full(s[p.size..], true));
    }
  }

  /** So two names never read alike, unless they are cut. */
  lemma RenderingInjective(a: string, b: string)
    requires Bytes(a) && Bytes(b) && Full(a, true) == Full(b, true)
    ensures a == b
  {
    FullUnescaped(a);
    FullUnescaped(b);
  }

  // ----- what a rendering shows -----

  /** How many characters t has, when it is UTF-8 without an unsafe one. */
  function Shown(t: string): Option<nat>
    decreases |t|
  {
    if t == "" then Some(0)
    else
      var n := Utf8.SeqLen(t);
      if n == 0 || Unsafe(Rune(t[..n])) then None
      else
        match Shown(t[n..])
        case None => None
        case Some(k) => Some(k + 1)
  }

  lemma OneShown(u: string)
    requires Utf8.IsSequence(u) && !Unsafe(Rune(u))
    ensures Shown(u) == Some(1)
  {
    Utf8.SeqLenOfSequence(u, "");
    assert u + "" == u && u[..|u|] == u && u[|u|..] == "";
  }

  /** A safe character counts one, whatever follows. */
  lemma ShownHead(u: string, rest: string)
    requires Utf8.IsSequence(u) && !Unsafe(Rune(u))
    ensures Shown(u + rest) == match Shown(rest) case None => None case Some(k) => Some(k + 1)
  {
    Utf8.SeqLenOfSequence(u, rest);
    assert (u + rest)[..|u|] == u && (u + rest)[|u|..] == rest;
  }

  lemma {:induction false} ShownConcat(a: string, b: string)
    requires Shown(a).Some? && Shown(b).Some?
    ensures Shown(a + b) == Some(Shown(a).value + Shown(b).value)
    decreases |a|
  {
    if a == "" {
      assert a + b == b;
    } else {
      var n := Utf8.SeqLen(a);
      var u, rest := a[..n], a[n..];
      ShownConcat(rest, b);
      ShownHead(u, rest + b);
      Reheaded(a, b, n);
    }
  }

  lemma Reheaded(a: string, b: string, n: nat)
    requires n <= |a|
    ensures a[..n] + (a[n..] + b) == a + b
  {
  }

  /** Printable ASCII text. */
  predicate Printable(t: string) {
    forall k :: 0 <= k < |t| ==> 0x20 <= t[k] as int < 0x7F
  }

  lemma {:induction false} PrintableShown(t: string)
    requires Printable(t)
    ensures Shown(t) == Some(|t|)
  {
    if t != "" {
      PrintableShown(t[1..]);
      assert t[..1] == [t[0]];
      if HidesText(t[0] as int) {
        RangesFrom(t[0] as int, HIDDEN, 0xAD);
      }
    }
  }

  lemma {:induction false} HexPrintable(v: nat, n: nat)
    ensures Printable(HexDigits(v, n))
  {
    if n > 0 {
      HexPrintable(v / 16, n - 1);
    }
  }

  lemma QuotePrintable(r: nat)
    ensures Printable(QuoteRune(r))
  {
    HexPrintable(r, BYTE_DIGITS);
    HexPrintable(r, SHORT_DIGITS);
    HexPrintable(r, LONG_DIGITS);
  }

  lemma PieceShown(s: string, double: bool)
    requires s != ""
    ensures Shown(PieceAt(s, double).text) == Some(PieceAt(s, double).width)
  {
    var n := Utf8.SeqLen(s);
    if n == 0 {
      HexPrintable(s[0] as int % 256, BYTE_DIGITS);
      PrintableShown(PieceAt(s, double).text);
    } else if s[0] == '\\' {
      PrintableShown(PieceAt(s, double).text);
    } else if Unsafe(Rune(s[..n])) {
      QuotePrintable(Rune(s[..n]));
      PrintableShown(PieceAt(s, double).text);
    } else {
      OneShown(s[..n]);
    }
  }

  /** Every piece of ps shows as many characters as it counts. */
  predicate AllShown(ps: seq<Piece>) {
    ps == [] || (PieceFits(ps[0]) && AllShown(ps[1..]))
  }

  predicate PieceFits(p: Piece) {
    Shown(p.text) == Some(p.width)
  }

  lemma {:induction false} PiecesShown(s: string, double: bool)
    ensures AllShown(Pieces(s, double))
    decreases |s|
  {
    if s != "" {
      PieceShown(s, double);
      PiecesShown(s[PieceAt(s, double).size..], double);
    }
  }

  lemma EllipsisShown(t: string)
    requires t == ELLIPSIS
    ensures Shown(t) == Some(1)
  {
    assert t == "\U{E2}\U{80}\U{A6}";
    assert Rune(t) == 0x2026;
    assert !InRanges(0x2026, HIDDEN) by {
      NotHidden(0x2026, HIDDEN);
    }
    OneShown(t);
  }

  lemma {:induction false} NotHidden(r: nat, ranges: seq<(nat, nat)>)
    requires forall k :: 0 <= k < |ranges| ==> r < ranges[k].0 || ranges[k].1 < r
    ensures !InRanges(r, ranges)
  {
    if ranges != [] {
      NotHidden(r, ranges[1..]);
    }
  }

  /** How many characters ps takes, cut at limit. */
  function CutChars(ps: seq<Piece>, limit: int): nat {
    if ps == [] then 0
    else if ps[0].width > limit then 1
    else ps[0].width + CutChars(ps[1..], limit - ps[0].width)
  }

  lemma {:induction false} CutCharsWithin(ps: seq<Piece>, limit: int)
    ensures CutChars(ps, limit) <= Max(limit, 0) + 1
    ensures Widths(ps) <= limit ==> CutChars(ps, limit) == Widths(ps)
  {
    if ps != [] && ps[0].width <= limit {
      CutCharsWithin(ps[1..], limit - ps[0].width);
    }
  }

  /** ps cut at limit, with the given mark. */
  function Marked(ps: seq<Piece>, limit: int, mark: string): string {
    if ps == [] then ""
    else if ps[0].width > limit then mark
    else ps[0].text + Marked(ps[1..], limit - ps[0].width, mark)
  }

  lemma {:induction false} MarkedShown(ps: seq<Piece>, limit: int, mark: string)
    requires AllShown(ps) && Shown(mark) == Some(1)
    ensures Shown(Marked(ps, limit, mark)) == Some(CutChars(ps, limit))
  {
    if ps != [] && ps[0].width <= limit {
      MarkedShown(ps[1..], limit - ps[0].width, mark);
      MarkedStep(ps, limit, mark);
    } else {
      MarkedEnd(ps, limit, mark);
      EmptyShown("");
    }
  }

  lemma EmptyShown(t: string)
    requires t == ""
    ensures Shown(t) == Some(0)
  {
  }

  lemma MarkedStep(ps: seq<Piece>, limit: int, mark: string)
    requires ps != [] && ps[0].width <= limit && PieceFits(ps[0])
    requires Shown(Marked(ps[1..], limit - ps[0].width, mark)) == Some(CutChars(ps[1..], limit - ps[0].width))
    ensures Shown(Marked(ps, limit, mark)) == Some(CutChars(ps, limit))
  {
    MarkedHead(ps, limit, mark);
    HeadAndRest(ps[0], Marked(ps[1..], limit - ps[0].width, mark), CutChars(ps[1..], limit - ps[0].width),
                Marked(ps, limit, mark), CutChars(ps, limit));
  }

  lemma HeadAndRest(p: Piece, rest: string, chars: nat, text: string, all: nat)
    requires PieceFits(p) && Shown(rest) == Some(chars) && text == p.text + rest && all == p.width + chars
    ensures Shown(text) == Some(all)
  {
    PieceAndRest(p, rest, chars);
  }

  lemma MarkedHead(ps: seq<Piece>, limit: int, mark: string)
    requires ps != [] && ps[0].width <= limit
    ensures Marked(ps, limit, mark) == ps[0].text + Marked(ps[1..], limit - ps[0].width, mark)
    ensures CutChars(ps, limit) == ps[0].width + CutChars(ps[1..], limit - ps[0].width)
  {
  }

  lemma MarkedEnd(ps: seq<Piece>, limit: int, mark: string)
    requires ps == [] || ps[0].width > limit
    ensures if ps == [] then Marked(ps, limit, mark) == "" && CutChars(ps, limit) == 0 else Marked(ps, limit, mark) == mark && CutChars(ps, limit) == 1
  {
  }

  lemma {:induction false} CutIsMarked(ps: seq<Piece>, limit: int, mark: string)
    requires mark == ELLIPSIS
    ensures Cut(ps, limit) == Marked(ps, limit, mark)
  {
    if ps != [] && ps[0].width <= limit {
      CutIsMarked(ps[1..], limit - ps[0].width, mark);
    }
  }

  lemma CutShown(ps: seq<Piece>, limit: int)
    requires AllShown(ps)
    ensures Shown(Cut(ps, limit)) == Some(CutChars(ps, limit))
  {
    EllipsisShown(ELLIPSIS);
    MarkedShown(ps, limit, ELLIPSIS);
    CutIsMarked(ps, limit, ELLIPSIS);
  }

  lemma PieceAndRest(p: Piece, rest: string, chars: nat)
    requires Shown(p.text) == Some(p.width) && Shown(rest) == Some(chars)
    ensures Shown(p.text + rest) == Some(p.width + chars)
  {
    ShownConcat(p.text, rest);
  }

  /**
    Whatever the text is, its rendering is UTF-8 without a control character
    and without one that reorders or hides the text around it, of at most
    limit characters and an ellipsis.
  */
  lemma RenderedShown(s: string, limit: int, double: bool)
    ensures Shown(Rendered(s, limit, double)) == Some(CutChars(Pieces(s, double), limit))
    ensures Shown(Rendered(s, limit, double)).value <= Max(limit, 0) + 1
    ensures Widths(Pieces(s, double)) <= limit ==> Shown(Rendered(s, limit, double)) == Some(Widths(Pieces(s, double)))
  {
    PiecesShown(s, double);
    CutShown(Pieces(s, double), limit);
    CutCharsWithin(Pieces(s, double), limit);
  }
}
