/** The rule that no string of a response body holds a raw control character (internal/codec/control.go): the word-at-a-time
    byte test, on bit vectors since it is arithmetic on them, and the scan that tracks string boundaries. */
module Control {
  type Byte = bv8
  type Bytes = seq<Byte>

  const QUOTE: Byte := 0x22
  const BACKSLASH: Byte := 0x5C
  const SPACE: Byte := 0x20

  /** Eight bytes as one little-endian word. */
  function Word(b0: Byte, b1: Byte, b2: Byte, b3: Byte, b4: Byte, b5: Byte, b6: Byte, b7: Byte): bv64 {
    b0 as bv64 | ((b1 as bv64) << 8) | ((b2 as bv64) << 16) | ((b3 as bv64) << 24)
    | ((b4 as bv64) << 32) | ((b5 as bv64) << 40) | ((b6 as bv64) << 48) | ((b7 as bv64) << 56)
  }

  /** The word test: the high bits that 0x20 subtracted from every byte at once sets and x does not have. */
  predicate WordTest(x: bv64) {
    (x - 0x2020202020202020) & !x & 0x8080808080808080 != 0
  }

  ghost predicate AnyControl(s: Bytes) {
    exists k :: Low(s, k)
  }

  /**
    The word test is exact on every word. A borrow out of a byte can disturb
    the bytes above it, but only a byte below 0x20, or one so disturbed,
    borrows: whether the test finds anything is decided by the lowest one.
  */
  lemma WordTestExact(x: bv64)
    ensures WordTest(x) <==>
            || x & 0xFF < 0x20 || (x >> 8) & 0xFF < 0x20 || (x >> 16) & 0xFF < 0x20 || (x >> 24) & 0xFF < 0x20
            || (x >> 32) & 0xFF < 0x20 || (x >> 40) & 0xFF < 0x20 || (x >> 48) & 0xFF < 0x20 || (x >> 56) & 0xFF < 0x20
  {
  }

  /** One turn of the word loop: eight bytes loaded as one word and tested. */
  method TestWord(b0: Byte, b1: Byte, b2: Byte, b3: Byte, b4: Byte, b5: Byte, b6: Byte, b7: Byte) returns (found: bool)
    ensures found <==>
            b0 < SPACE || b1 < SPACE || b2 < SPACE || b3 < SPACE || b4 < SPACE || b5 < SPACE || b6 < SPACE || b7 < SPACE
  {
    found := WordTest(Word(b0, b1, b2, b3, b4, b5, b6, b7));
  }

  predicate Low(s: Bytes, k: int) {
    0 <= k < |s| && s[k] < SPACE
  }

  /** The window s[i..i + 8] holds a byte below 0x20. */
  predicate LowIn(s: Bytes, i: nat) {
    Low(s, i) || Low(s, i + 1) || Low(s, i + 2) || Low(s, i + 3)
    || Low(s, i + 4) || Low(s, i + 5) || Low(s, i + 6) || Low(s, i + 7)
  }

  method TestWindow(s: Bytes, i: nat) returns (found: bool)
    requires i + 8 <= |s|
    ensures found <==> LowIn(s, i)
  {
    found := TestWord(s[i], s[i + 1], s[i + 2], s[i + 3], s[i + 4], s[i + 5], s[i + 6], s[i + 7]);
  }

  lemma LowWindow(s: Bytes, i: nat, k: nat)
    requires !LowIn(s, i) && i <= k < i + 8
    ensures !Low(s, k)
  {
  }

  /** hasControlByte: eight bytes at a time, then the rest one by one. */
  method HasControlByte(s: Bytes) returns (found: bool)
    ensures found <==> AnyControl(s)
  {
    var i := 0;
    while i + 8 <= |s|
      invariant 0 <= i <= |s|
      invariant forall k :: 0 <= k < i ==> !Low(s, k)
    {
      var word := TestWindow(s, i);
      if word {
        return true;
      }
      forall k | 0 <= k < i + 8
        ensures !Low(s, k)
      {
        if k >= i {
          LowWindow(s, i, k);
        }
      }
      i := i + 8;
    }
    while i < |s|
      invariant 0 <= i <= |s|
      invariant forall k :: 0 <= k < i ==> !Low(s, k)
    {
      if s[i] < SPACE {
        assert Low(s, i);
        return true;
      }
      i := i + 1;
    }
    return false;
  }

  /** Where a JSON lexer stands: outside a string, inside one, or after a backslash inside one. */
  datatype Lexer = Outside | Inside | Escaped

  /** One byte of the lexer: a backslash in a string takes the next byte, an unescaped quote ends or starts a string. */
  function Lex(l: Lexer, c: Byte): Lexer {
    match l
    case Outside => if c == QUOTE then Inside else Outside
    case Inside => if c == QUOTE then Outside else if c == BACKSLASH then Escaped else Inside
    case Escaped => Inside
  }

  /** The lexer after the bytes s, from outside every string. */
  function LexAll(s: Bytes): Lexer {
    if s == [] then Outside else Lex(LexAll(s[..|s| - 1]), s[|s| - 1])
  }

  /**
    s holds a raw control character inside a string at k: RFC 8259, section 7,
    allows none there. The byte an escape's backslash takes counts as the
    escape's, not as a raw character: the parser has refused it already when
    it is a control character.
  */
  predicate RawControlAt(s: Bytes, k: nat)
    requires k < |s|
  {
    s[k] < SPACE && LexAll(s[..k]) == Inside
  }

  /** rawControlInString as a lexer decides it. */
  ghost predicate RawControl(s: Bytes) {
    exists k :: 0 <= k < |s| && RawControlAt(s, k)
  }

  /** controlInString: one pass with an in-string flag, stepping over the byte each escape takes. */
  method ControlInString(body: Bytes) returns (found: bool)
    ensures found <==> RawControl(body)
  {
    var inside := false;
    var i := 0;
    while i < |body|
      invariant 0 <= i <= |body| + 1
      invariant i <= |body| ==> LexAll(body[..i]) == if inside then Inside else Outside
      invariant forall k :: 0 <= k < i && k < |body| ==> !RawControlAt(body, k)
    {
      assert body[..i + 1][..i] == body[..i];
      var c := body[i];
      if c == QUOTE {
        inside := !inside;
      } else if !inside {
      } else if c == BACKSLASH {
        if i + 1 < |body| {
          assert body[..i + 2][..i + 1] == body[..i + 1];
        }
        i := i + 1;
      } else if c < SPACE {
        assert RawControlAt(body, i);
        return true;
      }
      i := i + 1;
    }
    return false;
  }

  /** rawControlInString: the scan runs only when some byte is below 0x20, which changes no answer. */
  method RawControlInString(body: Bytes) returns (found: bool)
    ensures found <==> RawControl(body)
  {
    var any := HasControlByte(body);
    if any {
      found := ControlInString(body);
    } else {
      assert forall k :: 0 <= k < |body| && RawControlAt(body, k) ==> Low(body, k);
      found := false;
    }
  }
}
