/**
  Where a response body may be cut before its last brace
  (internal/codec/decode.go): the quotes are counted in jumps instead of being
  lexed, and the count is proved to say where the lexer stands.
*/
module Cut {
  import opened Control

  const OPEN_BRACE: Byte := 0x7B
  const CLOSE_BRACE: Byte := 0x7D
  const CLOSE_BRACKET: Byte := 0x5D
  const LETTER_U: Byte := 0x75

  predicate IsSpace(c: Byte) {
    c == 0x20 || c == 0x09 || c == 0x0A || c == 0x0D
  }

  /** lastNonSpace: the last byte other than JSON whitespace, -1 when there is none. */
  method LastNonSpace(b: Bytes) returns (n: int)
    ensures -1 <= n < |b|
    ensures n >= 0 ==> !IsSpace(b[n])
    ensures forall k :: n < k < |b| ==> IsSpace(b[k])
  {
    n := |b| - 1;
    while n >= 0
      invariant -1 <= n < |b|
      invariant forall k :: n < k < |b| ==> IsSpace(b[k])
    {
      if !IsSpace(b[n]) {
        return;
      }
      n := n - 1;
    }
  }

  // ----- quotes -----

  /** The quotes of b. */
  function Quotes(b: Bytes): nat {
    if b == [] then 0 else Quotes(b[..|b| - 1]) + if b[|b| - 1] == QUOTE then 1 else 0
  }

  /** How many backslashes in a row end b. */
  function Run(b: Bytes): nat {
    if b == [] || b[|b| - 1] != BACKSLASH then 0 else Run(b[..|b| - 1]) + 1
  }

  /** The quotes of b right after an odd number of backslashes in a row. */
  function Escapes(b: Bytes): nat {
    if b == [] then 0
    else Escapes(b[..|b| - 1]) + if b[|b| - 1] == QUOTE && Run(b[..|b| - 1]) % 2 == 1 then 1 else 0
  }

  /** Every backslash of b lies inside a string, as in the text of a JSON value. */
  predicate BackslashesInside(b: Bytes) {
    forall k :: 0 <= k < |b| && b[k] == BACKSLASH ==> LexAll(b[..k]) != Outside
  }

  lemma InsidePrefix(b: Bytes, n: nat)
    requires BackslashesInside(b) && n <= |b|
    ensures BackslashesInside(b[..n])
  {
    forall k | 0 <= k < n && b[..n][k] == BACKSLASH
      ensures LexAll(b[..n][..k]) != Outside
    {
      assert b[..n][..k] == b[..k];
    }
  }

  /** The lexer is past a backslash exactly after an odd number of them in a row. */
  lemma {:induction false} RunIsEscaped(b: Bytes)
    requires BackslashesInside(b)
    ensures LexAll(b) == Escaped <==> Run(b) % 2 == 1
    decreases |b|
  {
    if b != [] {
      var n := |b| - 1;
      InsidePrefix(b, n);
      RunIsEscaped(b[..n]);
    }
  }

  /** The count says where the lexer stands: quotes minus escaped quotes is even exactly outside every string. */
  lemma {:induction false} EvenIsOutside(b: Bytes)
    requires BackslashesInside(b)
    ensures Escapes(b) <= Quotes(b)
    ensures (Quotes(b) - Escapes(b)) % 2 == 0 <==> LexAll(b) == Outside
    decreases |b|
  {
    if b != [] {
      var n := |b| - 1;
      InsidePrefix(b, n);
      EvenIsOutside(b[..n]);
      RunIsEscaped(b[..n]);
    }
  }

  /** Without a backslash no quote is escaped. */
  lemma {:induction false} NoEscapes(b: Bytes)
    requires BACKSLASH !in b
    ensures Escapes(b) == 0 && Run(b) == 0
  {
    if b != [] {
      NoEscapes(b[..|b| - 1]);
    }
  }

  /** bytes.IndexByte for a backslash, from position i on. */
  function NextBackslash(b: Bytes, i: nat): (r: int)
    requires i <= |b|
    ensures r == -1 || i <= r < |b|
    ensures r >= 0 ==> b[r] == BACKSLASH && forall k :: i <= k < r ==> b[k] != BACKSLASH
    ensures r < 0 ==> forall k :: i <= k < |b| ==> b[k] != BACKSLASH
    decreases |b| - i
  {
    if i == |b| then -1 else if b[i] == BACKSLASH then i else NextBackslash(b, i + 1)
  }

  /** No escaped quote stands where no backslash is, past the byte right after a run. */
  lemma {:induction false} EscapesSkip(b: Bytes, lo: nat, hi: nat)
    requires lo <= hi <= |b| && forall k :: lo <= k < hi ==> b[k] != BACKSLASH
    ensures Escapes(b[..hi]) == Escapes(b[..lo]) +
              if lo < hi && b[lo] == QUOTE && Run(b[..lo]) % 2 == 1 then 1 else 0
    ensures lo < hi ==> Run(b[..hi]) == 0
    decreases hi - lo
  {
    if lo < hi {
      var n := hi - 1;
      EscapesSkip(b, lo, n);
      assert b[..hi][..n] == b[..n] && b[..hi][n] == b[n];
    }
  }

  /** A run of backslashes, from a place where none was. */
  lemma {:induction false} RunOf(b: Bytes, i: nat, j: nat)
    requires i <= j <= |b| && Run(b[..i]) == 0 && forall k :: i <= k < j ==> b[k] == BACKSLASH
    ensures Run(b[..j]) == j - i && Escapes(b[..j]) == Escapes(b[..i])
    decreases j - i
  {
    if i < j {
      RunOf(b, i, j - 1);
      assert b[..j][..j - 1] == b[..j - 1] && b[..j][j - 1] == b[j - 1];
    }
  }

  /** escapedQuotes: from run to run of backslashes, each decided by its length. */
  method EscapedQuotes(b: Bytes, first: nat) returns (n: nat)
    requires first < |b| && b[first] == BACKSLASH && BACKSLASH !in b[..first]
    ensures n == Escapes(b)
  {
    n := 0;
    var i := first;
    NoEscapes(b[..first]);
    while true
      invariant first <= i < |b| && b[i] == BACKSLASH
      invariant Run(b[..i]) == 0 && n == Escapes(b[..i])
      decreases |b| - i
    {
      var j := i + 1;
      while j < |b| && b[j] == BACKSLASH
        invariant i < j <= |b|
        invariant forall k :: i <= k < j ==> b[k] == BACKSLASH
      {
        j := j + 1;
      }
      RunOf(b, i, j);
      if (j - i) % 2 == 1 && j < |b| && b[j] == QUOTE {
        n := n + 1;
      }
      var k := NextBackslash(b, j);
      EscapesSkip(b, j, if k < 0 then |b| else k);
      if k < 0 {
        assert b[..|b|] == b;
        return;
      }
      i := k;
    }
  }

  // ----- \u escapes -----

  predicate IsHex(c: Byte) {
    0x30 <= c <= 0x39 || 0x61 <= c <= 0x66 || 0x41 <= c <= 0x46
  }

  predicate UEscapeAt(b: Bytes, k: nat) {
    k + 1 < |b| && b[k] == BACKSLASH && b[k + 1] == LETTER_U
  }

  predicate CompleteAt(b: Bytes, k: nat) {
    k + 6 <= |b| && IsHex(b[k + 2]) && IsHex(b[k + 3]) && IsHex(b[k + 4]) && IsHex(b[k + 5])
  }

  /** Every \u of b from position i on is followed by four hexadecimal digits. */
  predicate Complete(b: Bytes, i: nat := 0) {
    forall k :: i <= k < |b| && UEscapeAt(b, k) ==> CompleteAt(b, k)
  }

  /** uEscapesComplete: the search goes on after the four digits, which hold no \u. */
  method UEscapesComplete(b: Bytes) returns (complete: bool)
    ensures complete <==> Complete(b)
  {
    var i := 0;
    while i < |b|
      invariant i <= |b|
      invariant Complete(b) <==> Complete(b, i)
    {
      if !UEscapeAt(b, i) {
        i := i + 1;
      } else if !CompleteAt(b, i) {
        return false;
      } else {
        assert forall k :: i < k < i + 6 ==> !UEscapeAt(b, k);
        i := i + 6;
      }
    }
    complete := true;
  }

  // ----- cutPoint -----

  const MIN_INPUT: nat := 4

  /** The body may be cut before its byte n. */
  predicate CutAt(body: Bytes, n: nat)
    requires n < |body|
  {
    var cut := body[..n];
    && MIN_INPUT <= n && body[n] == CLOSE_BRACE
    && (exists m :: 0 <= m < n && EndsAt(cut, m) && cut[m] in {OPEN_BRACE, CLOSE_BRACE, CLOSE_BRACKET, QUOTE})
    && (Quotes(cut) - Escapes(cut)) % 2 == 0
    && Complete(cut)
  }

  /** m is the last byte of b other than whitespace. */
  predicate EndsAt(b: Bytes, m: nat) {
    m < |b| && !IsSpace(b[m]) && forall k :: m < k < |b| ==> IsSpace(b[k])
  }

  lemma NoUEscape(b: Bytes, i: nat)
    requires i <= |b| && BACKSLASH !in b[..i]
    ensures Complete(b) <==> Complete(b, i)
  {
    forall k | 0 <= k < i
      ensures !UEscapeAt(b, k)
    {
      assert b[k] == b[..i][k];
    }
  }

  lemma CompleteSuffix(b: Bytes, i: nat)
    requires i <= |b|
    ensures Complete(b[i..]) <==> Complete(b, i)
  {
    if Complete(b[i..]) {
      forall k | i <= k < |b| && UEscapeAt(b, k)
        ensures CompleteAt(b, k)
      {
        assert UEscapeAt(b[i..], k - i);
      }
    } else {
      var k :| 0 <= k < |b[i..]| && UEscapeAt(b[i..], k) && !CompleteAt(b[i..], k);
      assert UEscapeAt(b, k + i) && !CompleteAt(b, k + i);
    }
  }

  /** The count and the escapes of the cut body. */
  method CutCounts(cut: Bytes) returns (even: bool, complete: bool)
    ensures even && complete <==> (Quotes(cut) - Escapes(cut)) % 2 == 0 && Complete(cut)
  {
    var quotes: int := Quotes(cut);
    even, complete := true, true;
    var first := NextBackslash(cut, 0);
    if first >= 0 {
      assert BACKSLASH !in cut[..first];
      var escaped := EscapedQuotes(cut, first);
      quotes := quotes - escaped;
      complete := UEscapesComplete(cut[first..]);
      NoUEscape(cut, first);
      CompleteSuffix(cut, first);
    } else {
      NoEscapes(cut);
    }
    even := quotes % 2 == 0;
  }

  /** cutPoint: the index of the body's last brace when the traversal may run over the body cut before it, -1 otherwise. */
  method CutPoint(body: Bytes) returns (n: int)
    ensures -1 <= n < |body|
    ensures n >= 0 ==> EndsAt(body, n) && CutAt(body, n)
    ensures n < 0 ==> forall m :: 0 <= m < |body| && EndsAt(body, m) ==> !CutAt(body, m)
  {
    n := LastNonSpace(body);
    if n < MIN_INPUT || body[n] != CLOSE_BRACE {
      return -1;
    }
    var cut := body[..n];
    var last := LastNonSpace(cut);
    if last < 0 || cut[last] !in {OPEN_BRACE, CLOSE_BRACE, CLOSE_BRACKET, QUOTE} {
      return -1;
    }
    var even, complete := CutCounts(cut);
    if !(even && complete) {
      return -1;
    }
    assert EndsAt(cut, last);
  }

  /** A cut that cutPoint accepts never splits a string of a JSON body. */
  lemma CutOutsideStrings(body: Bytes, n: nat)
    requires n < |body| && CutAt(body, n) && BackslashesInside(body[..n])
    ensures LexAll(body[..n]) == Outside
  {
    EvenIsOutside(body[..n]);
  }

  /** A cut inside a string is never accepted, and no other cut is refused for its quotes. */
  lemma CutParity(body: Bytes, n: nat)
    requires n < |body| && BackslashesInside(body[..n])
    ensures LexAll(body[..n]) != Outside ==> !CutAt(body, n)
    ensures LexAll(body[..n]) == Outside ==> (Quotes(body[..n]) - Escapes(body[..n])) % 2 == 0
  {
    EvenIsOutside(body[..n]);
  }

  // ----- the rule in full -----

  predicate Blank(c: Byte) {
    c in {0x20, 0x09, 0x0A, 0x0D}
  }

  /** Four hexadecimal digits from byte k on. */
  predicate FourDigits(b: Bytes, k: nat) {
    k + 4 <= |b| && forall j :: k <= j < k + 4 ==> 0x30 <= b[j] <= 0x39 || 0x41 <= b[j] <= 0x46 || 0x61 <= b[j] <= 0x66
  }

  /** Every backslash and u of b is followed by four hexadecimal digits. */
  predicate EscapesWhole(b: Bytes) {
    forall k :: 0 <= k < |b| - 1 && b[k] == 0x5C && b[k + 1] == 0x75 ==> FourDigits(b, k + 2)
  }

  /** The last byte of b that is no white space is a brace, a closing bracket or a quote. */
  predicate EndsClean(b: Bytes) {
    exists m :: 0 <= m < |b| && b[m] in {0x7B, 0x7D, 0x5D, 0x22} && forall k :: m < k < |b| ==> Blank(b[k])
  }

  /**
    Where a body may be cut: before a closing brace that is not among its
    first four bytes, outside every string, after a brace, a bracket or a
    string, with no escape left short.
  */
  lemma CutExactly(body: Bytes, n: nat)
    requires n < |body| && BackslashesInside(body[..n])
    ensures CutAt(body, n) <==>
            n >= 4 && body[n] == 0x7D && LexAll(body[..n]) == Outside && EndsClean(body[..n]) && EscapesWhole(body[..n])
  {
    EvenIsOutside(body[..n]);
    WholeIs(body[..n]);
    CleanIs(body[..n]);
  }

  lemma DigitsAre(b: Bytes, k: nat)
    requires k < |b|
    ensures CompleteAt(b, k) <==> FourDigits(b, k + 2)
  {
    if k + 6 <= |b| {
      assert IsHex(b[k + 2]) && IsHex(b[k + 3]) && IsHex(b[k + 4]) && IsHex(b[k + 5]) <==>
             forall j :: k + 2 <= j < k + 6 ==> IsHex(b[j]);
    }
  }

  lemma WholeIs(b: Bytes)
    ensures Complete(b) <==> EscapesWhole(b)
  {
    forall k | 0 <= k < |b| ensures CompleteAt(b, k) <==> FourDigits(b, k + 2) {
      DigitsAre(b, k);
    }
    forall k | 0 <= k < |b| ensures UEscapeAt(b, k) <==> k < |b| - 1 && b[k] == 0x5C && b[k + 1] == 0x75 {
    }
  }

  lemma CleanIs(b: Bytes)
    ensures EndsClean(b) <==> exists m :: 0 <= m < |b| && EndsAt(b, m) && b[m] in {OPEN_BRACE, CLOSE_BRACE, CLOSE_BRACKET, QUOTE}
  {
    if EndsClean(b) {
      var m :| 0 <= m < |b| && b[m] in {0x7B, 0x7D, 0x5D, 0x22} && forall k :: m < k < |b| ==> Blank(b[k]);
      assert EndsAt(b, m);
    }
    if exists m :: 0 <= m < |b| && EndsAt(b, m) && b[m] in {OPEN_BRACE, CLOSE_BRACE, CLOSE_BRACKET, QUOTE} {
      var m :| 0 <= m < |b| && EndsAt(b, m) && b[m] in {OPEN_BRACE, CLOSE_BRACE, CLOSE_BRACKET, QUOTE};
      assert forall k :: m < k < |b| ==> Blank(b[k]);
    }
  }
}
