/**
  UTF-8 as Table 3-7 of the Unicode Standard defines it. A Go string is a
  Dafny string whose characters are its bytes (codes below 256).
*/
module Utf8 {
  /** The continuation bytes a lead byte asks for, 0 for a byte that leads no longer sequence. */
  function Need(c: char): nat {
    var b := c as int;
    if 0xC2 <= b <= 0xDF then 1
    else if 0xE0 <= b <= 0xEF then 2
    else if 0xF0 <= b <= 0xF4 then 3
    else 0
  }

  /** The least second byte after the lead byte c. */
  function Lo(c: char): int {
    if c as int == 0xE0 then 0xA0 else if c as int == 0xF0 then 0x90 else 0x80
  }

  /** The greatest second byte after the lead byte c. */
  function Hi(c: char): int {
    if c as int == 0xED then 0x9F else if c as int == 0xF4 then 0x8F else 0xBF
  }

  predicate IsCont(c: char) {
    0x80 <= c as int <= 0xBF
  }

  /** s is one well-formed sequence: a row of Table 3-7. */
  predicate IsSequence(s: string) {
    && s != ""
    && if s[0] as int < 0x80 then |s| == 1 else
       && Need(s[0]) > 0
       && |s| == Need(s[0]) + 1
       && Lo(s[0]) <= s[1] as int <= Hi(s[0])
       && forall k :: 2 <= k < |s| ==> IsCont(s[k])
  }

  /** The length of the well-formed sequence s starts with, 0 when it starts with none. */
  function SeqLen(s: string): (n: nat)
    ensures n <= |s| && n <= 4
    ensures n > 0 ==> IsSequence(s[..n])
    ensures n == 0 ==> forall m :: 0 <= m <= |s| ==> !IsSequence(s[..m])
  {
    if s == "" then 0
    else if s[0] as int < 0x80 then 1
    else
      var n := Need(s[0]);
      if n > 0 && n < |s| && IsSequence(s[..n + 1]) then n + 1
      else
        assert forall m :: 0 < m <= |s| ==> s[..m][0] == s[0];
        0
  }

  /** s is a concatenation of well-formed sequences. */
  predicate Valid(s: string)
    decreases |s|
  {
    s == "" || (SeqLen(s) > 0 && Valid(s[SeqLen(s)..]))
  }

  /** A sequence keeps its length whatever follows it. */
  lemma SeqLenOfSequence(u: string, rest: string)
    requires IsSequence(u)
    ensures SeqLen(u + rest) == |u|
  {
    assert (u + rest)[..|u|] == u;
    assert (u + rest)[..SeqLen(u + rest)] == [] || (u + rest)[0] == u[0];
  }

  lemma {:induction false} ValidConcat(a: string, b: string)
    requires Valid(a) && Valid(b)
    ensures Valid(a + b)
    decreases |a|
  {
    if a == "" {
      assert a + b == b;
    } else {
      var n := SeqLen(a);
      SeqLenOfSequence(a[..n], a[n..] + b);
      assert a + b == a[..n] + (a[n..] + b);
      ValidConcat(a[n..], b);
      assert (a + b)[n..] == a[n..] + b;
    }
  }

  lemma ValidSequence(u: string)
    requires IsSequence(u)
    ensures Valid(u)
  {
    SeqLenOfSequence(u, "");
    assert u + "" == u;
    assert u[|u|..] == "";
  }
}
