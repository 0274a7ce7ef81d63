/** The two functions that replace what is not UTF-8 by U+FFFD (internal/codec/errorbody.go, adapter/reason.go), against the
    rule they port: one U+FFFD for each maximal subpart of an ill-formed subsequence (section 3.9 of the Unicode Standard). */
module Utf8Repair {
  import opened Basics
  import opened Utf8

  // ----- the rule -----

  /** u is the start of a well-formed sequence. */
  ghost predicate Begins(u: string) {
    exists v: string :: IsSequence(u + v)
  }

  /** The first n bytes of s are its maximal subpart: no longer start of s begins a well-formed sequence, and one byte always counts. */
  ghost predicate IsMaximalSubpart(s: string, n: nat) {
    && 0 < n <= |s|
    && (n == 1 || Begins(s[..n]))
    && forall m :: n < m <= |s| ==> !Begins(s[..m])
  }

  // ----- what the functions compute -----

  /** How far the bytes from position i on continue a sequence of length n whose next byte is in lo..hi. */
  function Extend(s: string, i: nat, n: nat, lo: int, hi: int): (r: nat)
    requires i <= |s|
    ensures i <= r <= |s| && r <= Max(i, n)
    decreases n - i
  {
    if i < n && i < |s| && lo <= s[i] as int <= hi then Extend(s, i + 1, n, 0x80, 0xBF) else i
  }

  function Subpart(s: string): nat
    requires s != ""
  {
    if Need(s[0]) == 0 then 1 else Extend(s, 1, Need(s[0]) + 1, Lo(s[0]), Hi(s[0]))
  }

  /** The bytes Extend passes over are in range, and the one it stops at is not. */
  lemma {:induction false} ExtendStops(s: string, i: nat, n: nat)
    requires 2 <= i <= |s|
    ensures var r := Extend(s, i, n, 0x80, 0xBF);
            && (forall k :: i <= k < r ==> IsCont(s[k]))
            && (r < n && r < |s| ==> !IsCont(s[r]))
    decreases n - i
  {
    if i < n && i < |s| && IsCont(s[i]) {
      ExtendStops(s, i + 1, n);
    }
  }

  /** The least completion of the start of a sequence that n bytes were read of. */
  function Completion(c: char, n: nat): string
    requires 0 < Need(c) && 0 < n <= Need(c) + 1
  {
    if n == 1 then [Lo(c) as char] + seq(Need(c) - 1, _ => 0x80 as char)
    else seq(Need(c) + 1 - n, _ => 0x80 as char)
  }

  lemma Completes(u: string)
    requires u != "" && Need(u[0]) > 0 && |u| <= Need(u[0]) + 1
    requires |u| > 1 ==> Lo(u[0]) <= u[1] as int <= Hi(u[0])
    requires forall k :: 2 <= k < |u| ==> IsCont(u[k])
    ensures Begins(u)
  {
    var v := Completion(u[0], |u|);
    assert IsSequence(u + v);
  }

  /** A start of a well-formed sequence longer than one byte has its bytes in range. */
  lemma BeginsMeans(u: string)
    requires |u| > 1 && Begins(u)
    ensures Need(u[0]) > 0 && |u| <= Need(u[0]) + 1 && Lo(u[0]) <= u[1] as int <= Hi(u[0])
    ensures forall k :: 2 <= k < |u| ==> IsCont(u[k])
  {
    var v :| IsSequence(u + v);
    var w := u + v;
    assert w[0] == u[0] && w[1] == u[1];
    forall k | 2 <= k < |u|
      ensures IsCont(u[k])
    {
      assert IsCont(w[k]);
    }
  }

  /** Extend passes over bytes in range. */
  lemma {:induction false} ExtendReaches(s: string, i: nat, n: nat, m: nat)
    requires 2 <= i <= m <= |s| && m <= n && forall k :: i <= k < m ==> IsCont(s[k])
    ensures m <= Extend(s, i, n, 0x80, 0xBF)
    decreases m - i
  {
    if i < m {
      ExtendReaches(s, i + 1, n, m);
    }
  }

  /** No longer start of a sequence starts s. */
  lemma StartsWithin(s: string, m: nat)
    requires 1 < m <= |s| && Begins(s[..m])
    ensures m <= Subpart(s)
  {
    var u := s[..m];
    BeginsMeans(u);
    assert u[0] == s[0] && u[1] == s[1];
    forall k | 2 <= k < m
      ensures IsCont(s[k])
    {
      assert u[k] == s[k];
    }
    ExtendReaches(s, 2, Need(s[0]) + 1, m);
  }

  /** What the functions skip is the maximal subpart. */
  lemma SubpartIsMaximal(s: string)
    requires s != ""
    ensures IsMaximalSubpart(s, Subpart(s))
  {
    var c, n := s[0], Subpart(s);
    if n > 1 {
      assert Lo(c) <= s[1] as int <= Hi(c);
      ExtendStops(s, 2, Need(c) + 1);
      Completes(s[..n]);
    }
    forall m | n < m <= |s|
      ensures !Begins(s[..m])
    {
      if Begins(s[..m]) {
        StartsWithin(s, m);
      }
    }
  }

  /** U+FFFD */
  const REPLACEMENT: string := "\U{EF}\U{BF}\U{BD}"

  /** s with one U+FFFD for each maximal subpart of what is not UTF-8. */
  function Repaired(s: string): string
    decreases |s|
  {
    if s == "" then ""
    else if SeqLen(s) > 0 then s[..SeqLen(s)] + Repaired(s[SeqLen(s)..])
    else REPLACEMENT + Repaired(s[Subpart(s)..])
  }

  lemma {:induction false} RepairedValid(s: string)
    ensures Valid(Repaired(s))
    decreases |s|
  {
    if s != "" {
      var n := SeqLen(s);
      if n > 0 {
        RepairedValid(s[n..]);
        ValidSequence(s[..n]);
        ValidConcat(s[..n], Repaired(s[n..]));
      } else {
        RepairedValid(s[Subpart(s)..]);
        assert IsSequence(REPLACEMENT);
        ValidSequence(REPLACEMENT);
        ValidConcat(REPLACEMENT, Repaired(s[Subpart(s)..]));
      }
    }
  }

  /** Well-formed text is left alone. */
  lemma {:induction false} ValidKept(s: string)
    requires Valid(s)
    ensures Repaired(s) == s
    decreases |s|
  {
    if s != "" {
      ValidKept(s[SeqLen(s)..]);
      assert s == s[..SeqLen(s)] + s[SeqLen(s)..];
    }
  }

  // ----- the text in parts -----

  /** A stretch of the source and what it became. */
  datatype Part = Part(source: string, target: string)

  function FirstPart(s: string): (p: Part)
    requires s != ""
    ensures p.source != "" && p.source <= s
  {
    if SeqLen(s) > 0 then Part(s[..SeqLen(s)], s[..SeqLen(s)]) else Part(s[..Subpart(s)], REPLACEMENT)
  }

  function Parts(s: string): seq<Part>
    decreases |s|
  {
    if s == "" then [] else var p := FirstPart(s); [p] + Parts(s[|p.source|..])
  }

  function Sources(ps: seq<Part>): string {
    if ps == [] then "" else ps[0].source + Sources(ps[1..])
  }

  function Targets(ps: seq<Part>): string {
    if ps == [] then "" else ps[0].target + Targets(ps[1..])
  }

  /** The part at the start of what is left, s, is a well-formed sequence kept as it is, or the maximal subpart of what is not, and one U+FFFD. */
  ghost predicate RightPart(s: string, p: Part) {
    && p.source <= s
    && if SeqLen(s) > 0 then IsSequence(p.source) && p.target == p.source
       else IsMaximalSubpart(s, |p.source|) && p.target == REPLACEMENT
  }

  ghost predicate RightParts(s: string, ps: seq<Part>)
    decreases |ps|
  {
    if s == "" then ps == []
    else ps != [] && RightPart(s, ps[0]) && RightParts(s[|ps[0].source|..], ps[1..])
  }

  lemma FirstPartRight(s: string)
    requires s != ""
    ensures RightPart(s, FirstPart(s))
  {
    if SeqLen(s) == 0 {
      SubpartIsMaximal(s);
    }
  }

  lemma FirstPartRepaired(s: string)
    requires s != ""
    ensures var p := FirstPart(s); Repaired(s) == p.target + Repaired(s[|p.source|..])
  {
    if SeqLen(s) == 0 {
      assert |s[..Subpart(s)]| == Subpart(s);
    }
  }

  /** The source is the parts' sources one after the other, and the repair their targets. */
  lemma {:induction false} RepairedByParts(s: string)
    ensures Sources(Parts(s)) == s && Targets(Parts(s)) == Repaired(s) && RightParts(s, Parts(s))
    decreases |s|
  {
    if s != "" {
      var p := FirstPart(s);
      var rest := Parts(s[|p.source|..]);
      FirstPartRight(s);
      FirstPartRepaired(s);
      assert s == p.source + s[|p.source|..];
      RepairedByParts(s[|p.source|..]);
      assert Parts(s)[0] == p && Parts(s)[1..] == rest;
    }
  }

  /** What is written and what is left of the source. */
  ghost predicate Awaits(text: string, t: string, want: string) {
    text + Repaired(t) == want
  }

  lemma SequenceWritten(text: string, t: string, want: string)
    requires t != "" && SeqLen(t) > 0 && Awaits(text, t, want)
    ensures Awaits(text + t[..SeqLen(t)], t[SeqLen(t)..], want)
  {
    assert text + (t[..SeqLen(t)] + Repaired(t[SeqLen(t)..])) == text + t[..SeqLen(t)] + Repaired(t[SeqLen(t)..]);
  }

  lemma SubpartReplaced(text: string, t: string, want: string)
    requires t != "" && SeqLen(t) == 0 && Awaits(text, t, want)
    ensures Awaits(text + REPLACEMENT, t[Subpart(t)..], want)
  {
    assert text + (REPLACEMENT + Repaired(t[Subpart(t)..])) == text + REPLACEMENT + Repaired(t[Subpart(t)..]);
  }

  // ----- errorbody.go -----

  /** maximalSubpart of internal/codec: how many continuation bytes the lead byte needs, and the second byte's range. */
  method MaximalSubpartOfBody(b: string) returns (n: nat)
    requires b != ""
    ensures n == Subpart(b)
  {
    var lo, hi := 0x80, 0xBF;
    var need;
    var c := b[0] as int;
    if 0xC2 <= c <= 0xDF {
      need := 1;
    } else if c == 0xE0 {
      need, lo := 2, 0xA0;
    } else if 0xE1 <= c <= 0xEC || c == 0xEE || c == 0xEF {
      need := 2;
    } else if c == 0xED {
      need, hi := 2, 0x9F;
    } else if c == 0xF0 {
      need, lo := 3, 0x90;
    } else if 0xF1 <= c <= 0xF3 {
      need := 3;
    } else if c == 0xF4 {
      need, hi := 3, 0x8F;
    } else {
      return 1;
    }
    n := 1;
    while n <= need && n < |b| && lo <= b[n] as int <= hi
      invariant n <= |b| && Extend(b, n, need + 1, lo, hi) == Subpart(b)
      decreases |b| - n
    {
      n := n + 1;
      lo, hi := 0x80, 0xBF;
    }
  }

  /** replaceInvalidUTF8; t is what is left of b. */
  method ReplaceInvalidUTF8(b: string) returns (text: string)
    ensures text == Repaired(b) && Valid(text)
  {
    RepairedValid(b);
    if Valid(b) {
      ValidKept(b);
      return b;
    }
    text := "";
    var t := b;
    ghost var want := Repaired(b);
    assert "" + want == want;
    while t != ""
      invariant Awaits(text, t, want)
      decreases |t|
    {
      if t[0] as int < 0x80 {
        SequenceWritten(text, t, want);
        assert t[..1] == [t[0]];
        text := text + [t[0]];
        t := t[1..];
        continue;
      }
      var size := SeqLen(t);
      if size > 0 {
        SequenceWritten(text, t, want);
        text := text + t[..size];
        t := t[size..];
        continue;
      }
      var n := MaximalSubpartOfBody(t);
      SubpartReplaced(text, t, want);
      text := text + REPLACEMENT;
      t := t[n..];
    }
  }

  // ----- reason.go -----

  /** maximalSubpart of adapter: the length of the sequence the lead byte starts, and the second byte's range. */
  method MaximalSubpartOfReason(b: string) returns (i: nat)
    requires b != ""
    ensures i == Subpart(b)
  {
    var lo, hi, n := 0x80, 0xBF, 0;
    var c := b[0] as int;
    if c >= 0xC2 && c <= 0xDF {
      n := 2;
    } else if c == 0xE0 {
      lo, n := 0xA0, 3;
    } else if c == 0xED {
      hi, n := 0x9F, 3;
    } else if c >= 0xE1 && c <= 0xEF {
      n := 3;
    } else if c == 0xF0 {
      lo, n := 0x90, 4;
    } else if c >= 0xF1 && c <= 0xF3 {
      n := 4;
    } else if c == 0xF4 {
      hi, n := 0x8F, 4;
    } else {
      return 1;
    }
    i := 1;
    while i < n && i < |b|
      invariant i <= |b| && Extend(b, i, n, lo, hi) == Subpart(b)
    {
      if b[i] as int < lo || b[i] as int > hi {
        break;
      }
      lo, hi := 0x80, 0xBF;
      i := i + 1;
    }
  }

  /** decodeReplace */
  method DecodeReplace(b: string) returns (text: string)
    ensures text == Repaired(b) && Valid(text)
  {
    RepairedValid(b);
    if Valid(b) {
      ValidKept(b);
      return b;
    }
    text := "";
    var t := b;
    ghost var want := Repaired(b);
    assert "" + want == want;
    while t != ""
      invariant Awaits(text, t, want)
      decreases |t|
    {
      var n := SeqLen(t);
      if n > 0 {
        SequenceWritten(text, t, want);
        text := text + t[..n];
        t := t[n..];
        continue;
      }
      SubpartReplaced(text, t, want);
      text := text + REPLACEMENT;
      n := MaximalSubpartOfReason(t);
      t := t[n..];
    }
  }
}
