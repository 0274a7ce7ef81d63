/** A spec is well-formed exactly when some tag parses to it (typed.go). */
module TagWellFormed {
  import opened Basics
  import opened Tag
  import opened TagRoundTrip
  import Utf8

  // ----- parts of UTF-8 text -----

  /** No sequence reaches over an ASCII character. */
  lemma SequenceStops(a: string, c: char, b: string)
    requires c as int < 0x80 && a != ""
    ensures Utf8.SeqLen(a + ([c] + b)) <= |a|
  {
    var s := a + ([c] + b);
    assert s[|a|] == c && s[0] == a[0];
  }

  lemma Prefixed(a: string, t: string, n: nat)
    requires n <= |a|
    ensures (a + t)[..n] == a[..n] && (a + t)[n..] == a[n..] + t && a[..n] + a[n..] == a
  {
  }

  /** UTF-8 text splits at an ASCII character. */
  lemma {:induction false} SplitValid(a: string, c: char, b: string)
    requires c as int < 0x80 && Utf8.Valid(a + ([c] + b))
    ensures Utf8.Valid(a) && Utf8.Valid(b)
    decreases |a|
  {
    var s := a + ([c] + b);
    if a == "" {
      assert s[1..] == b;
    } else {
      var n := Utf8.SeqLen(s);
      SequenceStops(a, c, b);
      Prefixed(a, [c] + b, n);
      SplitValid(a[n..], c, b);
      Utf8.ValidSequence(a[..n]);
      Utf8.ValidConcat(a[..n], a[n..]);
    }
  }

  /** Where a scan stops before the end, a separator stands. */
  lemma {:induction false} ScanAt(s: string, sep: char)
    ensures ScanEnd(s, sep).Some? && ScanEnd(s, sep).value < |s| ==> s[ScanEnd(s, sep).value] == sep
  {
    if s != "" {
      if s[0] == '\\' {
        if |s| > 1 {
          ScanAt(s[2..], sep);
        }
      } else if s[0] != sep {
        ScanAt(s[1..], sep);
      }
    }
  }

  lemma AroundAt(s: string, end: nat, sep: char)
    requires end < |s| && s[end] == sep
    ensures s[..end] + ([sep] + s[end + 1..]) == s
  {
  }

  lemma SplitAt(s: string, end: nat, sep: char)
    requires Utf8.Valid(s) && sep as int < 0x80 && end <= |s| && (end < |s| ==> s[end] == sep)
    ensures Utf8.Valid(s[..end]) && (end < |s| ==> Utf8.Valid(s[end + 1..]))
  {
    if end < |s| {
      AroundAt(s, end, sep);
      SplitValid(s[..end], sep, s[end + 1..]);
    } else {
      assert s[..end] == s;
    }
  }

  /** What an inner scan splits is UTF-8 on both sides. */
  lemma EndValid(s: string, sep: char)
    requires Utf8.Valid(s) && sep as int < 0x80 && ScanEnd(s, sep).Some?
    ensures var end := EndOf(s, sep); Utf8.Valid(s[..end]) && (end < |s| ==> Utf8.Valid(s[end + 1..]))
  {
    ScanAt(s, sep);
    SplitAt(s, EndOf(s, sep), sep);
  }

  // ----- what unescape returns -----

  lemma {:induction false} UnescapedPlain(u: string, rest: string)
    requires forall k :: 0 <= k < |u| ==> u[k] != '\\'
    ensures Unescaped(u + rest) == Append(u, Unescaped(rest))
  {
    if u == "" {
      assert u + rest == rest;
      AppendStep("", 'x', Unescaped(rest));
    } else {
      assert (u + rest)[1..] == u[1..] + rest;
      UnescapedPlain(u[1..], rest);
      match Unescaped(rest)
      case Err(_) =>
      case Ok(x) => assert [u[0]] + (u[1..] + x) == u + x;
    }
  }

  /** Unescaped text is UTF-8, and nothing only when it was nothing. */
  lemma {:induction false} UnescapedValid(s: string)
    requires Utf8.Valid(s) && Unescaped(s).Ok?
    ensures Utf8.Valid(Unescaped(s).value) && (Unescaped(s).value == "" <==> s == "")
    decreases |s|
  {
    if s == "" {
    } else if s[0] == '\\' {
      assert Utf8.SeqLen(s) == 1 && Utf8.SeqLen(s[1..]) == 1;
      assert s[1..][1..] == s[2..];
      UnescapedValid(s[2..]);
      ValidAscii([s[1]]);
      Utf8.ValidConcat([s[1]], Unescaped(s[2..]).value);
    } else {
      var n := Utf8.SeqLen(s);
      var u := s[..n];
      assert forall k :: 0 <= k < n ==> u[k] != '\\';
      assert u + s[n..] == s;
      UnescapedPlain(u, s[n..]);
      UnescapedValid(s[n..]);
      Utf8.ValidSequence(u);
      Utf8.ValidConcat(u, Unescaped(s[n..]).value);
    }
  }

  // ----- options and levels -----

  predicate GoodOption(o: TagOption) {
    Text(o.name) && Utf8.Valid(o.description)
  }

  lemma OptionGood(item: string)
    requires Utf8.Valid(item) && OptionOf(item).Ok?
    ensures GoodOption(OptionOf(item).value)
  {
    var sep := EndOf(item, '=');
    if ScanEnd(item, '=').Some? {
      EndValid(item, '=');
      UnescapedValid(item[..sep]);
      if sep < |item| {
        UnescapedValid(item[sep + 1..]);
      }
    }
  }

  lemma {:induction false} OptionsGood(value: string)
    requires Utf8.Valid(value) && Options(value).Ok?
    ensures Options(value).value != [] && forall i :: 0 <= i < |Options(value).value| ==> GoodOption(Options(value).value[i])
    decreases |value|
  {
    var end := EndOf(value, '|');
    if ScanEnd(value, '|').Some? {
      EndValid(value, '|');
      OptionGood(value[..end]);
      if end < |value| {
        OptionsGood(value[end + 1..]);
      }
    }
  }

  predicate AllText(levels: seq<string>) {
    forall i :: 0 <= i < |levels| ==> Text(levels[i])
  }

  /** The first level and the others. */
  lemma LevelsSplit(value: string)
    requires Levels(value).Ok?
    ensures var end := EndOf(value, '|');
            && ScanEnd(value, '|').Some? && end > 0 && Unescaped(value[..end]).Ok?
            && if end == |value| then Levels(value) == Ok([Unescaped(value[..end]).value])
               else Levels(value[end + 1..]).Ok? && Levels(value) == Ok([Unescaped(value[..end]).value] + Levels(value[end + 1..]).value)
  {
  }

  lemma {:induction false} LevelsGood(value: string)
    requires Utf8.Valid(value) && Levels(value).Ok?
    ensures Levels(value).value != [] && AllText(Levels(value).value)
    decreases |value|
  {
    var end := EndOf(value, '|');
    LevelsSplit(value);
    EndValid(value, '|');
    UnescapedValid(value[..end]);
    if end < |value| {
      LevelsGood(value[end + 1..]);
    }
  }

  // ----- entries -----

  /** A well-formed value is there. */
  lemma GoodHasValue(s: Spec, k: Key)
    requires WellFormed(EntryFor(s, k)) && k != KOptional
    ensures HasValue(s, k)
  {
  }

  lemma SameHasValue(s: Spec, t: Spec, k: Key)
    requires EntryFor(t, k) == EntryFor(s, k) && k != KOptional
    ensures HasValue(t, k) <==> HasValue(s, k)
  {
  }

  lemma KeyExtended(s: Spec, t: Spec, k: Key, l: Key)
    requires (l in s.keys <==> HasValue(s, l)) && (l in t.keys <==> l in s.keys || l == k)
    requires WellFormed(EntryFor(t, k)) && t.optional == (s.optional || k == KOptional)
    requires l != k ==> EntryFor(t, l) == EntryFor(s, l)
    ensures l in t.keys <==> HasValue(t, l)
  {
    if l != KOptional {
      if l == k {
        GoodHasValue(t, l);
      } else {
        SameHasValue(s, t, l);
      }
    }
  }

  /** One more key with a well-formed value, and nothing else changed. */
  lemma Extended(s: Spec, t: Spec, k: Key)
    requires WellFormedSpec(s) && k !in s.keys && t.keys == s.keys + {k}
    requires WellFormed(EntryFor(t, k)) && t.optional == (s.optional || k == KOptional)
    requires forall l :: l != k ==> EntryFor(t, l) == EntryFor(s, l)
    ensures WellFormedSpec(t)
  {
    forall l: Key
      ensures l in t.keys <==> HasValue(t, l)
    {
      KeyExtended(s, t, k, l);
    }
    forall l | l in t.keys
      ensures WellFormed(EntryFor(t, l))
    {
      assert l != k ==> EntryFor(t, l) == EntryFor(s, l);
    }
  }

  lemma TextGood(s: Spec, k: Key, value: string)
    requires WellFormedSpec(s) && k !in s.keys && k !in {KOptions, KLevels, KOptional} && value != "" && Utf8.Valid(value)
    requires Unescaped(value).Ok?
    ensures WellFormedSpec(WithText(s.(keys := s.keys + {k}), k, Unescaped(value).value))
  {
    UnescapedValid(value);
    var t := s.(keys := s.keys + {k});
    TextExtends(t, k, Unescaped(value).value);
    Extended(s, WithText(t, k, Unescaped(value).value), k);
  }

  lemma TextExtends(t: Spec, k: Key, text: string)
    requires k !in {KOptions, KLevels, KOptional}
    ensures var u := WithText(t, k, text);
            && u.keys == t.keys && u.optional == t.optional && EntryFor(u, k) == TextEntry(k, text)
            && forall l :: l != k ==> EntryFor(u, l) == EntryFor(t, l)
  {
  }

  lemma ValueGood(s: Spec, k: Key, value: string)
    requires WellFormedSpec(s) && k !in s.keys && k != KOptional && value != "" && Utf8.Valid(value)
    requires WithValue(s.(keys := s.keys + {k}), k, value).Ok?
    ensures WellFormedSpec(WithValue(s.(keys := s.keys + {k}), k, value).value)
  {
    var t := s.(keys := s.keys + {k});
    if k == KOptions {
      OptionsGood(value);
      Extended(s, t.(options := Options(value).value), k);
    } else if k == KLevels {
      LevelsGood(value);
      Extended(s, t.(levels := Levels(value).value), k);
    } else {
      TextGood(s, k, value);
    }
  }

  lemma {:induction false} CutValid(e: string)
    requires Utf8.Valid(e) && CutAt(e) < |e|
    ensures Utf8.Valid(e[CutAt(e) + 1..])
  {
    var n := CutAt(e);
    SplitAt(e, n, '=');
  }

  lemma AddedKeyGood(s: Spec, k: Key, value: Option<string>)
    requires WellFormedSpec(s) && (value.Some? ==> Utf8.Valid(value.value)) && AddedKey(s, k, value).Ok?
    ensures WellFormedSpec(AddedKey(s, k, value).value)
  {
    if k == KOptional {
      Extended(s, s.(keys := s.keys + {k}, optional := true), k);
    } else {
      ValueGood(s, k, value.value);
    }
  }

  lemma AddedGood(s: Spec, e: string)
    requires WellFormedSpec(s) && Utf8.Valid(e) && Added(s, e).Ok?
    ensures WellFormedSpec(Added(s, e).value)
  {
    if CutAt(e) < |e| {
      CutValid(e);
    }
    AddedKeyGood(s, KeyOf(e[..CutAt(e)]).value, ValueAfter(e, CutAt(e)));
  }

  lemma {:induction false} EntriesGood(s: Spec, rest: string)
    requires rest != "" && WellFormedSpec(s) && Utf8.Valid(rest) && Entries(s, rest).Ok?
    ensures WellFormedSpec(Entries(s, rest).value)
    decreases |rest|
  {
    var end := ScanEnd(rest, ';').value;
    assert EndOf(rest, ';') == end;
    EndValid(rest, ';');
    AddedGood(s, rest[..end]);
    if end < |rest| {
      EntriesGood(Added(s, rest[..end]).value, rest[end + 1..]);
    }
  }

  lemma ParsedGood(tag: string)
    requires Parsed(tag).Ok?
    ensures WellFormedSpec(Parsed(tag).value)
  {
    if tag != "" {
      EntriesGood(EMPTY_SPEC, tag);
    }
  }

  /** What parseTag can return: the well-formed specs, each of them, and nothing else. */
  lemma WellFormedIs(s: Spec)
    ensures WellFormedSpec(s) <==> exists tag :: Parsed(tag) == Ok(s)
  {
    if WellFormedSpec(s) {
      SpecRoundTrips(s);
    }
    forall tag | Parsed(tag) == Ok(s)
      ensures WellFormedSpec(s)
    {
      ParsedGood(tag);
    }
  }
}
