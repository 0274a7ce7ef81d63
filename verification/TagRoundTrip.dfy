/**
  What the tag grammar is for: a printed tag parses back to what was printed,
  and past the entry scan nothing meets an unterminated escape.
*/
module TagRoundTrip {
  import opened Basics
  import opened Tag
  import Utf8

  // ----- the printer -----

  /** A character of a value as a tag spells it: the four special ones take a backslash. */
  function Piece(c: char): string {
    if Special(c) then ['\\', c] else [c]
  }

  function Escape(s: string): string {
    if s == "" then "" else Piece(s[0]) + Escape(s[1..])
  }

  function PrintOption(o: TagOption): string {
    if o.description == "" then Escape(o.name) else Escape(o.name) + ("=" + Escape(o.description))
  }

  function PrintOptions(opts: seq<TagOption>): string {
    if opts == [] then ""
    else if |opts| == 1 then PrintOption(opts[0])
    else PrintOption(opts[0]) + ("|" + PrintOptions(opts[1..]))
  }

  function PrintLevels(levels: seq<string>): string {
    if levels == [] then ""
    else if |levels| == 1 then Escape(levels[0])
    else Escape(levels[0]) + ("|" + PrintLevels(levels[1..]))
  }

  datatype Entry = TextEntry(key: Key, text: string) | OptionsEntry(opts: seq<TagOption>) | LevelsEntry(levels: seq<string>) | OptionalEntry

  function EntryKey(e: Entry): Key {
    match e
    case TextEntry(k, _) => k
    case OptionsEntry(_) => KOptions
    case LevelsEntry(_) => KLevels
    case OptionalEntry => KOptional
  }

  function PrintValue(e: Entry): string {
    match e
    case TextEntry(_, text) => Escape(text)
    case OptionsEntry(opts) => PrintOptions(opts)
    case LevelsEntry(levels) => PrintLevels(levels)
    case OptionalEntry => ""
  }

  function PrintEntry(e: Entry): string {
    if e.OptionalEntry? then "optional" else KeyName(EntryKey(e)) + ("=" + PrintValue(e))
  }

  function PrintTag(es: seq<Entry>): string {
    if es == [] then ""
    else if |es| == 1 then PrintEntry(es[0])
    else PrintEntry(es[0]) + (";" + PrintTag(es[1..]))
  }

  predicate TextKey(k: Key) {
    k == KKind || k == KName || k == KInstructions || k == KYes || k == KNo
  }

  predicate Text(s: string) {
    s != "" && Utf8.Valid(s)
  }

  predicate WellFormed(e: Entry) {
    match e
    case TextEntry(k, text) => TextKey(k) && Text(text)
    case OptionsEntry(opts) => opts != [] && forall i :: 0 <= i < |opts| ==> Text(opts[i].name) && Utf8.Valid(opts[i].description)
    case LevelsEntry(levels) => levels != [] && forall i :: 0 <= i < |levels| ==> Text(levels[i])
    case OptionalEntry => true
  }

  /** s with what e says. */
  function Put(s: Spec, e: Entry): Spec {
    var t := s.(keys := s.keys + {EntryKey(e)});
    match e
    case TextEntry(k, text) => WithText(t, k, text)
    case OptionsEntry(opts) => t.(options := opts)
    case LevelsEntry(levels) => t.(levels := levels)
    case OptionalEntry => t.(optional := true)
  }

  function PutAll(s: Spec, es: seq<Entry>): Spec
    decreases |es|
  {
    if es == [] then s else PutAll(Put(s, es[0]), es[1..])
  }

  /** The entries give no key twice, and none that s has. */
  predicate Fresh(s: Spec, es: seq<Entry>) {
    && (forall i :: 0 <= i < |es| ==> WellFormed(es[i]) && EntryKey(es[i]) !in s.keys)
    && (forall i, j :: 0 <= i < j < |es| ==> EntryKey(es[i]) != EntryKey(es[j]))
  }

  // ----- scans over printed text -----

  predicate Separator(sep: char) {
    sep == ';' || sep == '|' || sep == '='
  }

  /** A part the scan passes over whole leaves it to what follows. */
  lemma {:induction false} ScanConcat(a: string, b: string, sep: char)
    requires Separator(sep) && ScanEnd(a, sep) == Some(|a|)
    ensures ScanEnd(a + b, sep) == Shift(ScanEnd(b, sep), |a|)
    decreases |a|
  {
    if a == "" {
      assert a + b == b;
    } else {
      var n := FirstPasses(a, sep);
      ScanConcat(a[n..], b, sep);
      ScanHead(a[..n], a[n..] + b, sep);
      ShiftTwice(ScanEnd(b, sep), |a| - n, n);
      Reheaded(a, b, n);
    }
  }

  predicate Passes(head: string, sep: char) {
    head != "" && |head| == (if head[0] == '\\' then 2 else 1) && head[0] != sep
  }

  /** What is passed over begins with a character that is no separator, or with an escape. */
  lemma FirstPasses(a: string, sep: char) returns (n: nat)
    requires Separator(sep) && a != "" && ScanEnd(a, sep) == Some(|a|)
    ensures 0 < n <= |a| && Passes(a[..n], sep) && ScanEnd(a[n..], sep) == Some(|a| - n)
  {
    n := if a[0] == '\\' then 2 else 1;
    Reheaded(a, "", n);
    ScanHead(a[..n], a[n..], sep);
  }

  lemma ShiftTwice(n: Option<nat>, d: nat, e: nat)
    ensures Shift(Shift(n, d), e) == Shift(n, d + e)
  {
  }

  lemma Reheaded(a: string, b: string, n: nat)
    requires n <= |a|
    ensures a[..n] + a[n..] == a && a[..n] + (a[n..] + b) == a + b
  {
  }

  /** A scan goes on past a character that is no separator, or past an escape. */
  lemma ScanHead(head: string, rest: string, sep: char)
    requires Separator(sep) && Passes(head, sep)
    ensures ScanEnd(head + rest, sep) == Shift(ScanEnd(rest, sep), |head|)
  {
    assert (head + rest)[|head|..] == rest;
  }

  /** What one scan passes over, followed by more of it. */
  lemma ScanBoth(a: string, b: string, sep: char)
    requires Separator(sep) && ScanEnd(a, sep) == Some(|a|) && ScanEnd(b, sep) == Some(|b|)
    ensures ScanEnd(a + b, sep) == Some(|a + b|)
  {
    ScanConcat(a, b, sep);
  }

  lemma {:induction false} ScanEscape(s: string, sep: char)
    requires Separator(sep)
    ensures ScanEnd(Escape(s), sep) == Some(|Escape(s)|)
  {
    if s != "" {
      ScanEscape(s[1..], sep);
      assert ScanEnd(Piece(s[0]), sep) == Some(|Piece(s[0])|) by {
        if Special(s[0]) {
          assert Piece(s[0])[2..] == "";
        } else {
          assert Piece(s[0])[1..] == "";
        }
      }
      ScanBoth(Piece(s[0]), Escape(s[1..]), sep);
    }
  }

  /** A separator of another level. */
  lemma ScanOther(c: char, s: string, sep: char)
    requires Separator(sep) && Separator(c) && c != sep && ScanEnd(s, sep) == Some(|s|)
    ensures ScanEnd([c] + s, sep) == Some(|s| + 1)
  {
    assert ([c] + s)[1..] == s;
  }

  lemma ScanOption(o: TagOption, sep: char)
    requires sep == ';' || sep == '|'
    ensures ScanEnd(PrintOption(o), sep) == Some(|PrintOption(o)|)
  {
    ScanEscape(o.name, sep);
    if o.description != "" {
      ScanEscape(o.description, sep);
      ScanOther('=', Escape(o.description), sep);
      ScanBoth(Escape(o.name), "=" + Escape(o.description), sep);
    }
  }

  lemma {:induction false} ScanOptions(opts: seq<TagOption>)
    ensures ScanEnd(PrintOptions(opts), ';') == Some(|PrintOptions(opts)|)
  {
    if opts != [] {
      ScanOption(opts[0], ';');
      if |opts| > 1 {
        ScanOptions(opts[1..]);
        ScanOther('|', PrintOptions(opts[1..]), ';');
        ScanBoth(PrintOption(opts[0]), "|" + PrintOptions(opts[1..]), ';');
      }
    }
  }

  lemma {:induction false} ScanLevels(levels: seq<string>)
    ensures ScanEnd(PrintLevels(levels), ';') == Some(|PrintLevels(levels)|)
  {
    if levels != [] {
      ScanEscape(levels[0], ';');
      if |levels| > 1 {
        ScanLevels(levels[1..]);
        ScanOther('|', PrintLevels(levels[1..]), ';');
        ScanBoth(Escape(levels[0]), "|" + PrintLevels(levels[1..]), ';');
      }
    }
  }

  // ----- values parse back -----

  lemma {:induction false} UnescapeEscape(s: string)
    ensures Unescaped(Escape(s)) == Ok(s)
  {
    if s != "" {
      UnescapeEscape(s[1..]);
      var e := Escape(s);
      if Special(s[0]) {
        assert e[2..] == Escape(s[1..]);
      } else {
        assert e[1..] == Escape(s[1..]);
      }
      assert [s[0]] + s[1..] == s;
    }
  }

  lemma EscapeNonempty(s: string)
    ensures Escape(s) == "" <==> s == ""
  {
  }

  lemma OptionParses(o: TagOption)
    requires o.name != ""
    ensures OptionOf(PrintOption(o)) == Ok(o)
  {
    ScanEscape(o.name, '=');
    UnescapeEscape(o.name);
    EscapeNonempty(o.name);
    if o.description == "" {
      LabelParses(Escape(o.name), o.name);
    } else {
      UnescapeEscape(o.description);
      DescribedParses(Escape(o.name), ['='], Escape(o.description), o);
    }
  }

  lemma LabelParses(name: string, text: string)
    requires ScanEnd(name, '=') == Some(|name|) && name != "" && text != "" && Unescaped(name) == Ok(text)
    ensures OptionOf(name) == Ok(TagOption(text, ""))
  {
    assert name[..|name|] == name;
  }

  lemma DescribedParses(name: string, sep: string, rest: string, o: TagOption)
    requires ScanEnd(name, '=') == Some(|name|) && |sep| == 1 && sep[0] == '='
    requires Unescaped(name) == Ok(o.name) && Unescaped(rest) == Ok(o.description) && o.name != "" && o.description != ""
    ensures OptionOf(name + (sep + rest)) == Ok(o)
  {
    ScanConcat(name, sep + rest, '=');
    Separated(name, sep, rest);
    OptionAt(name + (sep + rest), |name|, o);
  }

  lemma OptionAt(item: string, n: nat, o: TagOption)
    requires n < |item| && EndOf(item, '=') == n && o.name != "" && o.description != ""
    requires Unescaped(item[..n]) == Ok(o.name) && Unescaped(item[n + 1..]) == Ok(o.description)
    ensures OptionOf(item) == Ok(o)
  {
  }

  /** The two sides of a separator. */
  lemma Separated(a: string, sep: string, b: string)
    requires |sep| == 1
    ensures var s := a + (sep + b); |s| == |a| + 1 + |b| && s[..|a|] == a && s[|a| + 1..] == b
  {
  }

  /** One option, and more after it. */
  lemma OptionsStep(first: string, rest: string, o: TagOption)
    requires ScanEnd(first, '|') == Some(|first|) && OptionOf(first) == Ok(o)
    ensures Options(first) == Ok([o])
    ensures Options(first + ("|" + rest)) == After([o], Options(rest))
  {
    assert first[..|first|] == first;
    ScanConcat(first, ['|'] + rest, '|');
    Separated(first, ['|'], rest);
    OptionsAt(first + (['|'] + rest), |first|, o);
  }

  lemma OptionsAt(value: string, n: nat, o: TagOption)
    requires n < |value| && EndOf(value, '|') == n && OptionOf(value[..n]) == Ok(o)
    ensures Options(value) == After([o], Options(value[n + 1..]))
  {
  }

  lemma {:induction false} OptionsParse(opts: seq<TagOption>)
    requires opts != [] && forall i :: 0 <= i < |opts| ==> opts[i].name != ""
    ensures Options(PrintOptions(opts)) == Ok(opts)
  {
    var o, others := opts[0], opts[1..];
    ScanOption(o, '|');
    OptionParses(o);
    OptionsStep(PrintOption(o), PrintOptions(others), o);
    if others == [] {
      assert [o] == opts;
    } else {
      OptionsParse(others);
      assert [o] + others == opts;
    }
  }

  lemma LevelsStep(first: string, rest: string, level: string)
    requires ScanEnd(first, '|') == Some(|first|) && first != "" && Unescaped(first) == Ok(level)
    ensures Levels(first) == Ok([level])
    ensures Levels(first + ("|" + rest)) == After([level], Levels(rest))
  {
    ScanConcat(first, "|" + rest, '|');
    assert first[..|first|] == first;
    Separated(first, "|", rest);
  }

  lemma {:induction false} LevelsParse(levels: seq<string>)
    requires levels != [] && forall i :: 0 <= i < |levels| ==> levels[i] != ""
    ensures Levels(PrintLevels(levels)) == Ok(levels)
  {
    var first, rest := Escape(levels[0]), PrintLevels(levels[1..]);
    ScanEscape(levels[0], '|');
    UnescapeEscape(levels[0]);
    EscapeNonempty(levels[0]);
    LevelsStep(first, rest, levels[0]);
    if |levels| == 1 {
      assert [levels[0]] == levels;
    } else {
      LevelsParse(levels[1..]);
      assert [levels[0]] + levels[1..] == levels;
    }
  }

  // ----- entries parse back -----

  lemma ValueScans(e: Entry)
    ensures ScanEnd(PrintValue(e), ';') == Some(|PrintValue(e)|)
  {
    match e
    case TextEntry(_, text) => ScanEscape(text, ';');
    case OptionsEntry(opts) => ScanOptions(opts);
    case LevelsEntry(levels) => ScanLevels(levels);
    case OptionalEntry =>
  }

  lemma ValueNonempty(e: Entry)
    requires WellFormed(e) && !e.OptionalEntry?
    ensures PrintValue(e) != ""
  {
    match e
    case TextEntry(_, text) => EscapeNonempty(text);
    case OptionsEntry(opts) =>
      assert opts[0] in opts;
      EscapeNonempty(opts[0].name);
    case LevelsEntry(levels) =>
      assert levels[0] in levels;
      EscapeNonempty(levels[0]);
  }

  /** The scan passes over plain letters. */
  lemma {:induction false} ScanName(name: string, sep: char)
    requires Separator(sep) && forall k :: 0 <= k < |name| ==> !Special(name[k])
    ensures ScanEnd(name, sep) == Some(|name|)
  {
    if name != "" {
      ScanName(name[1..], sep);
    }
  }

  lemma KeyNames(k: Key)
    ensures KeyOf(KeyName(k)) == Some(k) && KeyName(k) != ""
    ensures forall i :: 0 <= i < |KeyName(k)| ==> !Special(KeyName(k)[i]) && KeyName(k)[i] as int < 0x80
  {
  }

  lemma EntryScans(e: Entry)
    ensures ScanEnd(PrintEntry(e), ';') == Some(|PrintEntry(e)|) && PrintEntry(e) != ""
  {
    var k := KeyName(EntryKey(e));
    KeyNames(EntryKey(e));
    ScanName(k, ';');
    if !e.OptionalEntry? {
      ValueScans(e);
      ScanOther('=', PrintValue(e), ';');
      ScanBoth(k, "=" + PrintValue(e), ';');
    }
  }

  lemma {:induction false} CutName(name: string, rest: string)
    requires (forall k :: 0 <= k < |name| ==> name[k] != '=') && (rest == "" || rest[0] == '=')
    ensures CutAt(name + rest) == |name|
  {
    if name == "" {
      assert name + rest == rest;
    } else {
      CutName(name[1..], rest);
      assert (name + rest)[1..] == name[1..] + rest;
    }
  }

  lemma ValueParses(s: Spec, e: Entry)
    requires WellFormed(e) && !e.OptionalEntry?
    ensures WithValue(s.(keys := s.keys + {EntryKey(e)}), EntryKey(e), PrintValue(e)) == Ok(Put(s, e))
  {
    match e
    case TextEntry(k, text) => UnescapeEscape(text);
    case OptionsEntry(opts) => OptionsParse(opts);
    case LevelsEntry(levels) => LevelsParse(levels);
  }

  /** An entry with a value. */
  lemma AddedValue(s: Spec, k: Key, value: string)
    requires k != KOptional && k !in s.keys && value != ""
    ensures Added(s, KeyName(k) + ("=" + value)) == WithValue(s.(keys := s.keys + {k}), k, value)
  {
    var name, rest := KeyName(k), "=" + value;
    KeyNames(k);
    CutName(name, rest);
    Separated(name, "=", value);
  }

  lemma AddedOptional(s: Spec)
    requires KOptional !in s.keys
    ensures Added(s, "optional") == Ok(s.(keys := s.keys + {KOptional}, optional := true))
  {
    CutName("optional", "");
    assert "optional" + "" == "optional";
    assert "optional"[..8] == "optional";
  }

  lemma EntryParses(s: Spec, e: Entry)
    requires WellFormed(e) && EntryKey(e) !in s.keys
    ensures Added(s, PrintEntry(e)) == Ok(Put(s, e))
  {
    if e.OptionalEntry? {
      AddedOptional(s);
    } else {
      ValueNonempty(e);
      AddedValue(s, EntryKey(e), PrintValue(e));
      ValueParses(s, e);
    }
  }

  lemma EntriesStep(s: Spec, first: string, rest: string, t: Spec)
    requires ScanEnd(first, ';') == Some(|first|) && first != "" && Added(s, first) == Ok(t)
    ensures Entries(s, first) == Ok(t)
    ensures rest != "" ==> Entries(s, first + (";" + rest)) == Entries(t, rest)
  {
    assert first[..|first|] == first;
    EntriesLast(s, first, t);
    if rest != "" {
      ScanConcat(first, [';'] + rest, ';');
      Separated(first, [';'], rest);
      EntriesAt(s, first + ([';'] + rest), |first|, t);
    }
  }

  lemma EntriesLast(s: Spec, text: string, t: Spec)
    requires text != "" && ScanEnd(text, ';') == Some(|text|) && Added(s, text[..|text|]) == Ok(t)
    ensures Entries(s, text) == Ok(t)
  {
  }

  lemma EntriesAt(s: Spec, text: string, n: nat, t: Spec)
    requires n + 1 < |text| && ScanEnd(text, ';') == Some(n) && Added(s, text[..n]) == Ok(t)
    ensures Entries(s, text) == Entries(t, text[n + 1..])
  {
  }

  lemma {:induction false} EntriesParse(s: Spec, es: seq<Entry>)
    requires es != [] && Fresh(s, es)
    ensures PrintTag(es) != "" && Entries(s, PrintTag(es)) == Ok(PutAll(s, es))
    decreases |es|
  {
    EntryScans(es[0]);
    EntryParses(s, es[0]);
    EntriesStep(s, PrintEntry(es[0]), PrintTag(es[1..]), Put(s, es[0]));
    if |es| > 1 {
      FreshRest(s, es);
      EntriesParse(Put(s, es[0]), es[1..]);
    }
  }

  lemma FreshRest(s: Spec, es: seq<Entry>)
    requires es != [] && Fresh(s, es)
    ensures Fresh(Put(s, es[0]), es[1..])
  {
  }

  // ----- UTF-8 -----

  lemma {:induction false} ValidAscii(s: string)
    requires forall k :: 0 <= k < |s| ==> s[k] as int < 0x80
    ensures Utf8.Valid(s)
  {
    if s != "" {
      ValidAscii(s[1..]);
    }
  }

  lemma {:induction false} EscapePlain(u: string, rest: string)
    requires forall k :: 0 <= k < |u| ==> !Special(u[k])
    ensures Escape(u + rest) == u + Escape(rest)
  {
    if u == "" {
      assert u + rest == rest;
    } else {
      EscapePlain(u[1..], rest);
      assert (u + rest)[1..] == u[1..] + rest;
      assert u == [u[0]] + u[1..];
    }
  }

  lemma {:induction false} EscapeValid(s: string)
    requires Utf8.Valid(s)
    ensures Utf8.Valid(Escape(s))
    decreases |s|
  {
    if s != "" {
      var n := Utf8.SeqLen(s);
      EscapeValid(s[n..]);
      if s[0] as int < 0x80 {
        ValidAscii(Piece(s[0]));
        Utf8.ValidConcat(Piece(s[0]), Escape(s[1..]));
      } else {
        assert forall k :: 0 <= k < n ==> s[..n][k] as int >= 0x80;
        EscapePlain(s[..n], s[n..]);
        assert s[..n] + s[n..] == s;
        Utf8.ValidSequence(s[..n]);
        Utf8.ValidConcat(s[..n], Escape(s[n..]));
      }
    }
  }

  lemma Joined(a: string, c: char, b: string)
    requires Utf8.Valid(a) && Utf8.Valid(b) && c as int < 0x80
    ensures Utf8.Valid(a + ([c] + b))
  {
    ValidAscii([c]);
    Utf8.ValidConcat([c], b);
    Utf8.ValidConcat(a, [c] + b);
  }

  lemma {:induction false} OptionsValid(opts: seq<TagOption>)
    requires forall i :: 0 <= i < |opts| ==> Utf8.Valid(opts[i].name) && Utf8.Valid(opts[i].description)
    ensures Utf8.Valid(PrintOptions(opts))
  {
    if opts != [] {
      EscapeValid(opts[0].name);
      EscapeValid(opts[0].description);
      if opts[0].description != "" {
        Joined(Escape(opts[0].name), '=', Escape(opts[0].description));
      }
      OptionsValid(opts[1..]);
      if |opts| > 1 {
        Joined(PrintOption(opts[0]), '|', PrintOptions(opts[1..]));
      }
    }
  }

  lemma {:induction false} LevelsValid(levels: seq<string>)
    requires forall i :: 0 <= i < |levels| ==> Utf8.Valid(levels[i])
    ensures Utf8.Valid(PrintLevels(levels))
  {
    if levels != [] {
      EscapeValid(levels[0]);
      LevelsValid(levels[1..]);
      if |levels| > 1 {
        Joined(Escape(levels[0]), '|', PrintLevels(levels[1..]));
      }
    }
  }

  lemma EntryValid(e: Entry)
    requires WellFormed(e)
    ensures Utf8.Valid(PrintEntry(e))
  {
    KeyNames(EntryKey(e));
    ValidAscii(KeyName(EntryKey(e)));
    match e
    case TextEntry(k, text) =>
      EscapeValid(text);
      Joined(KeyName(k), '=', Escape(text));
    case OptionsEntry(opts) =>
      OptionsValid(opts);
      Joined("options", '=', PrintOptions(opts));
    case LevelsEntry(levels) =>
      LevelsValid(levels);
      Joined("levels", '=', PrintLevels(levels));
    case OptionalEntry =>
  }

  lemma {:induction false} TagValid(es: seq<Entry>)
    requires forall i :: 0 <= i < |es| ==> WellFormed(es[i])
    ensures Utf8.Valid(PrintTag(es))
  {
    if es != [] {
      EntryValid(es[0]);
      TagValid(es[1..]);
      if |es| > 1 {
        Joined(PrintEntry(es[0]), ';', PrintTag(es[1..]));
      }
    }
  }

  // ----- the round trip -----

  /** Whatever entries are printed, in whatever order, they parse back to the spec that says the same. */
  lemma TagRoundTrips(es: seq<Entry>)
    requires Fresh(EMPTY_SPEC, es)
    ensures Parsed(PrintTag(es)) == Ok(PutAll(EMPTY_SPEC, es))
  {
    TagValid(es);
    if es != [] {
      EntriesParse(EMPTY_SPEC, es);
    }
  }

  /** The keys of s are those whose values it has. */
  predicate KeysMatch(s: Spec) {
    forall k: Key :: k in s.keys <==> HasValue(s, k)
  }

  predicate HasValue(s: Spec, k: Key) {
    match k
    case KKind => s.kind != ""
    case KName => s.name != ""
    case KInstructions => s.instructions != ""
    case KYes => s.yes != ""
    case KNo => s.no != ""
    case KOptions => s.options != []
    case KLevels => s.levels != []
    case KOptional => s.optional
  }

  /** A spec whose keys are those it has values for, each value text the grammar can hold (TagWellFormed: as parseTag returns one). */
  predicate WellFormedSpec(s: Spec) {
    && KeysMatch(s)
    && forall k <- s.keys :: WellFormed(EntryFor(s, k))
  }

  /** The keys, in the grammar's order. */
  const ORDER: seq<Key> := [KKind, KName, KInstructions, KYes, KNo, KOptions, KLevels, KOptional]

  function TextOf(s: Spec, k: Key): string {
    match k
    case KKind => s.kind
    case KName => s.name
    case KInstructions => s.instructions
    case KYes => s.yes
    case KNo => s.no
    case _ => ""
  }

  /** What s says under key k. */
  function EntryFor(s: Spec, k: Key): Entry {
    match k
    case KOptions => OptionsEntry(s.options)
    case KLevels => LevelsEntry(s.levels)
    case KOptional => OptionalEntry
    case _ => TextEntry(k, TextOf(s, k))
  }

  /** The entries of s under the keys ks, in their order. */
  function EntriesFor(s: Spec, ks: seq<Key>): seq<Entry> {
    if ks == [] then []
    else if ks[0] in s.keys then [EntryFor(s, ks[0])] + EntriesFor(s, ks[1..])
    else EntriesFor(s, ks[1..])
  }

  /** s with nothing under the keys that are not in seen. */
  function Only(s: Spec, seen: set<Key>): Spec {
    Spec(if KKind in seen then s.kind else "", if KName in seen then s.name else "",
         if KInstructions in seen then s.instructions else "", if KYes in seen then s.yes else "",
         if KNo in seen then s.no else "", if KOptions in seen then s.options else [],
         if KLevels in seen then s.levels else [], KOptional in seen && s.optional, s.keys * seen)
  }

  lemma KeysGrow(keys: set<Key>, seen: set<Key>, k: Key)
    ensures keys * (seen + {k}) == keys * seen + if k in keys then {k} else {}
  {
  }

  /** One more key: its value comes with it, or there is none. */
  lemma OnlyStep(s: Spec, seen: set<Key>, k: Key)
    requires KeysMatch(s)
    ensures k in s.keys ==> Only(s, seen + {k}) == Put(Only(s, seen), EntryFor(s, k))
    ensures k !in s.keys ==> Only(s, seen + {k}) == Only(s, seen)
  {
    KeysGrow(s.keys, seen, k);
  }

  function KeySet(ks: seq<Key>): set<Key> {
    set k | k in ks
  }

  lemma {:induction false} EntriesGive(s: Spec, seen: set<Key>, ks: seq<Key>)
    requires KeysMatch(s)
    ensures PutAll(Only(s, seen), EntriesFor(s, ks)) == Only(s, seen + KeySet(ks))
    decreases |ks|
  {
    if ks == [] {
      assert seen + KeySet(ks) == seen;
    } else {
      OnlyStep(s, seen, ks[0]);
      EntriesGive(s, seen + {ks[0]}, ks[1..]);
      assert ks == [ks[0]] + ks[1..];
      assert seen + {ks[0]} + KeySet(ks[1..]) == seen + KeySet(ks);
      var rest := EntriesFor(s, ks[1..]);
      if ks[0] in s.keys {
        assert ([EntryFor(s, ks[0])] + rest)[1..] == rest;
      }
    }
  }

  lemma EntryForKey(s: Spec, k: Key)
    ensures EntryKey(EntryFor(s, k)) == k
  {
  }

  lemma {:induction false} EntriesFresh(s: Spec, ks: seq<Key>)
    requires WellFormedSpec(s) && forall i, j :: 0 <= i < j < |ks| ==> ks[i] != ks[j]
    ensures Fresh(EMPTY_SPEC, EntriesFor(s, ks))
    ensures forall i :: 0 <= i < |EntriesFor(s, ks)| ==> EntryKey(EntriesFor(s, ks)[i]) in ks
  {
    if ks != [] {
      EntriesFresh(s, ks[1..]);
      EntryForKey(s, ks[0]);
      assert ks == [ks[0]] + ks[1..];
      assert ks[0] !in ks[1..];
    }
  }

  /** The round trip: every spec is what its printed tag parses to. */
  lemma SpecRoundTrips(s: Spec)
    requires WellFormedSpec(s)
    ensures Parsed(PrintTag(EntriesFor(s, ORDER))) == Ok(s)
  {
    EntriesFresh(s, ORDER);
    TagRoundTrips(EntriesFor(s, ORDER));
    EntriesGive(s, {}, ORDER);
    AllKeys(s);
  }

  lemma AllKeys(s: Spec)
    ensures Only(s, {} + KeySet(ORDER)) == s && Only(s, {}) == EMPTY_SPEC
  {
    forall k: Key
      ensures k in KeySet(ORDER)
    {
      match k
      case KKind => assert ORDER[0] == k;
      case KName => assert ORDER[1] == k;
      case KInstructions => assert ORDER[2] == k;
      case KYes => assert ORDER[3] == k;
      case KNo => assert ORDER[4] == k;
      case KOptions => assert ORDER[5] == k;
      case KLevels => assert ORDER[6] == k;
      case KOptional => assert ORDER[7] == k;
    }
    assert s.keys * ({} + KeySet(ORDER)) == s.keys;
    assert s.keys * {} == {};
  }

  // ----- the entry scan is the only one that can meet an unterminated escape -----

  /** Every backslash of s has a character after it. */
  predicate Terminated(s: string) {
    if s == "" then true
    else if s[0] == '\\' then |s| > 1 && Terminated(s[2..])
    else Terminated(s[1..])
  }

  /** A scan fails exactly on text that is not terminated, unless it stops before; what it splits off and what it leaves are terminated with the whole. */
  lemma {:induction false} ScanTerminated(s: string, sep: char)
    requires Separator(sep)
    ensures Terminated(s) ==> ScanEnd(s, sep).Some?
    ensures ScanEnd(s, sep).Some? ==> SplitsTerminated(s, ScanEnd(s, sep).value)
    decreases |s|
  {
    if s != "" && (s[0] == '\\' ==> |s| > 1) {
      var n := if s[0] == '\\' then 2 else 1;
      ScanTerminated(s[n..], sep);
      if s[0] != sep && ScanEnd(s[n..], sep).Some? {
        SplitsLater(s, n, ScanEnd(s[n..], sep).value);
      }
    }
  }

  /** What a scan that ends at the given place splits off and what it leaves are terminated with the whole. */
  predicate SplitsTerminated(s: string, end: nat)
    requires end <= |s|
  {
    Terminated(s[..end]) && (end < |s| ==> (Terminated(s) <==> Terminated(s[end + 1..])))
  }

  lemma SplitsLater(s: string, n: nat, end: nat)
    requires s != "" && n == (if s[0] == '\\' then 2 else 1) && n + end <= |s| && SplitsTerminated(s[n..], end)
    ensures SplitsTerminated(s, n + end)
  {
    SplitLater(s, n, end);
  }

  /** A split of what follows the first n characters is a split of the whole. */
  lemma SplitLater(s: string, n: nat, end: nat)
    requires s != "" && n == (if s[0] == '\\' then 2 else 1) && n + end <= |s|
    ensures Terminated(s[..n + end]) <==> Terminated(s[n..][..end])
    ensures n + end < |s| ==> s[n..][end + 1..] == s[n + end + 1..]
  {
    assert s[..n + end][n..] == s[n..][..end];
  }

  lemma {:induction false} UnescapeTerminated(s: string)
    requires Terminated(s)
    ensures Unescaped(s) != Err(Unterminated)
  {
    if s != "" {
      UnescapeTerminated(if s[0] == '\\' then s[2..] else s[1..]);
    }
  }

  lemma OptionTerminated(item: string)
    requires Terminated(item)
    ensures OptionOf(item) != Err(Unterminated)
  {
    ScanTerminated(item, '=');
    var sep := EndOf(item, '=');
    UnescapeTerminated(item[..sep]);
    if sep < |item| {
      UnescapeTerminated(item[sep + 1..]);
    }
  }

  lemma {:induction false} OptionsTerminated(value: string)
    requires Terminated(value)
    ensures ScanEnd(value, '|').Some? && Options(value) != Err(Unterminated)
    decreases |value|
  {
    ScanTerminated(value, '|');
    var end := EndOf(value, '|');
    OptionTerminated(value[..end]);
    if end < |value| {
      OptionsTerminated(value[end + 1..]);
    }
  }

  lemma {:induction false} LevelsTerminated(value: string)
    requires Terminated(value)
    ensures ScanEnd(value, '|').Some? && Levels(value) != Err(Unterminated)
    decreases |value|
  {
    ScanTerminated(value, '|');
    var end := EndOf(value, '|');
    UnescapeTerminated(value[..end]);
    if end < |value| {
      LevelsTerminated(value[end + 1..]);
    }
  }

  /** What follows plain text is terminated with the whole. */
  lemma {:induction false} PlainTerminated(name: string, rest: string)
    requires forall k :: 0 <= k < |name| ==> !Special(name[k])
    ensures Terminated(name + rest) <==> Terminated(rest)
  {
    if name == "" {
      assert name + rest == rest;
    } else {
      PlainTerminated(name[1..], rest);
      assert (name + rest)[1..] == name[1..] + rest;
    }
  }

  lemma ValueTerminated(s: Spec, k: Key, value: string)
    requires Terminated(value)
    ensures WithValue(s, k, value) != Err(Unterminated)
  {
    OptionsTerminated(value);
    LevelsTerminated(value);
    UnescapeTerminated(value);
  }

  /** A known key holds no backslash, so its value is terminated with the entry. */
  lemma CutTerminated(name: string, value: string)
    requires KeyOf(name).Some? && Terminated(name + ("=" + value))
    ensures Terminated(value)
  {
    KeyNames(KeyOf(name).value);
    PlainTerminated(name, "=" + value);
    assert ("=" + value)[1..] == value;
  }

  lemma CutParts(e: string, n: nat)
    requires n < |e| && e[n] == '='
    ensures e[..n] + ("=" + e[n + 1..]) == e
  {
  }

  lemma KeyTerminated(s: Spec, k: Key, value: Option<string>)
    requires value.Some? ==> Terminated(value.value)
    ensures AddedKey(s, k, value) != Err(Unterminated)
  {
    if value.Some? {
      ValueTerminated(s.(keys := s.keys + {k}), k, value.value);
    }
  }

  lemma EntryTerminated(s: Spec, e: string)
    requires Terminated(e)
    ensures Added(s, e) != Err(Unterminated)
  {
    var n := CutAt(e);
    if KeyOf(e[..n]).Some? {
      if n < |e| {
        CutParts(e, n);
        CutTerminated(e[..n], e[n + 1..]);
      }
      KeyTerminated(s, KeyOf(e[..n]).value, ValueAfter(e, n));
    }
  }

  /** An entry's parse never fails for an unterminated escape: only the entry scan can, at a backslash that ends the tag. */
  lemma {:induction false} EntriesTerminated(s: Spec, rest: string)
    requires rest != ""
    ensures Entries(s, rest) == Err(Unterminated) ==> !Terminated(rest)
    ensures Entries(s, rest).Ok? ==> Terminated(rest)
    decreases |rest|
  {
    ScanTerminated(rest, ';');
    var end := ScanEnd(rest, ';');
    if end.Some? {
      EntryTerminated(s, rest[..end.value]);
      var t := Added(s, rest[..end.value]);
      if end.value == |rest| {
        assert rest[..|rest|] == rest;
      } else if end.value + 1 < |rest| && t.Ok? {
        EntriesTerminated(t.value, rest[end.value + 1..]);
      }
    }
  }

  lemma ParsedTerminated(tag: string)
    ensures Parsed(tag) == Err(Unterminated) ==> !Terminated(tag)
    ensures Parsed(tag).Ok? ==> Terminated(tag)
  {
    if tag != "" {
      EntriesTerminated(EMPTY_SPEC, tag);
    }
  }
}
