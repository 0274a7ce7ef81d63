/** The grammar of the decision struct tag (typed.go): entries separated by ";", options and levels by "|", a label from
    its description by "=", and four escapes. The parser's loops are proved against recursive definitions. */
module Tag {
  import opened Basics
  import Utf8

  datatype Key = KKind | KName | KInstructions | KYes | KNo | KOptions | KLevels | KOptional

  /** description is empty when the option has none. */
  datatype TagOption = TagOption(name: string, description: string)

  datatype Spec = Spec(kind: string, name: string, instructions: string, yes: string, no: string,
                       options: seq<TagOption>, levels: seq<string>, optional: bool, keys: set<Key>)

  const EMPTY_SPEC := Spec("", "", "", "", "", [], [], false, {})

  datatype TagError =
    | InvalidUTF8 | Unterminated | EmptyEntry | TrailingSeparator | UnknownKey(key: string) | GivenTwice(twice: Key)
    | TakesNoValue | NeedsValue(missing: Key) | EmptyOption | EmptyLabel | EmptyDescription(name: string) | EmptyLevel
    | UnknownEscape(at: string)

  datatype Result<T> = Ok(value: T) | Err(error: TagError)

  function KeyName(k: Key): string {
    match k
    case KKind => "kind"
    case KName => "name"
    case KInstructions => "instructions"
    case KYes => "yes"
    case KNo => "no"
    case KOptions => "options"
    case KLevels => "levels"
    case KOptional => "optional"
  }

  /** tagKeys */
  function KeyOf(name: string): Option<Key> {
    if name == "kind" then Some(KKind)
    else if name == "name" then Some(KName)
    else if name == "instructions" then Some(KInstructions)
    else if name == "yes" then Some(KYes)
    else if name == "no" then Some(KNo)
    else if name == "options" then Some(KOptions)
    else if name == "levels" then Some(KLevels)
    else if name == "optional" then Some(KOptional)
    else None
  }

  // ----- scanning -----

  /** The index of the first sep of s that no backslash escapes, |s| when there is none; None when a backslash ends s. */
  function ScanEnd(s: string, sep: char): (end: Option<nat>)
    ensures end.Some? ==> end.value <= |s|
  {
    if s == "" then Some(0)
    else
      var n := if s[0] == '\\' then 2 else 1;
      if n > |s| then None
      else if n == 1 && s[0] == sep then Some(0)
      else Shift(ScanEnd(s[n..], sep), n)
  }

  function Shift(n: Option<nat>, d: nat): Option<nat> {
    match n
    case None => None
    case Some(m) => Some(m + d)
  }

  /** scanEntry; t is what is left of s. */
  method ScanEntry(s: string, sep: char) returns (end: nat, err: Option<TagError>)
    requires sep != '\\'
    ensures end <= |s|
    ensures match ScanEnd(s, sep) case None => end == 0 && err == Some(Unterminated) case Some(n) => end == n && err.None?
  {
    var i, t := 0, s;
    while t != ""
      invariant i + |t| == |s| && ScanEnd(s, sep) == Shift(ScanEnd(t, sep), i)
      decreases |t|
    {
      if t[0] == '\\' {
        if |t| == 1 {
          return 0, Some(Unterminated);
        }
        i, t := i + 2, t[2..];
      } else if t[0] == sep {
        return i, None;
      } else {
        i, t := i + 1, t[1..];
      }
    }
    return |s|, None;
  }

  // ----- escapes -----

  predicate Special(c: char) {
    c == ';' || c == '|' || c == '=' || c == '\\'
  }

  function Prepend(c: char, r: Result<string>): Result<string> {
    match r
    case Ok(s) => Ok([c] + s)
    case Err(e) => Err(e)
  }

  function Unescaped(s: string): Result<string> {
    if s == "" then Ok("")
    else if s[0] != '\\' then Prepend(s[0], Unescaped(s[1..]))
    else if |s| == 1 then Err(Unterminated)
    else if Special(s[1]) then Prepend(s[1], Unescaped(s[2..]))
    else Err(UnknownEscape(s[1..]))
  }

  function Append(b: string, r: Result<string>): Result<string> {
    match r
    case Ok(s) => Ok(b + s)
    case Err(e) => Err(e)
  }

  lemma AppendStep(b: string, c: char, r: Result<string>)
    ensures Append("", r) == r
    ensures Append(b, Prepend(c, r)) == Append(b + [c], r)
    ensures Append(b, Ok("")) == Ok(b)
  {
    if r.Ok? {
      assert "" + r.value == r.value;
      assert b + ([c] + r.value) == b + [c] + r.value;
    }
    assert b + "" == b;
  }

  /** unescape */
  method Unescape(s: string) returns (r: Result<string>)
    ensures r == Unescaped(s)
  {
    var b := "";
    var i := 0;
    AppendStep("", '\\', Unescaped(s));
    assert s[0..] == s;
    while i < |s|
      invariant i <= |s|
      invariant Unescaped(s) == Append(b, Unescaped(s[i..]))
    {
      var c := s[i];
      if c != '\\' {
        assert s[i..][1..] == s[i + 1..];
        AppendStep(b, c, Unescaped(s[i + 1..]));
        b := b + [c];
        i := i + 1;
        continue;
      }
      i := i + 1;
      if i == |s| {
        return Err(Unterminated);
      }
      assert s[i - 1..][1..] == s[i..] && s[i - 1..][2..] == s[i + 1..];
      if !Special(s[i]) {
        return Err(UnknownEscape(s[i..]));
      }
      AppendStep(b, s[i], Unescaped(s[i + 1..]));
      b := b + [s[i]];
      i := i + 1;
    }
    AppendStep(b, '\\', Ok(""));
    r := Ok(b);
  }

  // ----- options and levels -----

  /** The end an inner scan uses, which ignores its error. */
  function EndOf(s: string, sep: char): (end: nat)
    ensures end <= |s|
  {
    match ScanEnd(s, sep)
    case None => 0
    case Some(n) => n
  }

  /** One option. */
  function OptionOf(item: string): Result<TagOption> {
    if item == "" then Err(EmptyOption)
    else
      var sep := EndOf(item, '=');
      match Unescaped(item[..sep])
      case Err(e) => Err(e)
      case Ok(name) =>
        if name == "" then Err(EmptyLabel)
        else if sep == |item| then Ok(TagOption(name, ""))
        else
          match Unescaped(item[sep + 1..])
          case Err(e) => Err(e)
          case Ok(description) => if description == "" then Err(EmptyDescription(name)) else Ok(TagOption(name, description))
  }

  function After<T>(before: seq<T>, r: Result<seq<T>>): Result<seq<T>> {
    match r
    case Ok(s) => Ok(before + s)
    case Err(e) => Err(e)
  }

  function Options(value: string): Result<seq<TagOption>>
    decreases |value|
  {
    var end := EndOf(value, '|');
    match OptionOf(value[..end])
    case Err(e) => Err(e)
    case Ok(opt) =>
      if end == |value| then Ok([opt]) else After([opt], Options(value[end + 1..]))
  }

  function Levels(value: string): Result<seq<string>>
    decreases |value|
  {
    var end := EndOf(value, '|');
    if end == 0 then Err(EmptyLevel)
    else
      match Unescaped(value[..end])
      case Err(e) => Err(e)
      case Ok(level) =>
        if end == |value| then Ok([level]) else After([level], Levels(value[end + 1..]))
  }

  lemma AfterStep<T>(before: seq<T>, x: T, r: Result<seq<T>>)
    ensures After([], r) == r
    ensures After(before, After([x], r)) == After(before + [x], r)
    ensures After(before, Ok([x])) == Ok(before + [x])
  {
    if r.Ok? {
      assert [] + r.value == r.value;
      assert before + ([x] + r.value) == before + [x] + r.value;
    }
  }

  method ParseOption(item: string) returns (r: Result<TagOption>)
    ensures r == OptionOf(item)
  {
    if item == "" {
      return Err(EmptyOption);
    }
    var sep, _ := ScanEntry(item, '=');
    var name := Unescape(item[..sep]);
    if name.Err? {
      return Err(name.error);
    }
    if name.value == "" {
      return Err(EmptyLabel);
    }
    if sep == |item| {
      return Ok(TagOption(name.value, ""));
    }
    var description := Unescape(item[sep + 1..]);
    if description.Err? {
      return Err(description.error);
    }
    if description.value == "" {
      return Err(EmptyDescription(name.value));
    }
    r := Ok(TagOption(name.value, description.value));
  }

  /** parseOptions */
  method ParseOptions(value: string) returns (r: Result<seq<TagOption>>)
    ensures r == Options(value)
  {
    var opts := [];
    var rest := value;
    AfterStep([], TagOption("", ""), Options(value));
    while true
      invariant Options(value) == After(opts, Options(rest))
      decreases |rest|
    {
      var end, _ := ScanEntry(rest, '|');
      var opt := ParseOption(rest[..end]);
      if opt.Err? {
        return Err(opt.error);
      }
      AfterStep(opts, opt.value, if end == |rest| then Ok([]) else Options(rest[end + 1..]));
      opts := opts + [opt.value];
      if end == |rest| {
        return Ok(opts);
      }
      rest := rest[end + 1..];
    }
  }

  /** parseLevels */
  method ParseLevels(value: string) returns (r: Result<seq<string>>)
    ensures r == Levels(value)
  {
    var levels := [];
    var rest := value;
    AfterStep([], "", Levels(value));
    while true
      invariant Levels(value) == After(levels, Levels(rest))
      decreases |rest|
    {
      var end, _ := ScanEntry(rest, '|');
      if end == 0 {
        return Err(EmptyLevel);
      }
      var level := Unescape(rest[..end]);
      if level.Err? {
        return Err(level.error);
      }
      AfterStep(levels, level.value, if end == |rest| then Ok([]) else Levels(rest[end + 1..]));
      levels := levels + [level.value];
      if end == |rest| {
        return Ok(levels);
      }
      rest := rest[end + 1..];
    }
  }

  // ----- entries -----

  /** strings.Cut at the first "=": how long the key is. */
  function CutAt(e: string): (n: nat)
    ensures n <= |e|
    ensures n < |e| ==> e[n] == '='
    ensures forall k :: 0 <= k < n ==> e[k] != '='
  {
    if e == "" || e[0] == '=' then 0 else 1 + CutAt(e[1..])
  }

  /** A spec with the text of key k. */
  function WithText(s: Spec, k: Key, text: string): Spec {
    match k
    case KKind => s.(kind := text)
    case KName => s.(name := text)
    case KInstructions => s.(instructions := text)
    case KYes => s.(yes := text)
    case KNo => s.(no := text)
    case _ => s
  }

  /** The value of key k, parsed into s. */
  function WithValue(s: Spec, k: Key, value: string): Result<Spec> {
    match k
    case KOptions => (match Options(value) case Err(e) => Err(e) case Ok(opts) => Ok(s.(options := opts)))
    case KLevels => (match Levels(value) case Err(e) => Err(e) case Ok(levels) => Ok(s.(levels := levels)))
    case _ => (match Unescaped(value) case Err(e) => Err(e) case Ok(text) => Ok(WithText(s, k, text)))
  }

  /** An entry for key k, with what follows its "=" if there is one. */
  function AddedKey(s: Spec, k: Key, value: Option<string>): Result<Spec> {
    if k in s.keys then Err(GivenTwice(k))
    else
      var t := s.(keys := s.keys + {k});
      if k == KOptional then (if value.Some? then Err(TakesNoValue) else Ok(t.(optional := true)))
      else if value.None? || value.value == "" then Err(NeedsValue(k))
      else WithValue(t, k, value.value)
  }

  /** What follows the key of length n. */
  function ValueAfter(e: string, n: nat): Option<string>
    requires n <= |e|
  {
    if n < |e| then Some(e[n + 1..]) else None
  }

  /** addEntry */
  function Added(s: Spec, e: string): Result<Spec> {
    if e == "" then Err(EmptyEntry)
    else
      match KeyOf(e[..CutAt(e)])
      case None => Err(UnknownKey(e[..CutAt(e)]))
      case Some(k) => AddedKey(s, k, ValueAfter(e, CutAt(e)))
  }

  function Entries(s: Spec, rest: string): Result<Spec>
    requires rest != ""
    decreases |rest|
  {
    match ScanEnd(rest, ';')
    case None => Err(Unterminated)
    case Some(end) =>
      match Added(s, rest[..end])
      case Err(e) => Err(e)
      case Ok(t) =>
        if end == |rest| then Ok(t)
        else if end + 1 == |rest| then Err(TrailingSeparator)
        else Entries(t, rest[end + 1..])
  }

  /** parseTag */
  function Parsed(tag: string): Result<Spec> {
    if !Utf8.Valid(tag) then Err(InvalidUTF8)
    else if tag == "" then Ok(EMPTY_SPEC)
    else Entries(EMPTY_SPEC, tag)
  }

  /** tagSpec, which addEntry fills in place. */
  class TagSpec {
    var kind: string
    var name: string
    var instructions: string
    var yes: string
    var no: string
    var options: seq<TagOption>
    var levels: seq<string>
    var optional: bool
    var keys: set<Key>

    constructor ()
      ensures View() == EMPTY_SPEC
    {
      kind, name, instructions, yes, no := "", "", "", "", "";
      options, levels, optional, keys := [], [], false, {};
    }

    function View(): Spec
      reads this
    {
      Spec(kind, name, instructions, yes, no, options, levels, optional, keys)
    }

    method SetText(k: Key, text: string)
      requires k !in {KOptions, KLevels, KOptional}
      modifies this`kind, this`name, this`instructions, this`yes, this`no
      ensures View() == WithText(old(View()), k, text)
    {
      if k == KKind {
        kind := text;
      } else if k == KName {
        name := text;
      } else if k == KInstructions {
        instructions := text;
      } else if k == KYes {
        yes := text;
      } else {
        no := text;
      }
    }

    method SetValue(k: Key, value: string) returns (err: Option<TagError>)
      requires k != KOptional
      modifies this`kind, this`name, this`instructions, this`yes, this`no, this`options, this`levels
      ensures WithValue(old(View()), k, value) == if err.Some? then Err(err.value) else Ok(View())
    {
      if k == KOptions {
        var r := ParseOptions(value);
        if r.Err? {
          return Some(r.error);
        }
        options := r.value;
      } else if k == KLevels {
        var r := ParseLevels(value);
        if r.Err? {
          return Some(r.error);
        }
        levels := r.value;
      } else {
        var r := Unescape(value);
        if r.Err? {
          return Some(r.error);
        }
        SetText(k, r.value);
      }
      err := None;
    }

    /** addEntry */
    method AddEntry(e: string) returns (err: Option<TagError>)
      modifies this
      ensures Added(old(View()), e) == if err.Some? then Err(err.value) else Ok(View())
    {
      if e == "" {
        return Some(EmptyEntry);
      }
      var n := CutAt(e);
      var key := KeyOf(e[..n]);
      if key.None? {
        return Some(UnknownKey(e[..n]));
      }
      var k := key.value;
      if k in keys {
        return Some(GivenTwice(k));
      }
      keys := keys + {k};
      if k == KOptional {
        if n < |e| {
          return Some(TakesNoValue);
        }
        optional := true;
        return None;
      }
      if n >= |e| - 1 {
        return Some(NeedsValue(k));
      }
      err := SetValue(k, e[n + 1..]);
    }
  }

  /** parseTag */
  method ParseTag(tag: string) returns (r: Result<Spec>)
    ensures r == Parsed(tag)
  {
    if !Utf8.Valid(tag) {
      return Err(InvalidUTF8);
    }
    var s := new TagSpec();
    var rest := tag;
    while rest != ""
      invariant Parsed(tag) == if rest == "" then Ok(s.View()) else Entries(s.View(), rest)
      decreases |rest|
    {
      var end, err := ScanEntry(rest, ';');
      if err.Some? {
        return Err(err.value);
      }
      err := s.AddEntry(rest[..end]);
      if err.Some? {
        return Err(err.value);
      }
      if end == |rest| {
        break;
      }
      rest := rest[end + 1..];
      if rest == "" {
        return Err(TrailingSeparator);
      }
    }
    r := Ok(s.View());
  }
}
