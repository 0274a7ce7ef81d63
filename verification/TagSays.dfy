/** The tag grammar in its own letters (typed.go): what each entry is spelled like and which field it fills. */
module TagSays {
  import opened Basics
  import opened Tag
  import opened TagRoundTrip
  import Utf8

  predicate Spells(e: Entry, text: string) {
    match e
    case TextEntry(KKind, t) => text == "kind=" + Escape(t)
    case TextEntry(KName, t) => text == "name=" + Escape(t)
    case TextEntry(KInstructions, t) => text == "instructions=" + Escape(t)
    case TextEntry(KYes, t) => text == "yes=" + Escape(t)
    case TextEntry(KNo, t) => text == "no=" + Escape(t)
    case OptionsEntry(opts) => text == "options=" + PrintOptions(opts)
    case LevelsEntry(levels) => text == "levels=" + PrintLevels(levels)
    case OptionalEntry => text == "optional"
    case _ => false
  }

  predicate Says(s: Spec, e: Entry) {
    match e
    case TextEntry(KKind, t) => s.kind == t && KKind in s.keys
    case TextEntry(KName, t) => s.name == t && KName in s.keys
    case TextEntry(KInstructions, t) => s.instructions == t && KInstructions in s.keys
    case TextEntry(KYes, t) => s.yes == t && KYes in s.keys
    case TextEntry(KNo, t) => s.no == t && KNo in s.keys
    case OptionsEntry(opts) => s.options == opts && KOptions in s.keys
    case LevelsEntry(levels) => s.levels == levels && KLevels in s.keys
    case OptionalEntry => s.optional && KOptional in s.keys
    case _ => false
  }

  /** A field without an entry is empty. */
  predicate Silent(s: Spec, es: seq<Entry>) {
    && (s.kind != "" ==> Mentions(es, KKind)) && (s.name != "" ==> Mentions(es, KName))
    && (s.instructions != "" ==> Mentions(es, KInstructions)) && (s.yes != "" ==> Mentions(es, KYes)) && (s.no != "" ==> Mentions(es, KNo))
    && (s.options != [] ==> Mentions(es, KOptions)) && (s.levels != [] ==> Mentions(es, KLevels)) && (s.optional ==> Mentions(es, KOptional))
    && (forall k <- s.keys :: Mentions(es, k))
  }

  predicate Mentions(es: seq<Entry>, k: Key) {
    exists i :: 0 <= i < |es| && EntryKey(es[i]) == k
  }

  /** The four special characters are spelled with a backslash, and no other is. */
  lemma EscapeIs(c: char, rest: string)
    ensures Escape([c] + rest) == (if c in {';', '|', '=', '\\'} then ['\\', c] else [c]) + Escape(rest)
    ensures Escape("") == ""
  {
    assert ([c] + rest)[1..] == rest;
  }

  lemma EntrySpelled(e: Entry)
    requires WellFormed(e)
    ensures Spells(e, PrintEntry(e))
  {
    assert e.TextEntry? || e.OptionsEntry? || e.LevelsEntry? || e.OptionalEntry?;
    assert "kind" + ("=" + PrintValue(e)) == "kind=" + PrintValue(e);
    assert "name" + ("=" + PrintValue(e)) == "name=" + PrintValue(e);
    assert "instructions" + ("=" + PrintValue(e)) == "instructions=" + PrintValue(e);
    assert "yes" + ("=" + PrintValue(e)) == "yes=" + PrintValue(e);
    assert "no" + ("=" + PrintValue(e)) == "no=" + PrintValue(e);
    assert "options" + ("=" + PrintValue(e)) == "options=" + PrintValue(e);
    assert "levels" + ("=" + PrintValue(e)) == "levels=" + PrintValue(e);
  }

  /** An entry fills its own field and leaves every other as it was. */
  lemma PutSays(s: Spec, e: Entry)
    requires WellFormed(e)
    ensures Says(Put(s, e), e)
    ensures forall d: Entry :: EntryKey(d) != EntryKey(e) ==> (Says(s, d) ==> Says(Put(s, e), d))
  {
  }

  /** A field no entry fills stays as it was. */
  lemma {:induction false} PutAllLeaves(s: Spec, es: seq<Entry>, k: Key)
    requires !Mentions(es, k) && forall i :: 0 <= i < |es| ==> WellFormed(es[i])
    ensures HasValue(PutAll(s, es), k) == HasValue(s, k) && (k in PutAll(s, es).keys <==> k in s.keys)
    ensures forall d: Entry :: EntryKey(d) == k && Says(s, d) ==> Says(PutAll(s, es), d)
    decreases |es|
  {
    if es != [] {
      assert EntryKey(es[0]) != k;
      assert forall i :: 0 <= i < |es| - 1 ==> EntryKey(es[1..][i]) == EntryKey(es[i + 1]);
      PutSays(s, es[0]);
      PutAllLeaves(Put(s, es[0]), es[1..], k);
    }
  }

  lemma {:induction false} PutAllSays(s: Spec, es: seq<Entry>, i: nat)
    requires Fresh(s, es) && i < |es|
    ensures Says(PutAll(s, es), es[i])
    decreases |es|
  {
    FreshRest(s, es);
    PutSays(s, es[0]);
    if i == 0 {
      PutAllLeaves(Put(s, es[0]), es[1..], EntryKey(es[0]));
    } else {
      PutAllSays(Put(s, es[0]), es[1..], i - 1);
    }
  }

  lemma SilentElsewhere(es: seq<Entry>)
    requires forall i :: 0 <= i < |es| ==> WellFormed(es[i])
    ensures Silent(PutAll(EMPTY_SPEC, es), es)
  {
    forall k: Key | !Mentions(es, k)
      ensures !HasValue(PutAll(EMPTY_SPEC, es), k) && k !in PutAll(EMPTY_SPEC, es).keys
    {
      PutAllLeaves(EMPTY_SPEC, es, k);
    }
    assert forall k: Key :: HasValue(PutAll(EMPTY_SPEC, es), k) ==> Mentions(es, k);
  }

  /** The tag of any entries, each spelled in its own words, parses to the spec whose fields are theirs and whose other fields are empty. */
  lemma TagSaysIts(es: seq<Entry>) returns (s: Spec)
    requires Fresh(EMPTY_SPEC, es)
    ensures Parsed(PrintTag(es)) == Ok(s) && Silent(s, es)
    ensures forall i :: 0 <= i < |es| ==> Says(s, es[i]) && Spells(es[i], PrintEntry(es[i]))
  {
    TagRoundTrips(es);
    s := PutAll(EMPTY_SPEC, es);
    SilentElsewhere(es);
    forall i | 0 <= i < |es|
      ensures Says(s, es[i]) && Spells(es[i], PrintEntry(es[i]))
    {
      PutAllSays(EMPTY_SPEC, es, i);
      EntrySpelled(es[i]);
    }
  }

  /** A yes-or-no question's two answers. */
  lemma YesNo(a: string, b: string)
    requires Text(a) && Text(b)
    ensures Parsed(("yes=" + Escape(a)) + (";" + ("no=" + Escape(b)))) == Ok(Spec("", "", "", a, b, [], [], false, {KYes, KNo}))
  {
    var es := [TextEntry(KYes, a), TextEntry(KNo, b)];
    var s := TagSaysIts(es);
    PrintsTwo(es[0], es[1]);
    assert Says(s, es[0]) && Says(s, es[1]) && Spells(es[0], PrintEntry(es[0])) && Spells(es[1], PrintEntry(es[1]));
    assert forall k :: Mentions(es, k) ==> k == KYes || k == KNo;
    assert s.keys == {KYes, KNo};
  }

  lemma PrintsTwo(a: Entry, b: Entry)
    ensures PrintTag([a, b]) == PrintEntry(a) + (";" + PrintEntry(b))
  {
    assert [a, b][1..] == [b];
  }

  /** A backslash before any other character is refused, where it stands. */
  lemma OtherEscapesRefused(s: string, c: char, rest: string)
    requires c !in {';', '|', '=', '\\'}
    ensures Unescaped(Escape(s) + ['\\', c] + rest) == Err(UnknownEscape([c] + rest))
  {
    if s == "" {
      assert "" + ['\\', c] + rest == ['\\', c] + rest;
      assert (['\\', c] + rest)[1..] == [c] + rest;
    } else {
      OtherEscapesRefused(s[1..], c, rest);
      assert Escape(s) + ['\\', c] + rest == Piece(s[0]) + (Escape(s[1..]) + ['\\', c] + rest);
      PieceHead(s[0], Escape(s[1..]) + ['\\', c] + rest);
    }
  }

  lemma PieceHead(c: char, rest: string)
    ensures Unescaped(Piece(c) + rest) == Prepend(c, Unescaped(rest))
  {
    assert (Piece(c) + rest)[|Piece(c)|..] == rest;
  }
}
