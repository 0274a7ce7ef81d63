/** What the two decodes do, with every name, bound and reason written out. */
module DecodeLaws {
  import opened Basics
  import opened Json
  import opened Wire
  import opened Folds
  import opened TreeDecode
  import opened Numerals
  import Finish
  import Machine
  import PathText

  // ----- token counts -----

  /** The member called key is no token count. */
  ghost predicate NoCount(us: seq<Member>, key: string) {
    match Last(us, key)
    case None => false
    case Some(Null) => false
    case Some(Num(num)) => forall n: nat :: !IsCountText(num.text, n)
    case Some(_) => true
  }

  /** The member called key counts n tokens, or is absent or null. */
  ghost predicate Counts(us: seq<Member>, key: string, c: Option<nat>) {
    match Last(us, key)
    case None => c.None?
    case Some(Null) => c.None?
    case Some(Num(num)) => c.Some? && IsCountText(num.text, c.value)
    case Some(_) => false
  }

  lemma CountText(num: Number, n: nat)
    ensures Machine.ParseCount(Some(num)) == Some(n) <==> IsCountText(num.text, n)
  {
    NumeralIs(num.text, n);
    if num.text == "-0" {
      assert !IsDigit(num.text[0]);
    }
  }

  lemma CountRule(us: seq<Member>, key: string)
    ensures CountBad(us, key) <==> NoCount(us, key)
    ensures !CountBad(us, key) ==> Counts(us, key, CountAt(us, key))
  {
    match Last(us, key)
    case Some(Num(num)) =>
      forall n: nat ensures Machine.ParseCount(Some(num)) == Some(n) <==> IsCountText(num.text, n) {
        CountText(num, n);
      }
    case _ =>
  }

  /** Why the usage member is refused. */
  ghost function UsageRefusal(ms: seq<Member>): Option<Failure> {
    match Last(ms, "usage")
    case None => Some(Failure(FieldPath("usage", None, None, "", None), Missing))
    case Some(Obj(us, _)) =>
      if NoCount(us, "input_tokens") then Some(Failure(FieldPath("usage", None, None, "input_tokens", None), NotCount))
      else if NoCount(us, "output_tokens") then Some(Failure(FieldPath("usage", None, None, "output_tokens", None), NotCount))
      else None
    case Some(_) => Some(Failure(FieldPath("usage", None, None, "", None), NotObject))
  }

  lemma UsageRule(ms: seq<Member>)
    ensures UsageFailure(ms) == UsageRefusal(ms)
    ensures UsageFailure(ms).None? ==>
              var us, u := LastOr(ms, "usage").members, TreeUsage(LastOr(ms, "usage").members);
              Counts(us, "input_tokens", u.input) && Counts(us, "output_tokens", u.output)
  {
    match Last(ms, "usage")
    case Some(Obj(us, _)) =>
      CountRule(us, "input_tokens");
      CountRule(us, "output_tokens");
    case _ =>
  }

  /** A number is no count unless it is written in digits alone, or is minus zero. */
  lemma OtherNumbers(text: string, i: nat)
    requires i < |text| && text != "-0" && (text[i] == '-' || text[i] == '.' || text[i] == 'e' || text[i] == 'E' || text[i] == '+')
    ensures forall n: nat :: !IsCountText(text, n)
  {
    forall n: nat ensures !IsCountText(text, n) {
      NumeralIs(text, n);
      assert !IsDigit(text[i]);
    }
  }

  /** Nor is a numeral of 2^64 or more. */
  lemma TooLarge(n: nat)
    requires n >= 18446744073709551616
    ensures forall m: nat :: !IsCountText(PathText.Itoa(n), m)
  {
    DecimalOfItoa(n);
    forall m: nat ensures !IsCountText(PathText.Itoa(n), m) {
      NumeralIs(PathText.Itoa(n), m);
    }
  }

  /** Every other numeral is the count it spells, and minus zero is zero. */
  lemma Small(n: nat)
    requires n < 18446744073709551616
    ensures forall m: nat :: IsCountText(PathText.Itoa(n), m) <==> m == n
    ensures forall m: nat :: IsCountText("-0", m) <==> m == 0
  {
    DecimalOfItoa(n);
    forall m: nat
      ensures IsCountText(PathText.Itoa(n), m) <==> m == n
      ensures IsCountText("-0", m) <==> m == 0
    {
      NumeralIs(PathText.Itoa(n), m);
      NumeralIs("-0", m);
      assert !IsDigit("-0"[0]);
    }
  }

  /**
    A System One body whose text is right decodes to the counts its usage
    member spells; once its types and its model are right, a usage member that
    spells none refuses it, the input first.
  */
  lemma SystemOneUsage(j: Json, rawCtl: bool)
    requires j.Obj? && ScanRoot(j, rawCtl).None?
    ensures match DecodeSystemOne(j, rawCtl)
            case Decoded(r) =>
              (match Last(j.members, "usage")
               case Some(Obj(us, _)) => Counts(us, "input_tokens", r.usage.input) && Counts(us, "output_tokens", r.usage.output)
               case _ => false)
            case Refused(_) => true
    ensures DecodeSystemOne(j, rawCtl).Decoded? ==> UsageRefusal(j.members).None?
    ensures UsageRefusal(j.members).Some? && FirstTypeFailure(AnswersOf(j.members, false)).None? && ModelFailure(j.members).None? ==>
              DecodeSystemOne(j, rawCtl) == Refused(UsageRefusal(j.members).value)
  {
    UsageRule(j.members);
  }

  /** So a usage member that spells n, however its other members stand, counts n. */
  lemma TokensCounted(j: Json, rawCtl: bool, us: seq<Member>, raw: Text, num: Number, n: nat)
    requires j.Obj? && ScanRoot(j, rawCtl).None? && DecodeSystemOne(j, rawCtl).Decoded?
    requires Last(j.members, "usage") == Some(Obj(us, raw)) && (num.text == PathText.Itoa(n) || (num.text == "-0" && n == 0))
    ensures Last(us, "input_tokens") == Some(Num(num)) ==>
              n < 18446744073709551616 && DecodeSystemOne(j, rawCtl).value.usage.input == Some(n)
    ensures Last(us, "output_tokens") == Some(Num(num)) ==>
              n < 18446744073709551616 && DecodeSystemOne(j, rawCtl).value.usage.output == Some(n)
  {
    SystemOneUsage(j, rawCtl);
    if n < 18446744073709551616 {
      Small(n);
    } else {
      TooLarge(n);
    }
  }

  lemma SpelledCounts(us: seq<Member>, key: string, num: Number, n: nat)
    requires Last(us, key) == Some(Num(num)) && IsCountText(num.text, n)
    ensures !CountBad(us, key) && CountAt(us, key) == Some(n)
  {
    CountText(num, n);
  }

  lemma ItoaCounts(n: nat)
    requires n < 18446744073709551616
    ensures IsCountText(PathText.Itoa(n), n)
  {
    Small(n);
  }

  /** Nothing but the usage member can refuse the body. */
  predicate RestRight(ms: seq<Member>) {
    && FirstTypeFailure(AnswersOf(ms, false)).None? && ModelFailure(ms).None? && AnswersFailure(ms).None?
    && FirstEntryFailure(AnswersOf(ms, false)).None?
  }

  lemma CountsDecode(j: Json, rawCtl: bool, us: seq<Member>, raw: Text, input: Number, output: Number, n: nat, m: nat)
    requires j.Obj? && ScanRoot(j, rawCtl).None? && RestRight(j.members) && Last(j.members, "usage") == Some(Obj(us, raw))
    requires Last(us, "input_tokens") == Some(Num(input)) && Last(us, "output_tokens") == Some(Num(output))
    requires IsCountText(input.text, n) && IsCountText(output.text, m)
    ensures DecodeSystemOne(j, rawCtl).Decoded? && DecodeSystemOne(j, rawCtl).value.usage == Usage(Some(n), Some(m))
  {
    SpelledCounts(us, "input_tokens", input, n);
    SpelledCounts(us, "output_tokens", output, m);
  }

  /** Every two numerals below 2^64 decode, to themselves. */
  lemma TokensDecode(j: Json, rawCtl: bool, us: seq<Member>, raw: Text, input: Number, output: Number, n: nat, m: nat)
    requires j.Obj? && ScanRoot(j, rawCtl).None? && RestRight(j.members) && Last(j.members, "usage") == Some(Obj(us, raw))
    requires Last(us, "input_tokens") == Some(Num(input)) && Last(us, "output_tokens") == Some(Num(output))
    requires input.text == PathText.Itoa(n) && n < 18446744073709551616 && output.text == PathText.Itoa(m) && m < 18446744073709551616
    ensures DecodeSystemOne(j, rawCtl).Decoded? && DecodeSystemOne(j, rawCtl).value.usage == Usage(Some(n), Some(m))
  {
    ItoaCounts(n);
    ItoaCounts(m);
    CountsDecode(j, rawCtl, us, raw, input, output, n, m);
  }

  /** And one whose input is a numeral past 2^64, or holds a sign other than minus zero's, a point or an exponent, is refused there. */
  lemma BadCountRefused(j: Json, rawCtl: bool, us: seq<Member>, raw: Text, num: Number, i: nat, n: nat)
    requires j.Obj? && ScanRoot(j, rawCtl).None? && FirstTypeFailure(AnswersOf(j.members, false)).None? && ModelFailure(j.members).None?
    requires Last(j.members, "usage") == Some(Obj(us, raw)) && Last(us, "input_tokens") == Some(Num(num))
    requires || (num.text == PathText.Itoa(n) && n >= 18446744073709551616)
             || (i < |num.text| && num.text != "-0" && num.text[i] in {'-', '+', '.', 'e', 'E'})
    ensures DecodeSystemOne(j, rawCtl) == Refused(Failure(FieldPath("usage", None, None, "input_tokens", None), NotCount))
  {
    SystemOneUsage(j, rawCtl);
    if num.text == PathText.Itoa(n) && n >= 18446744073709551616 {
      TooLarge(n);
    } else {
      OtherNumbers(num.text, i);
    }
  }

  // ----- the other refusals of the top level -----

  /** The failures of the root, the model, the answers and a model card, with the paths they are reported at. */
  lemma TopRefusals(ms: seq<Member>)
    ensures ModelFailure(ms) == match Last(ms, "model")
                                case None => Some(Failure(FieldPath("model", None, None, "", None), Missing))
                                case Some(Str(_, _)) => None
                                case Some(_) => Some(Failure(FieldPath("model", None, None, "", None), NotString))
    ensures AnswersFailure(ms) == match Last(ms, "answers")
                                  case None => None
                                  case Some(Obj(_, _)) => None
                                  case Some(_) => Some(Failure(FieldPath("answers", None, None, "", None), NotObject))
    ensures ModelsOf(ms).Refused? && (Last(ms, "models").None? || !Last(ms, "models").value.Arr?) ==>
              ModelsOf(ms) == Refused(Failure(FieldPath("models", None, None, "", None), if Last(ms, "models").None? then Missing else NotArray))
  {
  }

  /** Why the card at the given position lacks a text member. */
  function TextRefusal(ms: seq<Member>, index: nat, member: string): Option<Failure> {
    match Last(ms, member)
    case None => Some(Failure(FieldPath("models", Some(index), None, member, None), Missing))
    case Some(Str(_, _)) => None
    case Some(_) => Some(Failure(FieldPath("models", Some(index), None, member, None), NotString))
  }

  /** A model card is refused for its name, its description or its release date, in that order, and is those three texts. */
  lemma CardRule(j: Json, index: nat)
    ensures !j.Obj? ==> TreeCardFailure(j, index) == Some(Failure(FieldPath("models", Some(index), None, "", None), NotObject))
    ensures j.Obj? ==> TreeCardFailure(j, index) == OrElse(TextRefusal(j.members, index, "name"),
                         OrElse(TextRefusal(j.members, index, "description"), TextRefusal(j.members, index, "release_date")))
    ensures TreeCardFailure(j, index).None? ==>
              match (Last(j.members, "name"), Last(j.members, "description"), Last(j.members, "release_date"))
              case (Some(Str(name, _)), Some(Str(description, _)), Some(Str(date, _))) => TreeCard(j) == ModelCard(name, description, date)
              case _ => false
  {
  }

  // ----- answers -----

  /** What a member of an answer takes. */
  datatype Want = AText | ANumber | LabelNumbers | LevelNumbers | LevelTexts

  /** The members an answer of each type needs, in the order they are validated; a type that is not listed is not modelled. */
  function Needs(typ: string): seq<(string, Want)> {
    if typ == "noul" then [("noul", ANumber)]
    else if typ == "choice" then [("choice", AText), ("confidence", ANumber), ("probabilities", LabelNumbers)]
    else if typ == "score" then [("score", ANumber), ("confidence", ANumber), ("legend", LevelTexts), ("probabilities", LevelNumbers)]
    else []
  }

  predicate Numeric(j: Json) {
    j.Num? && j.num.value.Some?
  }

  predicate Takes(want: Want, j: Json) {
    match want
    case AText => j.Str?
    case ANumber => Numeric(j)
    case _ => j.Obj?
  }

  function Said(want: Want): Reason {
    match want
    case AText => NotString
    case ANumber => NotNumber
    case _ => NotObject
  }

  /** A value that a key of the member does not take. */
  predicate BadValue(want: Want, j: Json) {
    if want == LevelTexts then !(j.Str? || j.Obj? || j.Arr?) else !Numeric(j)
  }

  /** A key that must spell a level and does not. */
  ghost predicate BadKey(want: Want, key: string) {
    want != LabelNumbers && forall n: nat :: !IsLevel(key, n)
  }

  /** The spelling first met at position i is refused: by its key, or by its last value. */
  ghost predicate SpellingRefused(want: Want, ms: seq<Member>, i: nat)
    requires i < |ms|
  {
    && (forall j :: 0 <= j < i ==> ms[j].key != ms[i].key)
    && (BadKey(want, ms[i].key) || BadValue(want, LastOr(ms, ms[i].key)))
  }

  /** The first spelling that is refused. */
  ghost predicate FirstRefused(want: Want, ms: seq<Member>, i: nat) {
    i < |ms| && SpellingRefused(want, ms, i) && forall j :: 0 <= j < i ==> !SpellingRefused(want, ms, j)
  }

  /** f is why the answer called name is refused for its member. */
  ghost predicate RefusedFor(name: string, ms: seq<Member>, member: string, want: Want, f: Failure) {
    match Last(ms, member)
    case None => f == Failure(FieldPath("answers", None, Some(name), member, None), Missing)
    case Some(j) =>
      if !Takes(want, j) then f == Failure(FieldPath("answers", None, Some(name), member, None), Said(want))
      else
        && !want.AText? && !want.ANumber?
        && exists i: nat :: FirstRefused(want, j.members, i) &&
             f == Failure(FieldPath("answers", None, Some(name), member, Some(j.members[i].key)),
                          if BadKey(want, j.members[i].key) then NotLevel else if want == LevelTexts then BadLegendValue else NotNumber)
  }

  // ----- proofs -----

  lemma {:induction false} ProbPairsAre(ms: seq<Member>)
    ensures |ProbPairs(ms)| == |ms| && forall i :: 0 <= i < |ms| ==> ProbPairs(ms)[i] == ProbPair(ms[i])
  {
    if ms != [] {
      ProbPairsAre(ms[..|ms| - 1]);
    }
  }

  lemma {:induction false} LegendPairsAre(ms: seq<Member>, resolved: bool)
    ensures |LegendPairs(ms, resolved)| == |ms| && forall i :: 0 <= i < |ms| ==> LegendPairs(ms, resolved)[i] == LegendPair(ms[i], resolved)
  {
    if ms != [] {
      LegendPairsAre(ms[..|ms| - 1], resolved);
    }
  }

  /** pairs are the members ms, each bad when its value is. */
  predicate Pairs<T>(want: Want, ms: seq<Member>, pairs: seq<Pair<T>>) {
    |pairs| == |ms| && forall i :: 0 <= i < |ms| ==> pairs[i].key == ms[i].key && pairs[i].bad == BadValue(want, ms[i].value)
  }

  lemma {:induction false} LastPair<T>(want: Want, ms: seq<Member>, pairs: seq<Pair<T>>, key: string)
    requires Pairs(want, ms, pairs)
    ensures LastIndex(pairs, key) >= 0 ==> Last(ms, key) == Some(ms[LastIndex(pairs, key)].value)
  {
    if ms != [] && pairs[|pairs| - 1].key != key {
      LastPair(want, ms[..|ms| - 1], pairs[..|pairs| - 1], key);
    }
  }

  lemma SpellingIs<K, T>(want: Want, ms: seq<Member>, pairs: seq<Pair<T>>, parse: string -> Option<K>, i: nat)
    requires Pairs(want, ms, pairs) && i < |ms| && (parse(ms[i].key).None? <==> BadKey(want, ms[i].key))
    ensures FailsAt(pairs, parse, i) <==> SpellingRefused(want, ms, i)
  {
    LastPair(want, ms, pairs, ms[i].key);
  }

  lemma FoldRule<K, T>(name: string, member: string, want: Want, ms: seq<Member>, pairs: seq<Pair<T>>, parse: string -> Option<K>, bad: Reason,
                       f: Failure)
    requires Pairs(want, ms, pairs) && forall i :: 0 <= i < |ms| ==> (parse(ms[i].key).None? <==> BadKey(want, ms[i].key))
    ensures Machine.FoldFailure(name, member, pairs, parse, bad) == Some(f) <==>
            exists i: nat :: FirstRefused(want, ms, i) &&
              f == Failure(FieldPath("answers", None, Some(name), member, Some(ms[i].key)), if BadKey(want, ms[i].key) then NotLevel else bad)
  {
    forall i: nat | i < |ms| ensures FailsAt(pairs, parse, i) <==> SpellingRefused(want, ms, i) {
      SpellingIs(want, ms, pairs, parse, i);
    }
    forall i: nat | FirstRefused(want, ms, i) ensures FirstFailing(pairs, parse) == Some(i) {
      FirstFailingIs(pairs, parse, Some(i));
    }
    var r := FirstFailing(pairs, parse);
    assert r.Some? ==> FirstRefused(want, ms, r.value);
  }

  lemma LevelsRead(key: string)
    ensures LevelOf(key).None? <==> forall n: nat :: !IsLevel(key, n)
  {
    forall n: nat ensures LevelOf(key) == Some(n) <==> IsLevel(key, n) {
      LevelIs(key, n);
    }
  }

  /** The field of an answer of kind k that a member is. */
  predicate IsField(k: Kind, field: Field, member: string, want: Want) {
    match field
    case FType => false
    case FNoul => member == "noul" && want == ANumber
    case FChoice => member == "choice" && want == AText
    case FConfidence => member == "confidence" && want == ANumber
    case FScore => member == "score" && want == ANumber
    case FProbs => member == "probabilities" && want == if k.KindScore? then LevelNumbers else LabelNumbers
    case FLegend => member == "legend" && want == LevelTexts
  }

  lemma LegendRule(name: string, ms: seq<Member>, f: Failure)
    ensures Machine.LegendFailure(name, LegendPairs(ms, false)) == Some(f) <==>
            exists i: nat :: FirstRefused(LevelTexts, ms, i) &&
              f == Failure(FieldPath("answers", None, Some(name), "legend", Some(ms[i].key)),
                           if BadKey(LevelTexts, ms[i].key) then NotLevel else BadLegendValue)
  {
    LegendPairsAre(ms, false);
    forall i | 0 <= i < |ms| ensures LevelOf(ms[i].key).None? <==> BadKey(LevelTexts, ms[i].key) {
      LevelsRead(ms[i].key);
    }
    FoldRule(name, "legend", LevelTexts, ms, LegendPairs(ms, false), LevelOf, BadLegendValue, f);
  }

  lemma ProbsRule(k: Kind, name: string, want: Want, ms: seq<Member>, f: Failure)
    requires (k == KindScore && want == LevelNumbers) || (k == KindChoice && want == LabelNumbers)
    ensures Machine.ProbsFailure(k, name, ProbPairs(ms)) == Some(f) <==>
            exists i: nat :: FirstRefused(want, ms, i) &&
              f == Failure(FieldPath("answers", None, Some(name), "probabilities", Some(ms[i].key)),
                           if BadKey(want, ms[i].key) then NotLevel else NotNumber)
  {
    ProbPairsAre(ms);
    if k == KindScore {
      forall i | 0 <= i < |ms| ensures LevelOf(ms[i].key).None? <==> BadKey(want, ms[i].key) {
        LevelsRead(ms[i].key);
      }
      FoldRule(name, "probabilities", want, ms, ProbPairs(ms), LevelOf, NotNumber, f);
    } else {
      FoldRule(name, "probabilities", want, ms, ProbPairs(ms), Machine.LabelOf, NotNumber, f);
    }
  }

  lemma FieldRule(name: string, ms: seq<Member>, k: Kind, field: Field, member: string, want: Want, f: Failure)
    requires IsField(k, field, member, want) && (k == KindNoul ==> field == FNoul)
    ensures FieldFailure(name, ms, k, field) == Some(f) <==> RefusedFor(name, ms, member, want, f)
  {
    if Last(ms, member).Some? && Takes(want, Last(ms, member).value) {
      if field == FLegend {
        LegendRule(name, Last(ms, member).value.members, f);
      } else if field == FProbs {
        ProbsRule(k, name, want, Last(ms, member).value.members, f);
      }
    }
  }

  /** The schema of a kind is the table's row for its type. */
  lemma SchemaIs(typ: string)
    ensures ParseKind(typ).None? <==> typ !in {"noul", "choice", "score"}
    ensures match ParseKind(typ)
            case None => Needs(typ) == []
            case Some(k) =>
              && |Schema(k)| == |Needs(typ)|
              && (k == KindNoul <==> typ == "noul") && (k == KindChoice <==> typ == "choice")
              && (forall i :: 0 <= i < |Schema(k)| ==> IsField(k, Schema(k)[i], Needs(typ)[i].0, Needs(typ)[i].1))
              && (k == KindNoul ==> Schema(k) == [FNoul])
  {
  }

  /** The member at position i of the table is the first that is refused, for f. */
  ghost predicate FirstRefusal(name: string, ms: seq<Member>, needs: seq<(string, Want)>, i: nat, f: Failure) {
    && i < |needs| && RefusedFor(name, ms, needs[i].0, needs[i].1, f)
    && forall j, g :: 0 <= j < i ==> !RefusedFor(name, ms, needs[j].0, needs[j].1, g)
  }

  lemma {:induction false} FieldsRule(name: string, ms: seq<Member>, k: Kind, fields: seq<Field>, needs: seq<(string, Want)>, f: Failure)
    requires |fields| == |needs| && forall i :: 0 <= i < |fields| ==> IsField(k, fields[i], needs[i].0, needs[i].1) && (k == KindNoul ==> fields[i] == FNoul)
    ensures FirstFieldFailure(name, ms, k, fields) == Some(f) <==> exists i: nat :: FirstRefusal(name, ms, needs, i, f)
    decreases |fields|
  {
    if fields != [] {
      forall g ensures FieldFailure(name, ms, k, fields[0]) == Some(g) <==> RefusedFor(name, ms, needs[0].0, needs[0].1, g) {
        FieldRule(name, ms, k, fields[0], needs[0].0, needs[0].1, g);
      }
      FieldsRule(name, ms, k, fields[1..], needs[1..], f);
      FirstOrLater(name, ms, needs, f);
    }
  }

  /** The first refusal is the first member's, or the first among the others when that one is not refused. */
  lemma FirstOrLater(name: string, ms: seq<Member>, needs: seq<(string, Want)>, f: Failure)
    requires needs != []
    ensures (exists i: nat :: FirstRefusal(name, ms, needs, i, f)) <==>
            if exists g :: RefusedFor(name, ms, needs[0].0, needs[0].1, g) then RefusedFor(name, ms, needs[0].0, needs[0].1, f)
            else exists i: nat :: FirstRefusal(name, ms, needs[1..], i, f)
  {
    if exists g :: RefusedFor(name, ms, needs[0].0, needs[0].1, g) {
      assert RefusedFor(name, ms, needs[0].0, needs[0].1, f) ==> FirstRefusal(name, ms, needs, 0, f);
    } else {
      forall i: nat | FirstRefusal(name, ms, needs, i, f) ensures FirstRefusal(name, ms, needs[1..], i - 1, f) {
      }
      forall i: nat | FirstRefusal(name, ms, needs[1..], i, f) ensures FirstRefusal(name, ms, needs, i + 1, f) {
        forall j, g | 0 <= j < i + 1 ensures !RefusedFor(name, ms, needs[j].0, needs[j].1, g) {
          assert j > 0 ==> needs[1..][j - 1] == needs[j];
        }
      }
    }
  }

  /** Why an answer is refused before its kind is known. */
  function TypeRefusal(name: string, j: Json): Option<Failure> {
    if !j.Obj? then Some(Failure(FieldPath("answers", None, Some(name), "type", None), NotObject))
    else
      match Last(j.members, "type")
      case None => Some(Failure(FieldPath("answers", None, Some(name), "type", None), Missing))
      case Some(Str(_, _)) => None
      case Some(_) => Some(Failure(FieldPath("answers", None, Some(name), "type", None), NotString))
  }

  /**
    What an answer comes to: refused for its type, left out when its type is
    not one of the table's, refused for the first member of its row that is
    refused, and otherwise known.
  */
  lemma OutcomeRule(name: string, j: Json, resolved: bool, f: Failure)
    ensures TypeRefusal(name, j).Some? ==> TreeOutcome(name, j, resolved) == Failed(TypeRefusal(name, j).value)
    ensures TypeRefusal(name, j).None? ==>
              var typ, o := LastOr(j.members, "type").s, TreeOutcome(name, j, resolved);
              && (typ !in {"noul", "choice", "score"} ==> o == Unmodelled(typ))
              && (typ in {"noul", "choice", "score"} ==>
                    && (o == Failed(f) <==> exists i: nat :: FirstRefusal(name, j.members, Needs(typ), i, f))
                    && (o.Failed? || (o.Known? && AnswerHolds(typ, j.members, resolved, o.answer))))
  {
    if TypeRefusal(name, j).None? {
      var typ := LastOr(j.members, "type").s;
      SchemaIs(typ);
      if ParseKind(typ).Some? {
        var k := ParseKind(typ).value;
        FieldsRule(name, j.members, k, Schema(k), Needs(typ), f);
        if FirstFieldFailure(name, j.members, k, Schema(k)).None? {
          NoFieldFails(name, j.members, k, Schema(k));
          KnownHolds(name, typ, j.members, k, resolved);
        }
      }
    }
  }

  // ----- the answer -----

  predicate NumberAt(ms: seq<Member>, member: string, x: real) {
    match Last(ms, member)
    case Some(Num(num)) => num.value == Some(x)
    case _ => false
  }

  predicate TextIs(ms: seq<Member>, member: string, s: string) {
    match Last(ms, member)
    case Some(Str(t, _)) => t == s
    case _ => false
  }

  /** The members of the object called member. */
  function Inside(ms: seq<Member>, member: string): seq<Member> {
    match Last(ms, member)
    case Some(Obj(inner, _)) => inner
    case _ => []
  }

  /** A label is its own key. */
  function Label(key: string): Option<string> {
    Some(key)
  }

  /** The answer has the numbers, the texts and the folded objects of its members. */
  ghost predicate AnswerHolds(typ: string, ms: seq<Member>, resolved: bool, a: Answer) {
    match a
    case Noul(x) => typ == "noul" && NumberAt(ms, "noul", x)
    case Choice(choice, confidence, labels) =>
      && typ == "choice" && TextIs(ms, "choice", choice) && NumberAt(ms, "confidence", confidence)
      && OneEach(ProbPairs(Inside(ms, "probabilities")), Label, labels)
    case Score(score, confidence, legend, levels) =>
      && typ == "score" && NumberAt(ms, "score", score) && NumberAt(ms, "confidence", confidence)
      && OneEach(LegendPairs(Inside(ms, "legend"), resolved), LevelOf, legend)
      && OneEach(ProbPairs(Inside(ms, "probabilities")), LevelOf, levels)
  }

  lemma {:induction false} NoFieldFails(name: string, ms: seq<Member>, k: Kind, fields: seq<Field>)
    ensures FirstFieldFailure(name, ms, k, fields).None? ==> forall i :: 0 <= i < |fields| ==> FieldFailure(name, ms, k, fields[i]).None?
    decreases |fields|
  {
    if fields != [] {
      NoFieldFails(name, ms, k, fields[1..]);
    }
  }

  lemma {:induction false} LabelsFold<T>(pairs: seq<Pair<T>>)
    ensures FoldEntries(pairs, Machine.LabelOf) == FoldEntries(pairs, Label)
  {
    if pairs != [] {
      LabelsFold(pairs[..|pairs| - 1]);
    }
  }

  lemma NumberHolds(name: string, ms: seq<Member>, k: Kind, field: Field)
    requires FieldFailure(name, ms, k, field).None? && (field == FNoul || field == FConfidence || field == FScore)
    ensures NumberAt(ms, match field case FNoul => "noul" case FConfidence => "confidence" case _ => "score", FloatAt(ms, field))
  {
  }

  lemma ChoiceHolds(name: string, ms: seq<Member>, resolved: bool)
    requires forall f <- [FChoice, FConfidence, FProbs] :: FieldFailure(name, ms, KindChoice, f).None?
    ensures AnswerHolds("choice", ms, resolved, TreeAnswer(ms, KindChoice, resolved))
  {
    var inner := Inside(ms, "probabilities");
    assert ObjectAt(ms, FProbs) == inner;
    NumberHolds(name, ms, KindChoice, FConfidence);
    assert FieldFailure(name, ms, KindChoice, FChoice).None?;
    LabelsFold(ProbPairs(inner));
    FoldHasOneEach(ProbPairs(inner), Label);
  }

  lemma ScoreHolds(name: string, ms: seq<Member>, resolved: bool)
    requires forall f <- [FScore, FConfidence, FLegend, FProbs] :: FieldFailure(name, ms, KindScore, f).None?
    ensures AnswerHolds("score", ms, resolved, TreeAnswer(ms, KindScore, resolved))
  {
    assert ObjectAt(ms, FProbs) == Inside(ms, "probabilities") && ObjectAt(ms, FLegend) == Inside(ms, "legend");
    NumberHolds(name, ms, KindScore, FScore);
    NumberHolds(name, ms, KindScore, FConfidence);
    FoldHasOneEach(ProbPairs(Inside(ms, "probabilities")), LevelOf);
    FoldHasOneEach(LegendPairs(Inside(ms, "legend"), resolved), LevelOf);
  }

  lemma KnownHolds(name: string, typ: string, ms: seq<Member>, k: Kind, resolved: bool)
    requires ParseKind(typ) == Some(k) && forall i :: 0 <= i < |Schema(k)| ==> FieldFailure(name, ms, k, Schema(k)[i]).None?
    ensures AnswerHolds(typ, ms, resolved, TreeAnswer(ms, k, resolved))
  {
    match k
    case KindNoul =>
      assert Schema(k)[0] == FNoul;
      NumberHolds(name, ms, k, FNoul);
    case KindChoice =>
      assert Schema(k)[0] == FChoice && Schema(k)[1] == FConfidence && Schema(k)[2] == FProbs;
      ChoiceHolds(name, ms, resolved);
    case KindScore =>
      assert Schema(k)[0] == FScore && Schema(k)[1] == FConfidence && Schema(k)[2] == FLegend && Schema(k)[3] == FProbs;
      ScoreHolds(name, ms, resolved);
  }

  // ----- nesting -----

  /** A body nests at most 4096 containers; one that is refused for its nesting nests more. */
  lemma NestingRule(j: Json, rawCtl: bool)
    ensures ScanRoot(j, rawCtl).None? ==> Height(j) <= 4096
    ensures ScanRoot(j, rawCtl) == Some(TooDeep) ==> Height(j) > 4096
    ensures ScanRoot(j, rawCtl).Some? && ScanRoot(j, rawCtl).value.RootNotObject? ==> !j.Obj?
    ensures ScanRoot(j, rawCtl).Some? && !j.Obj? && !j.Str? ==> ScanRoot(j, rawCtl) == Some(RootNotObject)
  {
    ScanDepth(j, 0, rawCtl);
  }

  /** What the check of j's text and nesting says of how deep j nests with depth containers around it. */
  predicate Bounded(scan: Option<Reason>, deepest: nat) {
    && (scan.None? ==> deepest <= 4096)
    && (scan == Some(TooDeep) ==> deepest > 4096)
    && scan != Some(RootNotObject)
  }

  lemma {:induction false} ScanDepth(j: Json, depth: nat, rawCtl: bool)
    requires depth <= 4096
    ensures Bounded(Scan(j, depth, rawCtl), depth + Height(j))
    decreases j, 1
  {
    match j
    case Arr(es, _) => if depth < 4096 { ElemsDepth(es, depth + 1, rawCtl); }
    case Obj(ms, _) => if depth < 4096 { MembersDepth(ms, depth + 1, rawCtl); }
    case _ =>
  }

  lemma {:induction false} ElemsDepth(es: seq<Json>, depth: nat, rawCtl: bool)
    requires depth <= 4096
    ensures Bounded(ScanElems(es, depth, rawCtl), depth + ElemsHeight(es))
    decreases es, 0
  {
    if es != [] {
      ElemsDepth(es[..|es| - 1], depth, rawCtl);
      ScanDepth(es[|es| - 1], depth, rawCtl);
    }
  }

  lemma {:induction false} MembersDepth(ms: seq<Member>, depth: nat, rawCtl: bool)
    requires depth <= 4096
    ensures Bounded(ScanMembers(ms, depth, rawCtl), depth + MembersHeight(ms))
    decreases ms, 0
  {
    if ms != [] {
      MembersDepth(ms[..|ms| - 1], depth, rawCtl);
      ScanDepth(ms[|ms| - 1].value, depth, rawCtl);
    }
  }

  // ----- what is told of unknown types -----

  /** A decode tells of its first eight answers of a type that is not modelled, and how many there are. */
  lemma SkippedIs(all: seq<(string, string)>)
    ensures Finish.Reported(all) == Finish.Skipped(if |all| <= 8 then all else all[..8], |all|)
  {
    assert |all| <= 8 ==> all[..|all|] == all;
  }
}
