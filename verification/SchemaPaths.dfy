/** Every failure a decode reports has a path of the response schema, so the printed path is whole. */
module SchemaPaths {
  import opened Basics
  import opened Json
  import opened Wire
  import opened Folds
  import opened Machine
  import opened TreeDecode
  import opened PathText

  predicate OnSchema(f: Option<Failure>) {
    f.Some? ==> SchemaPath(f.value.path)
  }

  /** A System One failure: a path of the schema without a position in a list. */
  predicate SystemOnePath(p: FieldPath) {
    SchemaPath(p) && p.index.None?
  }

  predicate OnSystemOne(f: Option<Failure>) {
    f.Some? ==> SystemOnePath(f.value.path)
  }

  lemma FoldOnSchema<K, T>(name: string, f: Field, pairs: seq<Pair<T>>, parse: string -> Option<K>, bad: Reason)
    ensures OnSystemOne(FoldFailure(name, FieldName(f), pairs, parse, bad))
  {
  }

  lemma FieldOnSchema(name: string, ms: seq<Member>, k: Kind, f: Field)
    ensures OnSystemOne(FieldFailure(name, ms, k, f))
  {
    match Last(ms, FieldName(f))
    case Some(Obj(inner, _)) =>
      FoldOnSchema(name, FLegend, LegendPairs(inner, false), LevelOf, BadLegendValue);
      FoldOnSchema(name, FProbs, ProbPairs(inner), LabelOf, NotNumber);
      FoldOnSchema(name, FProbs, ProbPairs(inner), LevelOf, NotNumber);
    case _ =>
  }

  lemma {:induction false} FieldsOnSchema(name: string, ms: seq<Member>, k: Kind, fields: seq<Field>)
    ensures OnSystemOne(FirstFieldFailure(name, ms, k, fields))
  {
    if fields != [] {
      FieldOnSchema(name, ms, k, fields[0]);
      FieldsOnSchema(name, ms, k, fields[1..]);
    }
  }

  lemma OutcomeOnSchema(name: string, j: Json)
    ensures TreeOutcome(name, j, false).Failed? ==> SystemOnePath(TreeOutcome(name, j, false).failure.path)
  {
    assert FieldName(FType) == "type";
    if j.Obj? {
      match Last(j.members, "type")
      case Some(Str(typ, _)) =>
        if ParseKind(typ).Some? {
          FieldsOnSchema(name, j.members, ParseKind(typ).value, Schema(ParseKind(typ).value));
        }
      case _ =>
    }
  }

  predicate EntriesOnSchema(es: seq<Entry>) {
    forall i :: 0 <= i < |es| && es[i].outcome.Failed? ==> SystemOnePath(es[i].outcome.failure.path)
  }

  lemma {:induction false} FirstOnSchema(es: seq<Entry>)
    requires EntriesOnSchema(es)
    ensures OnSystemOne(FirstTypeFailure(es)) && OnSystemOne(FirstEntryFailure(es))
  {
    if es != [] {
      FirstOnSchema(es[1..]);
    }
  }

  lemma AnswersOnSchema(ms: seq<Member>)
    ensures EntriesOnSchema(AnswersOf(ms, false))
  {
    match Last(ms, "answers")
    case Some(Obj(inner, _)) =>
      forall i | 0 <= i < |TreeAnswers(inner, false)| && TreeAnswers(inner, false)[i].outcome.Failed?
        ensures SystemOnePath(TreeAnswers(inner, false)[i].outcome.failure.path)
      {
        OutcomeOnSchema(Names(inner)[i], LastOr(inner, Names(inner)[i]));
      }
    case _ =>
  }

  lemma SystemOneOnSchema(j: Json, rawCtl: bool)
    requires DecodeSystemOne(j, rawCtl).Refused?
    ensures SystemOnePath(DecodeSystemOne(j, rawCtl).failure.path)
  {
    if ScanRoot(j, rawCtl).None? {
      AnswersOnSchema(j.members);
      FirstOnSchema(AnswersOf(j.members, false));
    }
  }

  lemma {:induction false} CardsOnSchema(es: seq<Json>)
    ensures OnSchema(FirstTreeCardFailure(es))
    ensures FirstTreeCardFailure(es).Some? ==> FirstTreeCardFailure(es).value.path.index.Some? &&
                                               FirstTreeCardFailure(es).value.path.index.value < |es|
  {
    if es != [] {
      CardsOnSchema(es[..|es| - 1]);
      CardOnSchema(es[|es| - 1], |es| - 1);
    }
  }

  lemma CardOnSchema(j: Json, index: nat)
    ensures OnSchema(TreeCardFailure(j, index))
    ensures TreeCardFailure(j, index).Some? ==> TreeCardFailure(j, index).value.path.index == Some(index)
  {
    if j.Obj? {
      assert OnSchema(CardFieldFailure(j.members, index, CName));
      assert OnSchema(CardFieldFailure(j.members, index, CDescription));
      assert OnSchema(CardFieldFailure(j.members, index, CReleaseDate));
    }
  }

  /** The positions of a model list are those of its elements. */
  function Cards(j: Json): nat {
    if j.Obj? then match Last(j.members, "models") case Some(Arr(es, _)) => |es| case _ => 0 else 0
  }

  lemma ModelsOnSchema(j: Json, rawCtl: bool)
    requires DecodeModels(j, rawCtl).Refused?
    ensures var p := DecodeModels(j, rawCtl).failure.path; SchemaPath(p) && (p.index.Some? ==> p.index.value < Cards(j))
  {
    if ScanRoot(j, rawCtl).None? {
      match Last(j.members, "models")
      case Some(Arr(es, _)) => CardsOnSchema(es);
      case _ =>
    }
  }

  /** The path of a refused System One body is printed whole: only its names are cut, each at its own limit. */
  lemma PrintedWhole(j: Json, rawCtl: bool)
    requires DecodeSystemOne(j, rawCtl).Refused?
    ensures var p := DecodeSystemOne(j, rawCtl).failure.path; Plain(p) && RenderedPath(p) == FullPath(p)
  {
    SystemOneOnSchema(j, rawCtl);
    SchemaPathFits(DecodeSystemOne(j, rawCtl).failure.path);
    PathFits(DecodeSystemOne(j, rawCtl).failure.path);
  }

  /** So is the path of a refused model list, of fewer than 10^20 cards. */
  lemma ModelsPrintedWhole(j: Json, rawCtl: bool)
    requires DecodeModels(j, rawCtl).Refused? && Cards(j) <= Power10(20)
    ensures var p := DecodeModels(j, rawCtl).failure.path; Plain(p) && RenderedPath(p) == FullPath(p)
  {
    ModelsOnSchema(j, rawCtl);
    SchemaPathFits(DecodeModels(j, rawCtl).failure.path);
    PathFits(DecodeModels(j, rawCtl).failure.path);
  }
}
