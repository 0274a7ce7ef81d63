/**
  What a response body means, read off its tree: at every level the last
  member of a name wins. This is the reference the streaming decoder is
  measured against; it mentions none of the decoder's state.
*/
module TreeDecode {
  import opened Basics
  import opened Json
  import opened Wire
  import opened Folds
  import opened Machine

  // ----- the JSON layer -----

  /** The first failure of the JSON layer inside j, met in preorder at the given depth: bad text in a string or key, or nesting past the bound. */
  function Scan(j: Json, depth: nat, rawCtl: bool): Option<Reason>
    decreases j, 1
  {
    match j
    case Str(s, _) => CheckString(s, rawCtl)
    case Arr(es, _) => if depth >= MAX_NESTING then Some(TooDeep) else ScanElems(es, depth + 1, rawCtl)
    case Obj(ms, _) => if depth >= MAX_NESTING then Some(TooDeep) else ScanMembers(ms, depth + 1, rawCtl)
    case _ => None
  }

  function ScanMembers(ms: seq<Member>, depth: nat, rawCtl: bool): Option<Reason>
    decreases ms, 0
  {
    if ms == [] then None
    else
      var last := ms[|ms| - 1];
      OrElse(ScanMembers(ms[..|ms| - 1], depth, rawCtl), OrElse(CheckString(last.key, rawCtl), Scan(last.value, depth, rawCtl)))
  }

  function ScanElems(es: seq<Json>, depth: nat, rawCtl: bool): Option<Reason>
    decreases es, 0
  {
    if es == [] then None
    else OrElse(ScanElems(es[..|es| - 1], depth, rawCtl), Scan(es[|es| - 1], depth, rawCtl))
  }

  /** The failure of the JSON layer of a whole body: its text, its nesting, or a root that is no object. */
  function ScanRoot(j: Json, rawCtl: bool): Option<Reason> {
    match j
    case Obj(_, _) => Scan(j, 0, rawCtl)
    case Str(s, _) => OrElse(CheckString(s, rawCtl), Some(RootNotObject))
    case _ => Some(RootNotObject)
  }

  // ----- answers -----

  predicate IsFloat(j: Json) {
    j.Num? && j.num.value.Some?
  }

  /** The kind of value member f takes. */
  predicate RightKind(f: Field, j: Json) {
    match f
    case FType => j.Str?
    case FChoice => j.Str?
    case FProbs => j.Obj?
    case FLegend => j.Obj?
    case _ => IsFloat(j)
  }

  function ProbPair(m: Member): Pair<real> {
    if IsFloat(m.value) then Pair(m.key, m.value.num.value.value, false) else Pair(m.key, 0.0, true)
  }

  function ProbPairs(ms: seq<Member>): seq<Pair<real>> {
    if ms == [] then [] else ProbPairs(ms[..|ms| - 1]) + [ProbPair(ms[|ms| - 1])]
  }

  /** A legend level's value: text, or the bytes of an object or an array (its mark while they are unresolved). */
  function LegendPair(m: Member, resolved: bool): Pair<Content> {
    match m.value
    case Str(s, _) => Pair(m.key, Text(s), false)
    case Obj(_, raw) => Pair(m.key, if resolved then Bytes(raw) else Marked, false)
    case Arr(_, raw) => Pair(m.key, if resolved then Bytes(raw) else Marked, false)
    case _ => Pair(m.key, Text(""), true)
  }

  function LegendPairs(ms: seq<Member>, resolved: bool): seq<Pair<Content>> {
    if ms == [] then [] else LegendPairs(ms[..|ms| - 1], resolved) + [LegendPair(ms[|ms| - 1], resolved)]
  }

  /** The failure of member f of an answer object with members ms. */
  function FieldFailure(name: string, ms: seq<Member>, k: Kind, f: Field): Option<Failure> {
    match Last(ms, FieldName(f))
    case None => Some(AnswerFailure(name, FieldName(f), Missing))
    case Some(j) =>
      if !RightKind(f, j) then Some(AnswerFailure(name, FieldName(f), WrongKindReason(f)))
      else if f == FLegend then LegendFailure(name, LegendPairs(j.members, false))
      else if f == FProbs then ProbsFailure(k, name, ProbPairs(j.members))
      else None
  }

  function FirstFieldFailure(name: string, ms: seq<Member>, k: Kind, fields: seq<Field>): Option<Failure> {
    if fields == [] then None else OrElse(FieldFailure(name, ms, k, fields[0]), FirstFieldFailure(name, ms, k, fields[1..]))
  }

  function TextAt(ms: seq<Member>, f: Field): string {
    match Last(ms, FieldName(f))
    case Some(Str(s, _)) => s
    case _ => ""
  }

  function FloatAt(ms: seq<Member>, f: Field): real {
    match Last(ms, FieldName(f))
    case Some(Num(n)) => if n.value.Some? then n.value.value else 0.0
    case _ => 0.0
  }

  function ObjectAt(ms: seq<Member>, f: Field): seq<Member> {
    match Last(ms, FieldName(f))
    case Some(Obj(inner, _)) => inner
    case _ => []
  }

  function TreeAnswer(ms: seq<Member>, k: Kind, resolved: bool): Answer {
    match k
    case KindNoul => Noul(FloatAt(ms, FNoul))
    case KindChoice => Choice(TextAt(ms, FChoice), FloatAt(ms, FConfidence), FoldEntries(ProbPairs(ObjectAt(ms, FProbs)), LabelOf))
    case KindScore =>
      Score(FloatAt(ms, FScore), FloatAt(ms, FConfidence), FoldEntries(LegendPairs(ObjectAt(ms, FLegend), resolved), LevelOf),
            FoldEntries(ProbPairs(ObjectAt(ms, FProbs)), LevelOf))
  }

  /** What the value j of the answer called name means. */
  function TreeOutcome(name: string, j: Json, resolved: bool): Outcome {
    if !j.Obj? then Failed(AnswerFailure(name, "type", NotObject))
    else
      match Last(j.members, "type")
      case None => Failed(AnswerFailure(name, "type", Missing))
      case Some(Str(typ, _)) =>
        (match ParseKind(typ)
         case None => Unmodelled(typ)
         case Some(k) =>
           match FirstFieldFailure(name, j.members, k, Schema(k))
           case Some(f) => Failed(f)
           case None => Known(TreeAnswer(j.members, k, resolved)))
      case Some(_) => Failed(AnswerFailure(name, "type", NotString))
  }

  function LastOr(ms: seq<Member>, name: string): Json {
    match Last(ms, name)
    case Some(j) => j
    case None => Null
  }

  /** The answers of an answers object: each name once, where it first appears, with what its last value means. */
  function TreeAnswers(ms: seq<Member>, resolved: bool): (es: seq<Entry>)
    ensures |es| == |Names(ms)|
    ensures forall i :: 0 <= i < |es| ==> es[i] == Entry(Names(ms)[i], TreeOutcome(Names(ms)[i], LastOr(ms, Names(ms)[i]), resolved))
  {
    seq(|Names(ms)|, i requires 0 <= i < |Names(ms)| =>
      Entry(Names(ms)[i], TreeOutcome(Names(ms)[i], LastOr(ms, Names(ms)[i]), resolved)))
  }

  // ----- the top level -----

  predicate IsCount(j: Json) {
    j.Null? || (j.Num? && ParseCount(Some(j.num)).Some?)
  }

  /** A token count: absent when it is missing or null. */
  function CountAt(us: seq<Member>, key: string): Option<nat> {
    match Last(us, key)
    case Some(Num(n)) => ParseCount(Some(n))
    case _ => None
  }

  predicate CountBad(us: seq<Member>, key: string) {
    Last(us, key).Some? && !IsCount(Last(us, key).value)
  }

  function TreeUsage(us: seq<Member>): Usage {
    Usage(CountAt(us, "input_tokens"), CountAt(us, "output_tokens"))
  }

  function AnswersOf(ms: seq<Member>, resolved: bool): seq<Entry> {
    match Last(ms, "answers")
    case Some(Obj(inner, _)) => TreeAnswers(inner, resolved)
    case _ => []
  }

  function ModelFailure(ms: seq<Member>): Option<Failure> {
    match Last(ms, "model")
    case None => Some(TopFailure("model", "", Missing))
    case Some(Str(_, _)) => None
    case Some(_) => Some(TopFailure("model", "", NotString))
  }

  function UsageFailure(ms: seq<Member>): Option<Failure> {
    match Last(ms, "usage")
    case None => Some(TopFailure("usage", "", Missing))
    case Some(Obj(us, _)) =>
      if CountBad(us, "input_tokens") then Some(TopFailure("usage", "input_tokens", NotCount))
      else if CountBad(us, "output_tokens") then Some(TopFailure("usage", "output_tokens", NotCount))
      else None
    case Some(_) => Some(TopFailure("usage", "", NotObject))
  }

  function AnswersFailure(ms: seq<Member>): Option<Failure> {
    match Last(ms, "answers")
    case None => None
    case Some(Obj(_, _)) => None
    case Some(_) => Some(TopFailure("answers", "", NotObject))
  }

  /** The first answer that is no object or has no string type. */
  function FirstTypeFailure(es: seq<Entry>): Option<Failure> {
    if es == [] then None
    else if es[0].outcome.Failed? && es[0].outcome.failure.path.member == "type" then Some(es[0].outcome.failure)
    else FirstTypeFailure(es[1..])
  }

  function FirstEntryFailure(es: seq<Entry>): Option<Failure> {
    if es == [] then None
    else if es[0].outcome.Failed? then Some(es[0].outcome.failure)
    else FirstEntryFailure(es[1..])
  }

  /** The answers of kinds this version does not model, up to the first type failure, as they are logged. */
  function SkippedAnswers(es: seq<Entry>): seq<(string, string)> {
    if es == [] || (es[0].outcome.Failed? && es[0].outcome.failure.path.member == "type") then []
    else (if es[0].outcome.Unmodelled? then [(es[0].name, es[0].outcome.typ)] else []) + SkippedAnswers(es[1..])
  }

  function KnownAnswers(es: seq<Entry>): seq<(string, Answer)> {
    if es == [] then []
    else (if es[0].outcome.Known? then [(es[0].name, es[0].outcome.answer)] else []) + KnownAnswers(es[1..])
  }

  /** The failure a System One body reports, in the order the Python SDK validates it. */
  function SystemOneFailure(ms: seq<Member>): Option<Failure> {
    var es := AnswersOf(ms, false);
    OrElse(FirstTypeFailure(es), OrElse(ModelFailure(ms), OrElse(UsageFailure(ms), OrElse(AnswersFailure(ms), FirstEntryFailure(es)))))
  }

  /** A System One body whose text and nesting are right. */
  function SystemOneOf(ms: seq<Member>): Decoded<SystemOneResult> {
    match SystemOneFailure(ms)
    case Some(f) => Refused(f)
    case None =>
      Decoded(SystemOneResult(LastOr(ms, "model").s, TreeUsage(LastOr(ms, "usage").members), KnownAnswers(AnswersOf(ms, true))))
  }

  /** DecodeSystemOne, as a last-member-wins reading of the tree. */
  function DecodeSystemOne(j: Json, rawCtl: bool): Decoded<SystemOneResult> {
    match ScanRoot(j, rawCtl)
    case Some(r) => Refused(RootFailure(r))
    case None => SystemOneOf(j.members)
  }

  // ----- the model list -----

  function CardText(ms: seq<Member>, f: CardField): string {
    match Last(ms, CardFieldName(f))
    case Some(Str(s, _)) => s
    case _ => ""
  }

  function CardFieldFailure(ms: seq<Member>, index: nat, f: CardField): Option<Failure> {
    match Last(ms, CardFieldName(f))
    case None => Some(CardFailure(index, CardFieldName(f), Missing))
    case Some(Str(_, _)) => None
    case Some(_) => Some(CardFailure(index, CardFieldName(f), NotString))
  }

  /** The failure of the model card j at the given position. */
  function TreeCardFailure(j: Json, index: nat): Option<Failure> {
    if !j.Obj? then Some(CardFailure(index, "", NotObject))
    else OrElse(CardFieldFailure(j.members, index, CName),
                OrElse(CardFieldFailure(j.members, index, CDescription), CardFieldFailure(j.members, index, CReleaseDate)))
  }

  function TreeCard(j: Json): ModelCard {
    if j.Obj? then ModelCard(CardText(j.members, CName), CardText(j.members, CDescription), CardText(j.members, CReleaseDate)) else NO_CARD
  }

  function TreeCards(es: seq<Json>): (cs: seq<ModelCard>)
    ensures |cs| == |es|
    ensures forall i :: 0 <= i < |es| ==> cs[i] == TreeCard(es[i])
  {
    if es == [] then [] else TreeCards(es[..|es| - 1]) + [TreeCard(es[|es| - 1])]
  }

  /** The first card that fails. */
  function FirstTreeCardFailure(es: seq<Json>): Option<Failure> {
    if es == [] then None
    else OrElse(FirstTreeCardFailure(es[..|es| - 1]), TreeCardFailure(es[|es| - 1], |es| - 1))
  }

  /** A list-models body whose text and nesting are right. */
  function ModelsOf(ms: seq<Member>): Decoded<seq<ModelCard>> {
    match Last(ms, "models")
    case None => Refused(TopFailure("models", "", Missing))
    case Some(Arr(es, _)) =>
      (match FirstTreeCardFailure(es)
       case Some(f) => Refused(f)
       case None => Decoded(TreeCards(es)))
    case Some(_) => Refused(TopFailure("models", "", NotArray))
  }

  /** DecodeModels, as a last-member-wins reading of the tree. */
  function DecodeModels(j: Json, rawCtl: bool): Decoded<seq<ModelCard>> {
    match ScanRoot(j, rawCtl)
    case Some(r) => Refused(RootFailure(r))
    case None => ModelsOf(j.members)
  }
}
