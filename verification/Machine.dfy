/** The streaming decoder as a pure transition system: one function for each event method of internal/codec/visitor.go,
    on the visitor's fields taken as a value. The class in Visitor.dfy is proved against it. */
module Machine {
  import opened Basics
  import opened Json
  import opened Wire
  import opened Folds
  import Utf8

  datatype Slot =
    | SlotNone | SlotIgnore | SlotRoot | SlotModel | SlotUsage | SlotAnswers | SlotInputTokens | SlotOutputTokens
    | SlotAnswer | SlotType | SlotNoul | SlotChoice | SlotConfidence | SlotScore | SlotProbs | SlotLegend
    | SlotProbValue | SlotLegendValue | SlotModels | SlotCard | SlotCardName | SlotCardDescription | SlotCardReleaseDate

  datatype Ctr = CtrRoot | CtrUsage | CtrAnswers | CtrAnswer | CtrProbs | CtrLegend | CtrModels | CtrCard

  datatype Mode = SystemOne | Models

  const MAX_DEPTH: nat := 4
  const MAX_NESTING: nat := 4096

  /** answerScratch: one answer object's members until its end. */
  datatype Scratch = Scratch(name: string, typ: string, noul: real, conf: real, score: real, choice: string,
                             has: set<Field>, wrong: set<Field>)

  const EMPTY_SCRATCH := Scratch("", "", 0.0, 0.0, 0.0, "", {}, {})

  /** The top-level members. */
  datatype Top = Top(model: string, hasModel: bool, modelErr: Option<Failure>,
                     usage: Usage, hasUsage: bool, usageErr: Option<Failure>, inBad: bool, outBad: bool,
                     answersErr: Option<Failure>)

  const NO_USAGE := Usage(None, None)
  const EMPTY_TOP := Top("", false, None, NO_USAGE, false, None, false, false, None)

  /** The model list. */
  datatype Cards = Cards(list: seq<ModelCard>, card: ModelCard, has: set<CardField>, bad: set<CardField>,
                         err: Option<Failure>, hasCards: bool)

  const NO_CARD := ModelCard("", "", "")
  const NO_CARDS := Cards([], NO_CARD, {}, {}, None, false)

  /** The visitor's fields. */
  datatype V = V(mode: Mode, slot: Slot, ign: nat, ignSlot: Slot, stack: seq<Ctr>, peak: nat, top: Top,
                 cur: Scratch, curKey: string, entries: seq<Entry>, probs: seq<Pair<real>>, legend: seq<Pair<Content>>,
                 cards: Cards)

  datatype R = Ok(v: V) | Fail(reason: Reason)

  /** reset */
  function Reset(mode: Mode): V {
    V(mode, SlotRoot, 0, SlotNone, [], 0, EMPTY_TOP, EMPTY_SCRATCH, "", [], [], [], NO_CARDS)
  }

  // ----- strings and numbers -----

  predicate HasControl(s: string) {
    exists i :: 0 <= i < |s| && s[i] as int < 0x20
  }

  /** checkString: valid UTF-8, and no control character unless an escape spelled it (rawCtl says the body holds a raw one in a string). */
  function CheckString(s: string, rawCtl: bool): Option<Reason> {
    if !Utf8.Valid(s) then Some(InvalidUTF8)
    else if HasControl(s) && rawCtl then Some(RawControlChar)
    else None
  }

  /** parseCount: digits alone, below 2^64, or -0; None for any other number and for no number. */
  function ParseCount(num: Option<Number>): Option<nat> {
    if num.None? then None
    else if num.value.text == "-0" then Some(0)
    else if AllDigits(num.value.text) && Decimal(num.value.text) < 0x1_0000_0000_0000_0000 then Some(Decimal(num.value.text))
    else None
  }

  /** parseFloat: a number in binary64's range. */
  function ParseFloat(num: Option<Number>): Option<real> {
    if num.None? then None else num.value.value
  }

  // ----- the answer set -----

  /** find */
  function Find(entries: seq<Entry>, name: string): (i: int)
    ensures -1 <= i < |entries|
    ensures i >= 0 ==> entries[i].name == name
    ensures i < 0 ==> forall k :: 0 <= k < |entries| ==> entries[k].name != name
  {
    if entries == [] then -1
    else if entries[|entries| - 1].name == name then |entries| - 1
    else Find(entries[..|entries| - 1], name)
  }

  /** put: the entry replaces the one of its name, where that stands, or goes to the end. */
  function Put(entries: seq<Entry>, e: Entry): seq<Entry> {
    var i := Find(entries, e.name);
    if i >= 0 then entries[i := e] else entries + [e]
  }

  // ----- containers -----

  /** push */
  function Push(v: V, c: Ctr): R {
    if |v.stack| == MAX_DEPTH then Fail(ReadTooDeep) else Ok(v.(stack := v.stack + [c]))
  }

  /** The containers the visitor reads in slot s. */
  predicate Reads(s: Slot, isObj: bool) {
    match s
    case SlotRoot => isObj
    case SlotUsage => isObj
    case SlotAnswers => isObj
    case SlotAnswer => isObj
    case SlotProbs => isObj
    case SlotLegend => isObj
    case SlotModels => !isObj
    case SlotCard => isObj
    case _ => false
  }

  /** The scratch once member f has the right kind, or the wrong one. */
  function HasMember(a: Scratch, f: Field): Scratch {
    a.(has := a.has + {f}, wrong := a.wrong - {f})
  }

  function LacksMember(a: Scratch, f: Field): Scratch {
    a.(wrong := a.wrong + {f}, has := a.has - {f})
  }

  function MemberOK(v: V, f: Field): V {
    v.(cur := HasMember(v.cur, f))
  }

  function MemberWrong(v: V, f: Field): V {
    v.(cur := LacksMember(v.cur, f))
  }

  /** A container the visitor reads starting in slot s. */
  function Enter(v: V, s: Slot): R
    requires s != SlotRoot
  {
    match s
    case SlotUsage =>
      Push(v.(top := v.top.(usage := NO_USAGE, hasUsage := true, usageErr := None, inBad := false, outBad := false)), CtrUsage)
    case SlotAnswers => Push(v.(entries := [], top := v.top.(answersErr := None)), CtrAnswers)
    case SlotAnswer => Push(v.(cur := EMPTY_SCRATCH.(name := v.curKey)), CtrAnswer)
    case SlotProbs => Push(MemberOK(v, FProbs).(probs := []), CtrProbs)
    case SlotLegend => Push(MemberOK(v, FLegend).(legend := []), CtrLegend)
    case SlotModels =>
      var r := Push(v.(cards := v.cards.(list := [], hasCards := true, err := None)), CtrModels);
      if r.Ok? then Ok(r.v.(slot := SlotCard)) else r
    case SlotCard => Push(v.(cards := v.cards.(card := NO_CARD, has := {}, bad := {})), CtrCard)
    case _ => Ok(v)
  }

  /** begin */
  function Begin(v0: V, isObj: bool): R {
    if |v0.stack| + v0.ign >= MAX_NESTING then Fail(TooDeep)
    else
      var v := v0.(peak := Max(v0.peak, |v0.stack| + v0.ign + 1));
      if v.ign > 0 then Ok(v.(ign := v.ign + 1))
      else
        var s := v.slot;
        var w := v.(slot := SlotNone);
        if s == SlotRoot then
          if isObj then Push(w, CtrRoot) else Fail(RootNotObject)
        else if Reads(s, isObj) then Enter(w, s)
        else Ok(w.(ign := 1, ignSlot := s))
  }

  /** nextCard */
  function NextCard(v: V): V {
    if v.stack != [] && v.stack[|v.stack| - 1] == CtrModels then v.(slot := SlotCard) else v
  }

  /** end */
  function End(v: V): R {
    if v.ign > 0 then
      if v.ign == 1 then Ok(NextCard(WrongKind(v.(ign := 0), v.ignSlot, true)))
      else Ok(v.(ign := v.ign - 1))
    else if v.stack == [] then Fail(OutOfStack)
    else
      var c := v.stack[|v.stack| - 1];
      var w := v.(stack := v.stack[..|v.stack| - 1]);
      match c
      case CtrAnswer => Ok(NextCard(CommitAnswer(w)))
      case CtrCard => Ok(NextCard(CommitCard(w)))
      case CtrModels => Ok(w.(slot := SlotNone))
      case _ => Ok(NextCard(w))
  }

  /** wrongKind: what slot s makes of a value it does not take; a container is right for a legend level. */
  function WrongKind(v: V, s: Slot, container: bool): V {
    match s
    case SlotModel => v.(top := v.top.(hasModel := true, modelErr := Some(TopFailure("model", "", NotString))))
    case SlotUsage => v.(top := v.top.(hasUsage := true, usageErr := Some(TopFailure("usage", "", NotObject))))
    case SlotAnswers => v.(entries := [], top := v.top.(answersErr := Some(TopFailure("answers", "", NotObject))))
    case SlotInputTokens => v.(top := v.top.(usage := v.top.usage.(input := None), inBad := true))
    case SlotOutputTokens => v.(top := v.top.(usage := v.top.usage.(output := None), outBad := true))
    case SlotAnswer => v.(entries := Put(v.entries, Entry(v.curKey, Failed(AnswerFailure(v.curKey, "type", NotObject)))))
    case SlotType => MemberWrong(v, FType)
    case SlotNoul => MemberWrong(v, FNoul)
    case SlotChoice => MemberWrong(v, FChoice)
    case SlotConfidence => MemberWrong(v, FConfidence)
    case SlotScore => MemberWrong(v, FScore)
    case SlotProbs => MemberWrong(v, FProbs)
    case SlotLegend => MemberWrong(v, FLegend)
    case SlotProbValue => v.(probs := v.probs + [Pair(v.curKey, 0.0, true)])
    case SlotLegendValue => v.(legend := v.legend + [Pair(v.curKey, if container then Marked else Text(""), !container)])
    case SlotModels => v.(cards := v.cards.(list := [], hasCards := true, err := Some(TopFailure("models", "", NotArray))))
    case SlotCard =>
      v.(cards := v.cards.(err := OrElse(v.cards.err, Some(CardFailure(|v.cards.list|, "", NotObject))),
                           list := v.cards.list + [NO_CARD]))
    case SlotCardName => CardWrong(v, CName)
    case SlotCardDescription => CardWrong(v, CDescription)
    case SlotCardReleaseDate => CardWrong(v, CReleaseDate)
    case _ => v
  }

  /** The card once member f is text, or something else. */
  function HasText(c: Cards, f: CardField, card: ModelCard): Cards {
    c.(card := card, has := c.has + {f}, bad := c.bad - {f})
  }

  function LacksText(c: Cards, f: CardField): Cards {
    c.(bad := c.bad + {f}, has := c.has - {f})
  }

  function CardWrong(v: V, f: CardField): V {
    v.(cards := LacksText(v.cards, f))
  }

  function CardOK(v: V, f: CardField, card: ModelCard): V {
    v.(cards := HasText(v.cards, f, card))
  }

  // ----- scalars -----

  /** scalar */
  function Scalar(v: V, str: Option<string>, num: Option<Number>): R {
    if v.ign > 0 then Ok(v)
    else if v.slot == SlotRoot then Fail(RootNotObject)
    else Ok(Assign(v, str, num))
  }

  /** assign */
  function Assign(v0: V, str: Option<string>, num: Option<Number>): V {
    var sl := v0.slot;
    var v := NextCard(v0.(slot := SlotNone));
    match sl
    case SlotNone => v
    case SlotIgnore => v
    case SlotModel =>
      if str.Some? then v.(top := v.top.(model := str.value, hasModel := true, modelErr := None)) else WrongKind(v, sl, false)
    case SlotInputTokens =>
      if ParseCount(num).Some? then v.(top := v.top.(usage := v.top.usage.(input := ParseCount(num)), inBad := false))
      else WrongKind(v, sl, false)
    case SlotOutputTokens =>
      if ParseCount(num).Some? then v.(top := v.top.(usage := v.top.usage.(output := ParseCount(num)), outBad := false))
      else WrongKind(v, sl, false)
    case SlotType =>
      if str.Some? then MemberOK(v.(cur := v.cur.(typ := str.value)), FType) else WrongKind(v, sl, false)
    case SlotChoice =>
      if str.Some? then MemberOK(v.(cur := v.cur.(choice := str.value)), FChoice) else WrongKind(v, sl, false)
    case SlotNoul =>
      if ParseFloat(num).Some? then MemberOK(v.(cur := v.cur.(noul := ParseFloat(num).value)), FNoul) else WrongKind(v, sl, false)
    case SlotConfidence =>
      if ParseFloat(num).Some? then MemberOK(v.(cur := v.cur.(conf := ParseFloat(num).value)), FConfidence)
      else WrongKind(v, sl, false)
    case SlotScore =>
      if ParseFloat(num).Some? then MemberOK(v.(cur := v.cur.(score := ParseFloat(num).value)), FScore) else WrongKind(v, sl, false)
    case SlotProbValue =>
      var f := ParseFloat(num);
      v.(probs := v.probs + [Pair(v.curKey, if f.Some? then f.value else 0.0, f.None?)])
    case SlotLegendValue =>
      v.(legend := v.legend + [Pair(v.curKey, Text(if str.Some? then str.value else ""), str.None?)])
    case SlotCardName =>
      if str.Some? then CardOK(v, CName, v.cards.card.(name := str.value)) else WrongKind(v, sl, false)
    case SlotCardDescription =>
      if str.Some? then CardOK(v, CDescription, v.cards.card.(description := str.value)) else WrongKind(v, sl, false)
    case SlotCardReleaseDate =>
      if str.Some? then CardOK(v, CReleaseDate, v.cards.card.(releaseDate := str.value)) else WrongKind(v, sl, false)
    case _ => WrongKind(v, sl, false)
  }

  /** OnNull: null is an absent token count, and a value of the wrong kind everywhere else. */
  function OnNull(v: V): R {
    if v.ign == 0 && v.slot == SlotInputTokens then
      Ok(v.(slot := SlotNone, top := v.top.(usage := v.top.usage.(input := None), inBad := false)))
    else if v.ign == 0 && v.slot == SlotOutputTokens then
      Ok(v.(slot := SlotNone, top := v.top.(usage := v.top.usage.(output := None), outBad := false)))
    else Scalar(v, None, None)
  }

  // ----- keys -----

  /** The slot a key opens in container c. */
  function KeySlot(mode: Mode, c: Ctr, key: string): Slot {
    match c
    case CtrRoot =>
      if mode == Models && key == "models" then SlotModels
      else if mode == SystemOne && key == "model" then SlotModel
      else if mode == SystemOne && key == "usage" then SlotUsage
      else if mode == SystemOne && key == "answers" then SlotAnswers
      else SlotIgnore
    case CtrUsage =>
      if key == "input_tokens" then SlotInputTokens
      else if key == "output_tokens" then SlotOutputTokens
      else SlotIgnore
    case CtrAnswers => SlotAnswer
    case CtrAnswer =>
      if key == "type" then SlotType
      else if key == "noul" then SlotNoul
      else if key == "choice" then SlotChoice
      else if key == "confidence" then SlotConfidence
      else if key == "score" then SlotScore
      else if key == "probabilities" then SlotProbs
      else if key == "legend" then SlotLegend
      else SlotIgnore
    case CtrProbs => SlotProbValue
    case CtrLegend => SlotLegendValue
    case CtrCard =>
      if key == "name" then SlotCardName
      else if key == "description" then SlotCardDescription
      else if key == "release_date" then SlotCardReleaseDate
      else SlotIgnore
    case CtrModels => SlotIgnore
  }

  /** OnObjectKey, past the check of the key's text. */
  function OnKey(v: V, key: string): R {
    if v.ign > 0 then Ok(v)
    else if v.stack == [] then Fail(OutOfStack)
    else Ok(v.(curKey := key, slot := KeySlot(v.mode, v.stack[|v.stack| - 1], key)))
  }

  // ----- commits -----

  /** A label is its own key. */
  function LabelOf(key: string): Option<string> {
    Some(key)
  }

  /** The failure of a folded member, if it fails. */
  function FoldFailure<K, T>(name: string, member: string, pairs: seq<Pair<T>>, parse: string -> Option<K>, bad: Reason): Option<Failure> {
    match FirstFailing(pairs, parse)
    case None => None
    case Some(i) => Some(KeyFailure(name, member, pairs[i].key, if parse(pairs[i].key).None? then NotLevel else bad))
  }

  /** The failure of a probability list of an answer of kind k. */
  function ProbsFailure(k: Kind, name: string, probs: seq<Pair<real>>): Option<Failure> {
    if k == KindChoice then FoldFailure(name, "probabilities", probs, LabelOf, NotNumber)
    else FoldFailure(name, "probabilities", probs, LevelOf, NotNumber)
  }

  function LegendFailure(name: string, legend: seq<Pair<Content>>): Option<Failure> {
    FoldFailure(name, "legend", legend, LevelOf, BadLegendValue)
  }

  /** The failure of member f of the scratch answer, if it fails. */
  function MemberFailure(v: V, k: Kind, f: Field): Option<Failure> {
    var a := v.cur;
    if f in a.wrong then Some(AnswerFailure(a.name, FieldName(f), WrongKindReason(f)))
    else if f !in a.has then Some(AnswerFailure(a.name, FieldName(f), Missing))
    else if f == FLegend then LegendFailure(a.name, v.legend)
    else if f == FProbs then ProbsFailure(k, a.name, v.probs)
    else None
  }

  /** The first failing member among fields, in their order. */
  function FirstMemberFailure(v: V, k: Kind, fields: seq<Field>): Option<Failure> {
    if fields == [] then None else OrElse(MemberFailure(v, k, fields[0]), FirstMemberFailure(v, k, fields[1..]))
  }

  /** The answer the scratch holds, when no member fails. */
  function ScratchAnswer(v: V, k: Kind): Answer {
    var a := v.cur;
    match k
    case KindNoul => Noul(a.noul)
    case KindChoice => Choice(a.choice, a.conf, FoldEntries(v.probs, LabelOf))
    case KindScore => Score(a.score, a.conf, FoldEntries(v.legend, LevelOf), FoldEntries(v.probs, LevelOf))
  }

  /** What the scratch answer comes to. */
  function ScratchOutcome(v: V): Outcome {
    var a := v.cur;
    if FType in a.wrong then Failed(AnswerFailure(a.name, "type", NotString))
    else if FType !in a.has then Failed(AnswerFailure(a.name, "type", Missing))
    else
      match ParseKind(a.typ)
      case None => Unmodelled(a.typ)
      case Some(k) =>
        match FirstMemberFailure(v, k, Schema(k))
        case Some(f) => Failed(f)
        case None => Known(ScratchAnswer(v, k))
  }

  /** commitAnswer */
  function CommitAnswer(v: V): V {
    v.(entries := Put(v.entries, Entry(v.cur.name, ScratchOutcome(v))))
  }

  /** Of the fields in their order, the first that the scratch card lacks or has as no string. */
  function FirstCardFailure(c: Cards, fields: seq<CardField>): Option<Failure> {
    if fields == [] then None
    else if fields[0] in c.bad then Some(CardFailure(|c.list|, CardFieldName(fields[0]), NotString))
    else if fields[0] !in c.has then Some(CardFailure(|c.list|, CardFieldName(fields[0]), Missing))
    else FirstCardFailure(c, fields[1..])
  }

  /** commitCard */
  function CommitCard(v: V): V {
    var c := v.cards;
    var err := if c.err.Some? || c.has == {CName, CDescription, CReleaseDate} then c.err else FirstCardFailure(c, CARD_SCHEMA);
    v.(cards := c.(err := err, list := c.list + [c.card]))
  }

  /** The root object is the only open container and no value of it is due. */
  predicate Between(v: V) {
    v.stack == [CtrRoot] && v.ign == 0 && v.slot == SlotNone
  }

  // ----- runs -----

  /** One event. */
  function Step(v: V, e: Event, rawCtl: bool): R {
    match e
    case ObjectBegin => Begin(v, true)
    case ArrayBegin => Begin(v, false)
    case ObjectEnd => End(v)
    case ArrayEnd => End(v)
    case KeyEv(key) => if CheckString(key, rawCtl).Some? then Fail(CheckString(key, rawCtl).value) else OnKey(v, key)
    case StrEv(s) => if CheckString(s, rawCtl).Some? then Fail(CheckString(s, rawCtl).value) else Scalar(v, Some(s), None)
    case NumEv(n) => Scalar(v, None, Some(n))
    case BoolEv => Scalar(v, None, None)
    case NullEv => OnNull(v)
  }

  /** The events es in order, until one fails. */
  function Run(v: V, es: seq<Event>, rawCtl: bool): R
    decreases |es|
  {
    if es == [] then Ok(v)
    else
      match Step(v, es[0], rawCtl)
      case Fail(r) => Fail(r)
      case Ok(w) => Run(w, es[1..], rawCtl)
  }

  lemma {:induction false} RunConcat(v: V, a: seq<Event>, b: seq<Event>, rawCtl: bool)
    ensures Run(v, a + b, rawCtl) == var r := Run(v, a, rawCtl); if r.Fail? then r else Run(r.v, b, rawCtl)
    decreases |a|
  {
    if a == [] {
      assert a + b == b;
    } else {
      assert (a + b)[1..] == a[1..] + b;
      var s := Step(v, a[0], rawCtl);
      if s.Ok? {
        RunConcat(s.v, a[1..], b, rawCtl);
      }
    }
  }

  lemma RunOne(v: V, e: Event, rawCtl: bool)
    ensures Run(v, [e], rawCtl) == Step(v, e, rawCtl)
  {
    var s := Step(v, e, rawCtl);
    assert [e][1..] == [];
    if s.Ok? {
      assert Run(s.v, [], rawCtl) == s;
    }
  }
}
