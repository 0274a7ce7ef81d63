/** The values a decode produces and the failures it reports (internal/wire/answers.go, internal/codec/decode.go). */
module Wire {
  import opened Basics

  datatype Kind = KindNoul | KindChoice | KindScore

  /** ParseKind: None is a kind this version does not model. */
  function ParseKind(typ: string): Option<Kind> {
    if typ == "noul" then Some(KindNoul)
    else if typ == "choice" then Some(KindChoice)
    else if typ == "score" then Some(KindScore)
    else None
  }

  /** A token count is absent (None) or a number. */
  datatype Usage = Usage(input: Option<nat>, output: Option<nat>)

  /** A legend level: text, the mark of a structured level whose bytes are still to be found, or those bytes. */
  datatype Content = Text(text: string) | Marked | Bytes(bytes: string)

  datatype Answer =
    | Noul(noul: real)
    | Choice(choice: string, confidence: real, labels: seq<(string, real)>)
    | Score(score: real, confidence: real, legend: seq<(nat, Content)>, levels: seq<(nat, real)>)

  datatype ModelCard = ModelCard(name: string, description: string, releaseDate: string)

  /** Why a body is refused. OutOfStack stands for an index out of range: a run-time panic. */
  datatype Reason =
    | RootNotObject | InvalidUTF8 | RawControlChar | TooDeep | ReadTooDeep | LazyMissed
    | Missing | NotString | NotNumber | NotObject | NotArray | NotCount | NotLevel | BadLegendValue
    | OutOfStack

  /** Where a body is refused: FieldPath. */
  datatype FieldPath = FieldPath(top: string, index: Option<nat>, name: Option<string>, member: string, key: Option<string>)

  datatype Failure = Failure(path: FieldPath, reason: Reason)

  /** answerPend, keyPend, topPend and cardPend. */
  function AnswerFailure(name: string, member: string, reason: Reason): Failure {
    Failure(FieldPath("answers", None, Some(name), member, None), reason)
  }

  function KeyFailure(name: string, member: string, key: string, reason: Reason): Failure {
    Failure(FieldPath("answers", None, Some(name), member, Some(key)), reason)
  }

  function TopFailure(top: string, member: string, reason: Reason): Failure {
    Failure(FieldPath(top, None, None, member, None), reason)
  }

  function CardFailure(index: nat, member: string, reason: Reason): Failure {
    Failure(FieldPath("models", Some(index), None, member, None), reason)
  }

  /** A failure of the JSON layer, at the root. */
  function RootFailure(reason: Reason): Failure {
    Failure(FieldPath("", None, None, "", None), reason)
  }

  /** The members of an answer. */
  datatype Field = FType | FNoul | FChoice | FConfidence | FScore | FProbs | FLegend

  function FieldName(f: Field): string {
    match f
    case FType => "type"
    case FNoul => "noul"
    case FChoice => "choice"
    case FConfidence => "confidence"
    case FScore => "score"
    case FProbs => "probabilities"
    case FLegend => "legend"
  }

  /** The members an answer of kind k needs besides its type, in schema order. */
  function Schema(k: Kind): seq<Field> {
    match k
    case KindNoul => [FNoul]
    case KindChoice => [FChoice, FConfidence, FProbs]
    case KindScore => [FScore, FConfidence, FLegend, FProbs]
  }

  /** wrongKindErr: what is said of a member f whose value it does not take. */
  function WrongKindReason(f: Field): Reason {
    match f
    case FType => NotString
    case FChoice => NotString
    case FProbs => NotObject
    case FLegend => NotObject
    case _ => NotNumber
  }

  /** The members of a model card, in schema order. */
  datatype CardField = CName | CDescription | CReleaseDate

  const CARD_SCHEMA: seq<CardField> := [CName, CDescription, CReleaseDate]

  function CardFieldName(f: CardField): string {
    match f
    case CName => "name"
    case CDescription => "description"
    case CReleaseDate => "release_date"
  }

  /** What one answer name holds: the failure its last occurrence reports, a type this version does not model, or an answer. */
  datatype Outcome = Failed(failure: Failure) | Unmodelled(typ: string) | Known(answer: Answer)

  datatype Entry = Entry(name: string, outcome: Outcome)

  /** A successful decode: the model, the usage and the answers of known kinds, in order. */
  datatype SystemOneResult = SystemOneResult(model: string, usage: Usage, answers: seq<(string, Answer)>)

  datatype Decoded<T> = Decoded(value: T) | Refused(failure: Failure)
}
