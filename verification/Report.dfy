/**
  The Report an Adapter writes and reads back (adapter/report.go), as JSON
  trees. The JSON library is a parameter: how a body's text parses to a tree,
  how a tree prints, and how a finite float is spelled.
*/
module Report {
  import opened Basics
  import opened JsonTree
  import opened Utf8Repair
  import Embeddable
  import Latency
  import PathText
  import Folds
  import opened Numerals

  /** The JSON library and the float arithmetic: rn rounds to the nearest binary64. */
  datatype Library = Library(parse: string -> Option<Tree>, spell: Tree -> string, floatText: real -> string,
                             floatOf: string -> Option<real>, rn: real -> real)

  /** The tree of a body that is written as JSON: embeddable says which (Embeddable.Embeddable). */
  function Embedded(lib: Library, body: string): Option<Tree> {
    match lib.parse(body)
    case None => None
    case Some(t) => if Embeddable.Fits(t, 0) then Some(t) else None
  }

  /** What is relied on: a body that is written as JSON prints back to the same tree, "null" is null, a printed float reads back to itself. */
  ghost predicate Faithful(lib: Library) {
    && (forall b :: Embedded(lib, b).Some? ==> Embedded(lib, lib.spell(Embedded(lib, b).value)) == Embedded(lib, b))
    && Embedded(lib, "null") == Some(Null)
    && (forall x :: Latency.IsFloat(x) ==> lib.floatOf(lib.floatText(x)) == Some(x))
    && (forall x :: Latency.Rounds(x, lib.rn(x)))
  }

  // ----- the report -----

  datatype Usage = Usage(input: Option<nat>, output: Option<nat>, inputTotal: Option<nat>, outputTotal: Option<nat>,
                         retries: int, malformed: int, latency: int)

  datatype Message = Message(role: string, content: string)

  datatype Info = Info(model: string, provider: string, api: string, responded: bool, finish: Option<string>,
                       error: string, errorType: string, responseEncoding: string, requestEncoding: string)

  /** A nil slice is None. */
  datatype Attempt = Attempt(messages: seq<Message>, schema: Option<string>, structured: bool, response: Option<string>,
                             info: Info, request: Option<string>)

  datatype Debug = Debug(maxError: real, invalidProbs: int, errors: seq<(string, real)>,
                         originals: seq<(string, seq<(string, real)>)>, attempts: seq<Attempt>,
                         reasons: seq<(string, string)>, sdkRetries: int)

  datatype Report = Report(usage: Usage, debug: Debug)

  // ----- numbers and text -----

  /** jsonx.String: what is not UTF-8 is written as U+FFFD. */
  function Text(s: string): Tree {
    Str(Repaired(s))
  }

  function Itoa(n: int): string {
    if n < 0 then "-" + PathText.Itoa(-n) else PathText.Itoa(n)
  }

  function Atoi(s: string): Option<int> {
    if s != "" && s[0] == '-' then
      if |s| > 1 && Folds.AllDigits(s[1..]) then Some(0 - Folds.Decimal(s[1..])) else None
    else if s != "" && Folds.AllDigits(s) then Some(Folds.Decimal(s))
    else None
  }

  lemma DigitsRead(s: string)
    requires s != "" && Folds.AllDigits(s)
    ensures Atoi(s) == Some(Folds.Decimal(s)) && Atoi("-" + s) == Some(0 - Folds.Decimal(s))
  {
    assert s[0] in s;
    assert ("-" + s)[1..] == s;
  }

  lemma IntRoundTrips(n: int)
    ensures Atoi(Itoa(n)) == Some(n)
  {
    var m: nat := if n < 0 then -n else n;
    DecimalOfItoa(m);
    DigitsRead(PathText.Itoa(m));
  }

  function CountTree(c: Option<nat>): Tree {
    match c
    case None => Null
    case Some(n) => Num(PathText.Itoa(n))
  }

  function IntTree(n: int): Tree {
    Num(Itoa(n))
  }

  function FloatTree(lib: Library, x: real): Tree {
    Num(lib.floatText(x))
  }

  /** The 64-bit int and uint64. */
  predicate IsInt(n: int) {
    -0x8000_0000_0000_0000 <= n < 0x8000_0000_0000_0000
  }

  predicate IsUint(n: int) {
    0 <= n < 0x1_0000_0000_0000_0000
  }

  /** count: an integer that fits, or null. */
  function CountOf(t: Tree): Option<Option<nat>> {
    match t
    case Null => Some(None)
    case Num(s) => if s != "" && Folds.AllDigits(s) && IsUint(Folds.Decimal(s)) then Some(Some(Folds.Decimal(s))) else None
    case _ => None
  }

  function IntOf(t: Tree): Option<int> {
    if !t.Num? then None
    else
      match Atoi(t.text)
      case None => None
      case Some(n) => if IsInt(n) then Some(n) else None
  }

  function FloatOf(lib: Library, t: Tree): Option<real> {
    if t.Num? then lib.floatOf(t.text) else None
  }

  function TextOf(t: Tree): Option<string> {
    if t.Str? then Some(t.text) else None
  }

  // ----- objects -----

  /** The members of an object, those that are present. */
  function Present(fs: seq<(string, Option<Tree>)>): seq<(string, Tree)> {
    if fs == [] then []
    else Present(fs[..|fs| - 1]) + match fs[|fs| - 1].1 case None => [] case Some(t) => [(fs[|fs| - 1].0, t)]
  }

  /** The member called name. */
  function Lookup(ms: seq<(string, Tree)>, name: string): Option<Tree> {
    if ms == [] then None
    else if ms[|ms| - 1].0 == name then Some(ms[|ms| - 1].1)
    else Lookup(ms[..|ms| - 1], name)
  }

  predicate Distinct(fs: seq<(string, Option<Tree>)>) {
    forall i, j :: 0 <= i < j < |fs| ==> fs[i].0 != fs[j].0
  }

  lemma LookupAppend(ms: seq<(string, Tree)>, m: (string, Tree), name: string)
    ensures Lookup(ms + [m], name) == if m.0 == name then Some(m.1) else Lookup(ms, name)
  {
    assert (ms + [m])[..|ms|] == ms;
  }

  /** The last field is found under its name when it is present; every other name is looked up before it. */
  lemma LookupPresent(fs: seq<(string, Option<Tree>)>, name: string)
    requires fs != []
    ensures var last := fs[|fs| - 1];
            Lookup(Present(fs), name) == if last.0 == name && last.1.Some? then last.1 else Lookup(Present(fs[..|fs| - 1]), name)
  {
    var init, last := Present(fs[..|fs| - 1]), fs[|fs| - 1];
    if last.1.Some? {
      LookupAppend(init, (last.0, last.1.value), name);
    } else {
      assert Present(fs) == init;
    }
  }

  lemma {:induction false} NotPresent(fs: seq<(string, Option<Tree>)>, name: string)
    requires forall i :: 0 <= i < |fs| ==> fs[i].0 != name
    ensures Lookup(Present(fs), name) == None
  {
    if fs != [] {
      NotPresent(fs[..|fs| - 1], name);
      LookupPresent(fs, name);
    }
  }

  /** A member is found exactly when it is written. */
  lemma {:induction false} FindsMember(fs: seq<(string, Option<Tree>)>, i: nat)
    requires Distinct(fs) && i < |fs|
    ensures Lookup(Present(fs), fs[i].0) == fs[i].1
  {
    var init := fs[..|fs| - 1];
    LookupPresent(fs, fs[i].0);
    if i < |init| {
      FindsMember(init, i);
    } else {
      NotPresent(init, fs[i].0);
    }
  }

  // ----- usage -----

  /** Usage.value, member by member. */
  function UsageFields(lib: Library, u: Usage): seq<(string, Option<Tree>)> {
    [("input_tokens", Some(CountTree(u.input))), ("output_tokens", Some(CountTree(u.output))),
     ("input_tokens_total", Some(CountTree(u.inputTotal))), ("output_tokens_total", Some(CountTree(u.outputTotal))),
     ("n_retries", Some(IntTree(u.retries))), ("n_retries_malformed_structure", Some(IntTree(u.malformed))),
     ("latency", Some(FloatTree(lib, Seconds(lib, u.latency))))]
  }

  /** float64(d) / 1e9 */
  function Seconds(lib: Library, d: int): real {
    lib.rn(lib.rn(d as real) / Latency.SECOND)
  }

  /** math.Round(s * 1e9), as a Duration. */
  function DurationOf(lib: Library, s: real): Option<int> {
    var ns := Latency.Round(lib.rn(s * Latency.SECOND));
    if IsInt(ns) then Some(ns) else None
  }

  function Bind<A, B>(a: Option<A>, f: A -> Option<B>): Option<B> {
    match a
    case None => None
    case Some(x) => f(x)
  }

  /** usage: latency may be absent. */
  function ReadUsage(lib: Library, t: Tree): Option<Usage> {
    if !t.Obj? then None
    else
      var ms := t.members;
      var i := Bind(Lookup(ms, "input_tokens"), CountOf);
      var o := Bind(Lookup(ms, "output_tokens"), CountOf);
      var it := Bind(Lookup(ms, "input_tokens_total"), CountOf);
      var ot := Bind(Lookup(ms, "output_tokens_total"), CountOf);
      var r := Bind(Lookup(ms, "n_retries"), IntOf);
      var m := Bind(Lookup(ms, "n_retries_malformed_structure"), IntOf);
      var l := match Lookup(ms, "latency")
               case None => Some(0)
               case Some(v) => (match FloatOf(lib, v) case None => None case Some(s) => DurationOf(lib, s));
      if i.Some? && o.Some? && it.Some? && ot.Some? && r.Some? && m.Some? && l.Some?
      then Some(Usage(i.value, o.value, it.value, ot.value, r.value, m.value, l.value))
      else None
  }

  lemma LatencyReads(lib: Library, d: int)
    requires Faithful(lib) && -Latency.LIMIT < d < Latency.LIMIT
    ensures DurationOf(lib, Seconds(lib, d)) == Some(d)
  {
    var f := lib.rn(d as real);
    var s := lib.rn(f / Latency.SECOND);
    Latency.LatencyRoundTrips(d, f, s, lib.rn(s * Latency.SECOND));
  }

  predicate CountFits(c: Option<nat>) {
    c.Some? ==> IsUint(c.value)
  }

  /** What the fields' types hold. */
  predicate UsageFits(u: Usage) {
    && CountFits(u.input) && CountFits(u.output) && CountFits(u.inputTotal) && CountFits(u.outputTotal)
    && IsInt(u.retries) && IsInt(u.malformed)
  }

  lemma CountReads(c: Option<nat>)
    requires CountFits(c)
    ensures CountOf(CountTree(c)) == Some(c)
  {
    if c.Some? {
      DecimalOfItoa(c.value);
    }
  }

  lemma UsageFind(lib: Library, u: Usage)
    ensures var ms := Present(UsageFields(lib, u));
            && Lookup(ms, "input_tokens") == Some(CountTree(u.input))
            && Lookup(ms, "output_tokens") == Some(CountTree(u.output))
            && Lookup(ms, "input_tokens_total") == Some(CountTree(u.inputTotal))
            && Lookup(ms, "output_tokens_total") == Some(CountTree(u.outputTotal))
            && Lookup(ms, "n_retries") == Some(IntTree(u.retries))
            && Lookup(ms, "n_retries_malformed_structure") == Some(IntTree(u.malformed))
            && Lookup(ms, "latency") == Some(FloatTree(lib, Seconds(lib, u.latency)))
  {
    var fs := UsageFields(lib, u);
    assert Distinct(fs);
    FindsMember(fs, 0);
    FindsMember(fs, 1);
    FindsMember(fs, 2);
    FindsMember(fs, 3);
    FindsMember(fs, 4);
    FindsMember(fs, 5);
    FindsMember(fs, 6);
  }

  /** A usage of less than 2^22 seconds reads back to itself. */
  lemma UsageReads(lib: Library, u: Usage)
    requires Faithful(lib) && UsageFits(u) && -Latency.LIMIT < u.latency < Latency.LIMIT
    ensures ReadUsage(lib, Obj(Present(UsageFields(lib, u)))) == Some(u)
  {
    UsageFind(lib, u);
    CountReads(u.input);
    CountReads(u.output);
    CountReads(u.inputTotal);
    CountReads(u.outputTotal);
    IntRoundTrips(u.retries);
    IntRoundTrips(u.malformed);
    LatencyReads(lib, u.latency);
  }

  // ----- text -----

  lemma RepairTwice(s: string)
    ensures Repaired(Repaired(s)) == Repaired(s)
    ensures Repaired(s) == "" <==> s == ""
  {
    RepairedValid(s);
    ValidKept(Repaired(s));
    if s != "" {
      FirstPartRepaired(s);
      assert FirstPart(s).target != "";
    }
  }

  /** A list whose elements all read. */
  function ReadAll<T>(ts: seq<Tree>, read: Tree -> Option<T>): Option<seq<T>> {
    if ts == [] then Some([])
    else
      var init := ReadAll(ts[..|ts| - 1], read);
      var last := read(ts[|ts| - 1]);
      if init.Some? && last.Some? then Some(init.value + [last.value]) else None
  }

  lemma {:induction false} ReadsAll<T>(ts: seq<Tree>, read: Tree -> Option<T>, xs: seq<T>)
    requires |ts| == |xs| && forall i :: 0 <= i < |ts| ==> read(ts[i]) == Some(xs[i])
    ensures ReadAll(ts, read) == Some(xs)
    decreases |ts|
  {
    if ts != [] {
      var n := |ts| - 1;
      ReadsAll(ts[..n], read, xs[..n]);
      assert xs == xs[..n] + [xs[n]];
    }
  }

  // ----- messages -----

  function MessageFields(m: Message): seq<(string, Option<Tree>)> {
    [("role", Some(Text(m.role))), ("content", Some(Text(m.content)))]
  }

  function MessageTree(m: Message): Tree {
    Obj(Present(MessageFields(m)))
  }

  function ReadMessage(t: Tree): Option<Message> {
    if !t.Obj? then None
    else
      var role, content := Bind(Lookup(t.members, "role"), TextOf), Bind(Lookup(t.members, "content"), TextOf);
      if role.Some? && content.Some? then Some(Message(role.value, content.value)) else None
  }

  function RepairMessage(m: Message): Message {
    Message(Repaired(m.role), Repaired(m.content))
  }

  lemma MessageReads(m: Message)
    ensures ReadMessage(MessageTree(m)) == Some(RepairMessage(m))
    ensures MessageTree(RepairMessage(m)) == MessageTree(m)
  {
    FindsMember(MessageFields(m), 0);
    FindsMember(MessageFields(m), 1);
    RepairTwice(m.role);
    RepairTwice(m.content);
  }

  // ----- bodies -----

  /** bodyValue: how a body is written, and whether that is its text; None is an encoding that is refused. */
  function BodyTree(lib: Library, body: Option<string>, encoding: string): Option<(Tree, bool)> {
    if encoding != "" && encoding != "text" then None
    else if body.None? then Some((Null, false))
    else if encoding == "" && Embedded(lib, body.value).Some? then Some((Embedded(lib, body.value).value, false))
    else Some((Text(body.value), true))
  }

  /** body and rawBytes: the encoding says whether a string is the body itself or one more JSON value to spell; null is no body. */
  function ReadBody(lib: Library, t: Tree, encoding: string): Option<Option<string>> {
    if encoding == "text" then (match TextOf(t) case None => None case Some(s) => Some(Some(s)))
    else if t.Null? then Some(None)
    else Some(Some(lib.spell(t)))
  }

  /** The body a written one reads back to, and the encoding it is written with then. */
  function BodyBack(lib: Library, t: Tree, text: bool): Option<string> {
    if text then (if t.Str? then Some(t.text) else None) else if t.Null? then None else Some(lib.spell(t))
  }

  function Encoding(text: bool): string {
    if text then "text" else ""
  }

  /** A written body reads back, and is written as it was: as null, as its JSON, or as its text. */
  lemma BodyStable(lib: Library, body: Option<string>, encoding: string)
    requires Faithful(lib) && BodyTree(lib, body, encoding).Some?
    ensures var (t, text) := BodyTree(lib, body, encoding).value;
            && ReadBody(lib, t, Encoding(text)) == Some(BodyBack(lib, t, text))
            && BodyTree(lib, BodyBack(lib, t, text), Encoding(text)) == Some((t, text))
            && (text ==> body.Some?)
  {
    if body.Some? {
      RepairTwice(body.value);
    }
  }

  /** A recorded request: one that is written as null is the body "null". */
  function RequestBack(lib: Library, t: Tree, text: bool): string {
    match BodyBack(lib, t, text)
    case None => "null"
    case Some(b) => b
  }

  lemma RequestStable(lib: Library, body: string, encoding: string)
    requires Faithful(lib) && BodyTree(lib, Some(body), encoding).Some?
    ensures var (t, text) := BodyTree(lib, Some(body), encoding).value;
            BodyTree(lib, Some(RequestBack(lib, t, text)), Encoding(text)) == Some((t, text))
  {
    BodyStable(lib, Some(body), encoding);
  }

  // ----- debug_info -----

  function FinishTree(finish: Option<string>): Tree {
    match finish
    case None => Null
    case Some(s) => Text(s)
  }

  function When(b: bool, t: Tree): Option<Tree> {
    if b then Some(t) else None
  }

  /** The members of debug_info; the two encodings come last. */
  function InfoFields(i: Info, responseText: bool, requestText: bool): seq<(string, Option<Tree>)> {
    [("model_name", Some(Text(i.model))), ("provider", Some(Text(i.provider))), ("api", When(i.api != "", Text(i.api))),
     ("finish_reason", When(i.responded, FinishTree(i.finish))),
     ("error", When(i.error != "" || i.errorType != "", Text(i.error))),
     ("error_type", When(i.error != "" || i.errorType != "", Text(i.errorType))),
     ("llm_response_encoding", When(responseText, Str("text"))), ("request_encoding", When(requestText, Str("text")))]
  }

  /** An optional string, "" when absent; None when it is no string. */
  function OptionalText(t: Option<Tree>): Option<string> {
    match t
    case None => Some("")
    case Some(v) => TextOf(v)
  }

  /** finish_reason: whether it is there, and its text, None for null. */
  function ReadFinish(t: Option<Tree>): Option<(bool, Option<string>)> {
    match t
    case None => Some((false, None))
    case Some(Null) => Some((true, None))
    case Some(Str(s)) => Some((true, Some(s)))
    case Some(_) => None
  }

  /** encoding: "text" or absent. */
  function ReadEncoding(t: Option<Tree>): Option<string> {
    match t
    case None => Some("")
    case Some(v) => if v == Str("text") then Some("text") else None
  }

  function ReadInfo(t: Tree): Option<Info> {
    if !t.Obj? then None
    else
      var ms := t.members;
      var model, provider := Bind(Lookup(ms, "model_name"), TextOf), Bind(Lookup(ms, "provider"), TextOf);
      var api, finish := OptionalText(Lookup(ms, "api")), ReadFinish(Lookup(ms, "finish_reason"));
      var error, errorType := OptionalText(Lookup(ms, "error")), OptionalText(Lookup(ms, "error_type"));
      var response, request := ReadEncoding(Lookup(ms, "llm_response_encoding")), ReadEncoding(Lookup(ms, "request_encoding"));
      if model.Some? && provider.Some? && api.Some? && finish.Some? && error.Some? && errorType.Some? && response.Some? && request.Some?
      then Some(Info(model.value, provider.value, api.value, finish.value.0, finish.value.1, error.value, errorType.value, response.value, request.value))
      else None
  }

  function RepairFinish(i: Info): Option<string> {
    if !i.responded then None else match i.finish case None => None case Some(s) => Some(Repaired(s))
  }

  /** What an Info reads back to. */
  function InfoBack(i: Info, responseText: bool, requestText: bool): Info {
    Info(Repaired(i.model), Repaired(i.provider), Repaired(i.api), i.responded, RepairFinish(i), Repaired(i.error), Repaired(i.errorType),
         Encoding(responseText), Encoding(requestText))
  }

  lemma InfoDistinct(i: Info, responseText: bool, requestText: bool)
    ensures Distinct(InfoFields(i, responseText, requestText))
  {
  }

  lemma InfoFind(i: Info, responseText: bool, requestText: bool)
    ensures var ms := Present(InfoFields(i, responseText, requestText));
            && Lookup(ms, "model_name") == Some(Text(i.model)) && Lookup(ms, "provider") == Some(Text(i.provider))
            && Lookup(ms, "api") == When(i.api != "", Text(i.api))
            && Lookup(ms, "finish_reason") == When(i.responded, FinishTree(i.finish))
            && Lookup(ms, "error") == When(i.error != "" || i.errorType != "", Text(i.error))
            && Lookup(ms, "error_type") == When(i.error != "" || i.errorType != "", Text(i.errorType))
            && Lookup(ms, "llm_response_encoding") == When(responseText, Str("text"))
            && Lookup(ms, "request_encoding") == When(requestText, Str("text"))
  {
    var fs := InfoFields(i, responseText, requestText);
    InfoDistinct(i, responseText, requestText);
    FindsMember(fs, 0);
    FindsMember(fs, 1);
    FindsMember(fs, 2);
    FindsMember(fs, 3);
    FindsMember(fs, 4);
    FindsMember(fs, 5);
    FindsMember(fs, 6);
    FindsMember(fs, 7);
  }

  lemma InfoReads(i: Info, responseText: bool, requestText: bool)
    ensures ReadInfo(Obj(Present(InfoFields(i, responseText, requestText)))) == Some(InfoBack(i, responseText, requestText))
  {
    InfoFind(i, responseText, requestText);
    RepairTwice(i.api);
    RepairTwice(i.error);
    RepairTwice(i.errorType);
    InfoParts(i, Present(InfoFields(i, responseText, requestText)), responseText, requestText);
  }

  /** The parts of a debug_info, read from any object that holds them. */
  lemma InfoParts(i: Info, ms: seq<(string, Tree)>, responseText: bool, requestText: bool)
    requires Lookup(ms, "model_name") == Some(Text(i.model)) && Lookup(ms, "provider") == Some(Text(i.provider))
    requires Lookup(ms, "finish_reason") == When(i.responded, FinishTree(i.finish))
    requires OptionalText(Lookup(ms, "api")) == Some(Repaired(i.api))
    requires OptionalText(Lookup(ms, "error")) == Some(Repaired(i.error))
    requires OptionalText(Lookup(ms, "error_type")) == Some(Repaired(i.errorType))
    requires ReadEncoding(Lookup(ms, "llm_response_encoding")) == Some(Encoding(responseText))
    requires ReadEncoding(Lookup(ms, "request_encoding")) == Some(Encoding(requestText))
    ensures ReadInfo(Obj(ms)) == Some(InfoBack(i, responseText, requestText))
  {
  }

  /** An Info that was read is written as it was. */
  lemma InfoStable(i: Info, responseText: bool, requestText: bool)
    ensures InfoFields(InfoBack(i, responseText, requestText), responseText, requestText) == InfoFields(i, responseText, requestText)
  {
    RepairTwice(i.model);
    RepairTwice(i.provider);
    RepairTwice(i.api);
    RepairTwice(i.error);
    RepairTwice(i.errorType);
    if i.finish.Some? {
      RepairTwice(i.finish.value);
    }
  }

  // ----- attempts -----

  function MessageTrees(ms: seq<Message>): seq<Tree> {
    seq(|ms|, i requires 0 <= i < |ms| => MessageTree(ms[i]))
  }

  function RepairMessages(ms: seq<Message>): seq<Message> {
    seq(|ms|, i requires 0 <= i < |ms| => RepairMessage(ms[i]))
  }

  lemma MessagesRead(ms: seq<Message>)
    ensures ReadAll(MessageTrees(ms), ReadMessage) == Some(RepairMessages(ms))
    ensures MessageTrees(RepairMessages(ms)) == MessageTrees(ms)
  {
    forall i | 0 <= i < |ms|
      ensures ReadMessage(MessageTrees(ms)[i]) == Some(RepairMessages(ms)[i])
      ensures MessageTrees(RepairMessages(ms))[i] == MessageTrees(ms)[i]
    {
      MessageReads(ms[i]);
    }
    ReadsAll(MessageTrees(ms), ReadMessage, RepairMessages(ms));
  }

  /** A schema is nothing or one JSON value. */
  function SchemaTree(lib: Library, schema: Option<string>): Option<Tree> {
    match schema
    case None => Some(Null)
    case Some(b) => Embedded(lib, b)
  }

  function ParamsFields(schema: Tree, structured: bool): seq<(string, Option<Tree>)> {
    [("schema", Some(schema)), ("structured", Some(Bool(structured)))]
  }

  /** Attempt.value, of the parts written so far. */
  function AttemptFields(a: Attempt, schema: Tree, response: (Tree, bool), request: (Tree, bool)): seq<(string, Option<Tree>)> {
    [("messages", Some(Arr(MessageTrees(a.messages)))),
     ("model_request_parameters", Some(Obj(Present(ParamsFields(schema, a.structured))))),
     ("llm_response", Some(response.0)),
     ("debug_info", Some(Obj(Present(InfoFields(a.info, response.1, request.1))))),
     ("request", When(a.request.Some?, request.0))]
  }

  /** Attempt.value: None when the schema is no JSON value, or an encoding is refused. */
  function AttemptTree(lib: Library, a: Attempt): Option<Tree> {
    var schema := SchemaTree(lib, a.schema);
    var response, request := BodyTree(lib, a.response, a.info.responseEncoding), BodyTree(lib, a.request, a.info.requestEncoding);
    if schema.Some? && response.Some? && request.Some?
    then Some(Obj(Present(AttemptFields(a, schema.value, response.value, request.value))))
    else None
  }

  /** A member that may have any kind, as compact JSON; nothing for null. */
  function RawOf(lib: Library, t: Tree): Option<string> {
    if t.Null? then None else Some(lib.spell(t))
  }

  function ReadParams(lib: Library, t: Tree): Option<(Option<string>, bool)> {
    if !t.Obj? then None
    else
      match (Lookup(t.members, "schema"), Lookup(t.members, "structured"))
      case (Some(schema), Some(Bool(b))) => Some((RawOf(lib, schema), b))
      case _ => None
  }

  function ReadMessages(t: Tree): Option<seq<Message>> {
    if t.Arr? then ReadAll(t.elems, ReadMessage) else None
  }

  /** The request member: absent, or a body, "null" when it is null. */
  function ReadRequest(lib: Library, t: Option<Tree>, encoding: string): Option<Option<string>> {
    match t
    case None => Some(None)
    case Some(v) =>
      match ReadBody(lib, v, encoding)
      case None => None
      case Some(None) => Some(Some("null"))
      case Some(Some(b)) => Some(Some(b))
  }

  function ReadAttempt(lib: Library, t: Tree): Option<Attempt> {
    if !t.Obj? then None
    else
      var ms := t.members;
      var messages, info := Bind(Lookup(ms, "messages"), ReadMessages), Bind(Lookup(ms, "debug_info"), ReadInfo);
      var params := match Lookup(ms, "model_request_parameters") case None => None case Some(p) => ReadParams(lib, p);
      if messages.None? || info.None? || params.None? || Lookup(ms, "llm_response").None? then None
      else
        var response := ReadBody(lib, Lookup(ms, "llm_response").value, info.value.responseEncoding);
        var request := ReadRequest(lib, Lookup(ms, "request"), info.value.requestEncoding);
        if response.Some? && request.Some?
        then Some(Attempt(messages.value, params.value.0, params.value.1, response.value, info.value, request.value))
        else None
  }

  /** What an attempt reads back to. */
  function AttemptBack(lib: Library, a: Attempt, schema: Tree, response: (Tree, bool), request: (Tree, bool)): Attempt {
    Attempt(RepairMessages(a.messages), RawOf(lib, schema), a.structured, BodyBack(lib, response.0, response.1),
            InfoBack(a.info, response.1, request.1),
            if a.request.None? then None else Some(RequestBack(lib, request.0, request.1)))
  }

  lemma AttemptFind(a: Attempt, schema: Tree, response: (Tree, bool), request: (Tree, bool))
    ensures var ms := Present(AttemptFields(a, schema, response, request));
            && Lookup(ms, "messages") == Some(Arr(MessageTrees(a.messages)))
            && Lookup(ms, "model_request_parameters") == Some(Obj(Present(ParamsFields(schema, a.structured))))
            && Lookup(ms, "llm_response") == Some(response.0)
            && Lookup(ms, "debug_info") == Some(Obj(Present(InfoFields(a.info, response.1, request.1))))
            && Lookup(ms, "request") == When(a.request.Some?, request.0)
  {
    var fs := AttemptFields(a, schema, response, request);
    assert Distinct(fs);
    FindsMember(fs, 0);
    FindsMember(fs, 1);
    FindsMember(fs, 2);
    FindsMember(fs, 3);
    FindsMember(fs, 4);
  }

  lemma ParamsRead(lib: Library, schema: Tree, structured: bool)
    ensures ReadParams(lib, Obj(Present(ParamsFields(schema, structured)))) == Some((RawOf(lib, schema), structured))
  {
    FindsMember(ParamsFields(schema, structured), 0);
    FindsMember(ParamsFields(schema, structured), 1);
  }

  lemma SchemaStable(lib: Library, schema: Option<string>)
    requires Faithful(lib) && SchemaTree(lib, schema).Some?
    ensures SchemaTree(lib, RawOf(lib, SchemaTree(lib, schema).value)) == SchemaTree(lib, schema)
  {
  }

  /** The response and the request read back, whatever their encodings say. */
  lemma BodiesRead(lib: Library, a: Attempt, response: (Tree, bool), request: (Tree, bool))
    requires Faithful(lib)
    requires BodyTree(lib, a.response, a.info.responseEncoding) == Some(response)
    requires BodyTree(lib, a.request, a.info.requestEncoding) == Some(request)
    ensures ReadBody(lib, response.0, Encoding(response.1)) == Some(BodyBack(lib, response.0, response.1))
    ensures ReadRequest(lib, When(a.request.Some?, request.0), Encoding(request.1))
         == Some(if a.request.None? then None else Some(RequestBack(lib, request.0, request.1)))
  {
    BodyStable(lib, a.response, a.info.responseEncoding);
    BodyStable(lib, a.request, a.info.requestEncoding);
  }

  lemma AttemptReads(lib: Library, a: Attempt, schema: Tree, response: (Tree, bool), request: (Tree, bool))
    requires Faithful(lib) && SchemaTree(lib, a.schema) == Some(schema)
    requires BodyTree(lib, a.response, a.info.responseEncoding) == Some(response)
    requires BodyTree(lib, a.request, a.info.requestEncoding) == Some(request)
    ensures ReadAttempt(lib, Obj(Present(AttemptFields(a, schema, response, request)))) == Some(AttemptBack(lib, a, schema, response, request))
  {
    AttemptFind(a, schema, response, request);
    MessagesRead(a.messages);
    ParamsRead(lib, schema, a.structured);
    InfoReads(a.info, response.1, request.1);
    BodiesRead(lib, a, response, request);
    AttemptParts(lib, a, Present(AttemptFields(a, schema, response, request)), schema, response, request);
  }

  /** The parts of an attempt, read from any object that holds them. */
  lemma AttemptParts(lib: Library, a: Attempt, ms: seq<(string, Tree)>, schema: Tree, response: (Tree, bool), request: (Tree, bool))
    requires Bind(Lookup(ms, "messages"), ReadMessages) == Some(RepairMessages(a.messages))
    requires Bind(Lookup(ms, "debug_info"), ReadInfo) == Some(InfoBack(a.info, response.1, request.1))
    requires Lookup(ms, "model_request_parameters").Some?
    requires ReadParams(lib, Lookup(ms, "model_request_parameters").value) == Some((RawOf(lib, schema), a.structured))
    requires Lookup(ms, "llm_response") == Some(response.0)
    requires ReadBody(lib, response.0, Encoding(response.1)) == Some(BodyBack(lib, response.0, response.1))
    requires ReadRequest(lib, Lookup(ms, "request"), Encoding(request.1))
          == Some(if a.request.None? then None else Some(RequestBack(lib, request.0, request.1)))
    ensures ReadAttempt(lib, Obj(ms)) == Some(AttemptBack(lib, a, schema, response, request))
  {
  }

  lemma FieldsStable(lib: Library, a: Attempt, schema: Tree, response: (Tree, bool), request: (Tree, bool))
    ensures AttemptFields(AttemptBack(lib, a, schema, response, request), schema, response, request) == AttemptFields(a, schema, response, request)
  {
    MessagesRead(a.messages);
    InfoStable(a.info, response.1, request.1);
  }

  lemma AttemptTreeIs(lib: Library, a: Attempt, schema: Tree, response: (Tree, bool), request: (Tree, bool))
    requires SchemaTree(lib, a.schema) == Some(schema)
    requires BodyTree(lib, a.response, a.info.responseEncoding) == Some(response)
    requires BodyTree(lib, a.request, a.info.requestEncoding) == Some(request)
    ensures AttemptTree(lib, a) == Some(Obj(Present(AttemptFields(a, schema, response, request))))
  {
  }

  lemma AttemptStable(lib: Library, a: Attempt, schema: Tree, response: (Tree, bool), request: (Tree, bool))
    requires Faithful(lib) && SchemaTree(lib, a.schema) == Some(schema)
    requires BodyTree(lib, a.response, a.info.responseEncoding) == Some(response)
    requires BodyTree(lib, a.request, a.info.requestEncoding) == Some(request)
    ensures AttemptTree(lib, AttemptBack(lib, a, schema, response, request)) == AttemptTree(lib, a)
  {
    var b := AttemptBack(lib, a, schema, response, request);
    SchemaStable(lib, a.schema);
    BodyStable(lib, a.response, a.info.responseEncoding);
    if a.request.Some? {
      RequestStable(lib, a.request.value, a.info.requestEncoding);
    }
    FieldsStable(lib, a, schema, response, request);
    AttemptTreeIs(lib, a, schema, response, request);
    AttemptTreeIs(lib, b, schema, response, request);
  }
}
