/** What a written Report holds and what it reads back to (adapter/report.go). */
module ReportWritten {
  import opened Basics
  import opened JsonTree
  import opened Utf8Repair
  import opened Report
  import opened ReportRoundTrip
  import Embeddable
  import Latency
  import PathText

  /** A body that is one JSON value within the limits. */
  predicate Embeds(lib: Library, body: string) {
    lib.parse(body).Some? && Embeddable.Fits(lib.parse(body).value, 0)
  }

  /** member holds the body and mark is the encoding beside it: JSON where the stored encoding leaves the choice and the body allows it. */
  predicate Written(lib: Library, body: Option<string>, encoding: string, member: Tree, mark: Option<Tree>) {
    if body.None? then member == Null && mark.None?
    else if encoding == "" && Embeds(lib, body.value) then Some(member) == lib.parse(body.value) && mark.None?
    else member == Str(Repaired(body.value)) && mark == Some(Str("text"))
  }

  /** An attempt is written exactly when its encodings are known ones and its schema, if any, is one JSON value. */
  predicate Writes(lib: Library, a: Attempt) {
    && a.info.responseEncoding in {"", "text"} && a.info.requestEncoding in {"", "text"}
    && (a.schema.Some? ==> Embeds(lib, a.schema.value))
  }

  /** The members of a written attempt, by name. */
  predicate BodiesIn(lib: Library, a: Attempt, ms: seq<(string, Tree)>, info: seq<(string, Tree)>) {
    && Lookup(ms, "debug_info") == Some(Obj(info))
    && Lookup(ms, "llm_response").Some?
    && Written(lib, a.response, a.info.responseEncoding, Lookup(ms, "llm_response").value, Lookup(info, "llm_response_encoding"))
    && (Lookup(ms, "request").Some? <==> a.request.Some?)
    && Written(lib, a.request, a.info.requestEncoding, if a.request.Some? then Lookup(ms, "request").value else Null,
               Lookup(info, "request_encoding"))
    && (Lookup(ms, "llm_response") == Some(Null) <==>
          a.response.None? || (a.info.responseEncoding == "" && lib.parse(a.response.value) == Some(Null)))
  }

  lemma WrittenIs(lib: Library, body: Option<string>, encoding: string)
    ensures BodyTree(lib, body, encoding).Some? <==> encoding in {"", "text"}
    ensures var w := BodyTree(lib, body, encoding); w.Some? ==> Written(lib, body, encoding, w.value.0, When(w.value.1, Str("text")))
  {
  }

  lemma AttemptWrites(lib: Library, a: Attempt)
    ensures AttemptTree(lib, a).Some? <==> Writes(lib, a)
  {
    WrittenIs(lib, a.response, a.info.responseEncoding);
    WrittenIs(lib, a.request, a.info.requestEncoding);
  }

  lemma BodiesAre(lib: Library, a: Attempt, schema: Tree, response: (Tree, bool), request: (Tree, bool))
    requires BodyTree(lib, a.response, a.info.responseEncoding) == Some(response)
    requires BodyTree(lib, a.request, a.info.requestEncoding) == Some(request)
    ensures BodiesIn(lib, a, Present(AttemptFields(a, schema, response, request)), Present(InfoFields(a.info, response.1, request.1)))
  {
    WrittenIs(lib, a.response, a.info.responseEncoding);
    WrittenIs(lib, a.request, a.info.requestEncoding);
    AttemptFind(a, schema, response, request);
    InfoFind(a.info, response.1, request.1);
  }

  /** Every attempt that can be written holds its bodies so. */
  lemma AttemptBodies(lib: Library, a: Attempt) returns (info: seq<(string, Tree)>)
    ensures AttemptTree(lib, a).Some? <==> Writes(lib, a)
    ensures AttemptTree(lib, a).Some? ==> AttemptTree(lib, a).value.Obj? && BodiesIn(lib, a, AttemptTree(lib, a).value.members, info)
  {
    AttemptWrites(lib, a);
    info := [];
    if AttemptTree(lib, a).Some? {
      var schema := SchemaTree(lib, a.schema).value;
      var response := BodyTree(lib, a.response, a.info.responseEncoding).value;
      var request := BodyTree(lib, a.request, a.info.requestEncoding).value;
      BodiesAre(lib, a, schema, response, request);
      AttemptTreeIs(lib, a, schema, response, request);
      info := Present(InfoFields(a.info, response.1, request.1));
    }
  }

  // ----- reading it back -----

  /** back is what a body reads back to: the tree it was written as decides, and null is absent. */
  predicate BodyReadsTo(lib: Library, body: Option<string>, encoding: string, absent: Option<string>, back: Option<string>) {
    if body.None? then back.None?
    else if encoding == "" && lib.parse(body.value) == Some(Null) then back == absent
    else if encoding == "" && Embeds(lib, body.value) then back.Some? && lib.parse(back.value) == lib.parse(body.value)
    else back == Some(Repaired(body.value))
  }

  /** The encoding a body reads back with. */
  function EncodingBack(lib: Library, body: Option<string>, encoding: string): string {
    if body.None? || (encoding == "" && Embeds(lib, body.value)) then "" else "text"
  }

  /** What an attempt reads back to, field by field. */
  predicate ReadsTo(lib: Library, a: Attempt, b: Attempt) {
    && |b.messages| == |a.messages|
    && (forall i :: 0 <= i < |a.messages| ==>
          b.messages[i].role == Repaired(a.messages[i].role) && b.messages[i].content == Repaired(a.messages[i].content))
    && BodyReadsTo(lib, a.schema, "", None, b.schema)
    && b.structured == a.structured
    && BodyReadsTo(lib, a.response, a.info.responseEncoding, None, b.response)
    && BodyReadsTo(lib, a.request, a.info.requestEncoding, Some("null"), b.request)
    && b.info.model == Repaired(a.info.model) && b.info.provider == Repaired(a.info.provider) && b.info.api == Repaired(a.info.api)
    && b.info.error == Repaired(a.info.error) && b.info.errorType == Repaired(a.info.errorType)
    && b.info.responded == a.info.responded
    && b.info.finish == (if a.info.responded && a.info.finish.Some? then Some(Repaired(a.info.finish.value)) else None)
    && b.info.responseEncoding == EncodingBack(lib, a.response, a.info.responseEncoding)
    && b.info.requestEncoding == EncodingBack(lib, a.request, a.info.requestEncoding)
  }

  lemma BodyBackIs(lib: Library, body: Option<string>, encoding: string)
    requires Faithful(lib) && BodyTree(lib, body, encoding).Some?
    ensures var (t, text) := BodyTree(lib, body, encoding).value;
            && BodyReadsTo(lib, body, encoding, None, BodyBack(lib, t, text))
            && (body.Some? ==> BodyReadsTo(lib, body, encoding, Some("null"), Some(RequestBack(lib, t, text))))
            && Encoding(text) == EncodingBack(lib, body, encoding)
  {
    var w := BodyTree(lib, body, encoding).value;
    if body.Some? && !w.1 {
      assert Embedded(lib, lib.spell(w.0)) == Some(w.0);
    }
  }

  lemma SchemaBackIs(lib: Library, schema: Option<string>)
    requires Faithful(lib) && SchemaTree(lib, schema).Some?
    ensures BodyReadsTo(lib, schema, "", None, RawOf(lib, SchemaTree(lib, schema).value))
  {
    if schema.Some? {
      assert Embedded(lib, lib.spell(SchemaTree(lib, schema).value)) == SchemaTree(lib, schema);
    }
  }

  /** Reading a written attempt gives its text repaired, its JSON bodies as bodies that parse to the same trees, and the rest as it was. */
  lemma AttemptReadsBack(lib: Library, a: Attempt) returns (b: Attempt)
    requires Faithful(lib) && AttemptTree(lib, a).Some?
    ensures ReadAttempt(lib, AttemptTree(lib, a).value) == Some(b) && ReadsTo(lib, a, b)
    ensures AttemptTree(lib, b) == AttemptTree(lib, a)
  {
    AttemptRoundTrips(lib, a);
    b := Reread(lib, a);
    SchemaBackIs(lib, a.schema);
    BodyBackIs(lib, a.response, a.info.responseEncoding);
    BodyBackIs(lib, a.request, a.info.requestEncoding);
  }

  // ----- the whole Report -----

  predicate FloatsReadTo(fs: seq<(string, real)>, gs: seq<(string, real)>) {
    |gs| == |fs| && forall i :: 0 <= i < |fs| ==> gs[i].0 == Repaired(fs[i].0) && gs[i].1 == fs[i].1
  }

  predicate DebugReadsTo(lib: Library, d: Debug, e: Debug) {
    && e.maxError == d.maxError && e.invalidProbs == d.invalidProbs && e.sdkRetries == d.sdkRetries
    && FloatsReadTo(d.errors, e.errors)
    && |e.originals| == |d.originals|
    && (forall i :: 0 <= i < |d.originals| ==> e.originals[i].0 == Repaired(d.originals[i].0) && FloatsReadTo(d.originals[i].1, e.originals[i].1))
    && |e.attempts| == |d.attempts|
    && (forall i :: 0 <= i < |d.attempts| ==> ReadsTo(lib, d.attempts[i], e.attempts[i]))
    && |e.reasons| == |d.reasons|
    && (forall i :: 0 <= i < |d.reasons| ==> e.reasons[i] == (Repaired(d.reasons[i].0), Repaired(d.reasons[i].1)))
  }

  lemma DebugBackIs(lib: Library, d: Debug)
    requires Faithful(lib) && DebugTree(lib, d).Some?
    ensures DebugReadsTo(lib, d, DebugBack(lib, d))
  {
    forall i | 0 <= i < |d.attempts|
      ensures ReadsTo(lib, d.attempts[i], DebugBack(lib, d).attempts[i])
    {
      var b := AttemptReadsBack(lib, d.attempts[i]);
      AttemptRoundTrips(lib, d.attempts[i]);
    }
  }

  /**
    A Report that is written reads back to the same usage and numbers and to
    its text repaired, and is written as it was.
  */
  lemma ReportReadsBack(lib: Library, r: Report) returns (back: Report)
    requires Faithful(lib) && UsageFits(r.usage) && DebugFits(r.debug) && Write(lib, r).Some?
    requires -Latency.LIMIT < r.usage.latency < Latency.LIMIT
    ensures Read(lib, Write(lib, r).value) == Some(back) && Write(lib, back) == Write(lib, r)
    ensures back.usage == r.usage && DebugReadsTo(lib, r.debug, back.debug)
  {
    back := ReportRoundTrips(lib, r);
    DebugBackIs(lib, r.debug);
  }

  // ----- which Reports are written -----

  /** No two names are one once they are UTF-8. */
  predicate Apart<T>(fs: seq<(string, T)>) {
    forall i, j :: 0 <= i < j < |fs| ==> Repaired(fs[i].0) != Repaired(fs[j].0)
  }

  lemma FloatsWritten(lib: Library, fs: seq<(string, real)>)
    ensures FloatsTree(lib, fs).Some? <==> Apart(fs)
  {
    var ms := FloatMembers(lib, fs);
    assert |ms| == |fs| && forall i :: 0 <= i < |fs| ==> ms[i].0 == Repaired(fs[i].0);
  }

  lemma DistsWritten(lib: Library, qs: seq<(string, seq<(string, real)>)>)
    ensures DistsTree(lib, qs).Some? <==> Apart(qs) && forall i :: 0 <= i < |qs| ==> Apart(qs[i].1)
  {
    forall i | 0 <= i < |qs| ensures FloatsTree(lib, qs[i].1).Some? <==> Apart(qs[i].1) {
      FloatsWritten(lib, qs[i].1);
    }
    if Writable(lib, qs) {
      var ms := DistMembers(lib, qs);
      assert |ms| == |qs| && forall i :: 0 <= i < |qs| ==> ms[i].0 == Repaired(qs[i].0);
    }
  }

  /** A Report is written exactly when its names stay apart and each of its attempts is written. */
  lemma ReportWrites(lib: Library, r: Report)
    ensures Write(lib, r).Some? <==>
            && Apart(r.debug.errors)
            && Apart(r.debug.originals) && (forall i :: 0 <= i < |r.debug.originals| ==> Apart(r.debug.originals[i].1))
            && forall i :: 0 <= i < |r.debug.attempts| ==> Writes(lib, r.debug.attempts[i])
  {
    FloatsWritten(lib, r.debug.errors);
    DistsWritten(lib, r.debug.originals);
    forall i | 0 <= i < |r.debug.attempts| ensures AttemptTree(lib, r.debug.attempts[i]).Some? <==> Writes(lib, r.debug.attempts[i]) {
      AttemptWrites(lib, r.debug.attempts[i]);
    }
  }

  // ----- the members, their values and their order -----

  /** The names of ms are some of names, in their order. */
  predicate Ordered(ms: seq<(string, Tree)>, names: seq<string>)
    decreases |names|
  {
    if ms == [] then true
    else if names == [] then false
    else if ms[|ms| - 1].0 == names[|names| - 1] then Ordered(ms[..|ms| - 1], names[..|names| - 1])
    else Ordered(ms, names[..|names| - 1])
  }

  function FieldNames(fs: seq<(string, Option<Tree>)>): seq<string> {
    seq(|fs|, i requires 0 <= i < |fs| => fs[i].0)
  }

  lemma {:induction false} PresentOrdered(fs: seq<(string, Option<Tree>)>)
    requires Distinct(fs)
    ensures Ordered(Present(fs), FieldNames(fs))
  {
    if fs != [] {
      var n := |fs| - 1;
      var init := fs[..n];
      PresentOrdered(init);
      assert FieldNames(fs)[..n] == FieldNames(init);
      if fs[n].1.Some? {
        assert Present(fs)[..|Present(fs)| - 1] == Present(init);
      } else if Present(fs) != [] {
        assert Present(fs) == Present(init);
        LastIsEarlier(init, fs[n].0);
      }
    }
  }

  lemma {:induction false} LastIsEarlier(fs: seq<(string, Option<Tree>)>, name: string)
    requires forall i :: 0 <= i < |fs| ==> fs[i].0 != name
    ensures Present(fs) != [] ==> Present(fs)[|Present(fs)| - 1].0 != name
  {
    if fs != [] && fs[|fs| - 1].1.None? {
      LastIsEarlier(fs[..|fs| - 1], name);
      assert Present(fs) == Present(fs[..|fs| - 1]);
    }
  }

  lemma UsageOrdered(lib: Library, u: Usage)
    ensures Ordered(Present(UsageFields(lib, u)), ["input_tokens", "output_tokens", "input_tokens_total", "output_tokens_total",
                                                   "n_retries", "n_retries_malformed_structure", "latency"])
  {
    var fs := UsageFields(lib, u);
    PresentOrdered(fs);
    assert FieldNames(fs) == ["input_tokens", "output_tokens", "input_tokens_total", "output_tokens_total",
                              "n_retries", "n_retries_malformed_structure", "latency"];
  }

  lemma DebugOrdered(lib: Library, d: Debug, errors: Tree, originals: Tree, attempts: Tree)
    ensures Ordered(Present(DebugFields(lib, d, errors, originals, attempts)),
                    ["max_error", "invalid_probs", "probability_errors", "original_probabilities", "llm_attempts", "retry_reasons", "sdk_retry_count"])
  {
    var fs := DebugFields(lib, d, errors, originals, attempts);
    PresentOrdered(fs);
    assert FieldNames(fs) == ["max_error", "invalid_probs", "probability_errors", "original_probabilities", "llm_attempts", "retry_reasons",
                              "sdk_retry_count"];
  }

  lemma AttemptOrdered(a: Attempt, schema: Tree, response: (Tree, bool), request: (Tree, bool))
    ensures Ordered(Present(AttemptFields(a, schema, response, request)),
                    ["messages", "model_request_parameters", "llm_response", "debug_info", "request"])
  {
    var fs := AttemptFields(a, schema, response, request);
    PresentOrdered(fs);
    assert FieldNames(fs) == ["messages", "model_request_parameters", "llm_response", "debug_info", "request"];
  }

  lemma InfoOrdered(i: Info, responseText: bool, requestText: bool)
    ensures Ordered(Present(InfoFields(i, responseText, requestText)),
                    ["model_name", "provider", "api", "finish_reason", "error", "error_type", "llm_response_encoding", "request_encoding"])
  {
    var fs := InfoFields(i, responseText, requestText);
    PresentOrdered(fs);
    assert FieldNames(fs) == ["model_name", "provider", "api", "finish_reason", "error", "error_type", "llm_response_encoding", "request_encoding"];
  }

  function CountText(c: Option<nat>): Tree {
    if c.Some? then Num(PathText.Itoa(c.value)) else Null
  }

  /** The usage object. */
  predicate UsageIn(lib: Library, u: Usage, ms: seq<(string, Tree)>) {
    && Ordered(ms, ["input_tokens", "output_tokens", "input_tokens_total", "output_tokens_total", "n_retries",
                    "n_retries_malformed_structure", "latency"])
    && Lookup(ms, "input_tokens") == Some(CountText(u.input)) && Lookup(ms, "output_tokens") == Some(CountText(u.output))
    && Lookup(ms, "input_tokens_total") == Some(CountText(u.inputTotal)) && Lookup(ms, "output_tokens_total") == Some(CountText(u.outputTotal))
    && Lookup(ms, "n_retries") == Some(Num(Itoa(u.retries))) && Lookup(ms, "n_retries_malformed_structure") == Some(Num(Itoa(u.malformed)))
    && Lookup(ms, "latency") == Some(Num(lib.floatText(lib.rn(lib.rn(u.latency as real) / 1_000_000_000.0))))
  }

  /** The debug object; its attempts are written one by one. */
  predicate DebugIn(lib: Library, d: Debug, ms: seq<(string, Tree)>) {
    && Ordered(ms, ["max_error", "invalid_probs", "probability_errors", "original_probabilities", "llm_attempts", "retry_reasons",
                    "sdk_retry_count"])
    && Lookup(ms, "max_error") == Some(Num(lib.floatText(d.maxError))) && Lookup(ms, "invalid_probs") == Some(Num(Itoa(d.invalidProbs)))
    && (Lookup(ms, "original_probabilities").None? <==> d.originals == [])
    && Lookup(ms, "sdk_retry_count") == (if d.sdkRetries == 0 then None else Some(Num(Itoa(d.sdkRetries))))
    && match Lookup(ms, "llm_attempts")
       case Some(Arr(es)) => |es| == |d.attempts| && forall i :: 0 <= i < |es| ==> AttemptTree(lib, d.attempts[i]) == Some(es[i])
       case _ => false
  }

  /** An attempt's two objects. */
  lemma AttemptShape(lib: Library, a: Attempt, info: seq<(string, Tree)>)
    requires AttemptTree(lib, a).Some? && Lookup(AttemptTree(lib, a).value.members, "debug_info") == Some(Obj(info))
    ensures Ordered(AttemptTree(lib, a).value.members, ["messages", "model_request_parameters", "llm_response", "debug_info", "request"])
    ensures Ordered(info, ["model_name", "provider", "api", "finish_reason", "error", "error_type", "llm_response_encoding", "request_encoding"])
  {
    var schema := SchemaTree(lib, a.schema).value;
    var response := BodyTree(lib, a.response, a.info.responseEncoding).value;
    var request := BodyTree(lib, a.request, a.info.requestEncoding).value;
    AttemptTreeIs(lib, a, schema, response, request);
    AttemptFind(a, schema, response, request);
    AttemptOrdered(a, schema, response, request);
    InfoOrdered(a.info, response.1, request.1);
  }

  lemma UsageShape(lib: Library, u: Usage)
    ensures UsageIn(lib, u, Present(UsageFields(lib, u)))
  {
    UsageFind(lib, u);
    UsageOrdered(lib, u);
  }

  lemma DebugShape(lib: Library, d: Debug)
    requires DebugTree(lib, d).Some?
    ensures DebugTree(lib, d).value.Obj? && DebugIn(lib, d, DebugTree(lib, d).value.members)
  {
    var errors, originals := FloatsTree(lib, d.errors).value, DistsTree(lib, d.originals).value;
    DebugFind(lib, d, errors, originals, Arr(AttemptTrees(lib, d.attempts)));
    DebugOrdered(lib, d, errors, originals, Arr(AttemptTrees(lib, d.attempts)));
  }

  /** A Report is its usage and its debug, in that order, each with its members in theirs. */
  lemma ReportShape(lib: Library, r: Report) returns (usage: seq<(string, Tree)>, debug: seq<(string, Tree)>)
    requires Write(lib, r).Some?
    ensures Write(lib, r) == Some(Obj([("usage", Obj(usage)), ("debug", Obj(debug))]))
    ensures UsageIn(lib, r.usage, usage) && DebugIn(lib, r.debug, debug)
  {
    UsageShape(lib, r.usage);
    DebugShape(lib, r.debug);
    usage, debug := Present(UsageFields(lib, r.usage)), DebugTree(lib, r.debug).value.members;
  }
}
