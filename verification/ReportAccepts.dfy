/** Which JSON trees a Report is read from, and as what (adapter/report.go). */
module ReportAccepts {
  import opened Basics
  import opened JsonTree
  import opened Numerals
  import opened Report
  import opened ReportRoundTrip
  import Folds
  import Latency
  import PathText

  // Every member by name, the kinds it may have and the values it stands for;
  // every other tree is refused, and a member that is not named here ignored.

  type Members = seq<(string, Tree)>

  // ----- members -----

  /** A token count: a numeral below 2^64, or null. */
  ghost predicate CountIs(ms: Members, name: string, c: Option<nat>) {
    match Lookup(ms, name)
    case Some(Null) => c.None?
    case Some(Num(s)) => c.Some? && c.value < 18446744073709551616 && exists k :: Spells(s, k, c.value)
    case _ => false
  }

  /** An integer of 64 bits. */
  ghost predicate IntIs(t: Tree, n: int) {
    && t.Num? && -9223372036854775808 <= n < 9223372036854775808
    && ((n >= 0 && exists k :: Spells(t.text, k, n)) || (n <= 0 && Minus(t.text, -n)))
  }

  ghost predicate Minus(s: string, n: nat) {
    exists k :: Negates(s, k, n)
  }

  /** s spells minus n. */
  predicate Negates(s: string, k: nat, n: nat) {
    s == "-" + (Zeros(k) + PathText.Itoa(n))
  }

  ghost predicate IntMember(ms: Members, name: string, n: int) {
    Lookup(ms, name).Some? && IntIs(Lookup(ms, name).value, n)
  }

  predicate FloatMember(lib: Library, ms: Members, name: string, x: real) {
    match Lookup(ms, name)
    case Some(Num(s)) => lib.floatOf(s) == Some(x)
    case _ => false
  }

  predicate TextMember(ms: Members, name: string, s: string) {
    Lookup(ms, name) == Some(Str(s))
  }

  predicate OptionalMember(ms: Members, name: string, s: string) {
    Lookup(ms, name) == Some(Str(s)) || (Lookup(ms, name).None? && s == "")
  }

  predicate EncodingMember(ms: Members, name: string, s: string) {
    (Lookup(ms, name) == Some(Str("text")) && s == "text") || (Lookup(ms, name).None? && s == "")
  }

  lemma CountRead(ms: Members, name: string, c: Option<nat>)
    ensures Bind(Lookup(ms, name), CountOf) == Some(c) <==> CountIs(ms, name, c)
  {
    if Lookup(ms, name).Some? {
      CountOfIs(Lookup(ms, name).value, c);
    }
  }

  lemma CountOfIs(t: Tree, c: Option<nat>)
    ensures CountOf(t) == Some(c) <==>
            match t
            case Null => c.None?
            case Num(s) => c.Some? && c.value < 18446744073709551616 && exists k :: Spells(s, k, c.value)
            case _ => false
  {
    if t.Num? && c.Some? {
      NumeralIs(t.text, c.value);
    }
  }

  lemma MinusSpells(s: string, k: nat, n: nat)
    ensures Negates(s, k, n) <==> s != "" && s[0] == '-' && Spells(s[1..], k, n)
  {
    var t := Zeros(k) + PathText.Itoa(n);
    assert ("-" + t)[1..] == t;
    if s != "" && s[0] == '-' {
      assert s == "-" + s[1..];
    }
  }

  lemma NegativeIs(s: string, n: nat)
    ensures Minus(s, n) <==> |s| > 1 && s[0] == '-' && Folds.AllDigits(s[1..]) && Folds.Decimal(s[1..]) == n
  {
    forall k: nat ensures Negates(s, k, n) <==> s != "" && s[0] == '-' && Spells(s[1..], k, n) {
      MinusSpells(s, k, n);
    }
    if s != "" {
      NumeralIs(s[1..], n);
    }
  }

  lemma PlusIs(s: string, n: nat)
    ensures (exists k :: Spells(s, k, n)) <==> s != "" && s[0] != '-' && Atoi(s) == Some(n)
  {
    NumeralIs(s, n);
    if s != "" && s[0] == '-' {
      assert !Folds.IsDigit(s[0]);
    }
  }

  lemma AtoiIs(s: string, n: int)
    ensures Atoi(s) == Some(n) <==> (n >= 0 && exists k :: Spells(s, k, n)) || (n <= 0 && Minus(s, -n))
  {
    if n >= 0 {
      PlusIs(s, n);
    }
    if n <= 0 {
      NegativeIs(s, -n);
    }
  }

  lemma IntRead(t: Tree, n: int)
    ensures IntOf(t) == Some(n) <==> IntIs(t, n)
  {
    if t.Num? {
      AtoiIs(t.text, n);
    }
  }

  lemma IntMemberRead(ms: Members, name: string, n: int)
    ensures Bind(Lookup(ms, name), IntOf) == Some(n) <==> IntMember(ms, name, n)
  {
    if Lookup(ms, name).Some? {
      IntRead(Lookup(ms, name).value, n);
    }
  }

  // ----- usage -----

  /** The nanoseconds of a latency, absent for none: those next to its seconds, when a Duration holds them. */
  predicate LatencyIs(lib: Library, ms: Members, d: int) {
    match Lookup(ms, "latency")
    case None => d == 0
    case Some(Num(s)) =>
      && lib.floatOf(s).Some? && -9223372036854775808 <= d < 9223372036854775808
      && Latency.Round(lib.rn(lib.floatOf(s).value * 1000000000.0)) == d
    case Some(_) => false
  }

  ghost predicate UsageIs(lib: Library, t: Tree, u: Usage) {
    && t.Obj?
    && CountIs(t.members, "input_tokens", u.input) && CountIs(t.members, "output_tokens", u.output)
    && CountIs(t.members, "input_tokens_total", u.inputTotal) && CountIs(t.members, "output_tokens_total", u.outputTotal)
    && IntMember(t.members, "n_retries", u.retries) && IntMember(t.members, "n_retries_malformed_structure", u.malformed)
    && LatencyIs(lib, t.members, u.latency)
  }

  /** Every part of a usage is read. */
  predicate UsageRead(lib: Library, ms: Members, u: Usage) {
    && Bind(Lookup(ms, "input_tokens"), CountOf) == Some(u.input) && Bind(Lookup(ms, "output_tokens"), CountOf) == Some(u.output)
    && Bind(Lookup(ms, "input_tokens_total"), CountOf) == Some(u.inputTotal)
    && Bind(Lookup(ms, "output_tokens_total"), CountOf) == Some(u.outputTotal)
    && Bind(Lookup(ms, "n_retries"), IntOf) == Some(u.retries)
    && Bind(Lookup(ms, "n_retries_malformed_structure"), IntOf) == Some(u.malformed)
    && LatencyIs(lib, ms, u.latency)
  }

  lemma UsageByParts(lib: Library, t: Tree, u: Usage)
    ensures ReadUsage(lib, t) == Some(u) <==> t.Obj? && UsageRead(lib, t.members, u)
  {
  }

  lemma UsageAccepted(lib: Library, t: Tree, u: Usage)
    ensures ReadUsage(lib, t) == Some(u) <==> UsageIs(lib, t, u)
  {
    UsageByParts(lib, t, u);
    if t.Obj? {
      CountRead(t.members, "input_tokens", u.input);
      CountRead(t.members, "output_tokens", u.output);
      CountRead(t.members, "input_tokens_total", u.inputTotal);
      CountRead(t.members, "output_tokens_total", u.outputTotal);
      IntMemberRead(t.members, "n_retries", u.retries);
      IntMemberRead(t.members, "n_retries_malformed_structure", u.malformed);
    }
  }

  // ----- attempts -----

  predicate FinishIs(ms: Members, responded: bool, finish: Option<string>) {
    match Lookup(ms, "finish_reason")
    case None => !responded && finish.None?
    case Some(Null) => responded && finish.None?
    case Some(Str(s)) => responded && finish == Some(s)
    case _ => false
  }

  predicate InfoIs(t: Tree, i: Info) {
    && t.Obj?
    && TextMember(t.members, "model_name", i.model) && TextMember(t.members, "provider", i.provider)
    && OptionalMember(t.members, "api", i.api) && FinishIs(t.members, i.responded, i.finish)
    && OptionalMember(t.members, "error", i.error) && OptionalMember(t.members, "error_type", i.errorType)
    && EncodingMember(t.members, "llm_response_encoding", i.responseEncoding)
    && EncodingMember(t.members, "request_encoding", i.requestEncoding)
  }

  lemma InfoAccepted(t: Tree, i: Info)
    ensures ReadInfo(t) == Some(i) <==> InfoIs(t, i)
  {
  }

  lemma {:induction false} AllRead<T>(ts: seq<Tree>, read: Tree -> Option<T>, xs: seq<T>)
    ensures ReadAll(ts, read) == Some(xs) <==> |ts| == |xs| && forall i :: 0 <= i < |ts| ==> read(ts[i]) == Some(xs[i])
    decreases |ts|
  {
    if ts != [] && xs != [] {
      var n, m := |ts| - 1, |xs| - 1;
      AllRead(ts[..n], read, xs[..m]);
      assert xs == xs[..m] + [xs[m]];
    }
  }

  predicate MessageIs(t: Tree, m: Message) {
    t.Obj? && TextMember(t.members, "role", m.role) && TextMember(t.members, "content", m.content)
  }

  predicate MessagesAre(ms: Members, xs: seq<Message>) {
    match Lookup(ms, "messages")
    case Some(Arr(es)) => |es| == |xs| && forall i :: 0 <= i < |es| ==> MessageIs(es[i], xs[i])
    case _ => false
  }

  /** A JSON member as compact JSON, nothing for null. */
  predicate RawIs(lib: Library, t: Tree, raw: Option<string>) {
    raw == if t.Null? then None else Some(lib.spell(t))
  }

  /** A body: a string's text where the encoding says so. */
  predicate BodyIs(lib: Library, t: Tree, encoding: string, body: Option<string>) {
    if encoding == "text" then t.Str? && body == Some(t.text) else RawIs(lib, t, body)
  }

  predicate RequestIs(lib: Library, ms: Members, encoding: string, body: Option<string>) {
    match Lookup(ms, "request")
    case None => body.None?
    case Some(t) => if t.Null? && encoding != "text" then body == Some("null") else BodyIs(lib, t, encoding, body)
  }

  predicate ParamsAre(lib: Library, ms: Members, schema: Option<string>, structured: bool) {
    match Lookup(ms, "model_request_parameters")
    case Some(Obj(ps)) =>
      Lookup(ps, "schema").Some? && RawIs(lib, Lookup(ps, "schema").value, schema) && Lookup(ps, "structured") == Some(Bool(structured))
    case _ => false
  }

  predicate AttemptIs(lib: Library, t: Tree, a: Attempt) {
    && t.Obj?
    && MessagesAre(t.members, a.messages) && ParamsAre(lib, t.members, a.schema, a.structured)
    && Lookup(t.members, "debug_info").Some? && InfoIs(Lookup(t.members, "debug_info").value, a.info)
    && Lookup(t.members, "llm_response").Some?
    && BodyIs(lib, Lookup(t.members, "llm_response").value, a.info.responseEncoding, a.response)
    && RequestIs(lib, t.members, a.info.requestEncoding, a.request)
  }

  lemma MessagesAccepted(ms: Members, xs: seq<Message>)
    ensures Bind(Lookup(ms, "messages"), ReadMessages) == Some(xs) <==> MessagesAre(ms, xs)
  {
    match Lookup(ms, "messages")
    case Some(Arr(es)) => AllRead(es, ReadMessage, xs);
    case _ =>
  }

  lemma ParamsAccepted(lib: Library, t: Tree, schema: Option<string>, structured: bool)
    ensures ReadParams(lib, t) == Some((schema, structured)) <==>
            t.Obj? && Lookup(t.members, "schema").Some? && RawIs(lib, Lookup(t.members, "schema").value, schema)
            && Lookup(t.members, "structured") == Some(Bool(structured))
  {
  }

  lemma ParamsRead(lib: Library, ms: Members, schema: Option<string>, structured: bool)
    ensures (match Lookup(ms, "model_request_parameters") case None => None case Some(p) => ReadParams(lib, p)) == Some((schema, structured)) <==>
            ParamsAre(lib, ms, schema, structured)
  {
    if Lookup(ms, "model_request_parameters").Some? {
      ParamsAccepted(lib, Lookup(ms, "model_request_parameters").value, schema, structured);
    }
  }

  lemma InfoRead(ms: Members, i: Info)
    ensures Bind(Lookup(ms, "debug_info"), ReadInfo) == Some(i) <==>
            Lookup(ms, "debug_info").Some? && InfoIs(Lookup(ms, "debug_info").value, i)
  {
    if Lookup(ms, "debug_info").Some? {
      InfoAccepted(Lookup(ms, "debug_info").value, i);
    }
  }

  lemma RequestAccepted(lib: Library, ms: Members, encoding: string, body: Option<string>)
    ensures ReadRequest(lib, Lookup(ms, "request"), encoding) == Some(body) <==> RequestIs(lib, ms, encoding, body)
  {
  }

  lemma AttemptAccepted(lib: Library, t: Tree, a: Attempt)
    ensures ReadAttempt(lib, t) == Some(a) <==> AttemptIs(lib, t, a)
  {
    if t.Obj? {
      MessagesAccepted(t.members, a.messages);
      ParamsRead(lib, t.members, a.schema, a.structured);
      InfoRead(t.members, a.info);
      RequestAccepted(lib, t.members, a.info.requestEncoding, a.request);
    }
  }

  // ----- debug -----

  lemma {:induction false} MembersRead<T>(ms: Members, read: Tree -> Option<T>, xs: seq<(string, T)>)
    ensures ReadMembers(ms, read) == Some(xs) <==>
            |ms| == |xs| && forall i :: 0 <= i < |ms| ==> ms[i].0 == xs[i].0 && read(ms[i].1) == Some(xs[i].1)
    decreases |ms|
  {
    if ms != [] && xs != [] {
      var n, m := |ms| - 1, |xs| - 1;
      MembersRead(ms[..n], read, xs[..m]);
      assert xs == xs[..m] + [xs[m]];
    }
  }

  /** Numbers by name, in their order. */
  predicate FloatsAre(lib: Library, t: Tree, fs: seq<(string, real)>) {
    && t.Obj? && |t.members| == |fs|
    && forall i :: 0 <= i < |fs| ==>
         t.members[i].0 == fs[i].0 && t.members[i].1.Num? && lib.floatOf(t.members[i].1.text) == Some(fs[i].1)
  }

  predicate DistsAre(lib: Library, t: Tree, qs: seq<(string, seq<(string, real)>)>) {
    && t.Obj? && |t.members| == |qs|
    && forall i :: 0 <= i < |qs| ==> t.members[i].0 == qs[i].0 && FloatsAre(lib, t.members[i].1, qs[i].1)
  }

  predicate AttemptsAre(lib: Library, t: Tree, xs: seq<Attempt>) {
    t.Arr? && |t.elems| == |xs| && forall i :: 0 <= i < |xs| ==> AttemptIs(lib, t.elems[i], xs[i])
  }

  predicate ReasonsAre(t: Tree, rs: seq<(string, string)>) {
    t.Arr? && |t.elems| == |rs| && forall i :: 0 <= i < |rs| ==> t.elems[i] == Arr([Str(rs[i].0), Str(rs[i].1)])
  }

  ghost predicate DebugIs(lib: Library, t: Tree, d: Debug) {
    && t.Obj?
    && FloatMember(lib, t.members, "max_error", d.maxError) && IntMember(t.members, "invalid_probs", d.invalidProbs)
    && Lookup(t.members, "probability_errors").Some? && FloatsAre(lib, Lookup(t.members, "probability_errors").value, d.errors)
    && (match Lookup(t.members, "original_probabilities") case None => d.originals == [] case Some(v) => DistsAre(lib, v, d.originals))
    && Lookup(t.members, "llm_attempts").Some? && AttemptsAre(lib, Lookup(t.members, "llm_attempts").value, d.attempts)
    && Lookup(t.members, "retry_reasons").Some? && ReasonsAre(Lookup(t.members, "retry_reasons").value, d.reasons)
    && (match Lookup(t.members, "sdk_retry_count") case None => d.sdkRetries == 0 case Some(v) => IntIs(v, d.sdkRetries))
  }

  lemma FloatsAccepted(lib: Library, t: Tree, fs: seq<(string, real)>)
    ensures ReadFloats(lib, t) == Some(fs) <==> FloatsAre(lib, t, fs)
  {
    if t.Obj? {
      MembersRead(t.members, FloatReader(lib), fs);
    }
  }

  lemma DistsAccepted(lib: Library, t: Tree, qs: seq<(string, seq<(string, real)>)>)
    ensures ReadDists(lib, t) == Some(qs) <==> DistsAre(lib, t, qs)
  {
    if t.Obj? && |t.members| == |qs| {
      MembersRead(t.members, FloatsReader(lib), qs);
      forall i | 0 <= i < |qs| ensures FloatsReader(lib)(t.members[i].1) == Some(qs[i].1) <==> FloatsAre(lib, t.members[i].1, qs[i].1) {
        FloatsAccepted(lib, t.members[i].1, qs[i].1);
      }
    } else if t.Obj? {
      MembersRead(t.members, FloatsReader(lib), qs);
    }
  }

  lemma AttemptsAccepted(lib: Library, t: Tree, xs: seq<Attempt>)
    ensures ReadAttempts(lib, t) == Some(xs) <==> AttemptsAre(lib, t, xs)
  {
    if t.Arr? {
      AllRead(t.elems, AttemptReader(lib), xs);
      if |t.elems| == |xs| {
        forall i | 0 <= i < |xs| ensures AttemptReader(lib)(t.elems[i]) == Some(xs[i]) <==> AttemptIs(lib, t.elems[i], xs[i]) {
          AttemptAccepted(lib, t.elems[i], xs[i]);
        }
      }
    }
  }

  lemma ReasonAccepted(t: Tree, r: (string, string))
    ensures ReadReason(t) == Some(r) <==> t == Arr([Str(r.0), Str(r.1)])
  {
    if t.Arr? && |t.elems| == 2 {
      assert t.elems == [t.elems[0], t.elems[1]];
    }
  }

  lemma ReasonsAccepted(t: Tree, rs: seq<(string, string)>)
    ensures ReadReasons(t) == Some(rs) <==> ReasonsAre(t, rs)
  {
    if t.Arr? {
      AllRead(t.elems, ReadReason, rs);
      if |t.elems| == |rs| {
        forall i | 0 <= i < |rs| ensures ReadReason(t.elems[i]) == Some(rs[i]) <==> t.elems[i] == Arr([Str(rs[i].0), Str(rs[i].1)]) {
          ReasonAccepted(t.elems[i], rs[i]);
        }
      }
    }
  }

  /** Every part of a debug is read. */
  predicate DebugRead(lib: Library, ms: Members, d: Debug) {
    && FloatMember(lib, ms, "max_error", d.maxError) && Bind(Lookup(ms, "invalid_probs"), IntOf) == Some(d.invalidProbs)
    && Lookup(ms, "probability_errors").Some? && ReadFloats(lib, Lookup(ms, "probability_errors").value) == Some(d.errors)
    && (match Lookup(ms, "original_probabilities") case None => d.originals == [] case Some(v) => ReadDists(lib, v) == Some(d.originals))
    && Lookup(ms, "llm_attempts").Some? && ReadAttempts(lib, Lookup(ms, "llm_attempts").value) == Some(d.attempts)
    && Lookup(ms, "retry_reasons").Some? && ReadReasons(Lookup(ms, "retry_reasons").value) == Some(d.reasons)
    && (match Lookup(ms, "sdk_retry_count") case None => d.sdkRetries == 0 case Some(v) => IntOf(v) == Some(d.sdkRetries))
  }

  lemma DebugByParts(lib: Library, t: Tree, d: Debug)
    ensures ReadDebug(lib, t) == Some(d) <==> t.Obj? && DebugRead(lib, t.members, d)
  {
  }

  lemma PartsAccepted(lib: Library, ms: Members, d: Debug)
    requires Lookup(ms, "probability_errors").Some? && Lookup(ms, "llm_attempts").Some? && Lookup(ms, "retry_reasons").Some?
    ensures ReadFloats(lib, Lookup(ms, "probability_errors").value) == Some(d.errors) <==>
            FloatsAre(lib, Lookup(ms, "probability_errors").value, d.errors)
    ensures ReadAttempts(lib, Lookup(ms, "llm_attempts").value) == Some(d.attempts) <==>
            AttemptsAre(lib, Lookup(ms, "llm_attempts").value, d.attempts)
    ensures ReadReasons(Lookup(ms, "retry_reasons").value) == Some(d.reasons) <==> ReasonsAre(Lookup(ms, "retry_reasons").value, d.reasons)
  {
    FloatsAccepted(lib, Lookup(ms, "probability_errors").value, d.errors);
    AttemptsAccepted(lib, Lookup(ms, "llm_attempts").value, d.attempts);
    ReasonsAccepted(Lookup(ms, "retry_reasons").value, d.reasons);
  }

  lemma PartsAre(lib: Library, t: Tree, d: Debug)
    requires t.Obj?
    ensures DebugRead(lib, t.members, d) <==> DebugIs(lib, t, d)
  {
    var ms := t.members;
    IntMemberRead(ms, "invalid_probs", d.invalidProbs);
    if Lookup(ms, "original_probabilities").Some? {
      DistsAccepted(lib, Lookup(ms, "original_probabilities").value, d.originals);
    }
    if Lookup(ms, "sdk_retry_count").Some? {
      IntRead(Lookup(ms, "sdk_retry_count").value, d.sdkRetries);
    }
    if Lookup(ms, "probability_errors").Some? && Lookup(ms, "llm_attempts").Some? && Lookup(ms, "retry_reasons").Some? {
      PartsAccepted(lib, ms, d);
    }
  }

  lemma DebugAccepted(lib: Library, t: Tree, d: Debug)
    ensures ReadDebug(lib, t) == Some(d) <==> DebugIs(lib, t, d)
  {
    DebugByParts(lib, t, d);
    if t.Obj? {
      PartsAre(lib, t, d);
    }
  }

  /** A tree is read as a Report exactly when its usage and its debug are. */
  lemma ReportAccepted(lib: Library, t: Tree, r: Report)
    ensures Read(lib, t) == Some(r) <==>
            && t.Obj? && Lookup(t.members, "usage").Some? && UsageIs(lib, Lookup(t.members, "usage").value, r.usage)
            && Lookup(t.members, "debug").Some? && DebugIs(lib, Lookup(t.members, "debug").value, r.debug)
  {
    if t.Obj? {
      if Lookup(t.members, "usage").Some? {
        UsageAccepted(lib, Lookup(t.members, "usage").value, r.usage);
      }
      if Lookup(t.members, "debug").Some? {
        DebugAccepted(lib, Lookup(t.members, "debug").value, r.debug);
      }
    }
  }
}
