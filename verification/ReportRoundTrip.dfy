/**
  Writing a whole Report, reading it and writing it again (adapter/report.go):
  debug with its floats by name, attempts and retry reasons, around the parts
  that module Report models.
*/
module ReportRoundTrip {
  import opened Basics
  import opened JsonTree
  import opened Utf8Repair
  import opened Report
  import Latency

  // ----- objects of floats -----

  /** A JSON object cannot hold a name twice. */
  predicate UniqueNames(ms: seq<(string, Tree)>) {
    forall i, j :: 0 <= i < j < |ms| ==> ms[i].0 != ms[j].0
  }

  function FloatMembers(lib: Library, fs: seq<(string, real)>): seq<(string, Tree)> {
    seq(|fs|, i requires 0 <= i < |fs| => (Repaired(fs[i].0), FloatTree(lib, fs[i].1)))
  }

  /** Numbers by name; None when two names become one. */
  function FloatsTree(lib: Library, fs: seq<(string, real)>): Option<Tree> {
    var ms := FloatMembers(lib, fs);
    if UniqueNames(ms) then Some(Obj(ms)) else None
  }

  /** Every member, in order, with its name. */
  function ReadMembers<T>(ms: seq<(string, Tree)>, read: Tree -> Option<T>): Option<seq<(string, T)>> {
    if ms == [] then Some([])
    else
      var init := ReadMembers(ms[..|ms| - 1], read);
      var last := read(ms[|ms| - 1].1);
      if init.Some? && last.Some? then Some(init.value + [(ms[|ms| - 1].0, last.value)]) else None
  }

  lemma {:induction false} ReadsMembers<T>(ms: seq<(string, Tree)>, read: Tree -> Option<T>, xs: seq<(string, T)>)
    requires |ms| == |xs| && forall i :: 0 <= i < |ms| ==> ms[i].0 == xs[i].0 && read(ms[i].1) == Some(xs[i].1)
    ensures ReadMembers(ms, read) == Some(xs)
    decreases |ms|
  {
    if ms != [] {
      var n := |ms| - 1;
      ReadsMembers(ms[..n], read, xs[..n]);
      assert xs == xs[..n] + [xs[n]];
    }
  }

  function FloatReader(lib: Library): Tree -> Option<real> {
    t => FloatOf(lib, t)
  }

  function ReadFloats(lib: Library, t: Tree): Option<seq<(string, real)>> {
    if t.Obj? then ReadMembers(t.members, FloatReader(lib)) else None
  }

  function RepairFloats(fs: seq<(string, real)>): seq<(string, real)> {
    seq(|fs|, i requires 0 <= i < |fs| => (Repaired(fs[i].0), fs[i].1))
  }

  ghost predicate Floats(fs: seq<(string, real)>) {
    forall i :: 0 <= i < |fs| ==> Latency.IsFloat(fs[i].1)
  }

  /** Floats by name read back, and are written as they were. */
  lemma FloatsRoundTrip(lib: Library, fs: seq<(string, real)>)
    requires Faithful(lib) && Floats(fs) && FloatsTree(lib, fs).Some?
    ensures ReadFloats(lib, FloatsTree(lib, fs).value) == Some(RepairFloats(fs))
    ensures FloatsTree(lib, RepairFloats(fs)) == FloatsTree(lib, fs)
  {
    forall i | 0 <= i < |fs|
      ensures FloatMembers(lib, RepairFloats(fs))[i] == FloatMembers(lib, fs)[i]
    {
      RepairTwice(fs[i].0);
    }
    assert FloatMembers(lib, RepairFloats(fs)) == FloatMembers(lib, fs);
    ReadsMembers(FloatMembers(lib, fs), FloatReader(lib), RepairFloats(fs));
  }

  // ----- original probabilities -----

  predicate Writable(lib: Library, qs: seq<(string, seq<(string, real)>)>) {
    forall i :: 0 <= i < |qs| ==> FloatsTree(lib, qs[i].1).Some?
  }

  function DistMembers(lib: Library, qs: seq<(string, seq<(string, real)>)>): seq<(string, Tree)>
    requires Writable(lib, qs)
  {
    seq(|qs|, i requires 0 <= i < |qs| => (Repaired(qs[i].0), FloatsTree(lib, qs[i].1).value))
  }

  function DistsTree(lib: Library, qs: seq<(string, seq<(string, real)>)>): Option<Tree> {
    if Writable(lib, qs) && UniqueNames(DistMembers(lib, qs)) then Some(Obj(DistMembers(lib, qs))) else None
  }

  function FloatsReader(lib: Library): Tree -> Option<seq<(string, real)>> {
    t => ReadFloats(lib, t)
  }

  function ReadDists(lib: Library, t: Tree): Option<seq<(string, seq<(string, real)>)>> {
    if t.Obj? then ReadMembers(t.members, FloatsReader(lib)) else None
  }

  function RepairDists(qs: seq<(string, seq<(string, real)>)>): seq<(string, seq<(string, real)>)> {
    seq(|qs|, i requires 0 <= i < |qs| => (Repaired(qs[i].0), RepairFloats(qs[i].1)))
  }

  ghost predicate AllFloats(qs: seq<(string, seq<(string, real)>)>) {
    forall i :: 0 <= i < |qs| ==> Floats(qs[i].1)
  }

  lemma DistsRoundTrip(lib: Library, qs: seq<(string, seq<(string, real)>)>)
    requires Faithful(lib) && AllFloats(qs) && DistsTree(lib, qs).Some?
    ensures ReadDists(lib, DistsTree(lib, qs).value) == Some(RepairDists(qs))
    ensures DistsTree(lib, RepairDists(qs)) == DistsTree(lib, qs)
  {
    var back := RepairDists(qs);
    forall i | 0 <= i < |qs|
      ensures FloatsReader(lib)(DistMembers(lib, qs)[i].1) == Some(back[i].1)
      ensures Repaired(back[i].0) == Repaired(qs[i].0) && FloatsTree(lib, back[i].1) == FloatsTree(lib, qs[i].1)
    {
      FloatsRoundTrip(lib, qs[i].1);
      RepairTwice(qs[i].0);
    }
    assert Writable(lib, back);
    assert DistMembers(lib, back) == DistMembers(lib, qs);
    ReadsMembers(DistMembers(lib, qs), FloatsReader(lib), back);
  }

  // ----- attempts and retry reasons -----

  predicate AttemptsWritable(lib: Library, xs: seq<Attempt>) {
    forall i :: 0 <= i < |xs| ==> AttemptTree(lib, xs[i]).Some?
  }

  function AttemptTrees(lib: Library, xs: seq<Attempt>): seq<Tree>
    requires AttemptsWritable(lib, xs)
  {
    seq(|xs|, i requires 0 <= i < |xs| => AttemptTree(lib, xs[i]).value)
  }

  function AttemptReader(lib: Library): Tree -> Option<Attempt> {
    t => ReadAttempt(lib, t)
  }

  function Reread(lib: Library, a: Attempt): Attempt
    requires AttemptTree(lib, a).Some?
  {
    AttemptBack(lib, a, SchemaTree(lib, a.schema).value, BodyTree(lib, a.response, a.info.responseEncoding).value,
                BodyTree(lib, a.request, a.info.requestEncoding).value)
  }

  function RereadAll(lib: Library, xs: seq<Attempt>): seq<Attempt>
    requires AttemptsWritable(lib, xs)
  {
    seq(|xs|, i requires 0 <= i < |xs| => Reread(lib, xs[i]))
  }

  /** An attempt that is written reads back, and is written as it was. */
  lemma AttemptRoundTrips(lib: Library, a: Attempt)
    requires Faithful(lib) && AttemptTree(lib, a).Some?
    ensures ReadAttempt(lib, AttemptTree(lib, a).value) == Some(Reread(lib, a))
    ensures AttemptTree(lib, Reread(lib, a)) == AttemptTree(lib, a)
  {
    var schema := SchemaTree(lib, a.schema).value;
    var response := BodyTree(lib, a.response, a.info.responseEncoding).value;
    var request := BodyTree(lib, a.request, a.info.requestEncoding).value;
    AttemptReads(lib, a, schema, response, request);
    AttemptStable(lib, a, schema, response, request);
  }

  lemma AttemptsRoundTrip(lib: Library, xs: seq<Attempt>)
    requires Faithful(lib) && AttemptsWritable(lib, xs)
    ensures ReadAll(AttemptTrees(lib, xs), AttemptReader(lib)) == Some(RereadAll(lib, xs))
    ensures AttemptsWritable(lib, RereadAll(lib, xs)) && AttemptTrees(lib, RereadAll(lib, xs)) == AttemptTrees(lib, xs)
  {
    forall i | 0 <= i < |xs|
      ensures AttemptReader(lib)(AttemptTrees(lib, xs)[i]) == Some(RereadAll(lib, xs)[i])
      ensures AttemptTree(lib, RereadAll(lib, xs)[i]) == AttemptTree(lib, xs[i])
    {
      AttemptRoundTrips(lib, xs[i]);
    }
    ReadsAll(AttemptTrees(lib, xs), AttemptReader(lib), RereadAll(lib, xs));
  }

  /** A retry reason is a [category, message] pair. */
  function ReasonTree(r: (string, string)): Tree {
    Arr([Text(r.0), Text(r.1)])
  }

  function ReasonTrees(rs: seq<(string, string)>): seq<Tree> {
    seq(|rs|, i requires 0 <= i < |rs| => ReasonTree(rs[i]))
  }

  function ReadReason(t: Tree): Option<(string, string)> {
    if t.Arr? && |t.elems| == 2 && t.elems[0].Str? && t.elems[1].Str? then Some((t.elems[0].text, t.elems[1].text)) else None
  }

  function RepairReasons(rs: seq<(string, string)>): seq<(string, string)> {
    seq(|rs|, i requires 0 <= i < |rs| => (Repaired(rs[i].0), Repaired(rs[i].1)))
  }

  lemma ReasonsRoundTrip(rs: seq<(string, string)>)
    ensures ReadAll(ReasonTrees(rs), ReadReason) == Some(RepairReasons(rs))
    ensures ReasonTrees(RepairReasons(rs)) == ReasonTrees(rs)
  {
    forall i | 0 <= i < |rs|
      ensures ReasonTree(RepairReasons(rs)[i]) == ReasonTree(rs[i])
    {
      RepairTwice(rs[i].0);
      RepairTwice(rs[i].1);
    }
    ReadsAll(ReasonTrees(rs), ReadReason, RepairReasons(rs));
  }

  // ----- debug -----

  /** Debug.value, of the parts that may be refused. */
  function DebugFields(lib: Library, d: Debug, errors: Tree, originals: Tree, attempts: Tree): seq<(string, Option<Tree>)> {
    [("max_error", Some(FloatTree(lib, d.maxError))), ("invalid_probs", Some(IntTree(d.invalidProbs))),
     ("probability_errors", Some(errors)), ("original_probabilities", When(|d.originals| > 0, originals)),
     ("llm_attempts", Some(attempts)), ("retry_reasons", Some(Arr(ReasonTrees(d.reasons)))),
     ("sdk_retry_count", When(d.sdkRetries != 0, IntTree(d.sdkRetries)))]
  }

  function DebugTree(lib: Library, d: Debug): Option<Tree> {
    var errors, originals := FloatsTree(lib, d.errors), DistsTree(lib, d.originals);
    if errors.Some? && originals.Some? && AttemptsWritable(lib, d.attempts)
    then Some(Obj(Present(DebugFields(lib, d, errors.value, originals.value, Arr(AttemptTrees(lib, d.attempts))))))
    else None
  }

  function ReadAttempts(lib: Library, t: Tree): Option<seq<Attempt>> {
    if t.Arr? then ReadAll(t.elems, AttemptReader(lib)) else None
  }

  function ReadReasons(t: Tree): Option<seq<(string, string)>> {
    if t.Arr? then ReadAll(t.elems, ReadReason) else None
  }

  function ReadDebug(lib: Library, t: Tree): Option<Debug> {
    if !t.Obj? then None
    else
      var ms := t.members;
      var maxError := match Lookup(ms, "max_error") case None => None case Some(v) => FloatOf(lib, v);
      var invalid := Bind(Lookup(ms, "invalid_probs"), IntOf);
      var errors := match Lookup(ms, "probability_errors") case None => None case Some(v) => ReadFloats(lib, v);
      var originals := match Lookup(ms, "original_probabilities") case None => Some([]) case Some(v) => ReadDists(lib, v);
      var attempts := match Lookup(ms, "llm_attempts") case None => None case Some(v) => ReadAttempts(lib, v);
      var reasons := Bind(Lookup(ms, "retry_reasons"), ReadReasons);
      var sdk := match Lookup(ms, "sdk_retry_count") case None => Some(0) case Some(v) => IntOf(v);
      if maxError.Some? && invalid.Some? && errors.Some? && originals.Some? && attempts.Some? && reasons.Some? && sdk.Some?
      then Some(Debug(maxError.value, invalid.value, errors.value, originals.value, attempts.value, reasons.value, sdk.value))
      else None
  }

  /** What the fields' types hold: finite floats and 64-bit integers. */
  ghost predicate DebugFits(d: Debug) {
    && Latency.IsFloat(d.maxError) && Floats(d.errors) && AllFloats(d.originals)
    && IsInt(d.invalidProbs) && IsInt(d.sdkRetries)
  }

  /** What a Debug reads back to: its numbers as they were, its text repaired, its attempts reread. */
  function DebugBack(lib: Library, d: Debug): Debug
    requires DebugTree(lib, d).Some?
  {
    Debug(d.maxError, d.invalidProbs, RepairFloats(d.errors), RepairDists(d.originals), RereadAll(lib, d.attempts),
          RepairReasons(d.reasons), d.sdkRetries)
  }

  lemma DebugFind(lib: Library, d: Debug, errors: Tree, originals: Tree, attempts: Tree)
    ensures var ms := Present(DebugFields(lib, d, errors, originals, attempts));
            && Lookup(ms, "max_error") == Some(FloatTree(lib, d.maxError))
            && Lookup(ms, "invalid_probs") == Some(IntTree(d.invalidProbs))
            && Lookup(ms, "probability_errors") == Some(errors)
            && Lookup(ms, "original_probabilities") == When(|d.originals| > 0, originals)
            && Lookup(ms, "llm_attempts") == Some(attempts)
            && Lookup(ms, "retry_reasons") == Some(Arr(ReasonTrees(d.reasons)))
            && Lookup(ms, "sdk_retry_count") == When(d.sdkRetries != 0, IntTree(d.sdkRetries))
  {
    var fs := DebugFields(lib, d, errors, originals, attempts);
    assert Distinct(fs);
    FindsMember(fs, 0);
    FindsMember(fs, 1);
    FindsMember(fs, 2);
    FindsMember(fs, 3);
    FindsMember(fs, 4);
    FindsMember(fs, 5);
    FindsMember(fs, 6);
  }

  lemma DebugReads(lib: Library, d: Debug)
    requires Faithful(lib) && DebugFits(d) && DebugTree(lib, d).Some?
    ensures ReadDebug(lib, DebugTree(lib, d).value) == Some(DebugBack(lib, d))
  {
    var errors, originals, attempts := FloatsTree(lib, d.errors).value, DistsTree(lib, d.originals).value, Arr(AttemptTrees(lib, d.attempts));
    DebugFind(lib, d, errors, originals, attempts);
    IntRoundTrips(d.invalidProbs);
    IntRoundTrips(d.sdkRetries);
    FloatsRoundTrip(lib, d.errors);
    DistsRoundTrip(lib, d.originals);
    AttemptsRoundTrip(lib, d.attempts);
    ReasonsRoundTrip(d.reasons);
    DebugParts(lib, d, Present(DebugFields(lib, d, errors, originals, attempts)), errors, originals, attempts, RereadAll(lib, d.attempts));
  }

  /** The parts of a debug, read from any object that holds them. */
  lemma DebugParts(lib: Library, d: Debug, ms: seq<(string, Tree)>, errors: Tree, originals: Tree, attempts: Tree, reread: seq<Attempt>)
    requires Lookup(ms, "max_error") == Some(FloatTree(lib, d.maxError)) && FloatOf(lib, FloatTree(lib, d.maxError)) == Some(d.maxError)
    requires Bind(Lookup(ms, "invalid_probs"), IntOf) == Some(d.invalidProbs)
    requires Lookup(ms, "probability_errors") == Some(errors) && ReadFloats(lib, errors) == Some(RepairFloats(d.errors))
    requires Lookup(ms, "original_probabilities") == When(|d.originals| > 0, originals) && ReadDists(lib, originals) == Some(RepairDists(d.originals))
    requires Lookup(ms, "llm_attempts") == Some(attempts) && ReadAttempts(lib, attempts) == Some(reread)
    requires Bind(Lookup(ms, "retry_reasons"), ReadReasons) == Some(RepairReasons(d.reasons))
    requires Lookup(ms, "sdk_retry_count") == When(d.sdkRetries != 0, IntTree(d.sdkRetries)) && IntOf(IntTree(d.sdkRetries)) == Some(d.sdkRetries)
    ensures ReadDebug(lib, Obj(ms)) == Some(Debug(d.maxError, d.invalidProbs, RepairFloats(d.errors), RepairDists(d.originals), reread,
                                                  RepairReasons(d.reasons), d.sdkRetries))
  {
    assert d.originals == [] ==> RepairDists(d.originals) == [];
  }

  lemma DebugStable(lib: Library, d: Debug)
    requires Faithful(lib) && DebugFits(d) && DebugTree(lib, d).Some?
    ensures DebugTree(lib, DebugBack(lib, d)) == DebugTree(lib, d)
  {
    FloatsRoundTrip(lib, d.errors);
    DistsRoundTrip(lib, d.originals);
    AttemptsRoundTrip(lib, d.attempts);
    ReasonsRoundTrip(d.reasons);
  }

  // ----- the report -----

  /** MarshalJSON, as a tree: None for a Report that it refuses. */
  function Write(lib: Library, r: Report): Option<Tree> {
    match DebugTree(lib, r.debug)
    case None => None
    case Some(debug) => Some(Obj([("usage", Obj(Present(UsageFields(lib, r.usage)))), ("debug", debug)]))
  }

  /** UnmarshalJSON of a tree. */
  function Read(lib: Library, t: Tree): Option<Report> {
    if !t.Obj? then None
    else
      var usage := match Lookup(t.members, "usage") case None => None case Some(v) => ReadUsage(lib, v);
      var debug := match Lookup(t.members, "debug") case None => None case Some(v) => ReadDebug(lib, v);
      if usage.Some? && debug.Some? then Some(Report(usage.value, debug.value)) else None
  }

  /** The two members of a Report, found by name. */
  lemma ReadTwo(lib: Library, usage: Tree, debug: Tree)
    ensures Read(lib, Obj([("usage", usage), ("debug", debug)]))
         == if ReadUsage(lib, usage).Some? && ReadDebug(lib, debug).Some?
            then Some(Report(ReadUsage(lib, usage).value, ReadDebug(lib, debug).value)) else None
  {
    var ms := [("usage", usage), ("debug", debug)];
    assert ms[..1] == [ms[0]];
    assert Lookup(ms[..1], "usage") == Some(usage);
    assert Lookup(ms, "usage") == Some(usage) && Lookup(ms, "debug") == Some(debug);
  }

  /** A Report that is written reads back, and is written as it was; its usage, its numbers and its counts are the same. */
  lemma ReportRoundTrips(lib: Library, r: Report) returns (back: Report)
    requires Faithful(lib) && UsageFits(r.usage) && DebugFits(r.debug) && Write(lib, r).Some?
    requires -Latency.LIMIT < r.usage.latency < Latency.LIMIT
    ensures Read(lib, Write(lib, r).value) == Some(back)
    ensures Write(lib, back) == Write(lib, r)
    ensures back.usage == r.usage && back.debug == DebugBack(lib, r.debug)
  {
    back := Report(r.usage, DebugBack(lib, r.debug));
    ReadTwo(lib, Obj(Present(UsageFields(lib, r.usage))), DebugTree(lib, r.debug).value);
    UsageReads(lib, r.usage);
    DebugReads(lib, r.debug);
    DebugStable(lib, r.debug);
  }
}
