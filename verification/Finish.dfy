/**
  From a traversed body to its result (internal/codec/decode.go): which
  failure comes first, what is told of unknown kinds, and the answers with
  the bytes of their structured levels.
*/
module Finish {
  import opened Basics
  import opened Json
  import opened Wire
  import opened Folds
  import opened Machine
  import opened TreeDecode
  import opened DecodeProof
  import opened Lazy

  // ----- the skipped answers -----

  const MAX_SKIPPED: nat := 8

  /** The answers of unknown kinds: how many, and the first few by name. */
  datatype Skipped = Skipped(first: seq<(string, string)>, count: nat)

  function Add(s: Skipped, name: string, typ: string): Skipped {
    Skipped(if s.count < MAX_SKIPPED then s.first + [(name, typ)] else s.first, s.count + 1)
  }

  /** all, as a decode reports them. */
  function Reported(all: seq<(string, string)>): Skipped {
    Skipped(all[..Min(|all|, MAX_SKIPPED)], |all|)
  }

  lemma ReportedAdd(all: seq<(string, string)>, name: string, typ: string)
    ensures Add(Reported(all), name, typ) == Reported(all + [(name, typ)])
  {
    var more := all + [(name, typ)];
    if |all| < MAX_SKIPPED {
      assert more[..|more|] == all[..|all|] + [(name, typ)];
    } else {
      assert more[..MAX_SKIPPED] == all[..MAX_SKIPPED];
    }
  }

  predicate TypeFails(e: Entry) {
    e.outcome.Failed? && e.outcome.failure.path.member == "type"
  }

  /** The pre-pass over the answers: the first type failure, and the unknown kinds before it. */
  method TypePass(entries: seq<Entry>) returns (failure: Option<Failure>, skipped: Skipped)
    ensures failure == FirstTypeFailure(entries)
    ensures skipped == Reported(SkippedAnswers(entries))
  {
    skipped := Skipped([], 0);
    ghost var seen: seq<(string, string)> := [];
    for i := 0 to |entries|
      invariant FirstTypeFailure(entries) == FirstTypeFailure(entries[i..])
      invariant SkippedAnswers(entries) == seen + SkippedAnswers(entries[i..])
      invariant skipped == Reported(seen)
    {
      var e := entries[i];
      assert entries[i..][0] == e && entries[i..][1..] == entries[i + 1..];
      if TypeFails(e) {
        return Some(e.outcome.failure), skipped;
      }
      if e.outcome.Unmodelled? {
        ReportedAdd(seen, e.name, e.outcome.typ);
        skipped := Add(skipped, e.name, e.outcome.typ);
        seen := seen + [(e.name, e.outcome.typ)];
      }
    }
    failure := None;
  }

  // ----- the top level -----

  /** The switch over the top-level members. */
  method TopFailureOf(t: Top) returns (failure: Option<Failure>)
    ensures forall w: V, ms :: w.top == t && TopHolds(w, ms) ==>
              failure == OrElse(ModelFailure(ms), OrElse(UsageFailure(ms), AnswersFailure(ms)))
  {
    if !t.hasModel {
      failure := Some(TopFailure("model", "", Missing));
    } else if t.modelErr.Some? {
      failure := t.modelErr;
    } else if !t.hasUsage {
      failure := Some(TopFailure("usage", "", Missing));
    } else if t.usageErr.Some? {
      failure := t.usageErr;
    } else if t.inBad {
      failure := Some(TopFailure("usage", "input_tokens", NotCount));
    } else if t.outBad {
      failure := Some(TopFailure("usage", "output_tokens", NotCount));
    } else {
      failure := t.answersErr;
    }
  }

  /** The first failed answer, and whether a level of a known one is structured. */
  method EntryPass(entries: seq<Entry>) returns (failure: Option<Failure>, known: nat, structured: nat)
    ensures failure == FirstEntryFailure(entries)
    ensures failure.None? ==> known == |KnownAnswers(entries)|
    ensures failure.None? ==> (structured == 0 <==> forall i :: 0 <= i < |entries| ==> !Waits(entries[i]))
  {
    known, structured := 0, 0;
    for i := 0 to |entries|
      invariant FirstEntryFailure(entries) == FirstEntryFailure(entries[i..])
      invariant known + |KnownAnswers(entries[i..])| == |KnownAnswers(entries)|
      invariant structured == 0 <==> forall k :: 0 <= k < i ==> !Waits(entries[k])
    {
      var e := entries[i];
      assert entries[i..][0] == e && entries[i..][1..] == entries[i + 1..];
      if e.outcome.Failed? {
        return Some(e.outcome.failure), known, structured;
      }
      if e.outcome.Known? {
        known := known + 1;
        structured := structured + Structured(LegendOf(e));
      }
    }
    failure := None;
  }

  // ----- the answers' bytes -----

  /** legend with the bytes of its structured levels, found in raws from base on. */
  function WithBytes(legend: seq<(nat, Content)>, raws: seq<string>, base: nat): (r: seq<(nat, Content)>)
    requires forall j :: 0 <= j < |legend| && legend[j].1 == Marked ==> base + j < |raws|
    ensures |r| == |legend|
    ensures forall j :: 0 <= j < |r| ==> r[j] == (legend[j].0, if legend[j].1 == Marked then Bytes(raws[base + j]) else legend[j].1)
  {
    seq(|legend|, j requires 0 <= j < |legend| => (legend[j].0, if legend[j].1 == Marked then Bytes(raws[base + j]) else legend[j].1))
  }

  /** The bytes the pass found are the bytes the tree has. */
  lemma BytesFound(ms: seq<Member>, e: Entry, raws: seq<string>, base: nat)
    requires VisitedEntry(ms, e) && Found(ms, e, raws, base)
    requires e.outcome.Known? && e.outcome.answer.Score?
    ensures TreeOutcome(e.name, Last(ms, e.name).value, true) == Known(e.outcome.answer.(legend := WithBytes(LegendOf(e), raws, base)))
  {
    var j := Last(ms, e.name).value;
    ScoreHasLegend(e.name, j);
    LegendMembersAt(ms, e.name);
    var inner := Last(j.members, "legend").value.members;
    FoldResolves(inner);
    assert WithBytes(LegendOf(e), raws, base) == FoldEntries(LegendPairs(inner, true), LevelOf);
  }

  /** Only a score's legend waits for bytes. */
  lemma ResolvedAlike(name: string, j: Json)
    requires var o := TreeOutcome(name, j, false); !(o.Known? && o.answer.Score?)
    ensures TreeOutcome(name, j, true) == TreeOutcome(name, j, false)
  {
  }

  /** r is e once its structured levels have the bytes the tree has. */
  ghost predicate HasBytes(ms: seq<Member>, e: Entry, r: Entry) {
    r == Entry(e.name, TreeOutcome(e.name, LastOr(ms, e.name), true))
  }

  /** One answer, as intern leaves it. */
  method TakeOne(ms: seq<Member>, e: Entry, raws: seq<string>, rawBase: seq<nat>, i: nat) returns (r: Entry)
    requires VisitedEntry(ms, e)
    requires Waits(e) ==> i < |rawBase| && Found(ms, e, raws, rawBase[i])
    ensures HasBytes(ms, e, r)
  {
    var base := 0;
    if Waits(e) {
      base := rawBase[i];
    } else {
      NotWaiting(ms, e, raws, base);
    }
    if e.outcome.Known? && e.outcome.answer.Score? {
      BytesFound(ms, e, raws, base);
      r := e.(outcome := Known(e.outcome.answer.(legend := WithBytes(e.outcome.answer.legend, raws, base))));
    } else {
      ResolvedAlike(e.name, LastOr(ms, e.name));
      r := e;
    }
  }

  ghost predicate AllHaveBytes(ms: seq<Member>, entries: seq<Entry>, es: seq<Entry>, n: nat)
    requires n <= |es| && n <= |entries|
  {
    forall i :: 0 <= i < n ==> HasBytes(ms, entries[i], es[i])
  }

  lemma OneMoreHasBytes(ms: seq<Member>, entries: seq<Entry>, es: seq<Entry>, e: Entry)
    requires |es| < |entries| && AllHaveBytes(ms, entries, es, |es|) && HasBytes(ms, entries[|es|], e)
    ensures AllHaveBytes(ms, entries, es + [e], |es| + 1)
  {
  }

  /** intern, as far as values go: every structured level takes its bytes. */
  method TakeBytes(ms: seq<Member>, entries: seq<Entry>, raws: seq<string>, rawBase: seq<nat>) returns (es: seq<Entry>)
    requires forall i :: 0 <= i < |entries| ==> VisitedEntry(ms, entries[i])
    requires forall i :: 0 <= i < |entries| && Waits(entries[i]) ==> i < |rawBase| && Found(ms, entries[i], raws, rawBase[i])
    ensures |es| == |entries| && AllHaveBytes(ms, entries, es, |es|)
  {
    es := [];
    for i := 0 to |entries|
      invariant |es| == i && AllHaveBytes(ms, entries, es, i)
    {
      assert VisitedEntry(ms, entries[i]);
      var e := TakeOne(ms, entries[i], raws, rawBase, i);
      OneMoreHasBytes(ms, entries, es, e);
      es := es + [e];
    }
  }

  /** The known answers, in order. */
  method KeepKnown(entries: seq<Entry>) returns (answers: seq<(string, Answer)>)
    ensures answers == KnownAnswers(entries)
  {
    answers := [];
    for i := 0 to |entries|
      invariant answers + KnownAnswers(entries[i..]) == KnownAnswers(entries)
    {
      var e := entries[i];
      assert entries[i..][0] == e && entries[i..][1..] == entries[i + 1..];
      if e.outcome.Known? {
        answers := answers + [(e.name, e.outcome.answer)];
      }
    }
  }

  lemma Resolved(ms: seq<Member>, entries: seq<Entry>, es: seq<Entry>)
    requires entries == TreeAnswers(ms, false) && |es| == |entries|
    requires forall i :: 0 <= i < |entries| ==> VisitedEntry(ms, entries[i])
    requires AllHaveBytes(ms, entries, es, |es|)
    ensures es == TreeAnswers(ms, true)
  {
    forall i | 0 <= i < |es|
      ensures es[i] == TreeAnswers(ms, true)[i]
    {
      assert VisitedEntry(ms, entries[i]);
    }
  }

  /** The answers a successful decode returns. */
  method BuildAnswers(src: Json, entries: seq<Entry>, structured: nat) returns (answers: seq<(string, Answer)>, err: Option<Reason>)
    requires src.Obj?
    requires Last(src.members, "answers").Some? ==> Last(src.members, "answers").value.Obj?
    requires entries == AnswersOf(src.members, false)
    requires structured == 0 <==> forall i :: 0 <= i < |entries| ==> !Waits(entries[i])
    ensures err.None? && answers == KnownAnswers(AnswersOf(src.members, true))
  {
    if Last(src.members, "answers").None? {
      return [], None;
    }
    var ms := AnswerMembers(src);
    TreeVisited(src);
    var pass := new Pass();
    if structured > 0 {
      err := pass.FindBytes(src, entries);
      if err.Some? {
        return [], err;
      }
    }
    var es := TakeBytes(ms, entries, pass.raws, pass.rawBase);
    Resolved(ms, entries, es);
    answers := KeepKnown(es);
    err := None;
  }

  /** finish */
  method FinishSystemOne(top: Top, entries: seq<Entry>, src: Json, ghost v: V) returns (r: Decoded<SystemOneResult>, skipped: Skipped)
    requires src.Obj? && TopHolds(v, src.members) && v.top == top && v.entries == entries
    ensures r == SystemOneOf(src.members)
    ensures skipped == Reported(SkippedAnswers(AnswersOf(src.members, false)))
  {
    var ms := src.members;
    var failure;
    failure, skipped := TypePass(entries);
    if failure.Some? {
      return Refused(failure.value), skipped;
    }
    failure := TopFailureOf(top);
    if failure.Some? {
      return Refused(failure.value), skipped;
    }
    var known, structured;
    failure, known, structured := EntryPass(entries);
    if failure.Some? {
      return Refused(failure.value), skipped;
    }
    var answers, err := BuildAnswers(src, entries, structured);
    match err {
      case Some(reason) => r := Refused(RootFailure(reason));
      case None => r := Decoded(SystemOneResult(top.model, top.usage, answers));
    }
  }

  /** finishModels */
  method FinishModels(c: Cards, ms: seq<Member>) returns (r: Decoded<seq<ModelCard>>)
    requires ListHolds(c, Last(ms, "models"))
    ensures r == ModelsOf(ms)
  {
    if !c.hasCards {
      r := Refused(TopFailure("models", "", Missing));
    } else if c.err.Some? {
      r := Refused(c.err.value);
    } else {
      r := Decoded(c.list);
    }
  }
}
