/**
  The second pass over the body, which finds the bytes of the structured
  legend levels that the visitor could only mark (internal/codec/lazy.go).
*/
module Lazy {
  import opened Basics
  import opened Json
  import opened Wire
  import opened Folds
  import opened Machine
  import opened TreeDecode

  // ----- what the second pass has to find -----

  /** The bytes of the last member of ms that spells level l, "" when none does. */
  function LastRaw(ms: seq<Member>, l: nat): string {
    if ms == [] then ""
    else if LevelOf(ms[|ms| - 1].key) == Some(l) then RawOf(ms[|ms| - 1].value)
    else LastRaw(ms[..|ms| - 1], l)
  }

  /** b is a with the bytes found for every structured level. */
  ghost predicate Resolves(a: seq<(nat, Content)>, b: seq<(nat, Content)>, ms: seq<Member>) {
    && |a| == |b|
    && (forall j :: 0 <= j < |a| ==> a[j].0 == b[j].0)
    && (forall j, k :: 0 <= j < k < |a| ==> a[j].0 != a[k].0)
    && (forall j :: 0 <= j < |a| ==> LastRaw(ms, a[j].0) != "")
    && (forall j :: 0 <= j < |a| ==> b[j].1 == if a[j].1 == Marked then Bytes(LastRaw(ms, a[j].0)) else a[j].1)
  }

  lemma {:induction false} SameIndex(a: seq<(nat, Content)>, b: seq<(nat, Content)>, k: nat)
    requires |a| == |b| && forall j :: 0 <= j < |a| ==> a[j].0 == b[j].0
    ensures IndexOf(a, k) == IndexOf(b, k)
    decreases |a|
  {
    if a != [] {
      SameIndex(a[..|a| - 1], b[..|b| - 1], k);
    }
  }

  /** Folding a legend keeps, for each structured level, the bytes of that level's last member. */
  lemma {:induction false} FoldResolves(ms: seq<Member>)
    ensures Resolves(FoldEntries(LegendPairs(ms, false), LevelOf), FoldEntries(LegendPairs(ms, true), LevelOf), ms)
    decreases |ms|
  {
    if ms != [] {
      var init := ms[..|ms| - 1];
      FoldResolves(init);
      FoldLast(ms, false);
      FoldLast(ms, true);
      NextResolves(FoldEntries(LegendPairs(init, false), LevelOf), FoldEntries(LegendPairs(init, true), LevelOf), ms);
    }
  }

  /** a with the last member of ms folded in. */
  function WithLast(a: seq<(nat, Content)>, ms: seq<Member>, resolved: bool): seq<(nat, Content)>
    requires ms != []
  {
    match LevelOf(ms[|ms| - 1].key)
    case None => a
    case Some(l) => PutEntry(a, l, LegendPair(ms[|ms| - 1], resolved).val)
  }

  lemma FoldLast(ms: seq<Member>, resolved: bool)
    requires ms != []
    ensures FoldEntries(LegendPairs(ms, resolved), LevelOf) ==
            WithLast(FoldEntries(LegendPairs(ms[..|ms| - 1], resolved), LevelOf), ms, resolved)
  {
    var p := LegendPairs(ms, resolved);
    assert p[..|p| - 1] == LegendPairs(ms[..|ms| - 1], resolved);
  }

  lemma NextResolves(a: seq<(nat, Content)>, b: seq<(nat, Content)>, ms: seq<Member>)
    requires ms != [] && Resolves(a, b, ms[..|ms| - 1])
    ensures Resolves(WithLast(a, ms, false), WithLast(b, ms, true), ms)
  {
    match LevelOf(ms[|ms| - 1].key)
    case None =>
    case Some(l) =>
      SameIndex(a, b, l);
      PutResolves(a, b, ms, l);
  }

  /** One more member changes the last bytes of its own level only. */
  lemma LastRawStep(ms: seq<Member>, l: nat, other: nat)
    requires ms != [] && LevelOf(ms[|ms| - 1].key) == Some(l)
    ensures LastRaw(ms, other) == if other == l then RawOf(ms[|ms| - 1].value) else LastRaw(ms[..|ms| - 1], other)
  {
  }

  lemma PutResolves(a: seq<(nat, Content)>, b: seq<(nat, Content)>, ms: seq<Member>, l: nat)
    requires ms != [] && Resolves(a, b, ms[..|ms| - 1]) && LevelOf(ms[|ms| - 1].key) == Some(l)
    requires IndexOf(a, l) == IndexOf(b, l)
    ensures Resolves(PutEntry(a, l, LegendPair(ms[|ms| - 1], false).val), PutEntry(b, l, LegendPair(ms[|ms| - 1], true).val), ms)
  {
    var m := ms[|ms| - 1];
    var x, y := LegendPair(m, false).val, LegendPair(m, true).val;
    assert y == if x == Marked then Bytes(RawOf(m.value)) else x;
    var i := IndexOf(a, l);
    if i >= 0 {
      ResolvesHit(a, b, ms, l, i, x, y);
    } else {
      ResolvesMiss(a, b, ms, l, x, y);
    }
  }

  lemma ResolvesHit(a: seq<(nat, Content)>, b: seq<(nat, Content)>, ms: seq<Member>, l: nat, i: nat, x: Content, y: Content)
    requires ms != [] && Resolves(a, b, ms[..|ms| - 1]) && LevelOf(ms[|ms| - 1].key) == Some(l)
    requires i < |a| && a[i].0 == l && y == if x == Marked then Bytes(RawOf(ms[|ms| - 1].value)) else x
    ensures Resolves(a[i := (l, x)], b[i := (l, y)], ms)
  {
    forall j | 0 <= j < |a|
      ensures LastRaw(ms, a[j].0) == if j == i then RawOf(ms[|ms| - 1].value) else LastRaw(ms[..|ms| - 1], a[j].0)
    {
      LastRawStep(ms, l, a[j].0);
    }
  }

  lemma ResolvesMiss(a: seq<(nat, Content)>, b: seq<(nat, Content)>, ms: seq<Member>, l: nat, x: Content, y: Content)
    requires ms != [] && Resolves(a, b, ms[..|ms| - 1]) && LevelOf(ms[|ms| - 1].key) == Some(l)
    requires (forall j :: 0 <= j < |a| ==> a[j].0 != l) && y == if x == Marked then Bytes(RawOf(ms[|ms| - 1].value)) else x
    ensures Resolves(a + [(l, x)], b + [(l, y)], ms)
  {
    LastRawStep(ms, l, l);
    forall j | 0 <= j < |a|
      ensures LastRaw(ms, a[j].0) == LastRaw(ms[..|ms| - 1], a[j].0)
    {
      LastRawStep(ms, l, a[j].0);
    }
  }

  // ----- the pass -----

  /** The legend levels of e that wait for the pass. */
  function Structured(legend: seq<(nat, Content)>): nat {
    if legend == [] then 0 else Structured(legend[..|legend| - 1]) + if legend[|legend| - 1].1 == Marked then 1 else 0
  }

  function LegendOf(e: Entry): seq<(nat, Content)> {
    if e.outcome.Known? && e.outcome.answer.Score? then e.outcome.answer.legend else []
  }

  lemma {:induction false} StructuredNone(legend: seq<(nat, Content)>)
    ensures Structured(legend) == 0 <==> forall j :: 0 <= j < |legend| ==> legend[j].1 != Marked
  {
    if legend != [] {
      StructuredNone(legend[..|legend| - 1]);
    }
  }

  /** The lazy pass's scratch: the value of each marked answer, the bytes found, and where each answer's bytes start. */
  class Pass {
    var nodes: seq<Option<Json>>
    var raws: seq<string>
    var rawBase: seq<nat>

    constructor ()
      ensures nodes == [] && raws == [] && rawBase == []
    {
      nodes, raws, rawBase := [], [], [];
    }

    /** The last member of an object called key. */
    method LastMember(j: Json, key: string) returns (found: Option<Json>, err: bool)
      ensures err <==> !j.Obj?
      ensures !err ==> found == Last(j.members, key)
    {
      found := None;
      if !j.Obj? {
        return None, true;
      }
      var ms := j.members;
      for n := 0 to |ms|
        invariant found == Last(ms[..n], key)
      {
        assert ms[..n + 1][..n] == ms[..n];
        if ms[n].key == key {
          found := Some(ms[n].value);
        }
      }
      assert ms[..|ms|] == ms;
      err := false;
    }

    /** The members of answers whose entries are marked: for each, its last value. */
    method FindNodes(ms: seq<Member>, entries: seq<Entry>)
      requires forall a, b :: 0 <= a < b < |entries| ==> entries[a].name != entries[b].name
      modifies this`nodes
      ensures |nodes| == |entries|
      ensures forall i :: 0 <= i < |entries| && Waits(entries[i]) ==> nodes[i] == Last(ms, entries[i].name)
    {
      nodes := seq(|entries|, _ => None);
      for n := 0 to |ms|
        invariant |nodes| == |entries|
        invariant forall i :: 0 <= i < |entries| && Waits(entries[i]) ==>
                    nodes[i] == Last(ms[..n], entries[i].name)
      {
        assert ms[..n + 1][..n] == ms[..n];
        var i := Find(entries, ms[n].key);
        if i >= 0 && Waits(entries[i]) {
          nodes := nodes[i := Some(ms[n].value)];
        }
      }
      assert ms[..|ms|] == ms;
    }

    /** The index of a long legend's levels. */
    method IndexLevels(legend: seq<(nat, Content)>) returns (index: map<nat, nat>)
      requires forall a, b :: 0 <= a < b < |legend| ==> legend[a].0 != legend[b].0
      ensures Indexes(legend, index)
    {
      index := map[];
      for j := 0 to |legend|
        invariant forall k :: 0 <= k < j ==> legend[k].0 in index && index[legend[k].0] == k
        invariant forall l :: l in index ==> index[l] < j && legend[index[l]].0 == l
      {
        index := index[legend[j].0 := j];
      }
    }

    /** The position of level l in the legend, hashed or scanned; -1 when it is not there. */
    method Position(legend: seq<(nat, Content)>, l: nat, useMap: bool, index: map<nat, nat>) returns (j: int)
      requires useMap ==> Indexes(legend, index)
      ensures -1 <= j < |legend|
      ensures j >= 0 ==> legend[j].0 == l
      ensures j < 0 ==> forall k :: 0 <= k < |legend| ==> legend[k].0 != l
    {
      if useMap {
        return if l in index then index[l] else -1;
      }
      for k := 0 to |legend|
        invariant forall m :: 0 <= m < k ==> legend[m].0 != l
      {
        if legend[k].0 == l {
          return k;
        }
      }
      j := -1;
    }

    /** One member of a legend: a structured level it spells takes its bytes. */
    method ReadMember(m: Member, legend: seq<(nat, Content)>, base: nat, useMap: bool, index: map<nat, nat>)
      requires base + |legend| == |raws|
      requires useMap ==> Indexes(legend, index)
      requires forall a, b :: 0 <= a < b < |legend| ==> legend[a].0 != legend[b].0
      modifies this`raws
      ensures |raws| == |old(raws)| && raws[..base] == old(raws[..base])
      ensures forall j :: 0 <= j < |legend| && legend[j].1 == Marked ==>
                raws[base + j] == if LevelOf(m.key) == Some(legend[j].0) then RawOf(m.value) else old(raws)[base + j]
    {
      var level := LevelOf(m.key);
      if level.Some? {
        var j := Position(legend, level.value, useMap, index);
        if j >= 0 && legend[j].1 == Marked {
          raws := raws[base + j := RawOf(m.value)];
        }
      }
    }

    /** Every structured level that a member of the legend spells takes that member's bytes, the last one's in the end. */
    method ReadMembers(ms: seq<Member>, legend: seq<(nat, Content)>, base: nat)
      requires base + |legend| == |raws|
      requires forall j :: base <= j < |raws| ==> raws[j] == ""
      requires forall a, b :: 0 <= a < b < |legend| ==> legend[a].0 != legend[b].0
      modifies this`raws
      ensures |raws| == |old(raws)| && raws[..base] == old(raws[..base])
      ensures forall j :: 0 <= j < |legend| && legend[j].1 == Marked ==> raws[base + j] == LastRaw(ms, legend[j].0)
    {
      var useMap := |legend| > LINEAR_FOLD;
      var index: map<nat, nat> := map[];
      if useMap {
        index := IndexLevels(legend);
      }
      for n := 0 to |ms|
        invariant |raws| == |old(raws)| && raws[..base] == old(raws[..base])
        invariant forall j :: 0 <= j < |legend| && legend[j].1 == Marked ==> raws[base + j] == LastRaw(ms[..n], legend[j].0)
      {
        assert ms[..n + 1][..n] == ms[..n];
        ReadMember(ms[n], legend, base, useMap, index);
      }
      assert ms[..|ms|] == ms;
    }

    /** The bytes of one answer's structured levels, stored after the bytes found so far. */
    method ReadLegend(ms: seq<Member>, legend: seq<(nat, Content)>) returns (missed: bool)
      requires forall a, b :: 0 <= a < b < |legend| ==> legend[a].0 != legend[b].0
      modifies this`raws
      ensures |raws| == |old(raws)| + |legend| && raws[..|old(raws)|] == old(raws)
      ensures forall j :: 0 <= j < |legend| && legend[j].1 == Marked ==> raws[|old(raws)| + j] == LastRaw(ms, legend[j].0)
      ensures missed <==> exists j :: 0 <= j < |legend| && legend[j].1 == Marked && LastRaw(ms, legend[j].0) == ""
    {
      var base := |raws|;
      raws := raws + seq(|legend|, _ => "");
      ReadMembers(ms, legend, base);
      for j := 0 to |legend|
        invariant forall k :: 0 <= k < j && legend[k].1 == Marked ==> LastRaw(ms, legend[k].0) != ""
      {
        if legend[j].1 == Marked && raws[base + j] == "" {
          return true;
        }
      }
      missed := false;
    }

    /** One marked answer: its last legend member, read for the bytes of its structured levels. */
    method ReadAnswer(ms: seq<Member>, e: Entry, node: Option<Json>) returns (err: Option<Reason>)
      requires VisitedEntry(ms, e) && Waits(e) && node == Last(ms, e.name)
      modifies this`raws
      ensures err.None?
      ensures old(raws) <= raws
      ensures Found(ms, e, raws, |old(raws)|)
    {
      LegendVisited(ms, e);
      var legend, notObject := LastMember(node.value, "legend");
      if notObject || !legend.value.Obj? {
        return Some(NotObject);
      }
      FoldResolves(legend.value.members);
      var missed := ReadLegend(legend.value.members, LegendOf(e));
      if missed {
        return Some(LazyMissed);
      }
      err := None;
    }

    /** The marked answers, one after the other. */
    method ReadAnswers(ms: seq<Member>, entries: seq<Entry>) returns (err: Option<Reason>)
      requires |nodes| == |entries|
      requires forall i :: 0 <= i < |entries| ==> VisitedEntry(ms, entries[i])
      requires forall i :: 0 <= i < |entries| && Waits(entries[i]) ==> nodes[i] == Last(ms, entries[i].name)
      modifies this`raws, this`rawBase
      ensures err.None?
      ensures |rawBase| == |entries| && AllFound(ms, entries, raws, rawBase)
    {
      raws, rawBase := [], [];
      for i := 0 to |entries|
        invariant |rawBase| == i && AllFound(ms, entries, raws, rawBase)
      {
        ghost var before := raws;
        var base := |raws|;
        if Waits(entries[i]) {
          err := ReadAnswer(ms, entries[i], nodes[i]);
          if err.Some? {
            return;
          }
        } else {
          NotWaiting(ms, entries[i], raws, base);
        }
        AllFoundGrows(ms, entries, before, raws, rawBase, base);
        rawBase := rawBase + [base];
      }
      err := None;
    }

    /** lazy */
    method FindBytes(src: Json, entries: seq<Entry>) returns (err: Option<Reason>)
      requires Visited(src, entries)
      modifies this
      ensures err.None?
      ensures |rawBase| == |entries| && AllFound(AnswerMembers(src), entries, raws, rawBase)
    {
      var answers, bad := LastMember(src, "answers");
      if bad || !answers.value.Obj? {
        return Some(NotObject);
      }
      FindNodes(answers.value.members, entries);
      err := ReadAnswers(answers.value.members, entries);
    }
  }

  /** The bytes of the first |bases| answers are found. */
  predicate AllFound(ms: seq<Member>, entries: seq<Entry>, raws: seq<string>, bases: seq<nat>) {
    |bases| <= |entries| && forall i :: 0 <= i < |bases| ==> Found(ms, entries[i], raws, bases[i])
  }

  lemma AllFoundGrows(ms: seq<Member>, entries: seq<Entry>, before: seq<string>, raws: seq<string>, bases: seq<nat>, base: nat)
    requires AllFound(ms, entries, before, bases) && before <= raws
    requires |bases| < |entries| && Found(ms, entries[|bases|], raws, base)
    ensures AllFound(ms, entries, raws, bases + [base])
  {
    forall i | 0 <= i < |bases|
      ensures Found(ms, entries[i], raws, bases[i])
    {
      FoundGrows(ms, entries[i], before, raws, bases[i]);
    }
  }

  /** e has structured levels. */
  predicate Waits(e: Entry) {
    Structured(LegendOf(e)) > 0
  }

  lemma NotWaiting(ms: seq<Member>, e: Entry, raws: seq<string>, base: nat)
    requires !Waits(e)
    ensures Found(ms, e, raws, base)
  {
    StructuredNone(LegendOf(e));
  }

  lemma FoundGrows(ms: seq<Member>, e: Entry, before: seq<string>, raws: seq<string>, base: nat)
    requires Found(ms, e, before, base) && before <= raws
    ensures Found(ms, e, raws, base)
  {
  }

  predicate Indexes(legend: seq<(nat, Content)>, index: map<nat, nat>) {
    && (forall k :: 0 <= k < |legend| ==> legend[k].0 in index)
    && (forall l <- index :: index[l] < |legend| && legend[index[l]].0 == l)
  }

  /** The members of the last answers member of the body. */
  function AnswerMembers(src: Json): seq<Member> {
    if !src.Obj? then []
    else match Last(src.members, "answers") case Some(Obj(ms, _)) => ms case _ => []
  }

  /** e is what the visitor keeps of the answer of its name in ms. */
  ghost predicate VisitedEntry(ms: seq<Member>, e: Entry) {
    Last(ms, e.name).Some? && e.outcome == TreeOutcome(e.name, Last(ms, e.name).value, false)
  }

  /** The visitor has read src: its answer set is the one of the last answers object. */
  ghost predicate Visited(src: Json, entries: seq<Entry>) {
    && src.Obj?
    && Last(src.members, "answers").Some? && Last(src.members, "answers").value.Obj?
    && (forall a, b :: 0 <= a < b < |entries| ==> entries[a].name != entries[b].name)
    && (forall i :: 0 <= i < |entries| ==> VisitedEntry(AnswerMembers(src), entries[i]))
  }

  lemma TreeVisited(src: Json)
    requires src.Obj? && Last(src.members, "answers").Some? && Last(src.members, "answers").value.Obj?
    ensures Visited(src, TreeAnswers(AnswerMembers(src), false))
  {
    var ms := AnswerMembers(src);
    NamesDistinct(ms);
    forall i | 0 <= i < |Names(ms)|
      ensures VisitedEntry(ms, TreeAnswers(ms, false)[i])
    {
      LastInNames(ms, Names(ms)[i]);
    }
  }

  /** The members of the legend of the answer called name. */
  function LegendMembersOf(ms: seq<Member>, name: string): seq<Member> {
    match LastOr(ms, name)
    case Obj(inner, _) => ObjectAt(inner, FLegend)
    case _ => []
  }

  /** The bytes of e's structured levels are in raws from base on. */
  predicate Found(ms: seq<Member>, e: Entry, raws: seq<string>, base: nat) {
    var legend := LegendOf(e);
    forall j :: 0 <= j < |legend| && legend[j].1 == Marked ==>
      base + j < |raws| && raws[base + j] == LastRaw(LegendMembersOf(ms, e.name), legend[j].0)
  }

  /** A score's members all pass, so its legend does. */
  lemma LegendPasses(name: string, ms: seq<Member>)
    requires FirstFieldFailure(name, ms, KindScore, Schema(KindScore)).None?
    ensures FieldFailure(name, ms, KindScore, FLegend).None?
  {
    var fields := Schema(KindScore);
    assert fields[1..][1..] == [FLegend, FProbs];
    assert FirstFieldFailure(name, ms, KindScore, fields) ==
           OrElse(FieldFailure(name, ms, KindScore, FScore), FirstFieldFailure(name, ms, KindScore, fields[1..]));
    assert FirstFieldFailure(name, ms, KindScore, fields[1..]) ==
           OrElse(FieldFailure(name, ms, KindScore, FConfidence), FirstFieldFailure(name, ms, KindScore, fields[1..][1..]));
  }

  /** An answer the visitor kept as a score has a legend object, whose fold it holds. */
  lemma ScoreHasLegend(name: string, j: Json)
    requires TreeOutcome(name, j, false).Known? && TreeOutcome(name, j, false).answer.Score?
    ensures j.Obj? && Last(j.members, "legend").Some? && Last(j.members, "legend").value.Obj?
    ensures TreeOutcome(name, j, false).answer.legend == FoldEntries(LegendPairs(Last(j.members, "legend").value.members, false), LevelOf)
    ensures TreeOutcome(name, j, true) ==
            Known(TreeOutcome(name, j, false).answer.(legend := FoldEntries(LegendPairs(Last(j.members, "legend").value.members, true), LevelOf)))
  {
    var typ := Last(j.members, "type").value.s;
    assert ParseKind(typ) == Some(KindScore);
    LegendPasses(name, j.members);
  }

  lemma WaitsIsScore(e: Entry)
    requires Waits(e)
    ensures e.outcome.Known? && e.outcome.answer.Score?
  {
  }

  lemma LegendMembersAt(ms: seq<Member>, name: string)
    requires Last(ms, name).Some? && Last(ms, name).value.Obj?
    requires Last(Last(ms, name).value.members, "legend").Some? && Last(Last(ms, name).value.members, "legend").value.Obj?
    ensures LegendMembersOf(ms, name) == Last(Last(ms, name).value.members, "legend").value.members
  {
  }

  lemma LegendVisited(ms: seq<Member>, e: Entry)
    requires VisitedEntry(ms, e) && Waits(e)
    ensures Last(ms, e.name).value.Obj?
    ensures var legend := Last(Last(ms, e.name).value.members, "legend");
            && legend.Some? && legend.value.Obj?
            && LegendOf(e) == FoldEntries(LegendPairs(legend.value.members, false), LevelOf)
            && LegendMembersOf(ms, e.name) == legend.value.members
  {
    WaitsIsScore(e);
    ScoreHasLegend(e.name, Last(ms, e.name).value);
    LegendMembersAt(ms, e.name);
  }
}
