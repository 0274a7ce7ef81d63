/**
  Which bodies a Report holds as JSON (adapter/report.go): one pass over the
  body's tokens, with a stack of the member names seen in each open container.
*/
module Embeddable {
  import opened Basics
  import opened JsonTree

  const MAX_EMBED_DEPTH: nat := 1000
  const MAX_INT_DIGITS: nat := 4300

  /** A token of the body; depth counts the containers open around it. */
  datatype Token = Begin(isObject: bool, depth: nat) | End | Name(text: string) | Number(text: string) | Plain

  // ----- the tokens of a tree -----

  /** An object's last value is a part of its members. */
  lemma Smaller(ms: seq<(string, Tree)>)
    requires ms != []
    ensures (ms decreases to ms[|ms| - 1].1)
  {
    var m := ms[|ms| - 1];
    assert m in ms;
    assert (ms decreases to m);
  }

  function Tokens(j: Tree, depth: nat): seq<Token>
    decreases j, 1
  {
    match j
    case Num(text) => [Number(text)]
    case Arr(es) => [Begin(false, depth)] + ElemTokens(es, depth + 1) + [End]
    case Obj(ms) => [Begin(true, depth)] + MemberTokens(ms, depth + 1) + [End]
    case _ => [Plain]
  }

  function ElemTokens(es: seq<Tree>, depth: nat): seq<Token>
    decreases es, 0
  {
    if es == [] then [] else ElemTokens(es[..|es| - 1], depth) + Tokens(es[|es| - 1], depth)
  }

  function MemberTokens(ms: seq<(string, Tree)>, depth: nat): seq<Token>
    decreases ms, 0
  {
    if ms == [] then []
    else
      Smaller(ms);
      MemberTokens(ms[..|ms| - 1], depth) + ([Name(ms[|ms| - 1].0)] + Tokens(ms[|ms| - 1].1, depth))
  }

  // ----- the rule -----

  /** An integer of at most MAX_INT_DIGITS digits, or no integer. */
  predicate NumberFits(text: string) {
    '.' in text || 'e' in text || 'E' in text || |if text != "" && text[0] == '-' then text[1..] else text| <= MAX_INT_DIGITS
  }

  function NamesOf(ms: seq<(string, Tree)>): set<string> {
    set i | 0 <= i < |ms| :: ms[i].0
  }

  /** j, with depth containers around it, nests no deeper than allowed, has no long integer and no name twice in one object. */
  predicate Fits(j: Tree, depth: nat)
    decreases j, 1
  {
    match j
    case Num(text) => NumberFits(text)
    case Arr(es) => depth < MAX_EMBED_DEPTH && ElemsFit(es, depth + 1)
    case Obj(ms) => depth < MAX_EMBED_DEPTH && MembersFit(ms, depth + 1)
    case _ => true
  }

  predicate ElemsFit(es: seq<Tree>, depth: nat)
    decreases es, 0
  {
    es == [] || (ElemsFit(es[..|es| - 1], depth) && Fits(es[|es| - 1], depth))
  }

  predicate MembersFit(ms: seq<(string, Tree)>, depth: nat)
    decreases ms, 0
  {
    if ms == [] then true
    else
      Smaller(ms);
      MembersFit(ms[..|ms| - 1], depth) && ms[|ms| - 1].0 !in NamesOf(ms[..|ms| - 1]) && Fits(ms[|ms| - 1].1, depth)
  }

  /** Members fit when no name comes twice and every value fits. */
  lemma {:induction false} MembersFitIs(ms: seq<(string, Tree)>, depth: nat)
    ensures MembersFit(ms, depth) <==>
            && (forall i, j :: 0 <= i < j < |ms| ==> ms[i].0 != ms[j].0)
            && (forall i :: 0 <= i < |ms| ==> Fits(ms[i].1, depth))
    decreases |ms|
  {
    if ms != [] {
      var n := |ms| - 1;
      MembersFitIs(ms[..n], depth);
      assert forall i :: 0 <= i < n ==> ms[..n][i] == ms[i];
      assert ms[n].0 in NamesOf(ms[..n]) <==> exists i :: 0 <= i < n && ms[i].0 == ms[n].0;
    }
  }

  // ----- the pass -----

  /** The names seen in each open container, None for an array. */
  type Stack = seq<Option<set<string>>>

  /** Refused is an answer; Panicked is a token that no body has there. */
  datatype Pass = Open(names: Stack) | Refused | Panicked

  function Step(names: Stack, t: Token): Pass {
    match t
    case Begin(isObject, depth) => if depth >= MAX_EMBED_DEPTH then Refused else Open(names + [if isObject then Some({}) else None])
    case End => if names == [] then Panicked else Open(names[..|names| - 1])
    case Name(text) =>
      if names == [] || names[|names| - 1].None? then Panicked
      else if text in names[|names| - 1].value then Refused
      else Open(names[|names| - 1 := Some(names[|names| - 1].value + {text})])
    case Number(text) => if NumberFits(text) then Open(names) else Refused
    case Plain => Open(names)
  }

  function Run(names: Stack, ts: seq<Token>): Pass
    decreases |ts|
  {
    if ts == [] then Open(names)
    else
      var p := Run(names, ts[..|ts| - 1]);
      if p.Open? then Step(p.names, ts[|ts| - 1]) else p
  }

  lemma {:induction false} RunConcat(names: Stack, a: seq<Token>, b: seq<Token>)
    ensures Run(names, a + b) == if Run(names, a).Open? then Run(Run(names, a).names, b) else Run(names, a)
    decreases |b|
  {
    if b == [] {
      assert a + b == a;
    } else {
      RunConcat(names, a, b[..|b| - 1]);
      assert (a + b)[..|a + b| - 1] == a + b[..|b| - 1];
    }
  }

  lemma RunOne(names: Stack, t: Token)
    ensures Run(names, [t]) == Step(names, t)
  {
    assert [t][..0] == [];
    assert Run(names, []) == Open(names);
  }

  /** The pass over ts ends with the stack after, when they fit, and refuses them otherwise. */
  predicate Passes(names: Stack, ts: seq<Token>, after: Stack, fits: bool) {
    Run(names, ts) == if fits then Open(after) else Refused
  }

  /** Over a tree's tokens the pass ends where it began exactly when the tree fits, and refuses it otherwise. */
  lemma {:induction false} TreePasses(j: Tree, names: Stack)
    ensures Passes(names, Tokens(j, |names|), names, Fits(j, |names|))
    decreases j, 1
  {
    match j
    case Arr(es) =>
      ElemsPass(es, names + [None]);
      Opens(names, false, ElemTokens(es, |names| + 1), None, ElemsFit(es, |names| + 1));
    case Obj(ms) =>
      MembersPass(ms, names);
      Opens(names, true, MemberTokens(ms, |names| + 1), Some(NamesOf(ms)), MembersFit(ms, |names| + 1));
    case Num(text) => RunOne(names, Number(text));
    case _ => RunOne(names, Plain);
  }

  /** An object or an array around tokens that leave top on the stack. */
  lemma Opens(names: Stack, isObject: bool, inside: seq<Token>, top: Option<set<string>>, fits: bool)
    requires Passes(names + [if isObject then Some({}) else None], inside, names + [top], fits)
    ensures Passes(names, [Begin(isObject, |names|)] + inside + [End], names, |names| < MAX_EMBED_DEPTH && fits)
  {
    Container(names, Begin(isObject, |names|), inside, names + [if isObject then Some({}) else None], names + [top], fits);
  }

  /** A container: what opens it, its inside and its end. */
  lemma Container(names: Stack, begin: Token, inside: seq<Token>, inner: Stack, after: Stack, fits: bool)
    requires Step(names, begin) == (if |names| >= MAX_EMBED_DEPTH then Refused else Open(inner))
    requires Passes(inner, inside, after, fits)
    requires |after| == |names| + 1 && after[..|names|] == names
    ensures Passes(names, [begin] + inside + [End], names, |names| < MAX_EMBED_DEPTH && fits)
  {
    RunOne(names, begin);
    RunConcat(names, [begin], inside);
    RunConcat(names, [begin] + inside, [End]);
    RunOne(after, End);
  }

  lemma {:induction false} ElemsPass(es: seq<Tree>, names: Stack)
    ensures Passes(names, ElemTokens(es, |names|), names, ElemsFit(es, |names|))
    decreases es, 0
  {
    if es != [] {
      var n := |es| - 1;
      ElemsPass(es[..n], names);
      TreePasses(es[n], names);
      RunConcat(names, ElemTokens(es[..n], |names|), Tokens(es[n], |names|));
    }
  }

  lemma {:induction false} MembersPass(ms: seq<(string, Tree)>, outer: Stack)
    ensures Passes(outer + [Some({})], MemberTokens(ms, |outer| + 1), outer + [Some(NamesOf(ms))], MembersFit(ms, |outer| + 1))
    decreases ms, 0
  {
    var start, d := outer + [Some({})], |outer| + 1;
    if ms == [] {
      assert NamesOf(ms) == {};
    } else {
      var n := |ms| - 1;
      var init, name, value := ms[..n], ms[n].0, ms[n].1;
      Smaller(ms);
      MembersPass(init, outer);
      var seen, now := outer + [Some(NamesOf(init))], outer + [Some(NamesOf(ms))];
      NamesGrow(ms);
      RunOne(seen, Name(name));
      TreePasses(value, now);
      RunConcat(start, MemberTokens(init, d), [Name(name)] + Tokens(value, d));
      RunConcat(seen, [Name(name)], Tokens(value, d));
      assert name !in NamesOf(init) ==> Step(seen, Name(name)) == Open(now);
    }
  }

  lemma NamesGrow(ms: seq<(string, Tree)>)
    requires ms != []
    ensures NamesOf(ms) == NamesOf(ms[..|ms| - 1]) + {ms[|ms| - 1].0}
  {
    var init := ms[..|ms| - 1];
    forall name | name in NamesOf(ms)
      ensures name in NamesOf(init) + {ms[|ms| - 1].0}
    {
      var i :| 0 <= i < |ms| && ms[i].0 == name;
      assert i < |init| ==> init[i].0 == name;
    }
  }

  /** No token of a body, and none before a syntax error, makes the pass panic. */
  lemma NeverPanics(j: Tree, k: nat)
    requires k <= |Tokens(j, 0)|
    ensures Run([], Tokens(j, 0)[..k]) != Panicked
  {
    TreePasses(j, []);
    RunConcat([], Tokens(j, 0)[..k], Tokens(j, 0)[k..]);
    assert Tokens(j, 0)[..k] + Tokens(j, 0)[k..] == Tokens(j, 0);
  }

  /** One more token: the run goes on as the step does. */
  lemma NextStep(j: Tree, i: nat, names: Stack)
    requires i < |Tokens(j, 0)| && Run([], Tokens(j, 0)[..i]) == Open(names)
    ensures Run([], Tokens(j, 0)[..i + 1]) == Step(names, Tokens(j, 0)[i]) && !Step(names, Tokens(j, 0)[i]).Panicked?
  {
    NeverPanics(j, i + 1);
    assert Tokens(j, 0)[..i + 1][..i] == Tokens(j, 0)[..i];
  }

  /** A prefix that is refused is one of a tree that does not fit. */
  lemma RefusedEarly(j: Tree, k: nat)
    requires k <= |Tokens(j, 0)| && Run([], Tokens(j, 0)[..k]) == Refused
    ensures !Fits(j, 0)
  {
    TreePasses(j, []);
    RunConcat([], Tokens(j, 0)[..k], Tokens(j, 0)[k..]);
    assert Tokens(j, 0)[..k] + Tokens(j, 0)[k..] == Tokens(j, 0);
  }

  /** A tree whose tokens all pass fits. */
  lemma OpenWhole(j: Tree, k: nat)
    requires k == |Tokens(j, 0)| && Run([], Tokens(j, 0)[..k]).Open?
    ensures Fits(j, 0)
  {
    TreePasses(j, []);
    assert Tokens(j, 0)[..k] == Tokens(j, 0);
  }

  /**
    embeddable: the tokens of a body that is the JSON tree j, or, when cut is
    given, those before the syntax error that ends it.
  */
  method Embeddable(j: Tree, cut: Option<nat>) returns (ok: bool)
    requires cut.Some? ==> cut.value <= |Tokens(j, 0)|
    ensures ok <==> cut.None? && Fits(j, 0)
  {
    var ts := Tokens(j, 0);
    var n := if cut.Some? then cut.value else |ts|;
    var names: Stack := [];
    var i := 0;
    while i < n
      invariant 0 <= i <= n && Run([], ts[..i]) == Open(names)
    {
      NextStep(j, i, names);
      var p := Step(names, ts[i]);
      assert Run([], ts[..i + 1]) == p;
      if p.Refused? {
        RefusedEarly(j, i + 1);
        return false;
      }
      names := p.names;
      i := i + 1;
    }
    if cut.None? {
      OpenWhole(j, n);
    }
    return cut.None?;
  }
}
