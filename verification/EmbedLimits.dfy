/** Which trees a Report holds as JSON, in plain words (adapter/report.go): at most 1000 levels, short integers, no name twice. */
module EmbedLimits {
  import opened Basics
  import opened JsonTree
  import opened Embeddable

  /** How deep containers nest in t, t included. */
  function Deep(t: Tree): nat
    decreases t, 1
  {
    match t
    case Arr(es) => 1 + ElemsDeep(es)
    case Obj(ms) => 1 + MembersDeep(ms)
    case _ => 0
  }

  function ElemsDeep(es: seq<Tree>): nat
    decreases es, 0
  {
    if es == [] then 0 else Max(ElemsDeep(es[..|es| - 1]), Deep(es[|es| - 1]))
  }

  function MembersDeep(ms: seq<(string, Tree)>): nat
    decreases ms, 0
  {
    if ms == [] then 0
    else
      Smaller(ms);
      Max(MembersDeep(ms[..|ms| - 1]), Deep(ms[|ms| - 1].1))
  }

  /** A number with a fraction or an exponent, or an integer of at most 4300 digits. */
  predicate Short(text: string) {
    '.' in text || 'e' in text || 'E' in text || |text| <= 4300 || (|text| == 4301 && text[0] == '-')
  }

  /** No name comes twice. */
  predicate NamesOnce(ms: seq<(string, Tree)>) {
    forall i, j :: 0 <= i < j < |ms| ==> ms[i].0 != ms[j].0
  }

  /** Every number of t is short, and no object of it holds a name twice. */
  predicate Within(t: Tree)
    decreases t, 1
  {
    match t
    case Num(text) => Short(text)
    case Arr(es) => ElemsWithin(es)
    case Obj(ms) => MembersWithin(ms) && NamesOnce(ms)
    case _ => true
  }

  predicate ElemsWithin(es: seq<Tree>)
    decreases es, 0
  {
    es == [] || (ElemsWithin(es[..|es| - 1]) && Within(es[|es| - 1]))
  }

  predicate MembersWithin(ms: seq<(string, Tree)>)
    decreases ms, 0
  {
    if ms == [] then true
    else
      Smaller(ms);
      MembersWithin(ms[..|ms| - 1]) && Within(ms[|ms| - 1].1)
  }

  /** A tree may stand with depth containers around it exactly when it is within the limits. */
  lemma {:induction false} FitsIs(t: Tree, depth: nat)
    ensures Fits(t, depth) <==> Within(t) && (Deep(t) == 0 || depth + Deep(t) <= 1000)
    decreases t, 1
  {
    match t
    case Arr(es) => ElemsFitIs(es, depth + 1);
    case Obj(ms) =>
      ObjectFitIs(ms, depth + 1);
    case _ =>
  }

  lemma {:induction false} ElemsFitIs(es: seq<Tree>, depth: nat)
    ensures ElemsFit(es, depth) <==> ElemsWithin(es) && (ElemsDeep(es) == 0 || depth + ElemsDeep(es) <= 1000)
    decreases es, 0
  {
    if es != [] {
      ElemsFitIs(es[..|es| - 1], depth);
      FitsIs(es[|es| - 1], depth);
    }
  }

  lemma OneMore(ms: seq<(string, Tree)>)
    requires ms != []
    ensures NamesOnce(ms) <==> NamesOnce(ms[..|ms| - 1]) && ms[|ms| - 1].0 !in NamesOf(ms[..|ms| - 1])
  {
    var n := |ms| - 1;
    assert forall i :: 0 <= i < n ==> ms[..n][i] == ms[i];
    assert ms[n].0 in NamesOf(ms[..n]) <==> exists i :: 0 <= i < n && ms[i].0 == ms[n].0;
  }

  lemma {:induction false} ObjectFitIs(ms: seq<(string, Tree)>, depth: nat)
    ensures MembersFit(ms, depth) <==>
              MembersWithin(ms) && NamesOnce(ms) && (MembersDeep(ms) == 0 || depth + MembersDeep(ms) <= 1000)
    decreases ms, 0
  {
    if ms != [] {
      Smaller(ms);
      ObjectFitIs(ms[..|ms| - 1], depth);
      FitsIs(ms[|ms| - 1].1, depth);
      OneMore(ms);
    }
  }
}
