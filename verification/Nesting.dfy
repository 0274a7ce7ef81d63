/**
  The nesting of containers along a run: the visitor's own count is the true
  depth at every event, its peak is the tree's height, and the states between
  two root members are exactly those after a prefix of the root's members.
*/
module Nesting {
  import opened Basics
  import opened Json
  import opened Machine
  import opened TreeDecode
  import opened VisitorProof
  import opened DecodeProof
  import opened Wire

  /** The containers open in v, read or not. */
  function Depth(v: V): nat {
    |v.stack| + v.ign
  }

  function Delta(e: Event): int {
    match e
    case ObjectBegin => 1
    case ArrayBegin => 1
    case ObjectEnd => -1
    case ArrayEnd => -1
    case _ => 0
  }

  /** How many more containers es opens than it closes. */
  function Balance(es: seq<Event>): int {
    if es == [] then 0 else Delta(es[0]) + Balance(es[1..])
  }

  /** The deepest nesting es reaches from depth d, 0 when it opens nothing. */
  function Deepest(es: seq<Event>, d: int): nat {
    if es == [] then 0
    else
      var d' := d + Delta(es[0]);
      Max(if Delta(es[0]) == 1 && d' > 0 then d' else 0, Deepest(es[1..], d'))
  }

  lemma {:induction false} BalanceConcat(a: seq<Event>, b: seq<Event>)
    ensures Balance(a + b) == Balance(a) + Balance(b)
    decreases |a|
  {
    if a == [] {
      assert a + b == b;
    } else {
      assert (a + b)[1..] == a[1..] + b;
      BalanceConcat(a[1..], b);
    }
  }

  lemma {:induction false} DeepestConcat(a: seq<Event>, b: seq<Event>, d: int)
    ensures Deepest(a + b, d) == Max(Deepest(a, d), Deepest(b, d + Balance(a)))
    decreases |a|
  {
    if a == [] {
      assert a + b == b;
    } else {
      assert (a + b)[1..] == a[1..] + b;
      DeepestConcat(a[1..], b, d + Delta(a[0]));
    }
  }

  lemma WrongKindDepth(v: V, s: Slot)
    ensures NextCard(WrongKind(v, s, true)).stack == v.stack && NextCard(WrongKind(v, s, true)).ign == v.ign
    ensures NextCard(WrongKind(v, s, true)).peak == v.peak
  {
  }

  lemma AssignDepth(v: V, str: Option<string>, num: Option<Number>)
    ensures Assign(v, str, num).stack == v.stack && Assign(v, str, num).ign == v.ign && Assign(v, str, num).peak == v.peak
  {
  }

  lemma BeginDepth(v: V, isObj: bool)
    requires Begin(v, isObj).Ok?
    ensures Depth(Begin(v, isObj).v) == Depth(v) + 1
    ensures Begin(v, isObj).v.peak == Max(v.peak, Depth(v) + 1)
  {
  }

  lemma EndDepth(v: V)
    requires End(v).Ok?
    ensures Depth(v) > 0 && Depth(End(v).v) == Depth(v) - 1 && End(v).v.peak == v.peak
  {
    if v.ign == 1 {
      WrongKindDepth(v.(ign := 0), v.ignSlot);
    }
  }

  lemma StepDepth(v: V, e: Event, rawCtl: bool)
    requires Step(v, e, rawCtl).Ok?
    ensures var w := Step(v, e, rawCtl).v;
            && Depth(w) == Depth(v) + Delta(e)
            && w.peak == (if Delta(e) == 1 then Max(v.peak, Depth(w)) else v.peak)
  {
    match e
    case ObjectBegin => BeginDepth(v, true);
    case ArrayBegin => BeginDepth(v, false);
    case ObjectEnd => EndDepth(v);
    case ArrayEnd => EndDepth(v);
    case KeyEv(_) =>
    case StrEv(s) => AssignDepth(v, Some(s), None);
    case NumEv(n) => AssignDepth(v, None, Some(n));
    case _ => AssignDepth(v, None, None);
  }

  /** Along every run, sp + ign is the true nesting depth and peak the deepest one met. */
  lemma {:induction false} RunDepth(v: V, es: seq<Event>, rawCtl: bool)
    requires Run(v, es, rawCtl).Ok?
    ensures Depth(Run(v, es, rawCtl).v) == Depth(v) + Balance(es)
    ensures Run(v, es, rawCtl).v.peak == Max(v.peak, Deepest(es, Depth(v)))
    decreases |es|
  {
    if es != [] {
      var w := Step(v, es[0], rawCtl).v;
      StepDepth(v, es[0], rawCtl);
      RunDepth(w, es[1..], rawCtl);
      Deeper(v, w, es, Run(w, es[1..], rawCtl).v);
    }
  }

  /** From the step over the first event to the run over all. */
  lemma Deeper(v: V, w: V, es: seq<Event>, x: V)
    requires es != [] && Depth(w) == Depth(v) + Delta(es[0])
    requires w.peak == if Delta(es[0]) == 1 then Max(v.peak, Depth(w)) else v.peak
    requires Depth(x) == Depth(w) + Balance(es[1..]) && x.peak == Max(w.peak, Deepest(es[1..], Depth(w)))
    ensures Depth(x) == Depth(v) + Balance(es) && x.peak == Max(v.peak, Deepest(es, Depth(v)))
  {
  }

  lemma {:induction false} EventsBalance(j: Json)
    ensures Balance(Events(j)) == 0
    decreases j, 1
  {
    match j
    case Obj(ms, _) =>
      MembersBalance(ms);
      BalanceConcat([ObjectBegin], MemberEvents(ms));
      BalanceConcat([ObjectBegin] + MemberEvents(ms), [ObjectEnd]);
    case Arr(es, _) =>
      ElemsBalance(es);
      BalanceConcat([ArrayBegin], ElemEvents(es));
      BalanceConcat([ArrayBegin] + ElemEvents(es), [ArrayEnd]);
    case _ =>
  }

  lemma {:induction false} MembersBalance(ms: seq<Member>)
    ensures Balance(MemberEvents(ms)) == 0
    decreases ms, 0
  {
    if ms != [] {
      var last := ms[|ms| - 1];
      MembersBalance(ms[..|ms| - 1]);
      EventsBalance(last.value);
      BalanceConcat([KeyEv(last.key)], Events(last.value));
      BalanceConcat(MemberEvents(ms[..|ms| - 1]), [KeyEv(last.key)] + Events(last.value));
    }
  }

  lemma {:induction false} ElemsBalance(es: seq<Json>)
    ensures Balance(ElemEvents(es)) == 0
    decreases es, 0
  {
    if es != [] {
      ElemsBalance(es[..|es| - 1]);
      EventsBalance(es[|es| - 1]);
      BalanceConcat(ElemEvents(es[..|es| - 1]), Events(es[|es| - 1]));
    }
  }

  /** A container goes one deeper than its inside. */
  lemma ContainerDeepest(first: Event, inner: seq<Event>, last: Event, d: nat)
    requires Delta(first) == 1 && Delta(last) == -1 && Balance(inner) == 0
    ensures Deepest([first] + inner + [last], d) == Max(d + 1, Deepest(inner, d + 1))
  {
    DeepestConcat([first], inner, d);
    BalanceConcat([first], inner);
    DeepestConcat([first] + inner, [last], d);
    assert [first][1..] == [] && [last][1..] == [];
  }

  lemma LeafDeepest(e: Event, d: nat)
    requires Delta(e) == 0
    ensures Deepest([e], d) == 0
  {
    assert [e][1..] == [];
  }

  /** The deepest nesting of j's events is its height. */
  lemma {:induction false} EventsDeepest(j: Json, d: nat)
    ensures Deepest(Events(j), d) == if Height(j) == 0 then 0 else d + Height(j)
    decreases j, 1
  {
    match j
    case Obj(ms, _) =>
      MembersDeepest(ms, d + 1);
      MembersBalance(ms);
      ContainerDeepest(ObjectBegin, MemberEvents(ms), ObjectEnd, d);
    case Arr(es, _) =>
      ElemsDeepest(es, d + 1);
      ElemsBalance(es);
      ContainerDeepest(ArrayBegin, ElemEvents(es), ArrayEnd, d);
    case _ => LeafDeepest(Events(j)[0], d);
  }

  lemma {:induction false} MembersDeepest(ms: seq<Member>, d: nat)
    ensures Deepest(MemberEvents(ms), d) == if MembersHeight(ms) == 0 then 0 else d + MembersHeight(ms)
    decreases ms, 0
  {
    if ms != [] {
      var last := ms[|ms| - 1];
      MembersDeepest(ms[..|ms| - 1], d);
      MembersBalance(ms[..|ms| - 1]);
      EventsDeepest(last.value, d);
      DeepestConcat([KeyEv(last.key)], Events(last.value), d);
      DeepestConcat(MemberEvents(ms[..|ms| - 1]), [KeyEv(last.key)] + Events(last.value), d);
    }
  }

  lemma {:induction false} ElemsDeepest(es: seq<Json>, d: nat)
    ensures Deepest(ElemEvents(es), d) == if ElemsHeight(es) == 0 then 0 else d + ElemsHeight(es)
    decreases es, 0
  {
    if es != [] {
      ElemsDeepest(es[..|es| - 1], d);
      ElemsBalance(es[..|es| - 1]);
      EventsDeepest(es[|es| - 1], d);
      DeepestConcat(ElemEvents(es[..|es| - 1]), Events(es[|es| - 1]), d);
    }
  }

  /** A body that is traversed to its end has left the height of its tree in peak, and no open container. */
  lemma PeakIsHeight(mode: Mode, j: Json, rawCtl: bool)
    requires Run(Reset(mode), Events(j), rawCtl).Ok?
    ensures Run(Reset(mode), Events(j), rawCtl).v.peak == Height(j)
    ensures Depth(Run(Reset(mode), Events(j), rawCtl).v) == 0
  {
    RunDepth(Reset(mode), Events(j), rawCtl);
    EventsBalance(j);
    EventsDeepest(j, 0);
  }

  // ----- no run of a tree reaches an error the code calls unreachable -----

  predicate Reachable(r: Reason) {
    r == InvalidUTF8 || r == RawControlChar || r == TooDeep || r == RootNotObject
  }

  lemma {:induction false} ScanReasons(j: Json, d: nat, rawCtl: bool)
    ensures TreeDecode.Scan(j, d, rawCtl).Some? ==> Reachable(TreeDecode.Scan(j, d, rawCtl).value)
    decreases j, 1
  {
    match j
    case Obj(ms, _) => MembersReasons(ms, d + 1, rawCtl);
    case Arr(es, _) => ElemsReasons(es, d + 1, rawCtl);
    case _ =>
  }

  lemma {:induction false} MembersReasons(ms: seq<Member>, d: nat, rawCtl: bool)
    ensures ScanMembers(ms, d, rawCtl).Some? ==> Reachable(ScanMembers(ms, d, rawCtl).value)
    decreases ms, 0
  {
    if ms != [] {
      MembersReasons(ms[..|ms| - 1], d, rawCtl);
      ScanReasons(ms[|ms| - 1].value, d, rawCtl);
    }
  }

  lemma {:induction false} ElemsReasons(es: seq<Json>, d: nat, rawCtl: bool)
    ensures ScanElems(es, d, rawCtl).Some? ==> Reachable(ScanElems(es, d, rawCtl).value)
    decreases es, 0
  {
    if es != [] {
      ElemsReasons(es[..|es| - 1], d, rawCtl);
      ScanReasons(es[|es| - 1], d, rawCtl);
    }
  }

  /**
    However far a tree's events are read, the visitor's stack never overflows
    (errReadDepth) and is never popped empty: a prefix fails only for the
    text of a string, the nesting or the root.
  */
  lemma PrefixReasons(mode: Mode, j: Json, k: nat, rawCtl: bool)
    requires k <= |Events(j)| && Run(Reset(mode), Events(j)[..k], rawCtl).Fail?
    ensures Reachable(Run(Reset(mode), Events(j)[..k], rawCtl).reason)
  {
    RunConcat(Reset(mode), Events(j)[..k], Events(j)[k..], rawCtl);
    assert Events(j)[..k] + Events(j)[k..] == Events(j);
    if mode == SystemOne {
      var w := SystemOneRun(j, rawCtl);
    } else {
      var w := ModelsRun(j, rawCtl);
    }
    ScanReasons(j, 0, rawCtl);
  }

  // ----- between two root members -----

  /** Strictly inside a value, some container of it is open. */
  lemma {:induction false} InsideValue(j: Json, k: nat)
    requires 0 < k < |Events(j)|
    ensures Balance(Events(j)[..k]) >= 1
    decreases j, 1
  {
    match j
    case Obj(ms, _) =>
      var inner := MemberEvents(ms);
      assert Events(j)[..k] == [ObjectBegin] + inner[..k - 1];
      BalanceConcat([ObjectBegin], inner[..k - 1]);
      var _ := WithinMembers(ms, k - 1);
    case Arr(es, _) =>
      var inner := ElemEvents(es);
      assert Events(j)[..k] == [ArrayBegin] + inner[..k - 1];
      BalanceConcat([ArrayBegin], inner[..k - 1]);
      WithinElems(es, k - 1);
    case _ =>
  }

  /** k events into ms are after some whole members, right after the next key, or inside a container. */
  predicate Boundary(ms: seq<Member>, k: nat, i: nat)
    requires k <= |MemberEvents(ms)|
  {
    i <= |ms| &&
    (MemberEvents(ms)[..k] == MemberEvents(ms[..i]) ||
     (i < |ms| && MemberEvents(ms)[..k] == MemberEvents(ms[..i]) + [KeyEv(ms[i].key)]))
  }

  lemma {:induction false} WithinMembers(ms: seq<Member>, k: nat) returns (i: nat)
    requires k <= |MemberEvents(ms)|
    ensures Balance(MemberEvents(ms)[..k]) >= 0
    ensures Balance(MemberEvents(ms)[..k]) == 0 ==> Boundary(ms, k, i)
    decreases ms, 0
  {
    i := 0;
    if ms != [] {
      var n := |ms| - 1;
      var init, last := MemberEvents(ms[..n]), ms[n];
      var rest := [KeyEv(last.key)] + Events(last.value);
      if k <= |init| {
        assert MemberEvents(ms)[..k] == init[..k];
        i := WithinMembers(ms[..n], k);
        if i <= n {
          assert ms[..n][..i] == ms[..i];
        }
      } else {
        MembersBalance(ms[..n]);
        var m := k - |init|;
        assert MemberEvents(ms)[..k] == init + rest[..m];
        assert rest[..m] == [KeyEv(last.key)] + Events(last.value)[..m - 1];
        BalanceConcat(init, rest[..m]);
        BalanceConcat([KeyEv(last.key)], Events(last.value)[..m - 1]);
        if m == 1 {
          i := n;
        } else if m - 1 < |Events(last.value)| {
          InsideValue(last.value, m - 1);
        } else {
          assert Events(last.value)[..m - 1] == Events(last.value);
          EventsBalance(last.value);
          i := |ms|;
          assert ms[..|ms|] == ms && MemberEvents(ms)[..k] == MemberEvents(ms);
        }
      }
    }
  }

  lemma {:induction false} WithinElems(es: seq<Json>, k: nat)
    requires k <= |ElemEvents(es)|
    ensures Balance(ElemEvents(es)[..k]) >= 0
    decreases es, 0
  {
    if es != [] {
      var n := |es| - 1;
      var init := ElemEvents(es[..n]);
      if k <= |init| {
        assert ElemEvents(es)[..k] == init[..k];
        WithinElems(es[..n], k);
      } else {
        var m := k - |init|;
        assert ElemEvents(es)[..k] == init + Events(es[n])[..m];
        BalanceConcat(init, Events(es[n])[..m]);
        ElemsBalance(es[..n]);
        if m < |Events(es[n])| {
          InsideValue(es[n], m);
        } else {
          assert Events(es[n])[..m] == Events(es[n]);
          EventsBalance(es[n]);
        }
      }
    }
  }

  /**
    The visitor stands between two root members after exactly those prefixes
    of a body's events that hold the opening brace and some whole members: the
    only states from which the cut traversal may be handed the root's end.
  */
  lemma BetweenIsBoundary(mode: Mode, ms: seq<Member>, raw: Text, k: nat, rawCtl: bool)
    requires k <= |Events(Obj(ms, raw))| && Run(Reset(mode), Events(Obj(ms, raw))[..k], rawCtl).Ok?
    ensures Between(Run(Reset(mode), Events(Obj(ms, raw))[..k], rawCtl).v) <==>
            exists i :: 0 <= i <= |ms| && Events(Obj(ms, raw))[..k] == [ObjectBegin] + MemberEvents(ms[..i])
  {
    var es := Events(Obj(ms, raw))[..k];
    RunDepth(Reset(mode), es, rawCtl);
    if Balance(es) != 1 {
      NotWhole(es, ms);
    } else {
      var i := FirstMembers(ms, raw, k);
      InsideRoot(mode, es, ms, i, rawCtl);
    }
  }

  /** es is the opening brace and the first members ms[..i], or that and the next key. */
  predicate AtBoundary(es: seq<Event>, ms: seq<Member>, i: nat) {
    i <= |ms| &&
    (es == [ObjectBegin] + MemberEvents(ms[..i]) ||
     (i < |ms| && es == [ObjectBegin] + (MemberEvents(ms[..i]) + [KeyEv(ms[i].key)])))
  }

  /** Where only the root is open, some whole members were read, and perhaps the next key. */
  lemma FirstMembers(ms: seq<Member>, raw: Text, k: nat) returns (i: nat)
    requires k <= |Events(Obj(ms, raw))| && Balance(Events(Obj(ms, raw))[..k]) == 1
    ensures AtBoundary(Events(Obj(ms, raw))[..k], ms, i)
  {
    var whole := Events(Obj(ms, raw));
    EventsBalance(Obj(ms, raw));
    assert whole[..|whole|] == whole;
    assert 0 < k < |whole|;
    var inner := MemberEvents(ms)[..k - 1];
    assert whole[..k] == [ObjectBegin] + inner;
    BalanceConcat([ObjectBegin], inner);
    i := WithinMembers(ms, k - 1);
  }

  /** Events that leave more or less than the root open are not whole members of it. */
  lemma NotWhole(es: seq<Event>, ms: seq<Member>)
    requires Balance(es) != 1
    ensures forall i :: 0 <= i <= |ms| ==> es != [ObjectBegin] + MemberEvents(ms[..i])
  {
    forall i | 0 <= i <= |ms|
      ensures es != [ObjectBegin] + MemberEvents(ms[..i])
    {
      BalanceConcat([ObjectBegin], MemberEvents(ms[..i]));
      MembersBalance(ms[..i]);
    }
  }

  lemma InsideRoot(mode: Mode, es: seq<Event>, ms: seq<Member>, i: nat, rawCtl: bool)
    requires AtBoundary(es, ms, i) && Run(Reset(mode), es, rawCtl).Ok?
    ensures Between(Run(Reset(mode), es, rawCtl).v) <==> exists i' :: 0 <= i' <= |ms| && es == [ObjectBegin] + MemberEvents(ms[..i'])
  {
    if es == [ObjectBegin] + MemberEvents(ms[..i]) {
      AfterMembers(mode, ms[..i], rawCtl);
    } else {
      AfterKey(mode, ms[..i], ms[i].key, rawCtl);
      forall i' | 0 <= i' <= |ms|
        ensures es != [ObjectBegin] + MemberEvents(ms[..i'])
      {
        if es == [ObjectBegin] + MemberEvents(ms[..i']) {
          AfterMembers(mode, ms[..i'], rawCtl);
        }
      }
    }
  }

  /** After the opening brace and some members, the visitor is between members. */
  lemma AfterMembers(mode: Mode, ms: seq<Member>, rawCtl: bool)
    requires Run(Reset(mode), [ObjectBegin] + MemberEvents(ms), rawCtl).Ok?
    ensures Between(Run(Reset(mode), [ObjectBegin] + MemberEvents(ms), rawCtl).v)
  {
    EnterRoot(mode);
    var a := Begin(Reset(mode), true).v;
    RunOne(Reset(mode), ObjectBegin, rawCtl);
    RunConcat(Reset(mode), [ObjectBegin], MemberEvents(ms), rawCtl);
    if mode == SystemOne {
      var b := RootMembers(a, ms, rawCtl);
    } else {
      var b := ModelsMembers(a, ms, rawCtl);
    }
  }

  /** A key of the root opens a slot. */
  lemma KeyOpens(v: V, key: string, rawCtl: bool)
    requires Between(v) && Step(v, KeyEv(key), rawCtl).Ok?
    ensures !Between(Step(v, KeyEv(key), rawCtl).v)
  {
  }

  /** Right after a key of the root, a value is due. */
  lemma AfterKey(mode: Mode, ms: seq<Member>, key: string, rawCtl: bool)
    requires Run(Reset(mode), [ObjectBegin] + (MemberEvents(ms) + [KeyEv(key)]), rawCtl).Ok?
    ensures !Between(Run(Reset(mode), [ObjectBegin] + (MemberEvents(ms) + [KeyEv(key)]), rawCtl).v)
  {
    var before := [ObjectBegin] + MemberEvents(ms);
    assert [ObjectBegin] + (MemberEvents(ms) + [KeyEv(key)]) == before + [KeyEv(key)];
    RunConcat(Reset(mode), before, [KeyEv(key)], rawCtl);
    AfterMembers(mode, ms, rawCtl);
    var v := Run(Reset(mode), before, rawCtl).v;
    RunOne(v, KeyEv(key), rawCtl);
    KeyOpens(v, key, rawCtl);
  }

  /** The root's height is known before its end. */
  lemma PeakBeforeEnd(mode: Mode, ms: seq<Member>, raw: Text, rawCtl: bool)
    requires Run(Reset(mode), [ObjectBegin] + MemberEvents(ms), rawCtl).Ok?
    ensures Run(Reset(mode), [ObjectBegin] + MemberEvents(ms), rawCtl).v.peak == Height(Obj(ms, raw))
  {
    RunDepth(Reset(mode), [ObjectBegin] + MemberEvents(ms), rawCtl);
    MembersBegun(ms);
  }

  lemma MembersBegun(ms: seq<Member>)
    ensures Deepest([ObjectBegin] + MemberEvents(ms), 0) == 1 + MembersHeight(ms)
  {
    DeepestConcat([ObjectBegin], MemberEvents(ms), 0);
    MembersDeepest(ms, 1);
    assert [ObjectBegin][1..] == [];
  }

  /** The cut traversal: every event but the root's end, then that end handed over, decides what the whole traversal decides. */
  lemma CutAgrees(mode: Mode, ms: seq<Member>, raw: Text, rawCtl: bool)
    ensures var r := Run(Reset(mode), [ObjectBegin] + MemberEvents(ms), rawCtl);
            && Run(Reset(mode), Events(Obj(ms, raw)), rawCtl) == (if r.Fail? then r else End(r.v))
            && (r.Ok? ==> Between(r.v) && r.v.peak == Height(Obj(ms, raw)))
  {
    var v := Reset(mode);
    var before := [ObjectBegin] + MemberEvents(ms);
    RunConcat(v, before, [ObjectEnd], rawCtl);
    var r := Run(v, before, rawCtl);
    if r.Ok? {
      RunOne(r.v, ObjectEnd, rawCtl);
      AfterMembers(mode, ms, rawCtl);
      PeakBeforeEnd(mode, ms, raw, rawCtl);
    }
  }
}
