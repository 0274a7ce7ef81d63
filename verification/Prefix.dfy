/**
  How far a broken body is read: the JSON layer's failure of any prefix of a
  tree's events, said of the events alone.
*/
module Prefix {
  import opened Basics
  import opened Json
  import opened Wire
  import opened Machine
  import opened Nesting
  import opened VisitorProof
  import opened DecodeProof

  /** Why the JSON layer refuses event e, met at nesting depth d; first says whether it opens the body. */
  function EventFailure(e: Event, first: bool, d: int, rawCtl: bool): Option<Reason> {
    match e
    case StrEv(s) => OrElse(CheckString(s, rawCtl), if first then Some(RootNotObject) else None)
    case KeyEv(key) => CheckString(key, rawCtl)
    case ObjectBegin => if d >= MAX_NESTING then Some(TooDeep) else None
    case ArrayBegin => if d >= MAX_NESTING then Some(TooDeep) else if first then Some(RootNotObject) else None
    case ObjectEnd => None
    case ArrayEnd => None
    case _ => if first then Some(RootNotObject) else None
  }

  /** The first event of es that the JSON layer refuses, and why. */
  function ScanEvents(es: seq<Event>, rawCtl: bool): Option<Reason> {
    if es == [] then None
    else
      var n := |es| - 1;
      OrElse(ScanEvents(es[..n], rawCtl), EventFailure(es[n], n == 0, Balance(es[..n]), rawCtl))
  }

  lemma WrongSlot(v: V, s: Slot)
    ensures WrongKind(v, s, true).slot == v.slot
  {
  }

  lemma BeginSlot(v: V, isObj: bool)
    requires Begin(v, isObj).Ok? && (v.ign == 0 || v.slot != SlotRoot)
    ensures Begin(v, isObj).v.slot != SlotRoot
  {
  }

  lemma EndSlot(v: V)
    requires End(v).Ok? && v.slot != SlotRoot
    ensures End(v).v.slot != SlotRoot
  {
    WrongSlot(v.(ign := 0), v.ignSlot);
  }

  lemma AssignSlot(v: V, str: Option<string>, num: Option<Number>)
    ensures Assign(v, str, num).slot != SlotRoot
  {
  }

  /** No event but the first meets the root's slot. */
  lemma StepSlot(v: V, e: Event, rawCtl: bool)
    requires v.slot != SlotRoot && Step(v, e, rawCtl).Ok?
    ensures Step(v, e, rawCtl).v.slot != SlotRoot
  {
    match e
    case ObjectBegin => BeginSlot(v, true);
    case ArrayBegin => BeginSlot(v, false);
    case ObjectEnd => EndSlot(v);
    case ArrayEnd => EndSlot(v);
    case KeyEv(_) =>
    case StrEv(s) => AssignSlot(v, Some(s), None);
    case NumEv(n) => AssignSlot(v, None, Some(n));
    case _ => AssignSlot(v, None, None);
  }

  /** The outcome of a step whose failure, if any, is why. */
  predicate Fails(r: R, why: Option<Reason>) {
    match why
    case Some(reason) => r == Fail(reason)
    case None => r.Ok?
  }

  lemma BeginFails(v: V, isObj: bool, first: bool)
    requires first == (v.ign == 0 && v.slot == SlotRoot)
    requires Begin(v, isObj).Fail? ==> Reachable(Begin(v, isObj).reason)
    ensures Fails(Begin(v, isObj), EventFailure(if isObj then ObjectBegin else ArrayBegin, first, Depth(v), false))
  {
  }

  /** A step fails as its event does, when it fails for a reason that a tree's prefix can have. */
  lemma StepFails(v: V, e: Event, first: bool, rawCtl: bool)
    requires first == (v.ign == 0 && v.slot == SlotRoot)
    requires Step(v, e, rawCtl).Fail? ==> Reachable(Step(v, e, rawCtl).reason)
    ensures Fails(Step(v, e, rawCtl), EventFailure(e, first, Depth(v), rawCtl))
  {
    match e
    case ObjectBegin => BeginFails(v, true, first);
    case ArrayBegin => BeginFails(v, false, first);
    case _ =>
  }

  lemma PrefixStep(mode: Mode, j: Json, k: nat, rawCtl: bool)
    requires k < |Events(j)|
    ensures Run(Reset(mode), Events(j)[..k + 1], rawCtl) ==
            var r := Run(Reset(mode), Events(j)[..k], rawCtl);
            if r.Fail? then r else Step(r.v, Events(j)[k], rawCtl)
  {
    var r := Run(Reset(mode), Events(j)[..k], rawCtl);
    assert Events(j)[..k + 1] == Events(j)[..k] + [Events(j)[k]];
    RunConcat(Reset(mode), Events(j)[..k], [Events(j)[k]], rawCtl);
    if r.Ok? {
      RunOne(r.v, Events(j)[k], rawCtl);
    }
  }

  lemma NextReachable(mode: Mode, j: Json, n: nat, v: V, rawCtl: bool)
    requires n < |Events(j)| && Run(Reset(mode), Events(j)[..n], rawCtl) == Ok(v)
    ensures Step(v, Events(j)[n], rawCtl).Fail? ==> Reachable(Step(v, Events(j)[n], rawCtl).reason)
  {
    PrefixStep(mode, j, n, rawCtl);
    if Step(v, Events(j)[n], rawCtl).Fail? {
      PrefixReasons(mode, j, n + 1, rawCtl);
    }
  }

  lemma EmptyPrefix(mode: Mode, j: Json, rawCtl: bool)
    ensures Run(Reset(mode), Events(j)[..0], rawCtl) == Ok(Reset(mode))
  {
    assert Events(j)[..0] == [];
  }

  /** The step after a prefix: the depth is the prefix's balance, and only the body's first event meets the root's slot. */
  lemma NextFails(mode: Mode, j: Json, n: nat, v: V, rawCtl: bool)
    requires n < |Events(j)| && Run(Reset(mode), Events(j)[..n], rawCtl) == Ok(v)
    requires n > 0 ==> v.slot != SlotRoot
    ensures Fails(Step(v, Events(j)[n], rawCtl), EventFailure(Events(j)[n], n == 0, Balance(Events(j)[..n]), rawCtl))
  {
    NextReachable(mode, j, n, v, rawCtl);
    RunDepth(Reset(mode), Events(j)[..n], rawCtl);
    EmptyPrefix(mode, j, rawCtl);
    StepFails(v, Events(j)[n], n == 0, rawCtl);
  }

  lemma ScanLast(es: seq<Event>, k: nat, rawCtl: bool)
    requires 0 < k <= |es|
    ensures ScanEvents(es[..k], rawCtl) ==
            OrElse(ScanEvents(es[..k - 1], rawCtl), EventFailure(es[k - 1], k == 1, Balance(es[..k - 1]), rawCtl))
  {
    assert es[..k][..k - 1] == es[..k - 1];
  }

  lemma FirstSlot(mode: Mode, e: Event, rawCtl: bool)
    requires Step(Reset(mode), e, rawCtl).Ok?
    ensures Step(Reset(mode), e, rawCtl).v.slot != SlotRoot
  {
  }

  /** What PrefixScan says of the first k events, r being the run over them. */
  predicate Scanned(r: R, k: nat, why: Option<Reason>) {
    Fails(r, why) && (r.Ok? && k > 0 ==> r.v.slot != SlotRoot)
  }

  /**
    However far the events of a tree are read, the visitor stops at the first
    one that the JSON layer refuses and at no other.
  */
  lemma {:induction false} PrefixScan(mode: Mode, j: Json, k: nat, rawCtl: bool)
    requires k <= |Events(j)|
    ensures Scanned(Run(Reset(mode), Events(j)[..k], rawCtl), k, ScanEvents(Events(j)[..k], rawCtl))
  {
    if k > 0 {
      PrefixScan(mode, j, k - 1, rawCtl);
      PrefixStep(mode, j, k - 1, rawCtl);
      ScanLast(Events(j), k, rawCtl);
      var r := Run(Reset(mode), Events(j)[..k - 1], rawCtl);
      if r.Ok? {
        NextFails(mode, j, k - 1, r.v, rawCtl);
        NextScanned(mode, r.v, k, Events(j)[k - 1], rawCtl);
      }
    } else {
      EmptyPrefix(mode, j, rawCtl);
    }
  }

  lemma NextScanned(mode: Mode, v: V, k: nat, e: Event, rawCtl: bool)
    requires if k > 1 then v.slot != SlotRoot else v == Reset(mode)
    ensures Step(v, e, rawCtl).Ok? ==> Step(v, e, rawCtl).v.slot != SlotRoot
  {
    if Step(v, e, rawCtl).Ok? {
      if k > 1 {
        StepSlot(v, e, rawCtl);
      } else {
        FirstSlot(mode, e, rawCtl);
      }
    }
  }
}
