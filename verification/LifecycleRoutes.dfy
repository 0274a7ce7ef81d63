/** What each call and each Close of an adapter may do next and what that changes (adapter/adapter.go), said of the states alone. */
module LifecycleRoutes {
  import opened Basics
  import opened Adapter
  import opened Lifecycle

  predicate NoneRuns(s: S) {
    forall j <- s.pcs :: !s.pcs[j].Running?
  }

  /** Every place call or Close i can come to next; one that has not come yet is not in pcs. */
  predicate MayGo(s: S, i: nat, pc: Pc) {
    if i !in s.pcs then
      || pc == (if s.closed then Refused else Running)
      || pc == (if s.closing.Some? then Joined(s.closing.value) else Waiting)
    else
      match s.pcs[i]
      case Running => pc == Returned
      case Waiting => pc == Cleaning && NoneRuns(s)
      case Cleaning => pc.Ending?
      case Ending(result) => pc == Closed(result)
      case Joined(c) => c in s.pcs && s.pcs[c].Closed? && pc == s.pcs[c]
      case _ => false
  }

  /** The providers are as they were. */
  predicate SameProviders(s: S, t: S) {
    t.owned == s.owned && t.order == s.order && t.built == s.built && t.finished == s.finished
  }

  /** n is how far a cleanup gets: to the first provider whose Close panics, if one does. */
  predicate Stops(fates: seq<Fate>, n: nat) {
    n <= |fates| && (forall i :: 0 <= i < n ==> !fates[i].Panics?) && (n < |fates| ==> fates[n].Panics?)
  }

  /** What a cleanup comes to. */
  predicate ComesTo(fates: seq<Fate>, n: nat, result: Result)
    requires n <= |fates|
  {
    match result
    case Panicked => n < |fates|
    case Clean => n == |fates| && forall i :: 0 <= i < n ==> !fates[i].Fails?
    case Failure(e) =>
      n == |fates| && exists i :: 0 <= i < n && fates[i] == Fails(e) && forall j :: 0 <= j < i ==> !fates[j].Fails?
  }

  /** The providers after a cleanup: those before n that did not fail are owned no more, and those that closed are finished. */
  ghost predicate Cleans(s: S, t: S, fates: seq<Fate>, n: nat)
    requires n <= |fates| == |s.order|
  {
    && t.built == s.built
    && (forall i :: 0 <= i < |s.order| ==> (s.order[i] in t.owned <==> i >= n || fates[i].Fails?))
    && (forall k <- t.owned :: k in s.owned && t.owned[k] == s.owned[k])
    && s.finished <= t.finished
    && (forall p :: p in t.finished[|s.finished|..] <==> exists i :: 0 <= i < n && fates[i].Closes? && s.order[i] in s.owned && s.owned[s.order[i]] == p)
  }

  /** A cleanup that ends with result has closed what some fates of the providers say. */
  ghost predicate Cleanup(s: S, t: S, result: Result) {
    exists fates, n :: |fates| == |s.order| && Stops(fates, n) && ComesTo(fates, n, result) && Cleans(s, t, fates, n)
  }

  /** What a step that brings i from s to its place in t changes besides. */
  ghost predicate Effect(s: S, t: S, i: nat)
    requires i in t.pcs
  {
    var comes, at := i !in s.pcs, t.pcs[i];
    && t.closed == (s.closed || (comes && (at.Waiting? || at.Joined?)))
    && t.running == s.running + (if comes && at.Running? then 1 else 0) - (if at.Returned? then 1 else 0)
    && t.closing == (if comes && at.Waiting? then Some(i) else if !comes && s.pcs[i].Ending? then None else s.closing)
    && if at.Ending? then Cleanup(s, t, at.result) else SameProviders(s, t)
  }

  /** A step that moves nobody: a running call's provider was there, is not to be had, or is built. */
  predicate Builds(s: S, t: S) {
    || t == s
    || (&& !NoneRuns(s) && |t.built| == |s.built| + 1 && t.built[|s.built|] !in s.owned
        && t == s.(owned := s.owned[t.built[|s.built|] := |s.built|], order := s.order + [t.built[|s.built|]], built := t.built))
  }

  // ----- a cleanup -----

  lemma {:induction false} FirstErrorIs(fates: seq<Fate>, n: nat)
    requires n <= |fates|
    ensures match FirstError(fates, n)
            case None => forall i :: 0 <= i < n ==> !fates[i].Fails?
            case Some(e) => exists i :: 0 <= i < n && fates[i] == Fails(e) && forall j :: 0 <= j < i ==> !fates[j].Fails?
  {
    if n > 0 {
      FirstErrorIs(fates, n - 1);
    }
  }

  lemma {:induction false} ClosedAmongIs(order: seq<Key>, owned: map<Key, Provider>, fates: seq<Fate>, n: nat, p: Provider)
    requires n <= |order| == |fates|
    ensures p in ClosedAmong(order, owned, fates, n) <==> exists i :: 0 <= i < n && fates[i].Closes? && order[i] in owned && owned[order[i]] == p
  {
    if n > 0 {
      ClosedAmongIs(order, owned, fates, n - 1, p);
    }
  }

  lemma ResultIs(fates: seq<Fate>)
    ensures Stops(fates, Reached(fates)) && ComesTo(fates, Reached(fates), ResultOf(fates))
  {
    FirstErrorIs(fates, Reached(fates));
  }

  lemma OwnedAfter(s: S, i: nat, fates: seq<Fate>, m: nat)
    requires Listed(s.order, s.owned) && m < |fates| == |s.order|
    ensures s.order[m] in Cleaned(s, i, fates).owned <==> m >= Reached(fates) || fates[m].Fails?
  {
    ListedOnce(s.order, s.owned);
    ListedKeys(s.order, s.owned);
    KeptIs(s.order, fates, m);
  }

  lemma FinishedAfter(s: S, i: nat, fates: seq<Fate>)
    requires |fates| == |s.order|
    ensures var t := Cleaned(s, i, fates);
            s.finished <= t.finished && t.finished[|s.finished|..] == ClosedAmong(s.order, s.owned, fates, Reached(fates))
  {
  }

  lemma CleanedIs(s: S, i: nat, fates: seq<Fate>)
    requires Listed(s.order, s.owned) && |fates| == |s.order|
    ensures Cleans(s, Cleaned(s, i, fates), fates, Reached(fates))
  {
    var n := Reached(fates);
    FinishedAfter(s, i, fates);
    forall m | 0 <= m < |s.order|
      ensures s.order[m] in Cleaned(s, i, fates).owned <==> m >= n || fates[m].Fails?
    {
      OwnedAfter(s, i, fates, m);
    }
    forall p
      ensures p in ClosedAmong(s.order, s.owned, fates, n) <==>
              exists m :: 0 <= m < n && fates[m].Closes? && s.order[m] in s.owned && s.owned[s.order[m]] == p
    {
      ClosedAmongIs(s.order, s.owned, fates, n, p);
    }
  }

  // ----- steps -----

  lemma OthersStay(s: S, a: Action, i: nat)
    requires Next(s, a).Some? && i != a.i
    ensures i in Next(s, a).value.pcs <==> i in s.pcs
    ensures i in s.pcs ==> Next(s, a).value.pcs[i] == s.pcs[i]
  {
  }

  /** The call or the Close of action a moves, or comes. */
  predicate Moves(s: S, a: Action) {
    Next(s, a).Some? && a.i in Next(s, a).value.pcs && (a.i in s.pcs ==> Next(s, a).value.pcs[a.i] != s.pcs[a.i])
  }

  lemma Routed(s: S, a: Action)
    requires OneCleanup(s) && Moves(s, a)
    ensures MayGo(s, a.i, Next(s, a).value.pcs[a.i])
  {
    if a.Start? {
      NoneRunning(s);
    }
  }

  lemma Affected(s: S, a: Action)
    requires Listed(s.order, s.owned) && Moves(s, a)
    ensures Effect(s, Next(s, a).value, a.i)
  {
    if a.Finish? {
      ResultIs(a.fates);
      CleanedIs(s, a.i, a.fates);
    }
  }

  lemma Still(s: S, a: Action)
    requires OneCleanup(s) && Next(s, a).Some? && Next(s, a).value.pcs == s.pcs
    ensures Builds(s, Next(s, a).value)
  {
  }

  ghost predicate Steps(s: S, t: S, i: nat) {
    && (forall j: nat :: j != i ==> (j in t.pcs <==> j in s.pcs) && (j in s.pcs ==> t.pcs[j] == s.pcs[j]))
    && i in t.pcs
    && (i !in s.pcs || t.pcs[i] != s.pcs[i] ==> MayGo(s, i, t.pcs[i]) && Effect(s, t, i))
    && (t.pcs == s.pcs ==> Builds(s, t))
  }

  lemma StepFollows(s: S, a: Action)
    requires OneCleanup(s) && Listed(s.order, s.owned) && Next(s, a).Some?
    ensures Steps(s, Next(s, a).value, a.i)
  {
    var t := Next(s, a).value;
    forall j: nat | j != a.i ensures (j in t.pcs <==> j in s.pcs) && (j in s.pcs ==> t.pcs[j] == s.pcs[j]) {
      OthersStay(s, a, j);
    }
    Arrived(s, a);
    if Moves(s, a) {
      Routed(s, a);
      Affected(s, a);
    }
    if t.pcs == s.pcs {
      Still(s, a);
    }
  }

  lemma Arrived(s: S, a: Action)
    requires Next(s, a).Some?
    ensures a.i in Next(s, a).value.pcs
  {
  }

  /** Every step of every run follows the routes. */
  lemma RoutesFollowed(acts: seq<Action>, a: Action)
    requires Run(INIT, acts).Some? && Next(Run(INIT, acts).value, a).Some?
    ensures Steps(Run(INIT, acts).value, Next(Run(INIT, acts).value, a).value, a.i)
  {
    InitHolds();
    RunKeeps(INIT, acts);
    StepFollows(Run(INIT, acts).value, a);
  }

  // ----- and every route is open -----

  /** The action that takes i to pc; fates is what the providers' Closes come to. */
  function Via(s: S, i: nat, pc: Pc, fates: seq<Fate>): Action {
    match pc
    case Refused => Enter(i)
    case Running => Enter(i)
    case Returned => Return(i)
    case Waiting => Close(i)
    case Cleaning => Start(i)
    case Ending(_) => Finish(i, fates)
    case Joined(_) => Close(i)
    case Closed(_) => if i in s.pcs && s.pcs[i].Ending? then Leave(i) else Wake(i)
  }

  lemma RoutesOpen(s: S, i: nat, pc: Pc, fates: seq<Fate>)
    requires OneCleanup(s) && MayGo(s, i, pc) && |fates| == |s.order| && (pc.Ending? ==> ComesTo(fates, Reached(fates), pc.result))
    ensures var t := Next(s, Via(s, i, pc, fates)); t.Some? && i in t.value.pcs && t.value.pcs[i] == pc
  {
    if i in s.pcs && s.pcs[i].Running? {
      assert i in Calls(s.pcs);
    } else if i in s.pcs && s.pcs[i].Waiting? {
      assert Calls(s.pcs) == {};
    } else if i in s.pcs && s.pcs[i].Cleaning? {
      ResultIs(fates);
    }
  }

  /** A running call gets the provider it has a key for, or one is built for it, once. */
  lemma ProviderBuilt(s: S, i: nat, key: Key)
    requires i in s.pcs && s.pcs[i].Running?
    ensures Next(s, Provide(i, key, false)) == Some(s)
    ensures key in s.owned ==> Next(s, Provide(i, key, true)) == Some(s)
    ensures key !in s.owned ==>
              Next(s, Provide(i, key, true)) == Some(s.(owned := s.owned[key := |s.built|], order := s.order + [key], built := s.built + [key]))
  {
  }
}
