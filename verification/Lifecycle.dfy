/**
  Any interleaving of calls and Closes on one adapter (adapter/adapter.go):
  one label per critical section, or per step that other goroutines can come
  between.
*/
module Lifecycle {
  import opened Basics
  import opened Adapter

  /** What a cleanup comes to; Panicked is what a Close that waited for it gets when a provider panicked. */
  datatype Result = Clean | Failure(err: string) | Panicked

  /** Where a call or a Close stands. */
  datatype Pc =
    | Refused | Running | Returned
    | Waiting                     // owns the cleanup, waits for the running calls
    | Cleaning                    // inside closeOwned
    | Ending(result: Result)      // out of it, closing not cleared yet
    | Joined(closer: nat)         // waits for that Close's cleanup
    | Closed(result: Result)

  /** built lists the keys the providers were built for, in order; finished lists the successful closes. */
  datatype S = S(closed: bool, running: nat, closing: Option<nat>, owned: map<Key, Provider>, order: seq<Key>,
                 pcs: map<nat, Pc>, built: seq<Key>, finished: seq<Provider>)

  const INIT := S(false, 0, None, map[], [], map[], [], [])

  datatype Action =
    | Enter(i: nat)
    | Provide(i: nat, key: Key, ok: bool)    // a running call asks for its provider; ok says the factory builds one
    | Return(i: nat)
    | Close(i: nat)
    | Start(i: nat)                          // every running call has returned
    | Finish(i: nat, fates: seq<Fate>)       // closeOwned, under the cache's lock
    | Leave(i: nat)
    | Wake(i: nat)

  function To(s: S, i: nat, pc: Pc): S {
    s.(pcs := s.pcs[i := pc])
  }

  function Entered(s: S, i: nat): S {
    if s.closed then To(s, i, Refused) else To(s, i, Running).(running := s.running + 1)
  }

  function Provided(s: S, key: Key, ok: bool): S {
    if key in s.owned || !ok then s
    else s.(owned := s.owned[key := |s.built|], order := s.order + [key], built := s.built + [key])
  }

  function Left(s: S, i: nat): S
    requires s.running > 0
  {
    To(s, i, Returned).(running := s.running - 1)
  }

  function CloseEntered(s: S, i: nat): S {
    match s.closing
    case Some(c) => To(s, i, Joined(c)).(closed := true)
    case None => To(s, i, Waiting).(closed := true, closing := Some(i))
  }

  function ResultOf(fates: seq<Fate>): Result {
    var n := Reached(fates);
    if n < |fates| then Panicked
    else match FirstError(fates, n) case None => Clean case Some(e) => Failure(e)
  }

  /** closeOwned's effect, as Cache.CloseOwned has it. */
  function Cleaned(s: S, i: nat, fates: seq<Fate>): S
    requires |fates| == |s.order|
  {
    var order := Kept(s.order, fates);
    To(s, i, Ending(ResultOf(fates))).(order := order,
                                       owned := map k | k in s.owned && k in order :: s.owned[k],
                                       finished := s.finished + ClosedAmong(s.order, s.owned, fates, Reached(fates)))
  }

  function CleanupLeft(s: S, i: nat, result: Result): S {
    To(s, i, Closed(result)).(closing := None)
  }

  /** One step; None when it is not enabled. */
  function Next(s: S, a: Action): Option<S> {
    match a
    case Enter(i) => if i in s.pcs then None else Some(Entered(s, i))
    case Close(i) => if i in s.pcs then None else Some(CloseEntered(s, i))
    case _ => if a.i in s.pcs then Act(s, a, s.pcs[a.i]) else None
  }

  function Act(s: S, a: Action, pc: Pc): Option<S> {
    match a
    case Provide(i, key, ok) => if pc.Running? then Some(Provided(s, key, ok)) else None
    case Return(i) => if pc.Running? && s.running > 0 then Some(Left(s, i)) else None
    case Start(i) => if pc.Waiting? && s.running == 0 then Some(To(s, i, Cleaning)) else None
    case Finish(i, fates) => if pc.Cleaning? && |fates| == |s.order| then Some(Cleaned(s, i, fates)) else None
    case Leave(i) => if pc.Ending? then Some(CleanupLeft(s, i, pc.result)) else None
    case Wake(i) =>
      if pc.Joined? && pc.closer in s.pcs && s.pcs[pc.closer].Closed? then Some(To(s, i, s.pcs[pc.closer])) else None
    case _ => None
  }

  // ----- what every step keeps -----

  function Calls(pcs: map<nat, Pc>): set<nat> {
    set i | i in pcs && pcs[i].Running?
  }

  lemma CallsChange(pcs: map<nat, Pc>, i: nat, pc: Pc)
    ensures |Calls(pcs[i := pc])| == |Calls(pcs)| - (if i in pcs && pcs[i].Running? then 1 else 0) + if pc.Running? then 1 else 0
  {
    var rest := Calls(pcs) - {i};
    if pc.Running? {
      assert Calls(pcs[i := pc]) == rest + {i};
    } else {
      assert Calls(pcs[i := pc]) == rest;
    }
    if i in Calls(pcs) {
      assert Calls(pcs) == rest + {i};
    } else {
      assert Calls(pcs) == rest;
    }
  }

  predicate OwnsCleanup(pc: Pc) {
    pc.Waiting? || pc.Cleaning? || pc.Ending?
  }

  /** The Close c runs a cleanup or has its result. */
  predicate Joinable(s: S, c: nat) {
    c in s.pcs && (s.closing == Some(c) || s.pcs[c].Closed?)
  }

  /** One cleanup at a time, after the adapter closed; none cleans while a call runs; a Close that joined one finds its result. */
  predicate OneCleanup(s: S) {
    && s.running == |Calls(s.pcs)|
    && (forall i <- s.pcs :: OwnsCleanup(s.pcs[i]) ==> s.closing == Some(i) && s.closed)
    && (s.closing.Some? ==> s.closing.value in s.pcs && OwnsCleanup(s.pcs[s.closing.value]))
    && (forall i <- s.pcs :: s.pcs[i].Cleaning? || s.pcs[i].Ending? ==> s.running == 0)
    && (forall i <- s.pcs :: s.pcs[i].Joined? ==> Joinable(s, s.pcs[i].closer))
  }

  ghost predicate Distinct(ps: seq<Provider>) {
    forall i, j :: 0 <= i < j < |ps| ==> ps[i] != ps[j]
  }

  /** An owned provider was built, for the key that owns it. */
  ghost predicate OneKeyEach(owned: map<Key, Provider>, built: seq<Key>) {
    forall k <- owned :: owned[k] < |built| && built[owned[k]] == k
  }

  /** order lists what is owned; every provider built is one of the owned ones, at most once, or closed, at most once, or dropped. */
  ghost predicate ClosedOnce(s: S) {
    && Listed(s.order, s.owned)
    && OneKeyEach(s.owned, s.built)
    && (forall k <- s.owned :: s.owned[k] !in s.finished)
    && (forall p <- s.finished :: p < |s.built|)
    && Distinct(s.finished)
  }

  lemma StepOneCleanup(s: S, a: Action)
    requires OneCleanup(s) && Next(s, a).Some?
    ensures OneCleanup(Next(s, a).value)
  {
    var t := Next(s, a).value;
    if !a.Provide? {
      CallsChange(s.pcs, a.i, t.pcs[a.i]);
      assert t.pcs == s.pcs[a.i := t.pcs[a.i]];
    }
  }

  // ----- a cleanup -----

  lemma {:induction false} FailedWithin(order: seq<Key>, fates: seq<Fate>, n: nat)
    requires n <= |order| == |fates| && NoRepeats(order)
    ensures NoRepeats(Failed(order, fates, n))
    ensures forall k <- Failed(order, fates, n) :: k in order[..n]
  {
    if n > 0 {
      FailedWithin(order, fates, n - 1);
      assert order[..n] == order[..n - 1] + [order[n - 1]];
      assert order[n - 1] !in order[..n - 1];
    }
  }

  lemma KeptOnce(order: seq<Key>, fates: seq<Fate>)
    requires |order| == |fates| && NoRepeats(order)
    ensures NoRepeats(Kept(order, fates))
    ensures forall k <- Kept(order, fates) :: k in order
  {
    var n := Reached(fates);
    FailedWithin(order, fates, n);
    forall k | k in order[..n]
      ensures k !in order[n..]
    {
      var j :| 0 <= j < n && order[j] == k;
      assert forall m :: n <= m < |order| ==> order[m] != order[j];
    }
    Disjoint(Failed(order, fates, n), order[n..]);
  }

  lemma Disjoint(a: seq<Key>, b: seq<Key>)
    requires NoRepeats(a) && NoRepeats(b) && forall k <- a :: k !in b
    ensures NoRepeats(a + b)
  {
    forall i, j | 0 <= i < j < |a + b|
      ensures (a + b)[i] != (a + b)[j]
    {
      if i < |a| <= j {
        assert a[i] !in b && b[j - |a|] in b;
      }
    }
  }

  /** A list without repeats of exactly the keys of owned lists it. */
  lemma {:induction false} OnceListed(order: seq<Key>, keys: set<Key>)
    requires NoRepeats(order) && (forall k <- order :: k in keys) && (forall k <- keys :: k in order)
    ensures multiset(order) == multiset(keys)
    decreases |order|
  {
    if order == [] {
      assert keys == {};
    } else {
      var n := |order| - 1;
      var init, last := order[..n], order[n];
      assert order == init + [last];
      assert last !in init;
      OnceListed(init, keys - {last});
      assert multiset(keys) == multiset(keys - {last}) + multiset{last};
    }
  }

  /** A provider is closed only through its own key. */
  lemma {:induction false} NotClosed(order: seq<Key>, owned: map<Key, Provider>, fates: seq<Fate>, n: nat, built: seq<Key>, k: Key)
    requires n <= |order| == |fates| && OneKeyEach(owned, built) && k in owned
    requires forall j :: 0 <= j < n && order[j] == k ==> !fates[j].Closes?
    ensures owned[k] !in ClosedAmong(order, owned, fates, n)
  {
    if n > 0 {
      NotClosed(order, owned, fates, n - 1, built, k);
    }
  }

  /** The providers a cleanup closes are owned ones, each once. */
  lemma {:induction false} ClosedDistinct(order: seq<Key>, owned: map<Key, Provider>, fates: seq<Fate>, n: nat, built: seq<Key>)
    requires n <= |order| == |fates| && NoRepeats(order) && OneKeyEach(owned, built)
    ensures Distinct(ClosedAmong(order, owned, fates, n))
    ensures forall p <- ClosedAmong(order, owned, fates, n) :: p in owned.Values
  {
    if n > 0 {
      ClosedDistinct(order, owned, fates, n - 1, built);
      if order[n - 1] in owned {
        NotClosed(order, owned, fates, n - 1, built, order[n - 1]);
      }
    }
  }

  /** A provider whose key is kept was not closed. */
  lemma ClosedNotKept(order: seq<Key>, owned: map<Key, Provider>, fates: seq<Fate>, built: seq<Key>, k: Key)
    requires |order| == |fates| && NoRepeats(order) && OneKeyEach(owned, built)
    requires k in owned && k in Kept(order, fates)
    ensures owned[k] !in ClosedAmong(order, owned, fates, Reached(fates))
  {
    var n := Reached(fates);
    forall j | 0 <= j < n && order[j] == k
      ensures !fates[j].Closes?
    {
      KeptIs(order, fates, j);
    }
    NotClosed(order, owned, fates, n, built, k);
  }

  lemma CleanedListed(s: S, i: nat, fates: seq<Fate>)
    requires ClosedOnce(s) && |fates| == |s.order|
    ensures Listed(Cleaned(s, i, fates).order, Cleaned(s, i, fates).owned)
  {
    var t := Cleaned(s, i, fates);
    ListedKeys(s.order, s.owned);
    ListedOnce(s.order, s.owned);
    KeptOnce(s.order, fates);
    OnceListed(t.order, t.owned.Keys);
  }

  lemma Appended(a: seq<Provider>, b: seq<Provider>)
    requires Distinct(a) && Distinct(b) && forall p <- b :: p !in a
    ensures Distinct(a + b)
  {
    forall i, j | 0 <= i < j < |a + b|
      ensures (a + b)[i] != (a + b)[j]
    {
      if i < |a| <= j {
        assert b[j - |a|] !in a && a[i] in a;
      }
    }
  }

  lemma CleanedFinished(s: S, i: nat, fates: seq<Fate>)
    requires ClosedOnce(s) && |fates| == |s.order|
    ensures var t := Cleaned(s, i, fates); Distinct(t.finished) && forall p <- t.finished :: p < |t.built|
    ensures var t := Cleaned(s, i, fates); forall k <- t.owned :: t.owned[k] !in t.finished
  {
    var t := Cleaned(s, i, fates);
    ListedOnce(s.order, s.owned);
    ClosedDistinct(s.order, s.owned, fates, Reached(fates), s.built);
    var more := ClosedAmong(s.order, s.owned, fates, Reached(fates));
    forall p | p in more
      ensures p < |s.built| && p !in s.finished
    {
      var k :| k in s.owned && s.owned[k] == p;
    }
    Appended(s.finished, more);
    forall k | k in t.owned
      ensures t.owned[k] !in t.finished
    {
      ClosedNotKept(s.order, s.owned, fates, s.built, k);
    }
  }

  lemma ProvidedOnce(s: S, key: Key)
    requires ClosedOnce(s) && key !in s.owned
    ensures ClosedOnce(Provided(s, key, true))
  {
    var t := Provided(s, key, true);
    assert Listed(t.order, t.owned) by {
      assert t.owned.Keys == s.owned.Keys + {key};
      assert multiset(t.owned.Keys) == multiset(s.owned.Keys) + multiset{key};
    }
  }

  lemma StepClosedOnce(s: S, a: Action)
    requires ClosedOnce(s) && Next(s, a).Some?
    ensures ClosedOnce(Next(s, a).value)
  {
    if a.Finish? {
      CleanedListed(s, a.i, a.fates);
      CleanedFinished(s, a.i, a.fates);
    } else if a.Provide? && a.key !in s.owned && a.ok {
      ProvidedOnce(s, a.key);
    } else {
      ProvidersStay(s, a);
    }
  }

  lemma ProvidersStay(s: S, a: Action)
    requires Next(s, a).Some? && !a.Finish? && !(a.Provide? && a.key !in s.owned && a.ok)
    ensures var t := Next(s, a).value; t.order == s.order && t.owned == s.owned && t.built == s.built && t.finished == s.finished
  {
  }

  // ----- whole runs -----

  function Run(s: S, acts: seq<Action>): Option<S>
    decreases |acts|
  {
    if acts == [] then Some(s)
    else match Next(s, acts[0])
         case None => None
         case Some(t) => Run(t, acts[1..])
  }

  lemma {:induction false} RunKeeps(s: S, acts: seq<Action>)
    requires OneCleanup(s) && ClosedOnce(s) && Run(s, acts).Some?
    ensures OneCleanup(Run(s, acts).value) && ClosedOnce(Run(s, acts).value)
    decreases |acts|
  {
    if acts != [] {
      StepOneCleanup(s, acts[0]);
      StepClosedOnce(s, acts[0]);
      RunKeeps(Next(s, acts[0]).value, acts[1..]);
    }
  }

  lemma InitHolds()
    ensures OneCleanup(INIT) && ClosedOnce(INIT)
  {
    assert Calls(INIT.pcs) == {};
  }

  /**
    In every reachable state at most one cleanup runs, only on a closed
    adapter and with no call running; order lists exactly the owned keys, each
    once; and no provider was closed successfully twice, nor is a closed one
    still owned.
  */
  lemma LifecycleSafety(acts: seq<Action>)
    requires Run(INIT, acts).Some?
    ensures var s := Run(INIT, acts).value;
            && (forall i, j :: i in s.pcs && j in s.pcs && OwnsCleanup(s.pcs[i]) && OwnsCleanup(s.pcs[j]) ==> i == j)
            && (forall i <- s.pcs :: s.pcs[i].Cleaning? ==> s.closed && Calls(s.pcs) == {})
            && Listed(s.order, s.owned)
            && Distinct(s.finished)
            && (forall k <- s.owned :: s.owned[k] !in s.finished)
  {
    InitHolds();
    RunKeeps(INIT, acts);
  }

  lemma NoneRunning(s: S)
    requires OneCleanup(s) && s.running == 0
    ensures forall i <- s.pcs :: !s.pcs[i].Running?
  {
    assert forall i :: i in Calls(s.pcs) <==> i in s.pcs && s.pcs[i].Running?;
  }

  /** Once a cleanup may start, no call builds or uses a provider ever again. */
  lemma {:induction false} QuietForGood(s: S, acts: seq<Action>)
    requires OneCleanup(s) && s.closed && s.running == 0 && Run(s, acts).Some?
    ensures forall a <- acts :: !a.Provide?
    ensures Run(s, acts).value.closed && Run(s, acts).value.running == 0
    decreases |acts|
  {
    if acts != [] {
      var t := Next(s, acts[0]).value;
      StepOneCleanup(s, acts[0]);
      NoneRunning(s);
      QuietForGood(t, acts[1..]);
    }
  }

  /** A Close that joined a cleanup returns that cleanup's result. */
  lemma JoinedResult(s: S, i: nat)
    requires OneCleanup(s) && i in s.pcs && s.pcs[i].Joined?
    ensures s.closing == Some(s.pcs[i].closer) ==> Next(s, Wake(i)).None?
    ensures s.closing != Some(s.pcs[i].closer) ==> Next(s, Wake(i)) == Some(To(s, i, s.pcs[s.pcs[i].closer]))
  {
  }
}
