/** The cleanup of adapter/adapter.go on the adapter's own fields: the providers it built, and the Close that closes them.
    Module Lifecycle has any interleaving of calls and Closes. */
module Adapter {
  import opened Basics

  type Key = string
  type Provider = nat

  /** What a provider's Close comes to; a provider that is no io.Closer has none. */
  datatype Fate = NotCloser | Closes | Fails(err: string) | Panics

  // ----- closeOwned -----

  /** How many providers a cleanup gets past: up to the first whose Close panics. */
  function Reached(fates: seq<Fate>, i: nat := 0): (n: nat)
    requires i <= |fates|
    ensures i <= n <= |fates|
    ensures n < |fates| ==> fates[n].Panics?
    ensures forall j :: i <= j < n ==> !fates[j].Panics?
    decreases |fates| - i
  {
    if i == |fates| || fates[i].Panics? then i else Reached(fates, i + 1)
  }

  /** The keys among the first n whose provider failed to close, in order. */
  function Failed(order: seq<Key>, fates: seq<Fate>, n: nat): seq<Key>
    requires n <= |order| == |fates|
  {
    if n == 0 then []
    else if fates[n - 1].Fails? then Failed(order, fates, n - 1) + [order[n - 1]]
    else Failed(order, fates, n - 1)
  }

  /** What a cleanup leaves in order: the keys whose close failed, then those from the panicking one on. */
  function Kept(order: seq<Key>, fates: seq<Fate>): seq<Key>
    requires |order| == |fates|
  {
    Failed(order, fates, Reached(fates)) + order[Reached(fates)..]
  }

  /** The first error among the first n. */
  function FirstError(fates: seq<Fate>, n: nat): Option<string>
    requires n <= |fates|
  {
    if n == 0 then None
    else OrElse(FirstError(fates, n - 1), if fates[n - 1].Fails? then Some(fates[n - 1].err) else None)
  }

  /** The providers among the first n that closed, in order. */
  function ClosedAmong(order: seq<Key>, owned: map<Key, Provider>, fates: seq<Fate>, n: nat): seq<Provider>
    requires n <= |order| == |fates|
  {
    if n == 0 then []
    else if fates[n - 1].Closes? && order[n - 1] in owned then ClosedAmong(order, owned, fates, n - 1) + [owned[order[n - 1]]]
    else ClosedAmong(order, owned, fates, n - 1)
  }

  ghost predicate NoRepeats(s: seq<Key>) {
    forall i, j :: 0 <= i < j < |s| ==> s[i] != s[j]
  }

  /** order lists without repeats exactly the keys of owned: each of them once. */
  ghost predicate Listed(order: seq<Key>, owned: map<Key, Provider>) {
    multiset(order) == multiset(owned.Keys)
  }

  /** The keys from position i on. */
  ghost function From(order: seq<Key>, i: nat): multiset<Key>
    requires i <= |order|
    decreases |order| - i
  {
    if i == |order| then multiset{} else multiset{order[i]} + From(order, i + 1)
  }

  lemma {:induction false} FromIs(order: seq<Key>, i: nat)
    requires i <= |order|
    ensures From(order, i) == multiset(order[i..])
    decreases |order| - i
  {
    if i < |order| {
      FromIs(order, i + 1);
      assert order[i..] == [order[i]] + order[i + 1..];
    }
  }

  lemma DropKey(kept: multiset<Key>, rest: multiset<Key>, keys: set<Key>, key: Key)
    requires kept + (multiset{key} + rest) == multiset(keys)
    ensures kept + rest == multiset(keys - {key})
  {
    forall k
      ensures (kept + rest)[k] == multiset(keys - {key})[k]
    {
      assert (kept + (multiset{key} + rest))[k] == multiset(keys)[k];
    }
  }

  lemma ListedKeys(order: seq<Key>, owned: map<Key, Provider>)
    requires Listed(order, owned)
    ensures forall k <- order :: k in owned
    ensures forall k <- owned :: k in order
  {
    forall k | k in order
      ensures k in owned
    {
      assert k in multiset(order);
    }
    forall k | k in owned
      ensures k in order
    {
      assert k in multiset(owned.Keys);
    }
  }

  lemma ListedOnce(order: seq<Key>, owned: map<Key, Provider>)
    requires Listed(order, owned)
    ensures NoRepeats(order)
  {
    forall i, j | 0 <= i < j < |order|
      ensures order[i] != order[j]
    {
      var a, b, c := order[..i], order[i + 1..j], order[j + 1..];
      assert order == a + [order[i]] + b + [order[j]] + c;
      assert multiset(order)[order[i]] <= 1;
    }
  }

  /** A key is kept exactly when its close failed or was not reached. */
  lemma {:induction false} FailedIs(order: seq<Key>, fates: seq<Fate>, n: nat, i: nat)
    requires n <= |order| == |fates| && i < n && NoRepeats(order)
    ensures order[i] in Failed(order, fates, n) <==> fates[i].Fails?
    ensures forall k <- Failed(order, fates, n) :: k in order[..n]
  {
    if i < n - 1 {
      FailedIs(order, fates, n - 1, i);
    } else if n > 1 {
      FailedIs(order, fates, n - 1, 0);
    }
    assert order[..n] == order[..n - 1] + [order[n - 1]];
  }

  lemma KeptIs(order: seq<Key>, fates: seq<Fate>, i: nat)
    requires i < |order| == |fates| && NoRepeats(order)
    ensures order[i] in Kept(order, fates) <==> i >= Reached(fates) || fates[i].Fails?
  {
    var n := Reached(fates);
    if i < n {
      FailedIs(order, fates, n, i);
      assert order[i] !in order[n..];
    } else {
      assert order[i] == order[n..][i - n];
    }
  }

  /** The cache of owned providers; closed records the successful closes, for the specification. */
  class Cache {
    var owned: map<Key, Provider>
    var order: seq<Key>
    ghost var closed: seq<Provider>

    ghost predicate Valid()
      reads this
    {
      Listed(order, owned)
    }

    constructor ()
      ensures Valid() && order == [] && closed == []
    {
      owned, order, closed := map[], [], [];
    }

    /** provider: the cached one, or the one the factory builds on first use; an error leaves no entry. */
    method Provide(key: Key, built: Option<Provider>) returns (p: Option<Provider>)
      requires Valid()
      modifies this`owned, this`order
      ensures Valid()
      ensures p == if key in old(owned) then Some(old(owned)[key]) else built
      ensures key in old(owned) || built.None? ==> owned == old(owned) && order == old(order)
      ensures key !in old(owned) && built.Some? ==> owned == old(owned)[key := built.value] && order == old(order) + [key]
    {
      if key in owned {
        return Some(owned[key]);
      }
      if built.None? {
        return None;
      }
      owned := owned[key := built.value];
      order := order + [key];
      p := built;
    }

    /** One turn of the loop over a provider whose Close returns: kept and the keys from i on are what is owned. */
    method CloseOne(kept: seq<Key>, i: nat, fate: Fate) returns (kept': seq<Key>, err: Option<string>)
      requires i < |order| && !fate.Panics? && multiset(kept) + From(order, i) == multiset(owned.Keys)
      modifies this`owned, this`closed
      ensures multiset(kept') + From(order, i + 1) == multiset(owned.Keys)
      ensures kept' == if fate.Fails? then kept + [order[i]] else kept
      ensures err == if fate.Fails? then Some(fate.err) else None
      ensures owned == if fate.Fails? then old(owned) else old(owned) - {order[i]}
      ensures order[i] in old(owned) && closed == old(closed) + if fate.Closes? then [old(owned)[order[i]]] else []
    {
      var key := order[i];
      assert key in multiset(owned.Keys);
      err, kept' := None, kept;
      if fate.Fails? {
        err, kept' := Some(fate.err), kept + [key];
      } else {
        if fate.Closes? {
          closed := closed + [owned[key]];
        }
        DropKey(multiset(kept), From(order, i + 1), owned.Keys, key);
        owned := owned - {key};
        assert owned.Keys == old(owned).Keys - {key};
      }
    }

    /** One turn of the loop, and what it has done so far. */
    method CloseNext(kept: seq<Key>, first: Option<string>, i: nat, fates: seq<Fate>, ghost owned0: map<Key, Provider>, ghost closed0: seq<Provider>)
      returns (kept': seq<Key>, first': Option<string>)
      requires Progress(order, fates, owned0, closed0, i, kept, first, owned, closed) && i < |order| && !fates[i].Panics?
      modifies this`owned, this`closed
      ensures Progress(order, fates, owned0, closed0, i + 1, kept', first', owned, closed)
    {
      var err;
      kept', err := CloseOne(kept, i, fates[i]);
      first' := OrElse(first, err);
      assert closed == closed0 + ClosedAmong(order, owned0, fates, i + 1);
    }

    /** The loop of closeOwned: it stops at the first provider whose Close panics. */
    method CloseUntilPanic(fates: seq<Fate>) returns (kept: seq<Key>, first: Option<string>, i: nat)
      requires Valid() && |fates| == |order|
      modifies this`owned, this`closed
      ensures i == Reached(fates)
      ensures Progress(order, fates, old(owned), old(closed), i, kept, first, owned, closed)
    {
      ListedKeys(order, owned);
      kept, first, i := [], None, 0;
      FromIs(order, 0);
      assert order[0..] == order;
      while i < |order|
        invariant i <= |order|
        invariant forall j :: 0 <= j < i ==> !fates[j].Panics?
        invariant Progress(order, fates, old(owned), old(closed), i, kept, first, owned, closed)
      {
        if fates[i].Panics? {
          break;
        }
        kept, first := CloseNext(kept, first, i, fates, old(owned), old(closed));
        i := i + 1;
      }
      ReachedIs(fates, i);
    }

    /**
      closeOwned: the providers are closed in the order they were built, until
      one panics. order then lists exactly the keys still owned: those whose
      close failed, then those not reached.
    */
    method CloseOwned(fates: seq<Fate>) returns (first: Option<string>, panicked: bool)
      requires Valid() && |fates| == |order|
      modifies this
      ensures Valid()
      ensures order == Kept(old(order), fates)
      ensures forall k <- owned :: k in old(owned) && owned[k] == old(owned)[k]
      ensures panicked <==> Reached(fates) < |fates|
      ensures first == FirstError(fates, Reached(fates))
      ensures closed == old(closed) + ClosedAmong(old(order), old(owned), fates, Reached(fates))
    {
      var kept, i;
      kept, first, i := CloseUntilPanic(fates);
      panicked := i < |order|;
      FromIs(order, i);
      order := kept + order[i..];
    }
  }

  /** The loop of closeOwned has handled the first i providers. */
  ghost predicate Progress(order: seq<Key>, fates: seq<Fate>, owned0: map<Key, Provider>, closed0: seq<Provider>, i: nat,
                           kept: seq<Key>, first: Option<string>, owned: map<Key, Provider>, closed: seq<Provider>)
  {
    && i <= |order| == |fates|
    && (forall k <- order :: k in owned0)
    && kept == Failed(order, fates, i) && first == FirstError(fates, i)
    && multiset(kept) + From(order, i) == multiset(owned.Keys)
    && (forall k <- owned :: k in owned0 && owned[k] == owned0[k])
    && closed == closed0 + ClosedAmong(order, owned0, fates, i)
  }

  lemma ReachedIs(fates: seq<Fate>, n: nat)
    requires n <= |fates| && (forall j :: 0 <= j < n ==> !fates[j].Panics?)
    requires n < |fates| ==> fates[n].Panics?
    ensures Reached(fates) == n
  {
  }
}
