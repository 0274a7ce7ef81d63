/** The header-write token of internal/h2gate/transport.go, step by step. */
module Token {
  import opened Basics

  // A channel with room for one: a request sends into it before the stock transport
  // runs and receives from it once, from whichever hook, timer or exit comes first,
  // or goes out without it.

  type Conn = nat

  /**
    A request past send's select. took: it sent into the channel. given: the
    flag giveBack swaps. receiving: a giveBack has swapped the flag and not
    received yet. returned: how often it has received. first, armed: FirstHold
    engaged, the hold bound's timer exists.
  */
  datatype Call = Call(took: bool, given: bool, receiving: bool, returned: nat, first: bool, armed: bool, finished: bool)

  /** The channel holds the token of the request named in token; cancelled holds the requests whose context ended before they went out. */
  datatype S = S(token: Option<nat>, calls: map<nat, Call>, waiting: set<nat>, cancelled: set<nat>, unsettled: seq<Conn>,
                 firstHolds: nat, settleHolds: nat, holdExpiries: nat, tokenExpiries: nat)

  const INIT := S(None, map[], {}, {}, [], 0, 0, 0, 0)
  const HELD := Call(true, false, false, 0, false, false, false)
  const WITHOUT := Call(false, true, false, 0, false, false, false)

  datatype Action =
    | Take(i: nat)                                     // send: the channel has room
    | Wait(i: nat)                                     // send: it has none
    | WaitTake(i: nat)                                 // waitToken: room again
    | WaitCancel(i: nat)                               // waitToken: the context ended
    | WaitExpire(i: nat)                               // waitToken: the hold bound ended
    | GiveBack(i: nat)                                 // giveBack's swap: HTTP/1.1, headers written, the hold bound, any exit
    | Receive(i: nat)                                  // giveBack's receive
    | GotNew(i: nat)                                   // gotConn: a new HTTP/2 connection for a holder
    | GotReused(i: nat, conn: Conn)                    // gotConn: a reused one for a holder
    | Replayed(i: nat, conn: Conn)                     // gotConn: a new one for a request that gave the token back
    | WroteHeaders(i: nat)                             // the headers are written under FirstHold: the bound is armed
    | HoldBound(i: nat)                                // the hold bound ends
    | Finish(i: nat)                                   // send returns or panics
    | Responded(conn: Conn)                            // the replay's response clears its mark

  const MAX_UNSETTLED: nat := 8

  /** markUnsettled: the oldest mark goes when the new one does not fit. */
  function Mark(list: seq<Conn>, conn: Conn): seq<Conn> {
    (if |list| == MAX_UNSETTLED then list[1..] else list) + [conn]
  }

  /** takeUnsettled: the first mark of conn goes. */
  function Unmark(list: seq<Conn>, conn: Conn): seq<Conn> {
    if list == [] then [] else if list[0] == conn then list[1..] else [list[0]] + Unmark(list[1..], conn)
  }

  function Put(s: S, i: nat, c: Call): S {
    s.(calls := s.calls[i := c])
  }

  /** giveBack's compare-and-swap: the first to swap receives. */
  function Swap(s: S, i: nat, c: Call, expired: bool): S {
    if c.given then s
    else Put(s, i, c.(given := true, receiving := true)).(holdExpiries := s.holdExpiries + if expired then 1 else 0)
  }

  function TakeNow(s: S, i: nat): S {
    Put(s, i, HELD).(token := Some(i), waiting := s.waiting - {i})
  }

  /** FirstHold engages; a request that engaged it before counts once. */
  function Engage(s: S, i: nat, c: Call): S {
    Put(s, i, c.(first := true)).(firstHolds := s.firstHolds + if c.first then 0 else 1)
  }

  /** A hold on a connection a replay left unsettled. */
  function Settle(s: S, i: nat, c: Call, conn: Conn): S {
    Engage(s, i, c).(settleHolds := s.settleHolds + 1, unsettled := Unmark(s.unsettled, conn))
  }

  /** A request that has not reached send's select. */
  predicate New(s: S, i: nat) {
    i !in s.calls && i !in s.waiting && i !in s.cancelled
  }

  /**
    One step; None when it is not enabled. A hook reads given before it acts,
    and given may change in between: the hooks of a holder are enabled for any
    request that took the token.
  */
  function Next(s: S, a: Action): Option<S> {
    match a
    case Responded(conn) => Some(s.(unsettled := Unmark(s.unsettled, conn)))
    case Take(i) => if New(s, i) && s.token.None? then Some(TakeNow(s, i)) else None
    case Wait(i) => if New(s, i) && s.token.Some? then Some(s.(waiting := s.waiting + {i})) else None
    case WaitTake(i) => if i !in s.calls && i in s.waiting && s.token.None? then Some(TakeNow(s, i)) else None
    case WaitCancel(i) => if i in s.waiting then Some(s.(waiting := s.waiting - {i}, cancelled := s.cancelled + {i})) else None
    case WaitExpire(i) =>
      if i !in s.calls && i in s.waiting
      then Some(Put(s, i, WITHOUT).(waiting := s.waiting - {i}, tokenExpiries := s.tokenExpiries + 1)) else None
    case _ => if a.i in s.calls then Act(s, a, s.calls[a.i]) else None
  }

  function Act(s: S, a: Action, c: Call): Option<S>
    requires !a.Responded?
  {
    match a
    case GiveBack(i) => Some(Swap(s, i, c, false))
    case HoldBound(i) => if c.armed then Some(Swap(s, i, c, true)) else None
    case Finish(i) => Some(Swap(Put(s, i, c.(finished := true)), i, c.(finished := true), false))
    case Receive(i) => if c.receiving && s.token.Some? then Some(Put(s, i, c.(receiving := false, returned := c.returned + 1)).(token := None)) else None
    case GotNew(i) => if c.took then Some(Engage(s, i, c)) else None
    case GotReused(i, conn) => if c.took && conn in s.unsettled then Some(Settle(s, i, c, conn)) else None
    case Replayed(i, conn) => if c.given then Some(s.(unsettled := Mark(s.unsettled, conn))) else None
    case WroteHeaders(i) => if c.first then Some(Put(s, i, c.(armed := true))) else None
    case _ => None
  }

  // ----- conservation -----

  /** What is left of request c's token: it took it and has not received it back. */
  predicate Owes(c: Call) {
    c.took && c.returned == 0
  }

  /** A request's flags: it receives back only what it took, once, and only after the swap. */
  predicate Honest(c: Call) {
    && (c.receiving ==> c.given && Owes(c))
    && (if c.took then c.returned == if c.given && !c.receiving then 1 else 0 else c.given && !c.receiving && c.returned == 0)
    && (c.finished ==> c.given)
  }

  /** The token in the channel is the one request's that owes it. */
  predicate Conserved(s: S) {
    && (forall i <- s.calls :: Honest(s.calls[i]))
    && (forall i <- s.calls :: Owes(s.calls[i]) ==> s.token == Some(i))
    && (s.token.Some? ==> s.token.value in s.calls && Owes(s.calls[s.token.value]))
    && |s.unsettled| <= MAX_UNSETTLED
  }

  lemma {:induction false} UnmarkShrinks(list: seq<Conn>, conn: Conn)
    ensures |Unmark(list, conn)| == |list| - if conn in list then 1 else 0
  {
    if list != [] && list[0] != conn {
      UnmarkShrinks(list[1..], conn);
    }
  }

  /** Unmark takes the first occurrence out, and nothing when there is none. */
  lemma {:induction false} UnmarkAt(list: seq<Conn>, i: nat, conn: Conn)
    requires i <= |list| && conn !in list[..i]
    ensures i == |list| ==> Unmark(list, conn) == list
    ensures i < |list| && list[i] == conn ==> Unmark(list, conn) == list[..i] + list[i + 1..]
  {
    if i > 0 {
      assert list[1..][..i - 1] == list[..i][1..];
      UnmarkAt(list[1..], i - 1, conn);
    }
  }

  /** A request moves without taking the token or receiving it back. */
  lemma MoveConserves(s: S, t: S, i: nat, c: Call)
    requires Conserved(s) && i in s.calls && t.calls == s.calls[i := c] && t.token == s.token
    requires Honest(c) && Owes(c) == Owes(s.calls[i]) && |t.unsettled| <= MAX_UNSETTLED
    ensures Conserved(t)
  {
  }

  lemma TakeConserves(s: S, i: nat)
    requires Conserved(s) && i !in s.calls && s.token.None?
    ensures Conserved(TakeNow(s, i))
  {
  }

  lemma ReceiveConserves(s: S, i: nat)
    requires Conserved(s) && Next(s, Receive(i)).Some?
    ensures Conserved(Next(s, Receive(i)).value)
  {
  }

  lemma StepConserves(s: S, a: Action)
    requires Conserved(s) && Next(s, a).Some?
    ensures Conserved(Next(s, a).value)
  {
    var t := Next(s, a).value;
    if a.GotReused? || a.Responded? {
      UnmarkShrinks(s.unsettled, a.conn);
    }
    if a.Take? || a.WaitTake? {
      TakeConserves(s, a.i);
    } else if a.Receive? {
      ReceiveConserves(s, a.i);
    } else if !a.Responded? && a.i in s.calls && a.i in t.calls && t.calls == s.calls[a.i := t.calls[a.i]] {
      MoveConserves(s, t, a.i, t.calls[a.i]);
    }
  }

  function Run(s: S, acts: seq<Action>): Option<S>
    decreases |acts|
  {
    if acts == [] then Some(s)
    else match Next(s, acts[0])
         case None => None
         case Some(t) => Run(t, acts[1..])
  }

  lemma {:induction false} RunConserves(s: S, acts: seq<Action>)
    requires Conserved(s) && Run(s, acts).Some?
    ensures Conserved(Run(s, acts).value)
    decreases |acts|
  {
    if acts != [] {
      StepConserves(s, acts[0]);
      RunConserves(Next(s, acts[0]).value, acts[1..]);
    }
  }

  /** The requests that took the token and have not given it back. */
  function Owing(s: S): set<nat> {
    set i | i in s.calls && Owes(s.calls[i])
  }

  /**
    In every reachable state the channel's length is the number of requests
    that took the token and have not completed giveBack; a receive in giveBack
    finds its own request's token; a request returns at most one, and one that
    went out without it returns none; a request past its exit owes nothing but
    the receive it is in.
  */
  lemma TokenConserved(acts: seq<Action>)
    requires Run(INIT, acts).Some?
    ensures var s := Run(INIT, acts).value;
            && |Owing(s)| == (if s.token.Some? then 1 else 0)
            && (forall i <- s.calls :: s.calls[i].receiving ==> s.token == Some(i))
            && (forall i <- s.calls :: s.calls[i].returned <= 1 && (!s.calls[i].took ==> s.calls[i].returned == 0))
            && (forall i <- s.calls :: s.calls[i].finished && !s.calls[i].receiving ==> !Owes(s.calls[i]))
  {
    RunConserves(INIT, acts);
    var s := Run(INIT, acts).value;
    if s.token.Some? {
      assert Owing(s) == {s.token.value};
    } else {
      assert Owing(s) == {};
    }
  }

  /** The receive never blocks. */
  lemma ReceiveEnabled(s: S, i: nat)
    requires Conserved(s) && i in s.calls && s.calls[i].receiving
    ensures Next(s, Receive(i)).Some? && Next(s, Receive(i)).value.token == None
    ensures s.token == Some(i)
  {
  }

  /** A finished request puts the token back by one receive of its own, whatever the others do: the next request can take it. */
  lemma TokenComesBack(s: S, i: nat) returns (t: S)
    requires Conserved(s) && s.token == Some(i)
    ensures Run(s, [Finish(i), Receive(i)]) == Some(t) && t.token == None && Conserved(t)
  {
    var u := Next(s, Finish(i)).value;
    StepConserves(s, Finish(i));
    t := Next(u, Receive(i)).value;
    StepConserves(u, Receive(i));
    RunTwo(s, Finish(i), Receive(i));
  }

  // ----- the holds -----

  /** The requests that engaged FirstHold. */
  function Holders(s: S): set<nat> {
    set i | i in s.calls && s.calls[i].first
  }

  lemma HoldersWithout(s: S, i: nat)
    ensures |Holders(s)| == |Holders(s) - {i}| + if i in s.calls && s.calls[i].first then 1 else 0
  {
    if i in s.calls && s.calls[i].first {
      assert Holders(s) == Holders(s) - {i} + {i};
    } else {
      assert Holders(s) == Holders(s) - {i};
    }
  }

  lemma HoldersChange(s: S, t: S, i: nat)
    requires i in t.calls && t.calls == s.calls[i := t.calls[i]]
    ensures |Holders(t)| == |Holders(s)| - (if i in s.calls && s.calls[i].first then 1 else 0) + if t.calls[i].first then 1 else 0
  {
    HoldersWithout(s, i);
    HoldersWithout(t, i);
    assert Holders(t) - {i} == Holders(s) - {i};
  }

  /** A step changes the flags of one request at most, and counts it when it engages FirstHold. */
  predicate OneMoves(s: S, t: S, i: nat) {
    && i in t.calls && t.calls == s.calls[i := t.calls[i]]
    && (var was := i in s.calls && s.calls[i].first;
        (was ==> t.calls[i].first) && t.firstHolds == s.firstHolds + if t.calls[i].first && !was then 1 else 0)
  }

  lemma StepMoves(s: S, a: Action)
    requires Next(s, a).Some?
    ensures var t := Next(s, a).value;
            (t.calls == s.calls && t.firstHolds == s.firstHolds) || (!a.Responded? && OneMoves(s, t, a.i))
  {
  }

  /** FirstHolds counts every request that engaged FirstHold once, however often it was replayed. */
  lemma FirstHoldsStep(s: S, a: Action)
    requires s.firstHolds == |Holders(s)| && Next(s, a).Some?
    ensures var t := Next(s, a).value; t.firstHolds == |Holders(t)|
  {
    var t := Next(s, a).value;
    StepMoves(s, a);
    if t.calls == s.calls {
      assert Holders(t) == Holders(s);
    } else {
      HoldersChange(s, t, a.i);
    }
  }

  // Stats documents SettleHolds as a part of FirstHolds. A settle hold of a
  // request that engaged FirstHold before is none of them.

  /** a is a settle hold that counts no first hold. */
  predicate Extra(s: S, a: Action) {
    a.GotReused? && a.i in s.calls && s.calls[a.i].first
  }

  /** a is a first hold that is no settle hold. */
  predicate Fresh(s: S, a: Action) {
    a.GotNew? && a.i in s.calls && !s.calls[a.i].first
  }

  function One(b: bool): nat {
    if b then 1 else 0
  }

  /** How many steps of the run acts from s are of each kind. */
  function Extras(s: S, acts: seq<Action>): nat
    requires Run(s, acts).Some?
    decreases |acts|
  {
    if acts == [] then 0 else One(Extra(s, acts[0])) + Extras(Next(s, acts[0]).value, acts[1..])
  }

  function Freshes(s: S, acts: seq<Action>): nat
    requires Run(s, acts).Some?
    decreases |acts|
  {
    if acts == [] then 0 else One(Fresh(s, acts[0])) + Freshes(Next(s, acts[0]).value, acts[1..])
  }

  lemma HoldsStep(s: S, a: Action)
    requires Next(s, a).Some?
    ensures var t := Next(s, a).value;
            t.firstHolds + s.settleHolds + One(Extra(s, a)) == s.firstHolds + t.settleHolds + One(Fresh(s, a))
  {
  }

  lemma {:induction false} HoldsRun(s: S, acts: seq<Action>)
    requires Conserved(s) && s.firstHolds == |Holders(s)| && Run(s, acts).Some?
    ensures var t := Run(s, acts).value;
            && t.firstHolds == |Holders(t)|
            && t.firstHolds + s.settleHolds + Extras(s, acts) == s.firstHolds + t.settleHolds + Freshes(s, acts)
    decreases |acts|
  {
    if acts != [] {
      StepConserves(s, acts[0]);
      FirstHoldsStep(s, acts[0]);
      HoldsStep(s, acts[0]);
      HoldsRun(Next(s, acts[0]).value, acts[1..]);
    }
  }

  /**
    Over every run FirstHolds is the number of requests that engaged FirstHold,
    and SettleHolds stays within it exactly while the settle holds of requests
    that had engaged it before are no more than the first holds on connections
    of a request's own.
  */
  lemma HoldsBalance(acts: seq<Action>)
    requires Run(INIT, acts).Some?
    ensures var t := Run(INIT, acts).value;
            && t.firstHolds == |Holders(t)|
            && t.firstHolds + Extras(INIT, acts) == t.settleHolds + Freshes(INIT, acts)
            && (t.settleHolds <= t.firstHolds <==> Extras(INIT, acts) <= Freshes(INIT, acts))
  {
    assert Holders(INIT) == {};
    HoldsRun(INIT, acts);
  }

  lemma {:induction false} RunConcat(s: S, a: seq<Action>, b: seq<Action>)
    ensures Run(s, a + b) == match Run(s, a) case None => None case Some(t) => Run(t, b)
    decreases |a|
  {
    if a == [] {
      assert a + b == b;
    } else if Next(s, a[0]).Some? {
      assert (a + b)[1..] == a[1..] + b;
      RunConcat(Next(s, a[0]).value, a[1..], b);
    }
  }

  lemma RunStep(s: S, a: Action, acts: seq<Action>)
    requires Next(s, a).Some?
    ensures Run(s, [a] + acts) == Run(Next(s, a).value, acts)
  {
    assert ([a] + acts)[1..] == acts;
  }

  lemma RunTwo(s: S, a: Action, b: Action)
    requires Next(s, a).Some? && Next(Next(s, a).value, b).Some?
    ensures Run(s, [a, b]) == Next(Next(s, a).value, b)
  {
    RunStep(s, a, [b]);
    RunStep(Next(s, a).value, b, []);
    assert [a] + [b] == [a, b] && [b] + [] == [b];
  }

  const GAVE := Call(true, true, false, 1, false, false, false)
  const HOLDING := Call(true, false, false, 0, true, false, false)

  /** The first request took the token and gave it back once its headers were written; it is still in flight. */
  const RETURNED := INIT.(calls := map[0 := GAVE])

  /** It was replayed onto two new connections. */
  const MARKED := RETURNED.(unsettled := [10, 11])

  /** Another request takes the token, on a third new connection, */
  const HELD_ONCE := MARKED.(token := Some(1), calls := map[0 := GAVE, 1 := HOLDING], firstHolds := 1)

  /** and is replayed onto the first two. */
  const SETTLED_TWICE := HELD_ONCE.(unsettled := [], settleHolds := 2)

  lemma ReturnedReachable()
    ensures Run(INIT, [Take(0)] + [GiveBack(0), Receive(0)]) == Some(RETURNED)
  {
    RunStep(INIT, Take(0), [GiveBack(0), Receive(0)]);
    var s := TakeNow(INIT, 0);
    RunTwo(s, GiveBack(0), Receive(0));
    var t := Next(Next(s, GiveBack(0)).value, Receive(0)).value;
    assert t.calls == RETURNED.calls && t.waiting == RETURNED.waiting;
  }

  lemma MarkedReachable()
    ensures Run(RETURNED, [Replayed(0, 10), Replayed(0, 11)]) == Some(MARKED)
  {
    RunTwo(RETURNED, Replayed(0, 10), Replayed(0, 11));
    assert Mark([], 10) == [10] && Mark([10], 11) == [10, 11];
  }

  lemma HeldReachable()
    ensures Run(MARKED, [Take(1), GotNew(1)]) == Some(HELD_ONCE)
  {
    RunTwo(MARKED, Take(1), GotNew(1));
    var t := Next(TakeNow(MARKED, 1), GotNew(1)).value;
    assert t.calls == HELD_ONCE.calls && t.waiting == HELD_ONCE.waiting;
  }

  lemma SettledReachable()
    ensures Run(HELD_ONCE, [GotReused(1, 10), GotReused(1, 11)]) == Some(SETTLED_TWICE)
  {
    var s := Next(HELD_ONCE, GotReused(1, 10)).value;
    assert s.unsettled == [11] && s.calls == HELD_ONCE.calls;
    RunTwo(HELD_ONCE, GotReused(1, 10), GotReused(1, 11));
    var t := Next(s, GotReused(1, 11)).value;
    assert t.unsettled == [] && t.calls == SETTLED_TWICE.calls;
  }

  /**
    So SettleHolds is not always included in FirstHolds: a holder replayed from
    its new connection onto two unsettled ones adds two settle holds to one
    first hold.
  */
  lemma SettleHoldsCanExceed() returns (acts: seq<Action>)
    ensures Run(INIT, acts).Some? && Run(INIT, acts).value.settleHolds == 2 && Run(INIT, acts).value.firstHolds == 1
  {
    var a, b := [Take(0)] + [GiveBack(0), Receive(0)], [Replayed(0, 10), Replayed(0, 11)];
    var c, d := [Take(1), GotNew(1)], [GotReused(1, 10), GotReused(1, 11)];
    ReturnedReachable();
    MarkedReachable();
    HeldReachable();
    SettledReachable();
    RunConcat(INIT, a, b);
    RunConcat(INIT, a + b, c);
    RunConcat(INIT, a + b + c, d);
    acts := a + b + c + d;
  }

  // ----- the marks -----

  /** The unsettled connections, oldest first, with their number read without the lock. */
  class Marks {
    var unsettled: seq<Conn>
    var n: nat

    predicate Valid()
      reads this
    {
      n == |unsettled| <= MAX_UNSETTLED
    }

    constructor ()
      ensures Valid() && unsettled == []
    {
      unsettled, n := [], 0;
    }

    method MarkUnsettled(conn: Conn)
      requires Valid()
      modifies this
      ensures Valid() && unsettled == Mark(old(unsettled), conn)
    {
      if |unsettled| == MAX_UNSETTLED {
        unsettled := unsettled[1..];
      }
      unsettled := unsettled + [conn];
      n := |unsettled|;
    }

    method TakeUnsettled(conn: Conn) returns (found: bool)
      requires Valid()
      modifies this
      ensures Valid() && unsettled == Unmark(old(unsettled), conn)
      ensures found <==> conn in old(unsettled)
    {
      if n == 0 {
        return false;
      }
      for i := 0 to |unsettled|
        invariant unsettled == old(unsettled) && Valid()
        invariant conn !in unsettled[..i]
      {
        UnmarkAt(unsettled, i, conn);
        if unsettled[i] == conn {
          unsettled := unsettled[..i] + unsettled[i + 1..];
          n := |unsettled|;
          return true;
        }
      }
      UnmarkAt(unsettled, |unsettled|, conn);
      found := false;
    }
  }
}
