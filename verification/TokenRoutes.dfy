/** Where each request stands with the token of internal/h2gate/transport.go, and what a step may change, said of the states alone. */
module TokenRoutes {
  import opened Basics
  import opened Token

  /** A request has not come, waits for the token, was cancelled while it waited, or is out. */
  datatype Place = Coming | Waiting | Cancelled | Out(call: Call)

  function PlaceOf(s: S, i: nat): Place {
    if i in s.calls then Out(s.calls[i]) else if i in s.waiting then Waiting else if i in s.cancelled then Cancelled else Coming
  }

  /** A request is in one place. */
  predicate OnePlace(s: S) {
    s.waiting !! s.cancelled && (forall i <- s.calls :: i !in s.waiting && i !in s.cancelled)
  }

  /** Out with the token, and without it. */
  const WITH_TOKEN := Out(Call(true, false, false, 0, false, false, false))
  const NO_TOKEN := Out(Call(false, true, false, 0, false, false, false))

  /** c's one compare-and-swap. */
  function Given(c: Call): Call {
    if c.given then c else c.(given := true, receiving := true)
  }

  /** What a request that is out can do: give the token back, receive it, hold it for the first connection, arm the bound, end. */
  predicate CallMay(c: Call, d: Call) {
    || d == Given(c)
    || d == Given(c).(finished := true)
    || (c.receiving && d == c.(receiving := false, returned := c.returned + 1))
    || (c.took && d == c.(first := true))
    || (c.first && d == c.(armed := true))
  }

  /** Every place a request may go to next. */
  predicate MayGo(s: S, i: nat, p: Place) {
    match PlaceOf(s, i)
    case Coming => if s.token.None? then p == WITH_TOKEN else p == Waiting
    case Waiting => (s.token.None? && p == WITH_TOKEN) || p == NO_TOKEN || p == Cancelled
    case Cancelled => false
    case Out(c) => p.Out? && p.call != c && CallMay(c, p.call)
  }

  /** What a step of request i does to the token. */
  predicate TokenMoves(s: S, t: S, i: nat) {
    var was, now := PlaceOf(s, i), PlaceOf(t, i);
    t.token == (if now == WITH_TOKEN && !was.Out? then Some(i)
                   else if was.Out? && now.Out? && now.call.returned > was.call.returned then None
                   else s.token)
  }

  /** And to the counters. */
  predicate CountersMove(s: S, t: S, i: nat) {
    var was, now := PlaceOf(s, i), PlaceOf(t, i);
    && t.tokenExpiries == s.tokenExpiries + One(was == Waiting && now == NO_TOKEN)
    && s.holdExpiries <= t.holdExpiries <= s.holdExpiries + One(was.Out? && now.Out? && was.call.armed && now.call.given && !was.call.given)
    && t.firstHolds == s.firstHolds + One(was.Out? && now.Out? && now.call.first && !was.call.first)
    && (t.settleHolds != s.settleHolds ==> was.Out? && was.call.took && now.Out? && now.call.first)
  }

  /** What becomes of the marks: a replay of a request that gave the token back sets one, a hold or a replay's response clears one. */
  predicate MarksChange(s: S, t: S, a: Action) {
    match a
    case Replayed(i, conn) => i in s.calls && s.calls[i].given && t.unsettled == Mark(s.unsettled, conn) && t == s.(unsettled := t.unsettled)
    case Responded(conn) => t.unsettled == Unmark(s.unsettled, conn) && t == s.(unsettled := t.unsettled)
    case GotReused(i, conn) => conn in s.unsettled && t.unsettled == Unmark(s.unsettled, conn) && t.settleHolds == s.settleHolds + 1
    case _ => t.unsettled == s.unsettled && t.settleHolds == s.settleHolds
  }

  /** The request a step is of. */
  function Mover(a: Action): Option<nat> {
    if a.Responded? then None else Some(a.i)
  }

  lemma OthersStay(s: S, a: Action, i: nat)
    requires Next(s, a).Some? && Mover(a) != Some(i)
    ensures PlaceOf(Next(s, a).value, i) == PlaceOf(s, i)
  {
  }

  lemma PlacesKept(s: S, a: Action)
    requires OnePlace(s) && Next(s, a).Some?
    ensures OnePlace(Next(s, a).value)
  {
  }

  lemma Routed(s: S, a: Action, i: nat)
    requires Conserved(s) && OnePlace(s) && Next(s, a).Some? && Mover(a) == Some(i)
    ensures PlaceOf(Next(s, a).value, i) == PlaceOf(s, i) || MayGo(s, i, PlaceOf(Next(s, a).value, i))
  {
  }

  lemma CountersChange(s: S, a: Action, i: nat)
    requires Conserved(s) && OnePlace(s) && Next(s, a).Some? && Mover(a) == Some(i)
    ensures CountersMove(s, Next(s, a).value, i)
  {
  }

  lemma TokenChange(s: S, a: Action, i: nat)
    requires Conserved(s) && OnePlace(s) && Next(s, a).Some? && Mover(a) == Some(i)
    ensures TokenMoves(s, Next(s, a).value, i)
  {
  }

  lemma MarksChanged(s: S, a: Action)
    requires Next(s, a).Some?
    ensures MarksChange(s, Next(s, a).value, a)
  {
  }

  /** What a step of request i changes: its place, by a route open to it, what goes with that, and the marks; and no other place. */
  ghost predicate Steps(s: S, t: S, a: Action) {
    && MarksChange(s, t, a)
    && (forall j: nat :: Mover(a) != Some(j) ==> PlaceOf(t, j) == PlaceOf(s, j))
    && (Mover(a).Some? ==> TokenMoves(s, t, a.i) && CountersMove(s, t, a.i) && (PlaceOf(t, a.i) == PlaceOf(s, a.i) || MayGo(s, a.i, PlaceOf(t, a.i))))
  }

  lemma StepFollows(s: S, a: Action)
    requires Conserved(s) && OnePlace(s) && Next(s, a).Some?
    ensures Steps(s, Next(s, a).value, a)
  {
    var t := Next(s, a).value;
    MarksChanged(s, a);
    forall j: nat | Mover(a) != Some(j) ensures PlaceOf(t, j) == PlaceOf(s, j) {
      OthersStay(s, a, j);
    }
    if Mover(a).Some? {
      Routed(s, a, a.i);
      TokenChange(s, a, a.i);
      CountersChange(s, a, a.i);
    }
  }

  lemma {:induction false} RunPlaces(s: S, acts: seq<Action>)
    requires OnePlace(s) && Run(s, acts).Some?
    ensures OnePlace(Run(s, acts).value)
    decreases |acts|
  {
    if acts != [] {
      PlacesKept(s, acts[0]);
      RunPlaces(Next(s, acts[0]).value, acts[1..]);
    }
  }

  /** Every step of every run follows the routes. */
  lemma RoutesFollowed(acts: seq<Action>, a: Action)
    requires Run(INIT, acts).Some? && Next(Run(INIT, acts).value, a).Some?
    ensures Steps(Run(INIT, acts).value, Next(Run(INIT, acts).value, a).value, a)
  {
    RunConserves(INIT, acts);
    RunPlaces(INIT, acts);
    StepFollows(Run(INIT, acts).value, a);
  }

  // ----- and every route is open -----

  /** The action that changes a request that is out. */
  function ViaCall(i: nat, c: Call, d: Call): Action {
    if d.returned != c.returned then Receive(i)
    else if d.finished != c.finished then Finish(i)
    else if d.given != c.given then GiveBack(i)
    else if d.first != c.first then GotNew(i)
    else WroteHeaders(i)
  }

  /** The action that takes request i to p. */
  function Via(i: nat, from: Place, to: Place): Action {
    if from.Out? && to.Out? then ViaCall(i, from.call, to.call)
    else match to
         case Waiting => Wait(i)
         case Cancelled => WaitCancel(i)
         case _ => if from.Coming? then Take(i) else if to == NO_TOKEN then WaitExpire(i) else WaitTake(i)
  }

  lemma CallsOpen(s: S, i: nat, c: Call, d: Call)
    requires i in s.calls && s.calls[i] == c && CallMay(c, d) && d != c && (c.receiving ==> s.token.Some?)
    ensures var t := Next(s, ViaCall(i, c, d)); t.Some? && i in t.value.calls && t.value.calls[i] == d
  {
  }

  lemma RoutesOpen(s: S, i: nat, p: Place)
    requires Conserved(s) && OnePlace(s) && MayGo(s, i, p)
    ensures var t := Next(s, Via(i, PlaceOf(s, i), p)); t.Some? && PlaceOf(t.value, i) == p
  {
    if i in s.calls {
      CallsOpen(s, i, s.calls[i], p.call);
    }
  }

  /** The hold bound gives the token back, once, and counts it. */
  lemma BoundExpires(s: S, i: nat)
    requires Conserved(s) && i in s.calls && s.calls[i].armed
    ensures var t := Next(s, HoldBound(i));
            && t.Some? && i in t.value.calls && t.value.calls[i] == Given(s.calls[i])
            && t.value.holdExpiries == s.holdExpiries + One(!s.calls[i].given)
  {
  }

  // ----- the expiries -----

  /** The requests that went out without the token. */
  function Without(s: S): set<nat> {
    set i | i in s.calls && !s.calls[i].took
  }

  lemma WithoutOne(s: S, t: S, i: nat)
    requires i in t.calls && t.calls == s.calls[i := t.calls[i]] && (i in s.calls ==> t.calls[i].took == s.calls[i].took)
    ensures |Without(t)| == |Without(s)| + One(i !in s.calls && !t.calls[i].took)
  {
    if i !in s.calls && !t.calls[i].took {
      assert Without(t) == Without(s) + {i};
    } else {
      assert Without(t) == Without(s);
    }
  }

  lemma StepWithout(s: S, a: Action)
    requires Next(s, a).Some?
    ensures |Without(Next(s, a).value)| - |Without(s)| == Next(s, a).value.tokenExpiries - s.tokenExpiries
  {
    var t := Next(s, a).value;
    StepMoves(s, a);
    if t.calls == s.calls {
      assert Without(t) == Without(s);
    } else {
      WithoutOne(s, t, a.i);
    }
  }

  /** How many of the steps acts from s are hold bounds that find the token not given back. */
  function Expiries(s: S, acts: seq<Action>): nat
    requires Run(s, acts).Some?
    decreases |acts|
  {
    if acts == [] then 0
    else One(acts[0].HoldBound? && acts[0].i in s.calls && !s.calls[acts[0].i].given) + Expiries(Next(s, acts[0]).value, acts[1..])
  }

  lemma StepExpiries(s: S, a: Action)
    requires Next(s, a).Some?
    ensures Next(s, a).value.holdExpiries == s.holdExpiries + One(a.HoldBound? && a.i in s.calls && !s.calls[a.i].given)
  {
  }

  lemma {:induction false} RunExpiries(s: S, acts: seq<Action>)
    requires Run(s, acts).Some?
    ensures Run(s, acts).value.holdExpiries == s.holdExpiries + Expiries(s, acts)
    ensures |Without(Run(s, acts).value)| - |Without(s)| == Run(s, acts).value.tokenExpiries - s.tokenExpiries
    decreases |acts|
  {
    if acts != [] {
      StepExpiries(s, acts[0]);
      StepWithout(s, acts[0]);
      RunExpiries(Next(s, acts[0]).value, acts[1..]);
    }
  }

  /** TokenExpiries counts the requests that went out without the token, HoldExpiries the hold bounds that gave one back. */
  lemma ExpiriesCounted(acts: seq<Action>)
    requires Run(INIT, acts).Some?
    ensures var t := Run(INIT, acts).value; t.tokenExpiries == |Without(t)| && t.holdExpiries == Expiries(INIT, acts)
  {
    assert Without(INIT) == {};
    RunExpiries(INIT, acts);
  }

  // ----- a request that is cancelled while it waits -----

  lemma {:induction false} StaysCancelled(s: S, acts: seq<Action>, i: nat)
    requires OnePlace(s) && Run(s, acts).Some? && (i in s.cancelled || WaitCancel(i) in acts)
    ensures i in Run(s, acts).value.cancelled
    decreases |acts|
  {
    if acts != [] {
      PlacesKept(s, acts[0]);
      StaysCancelled(Next(s, acts[0]).value, acts[1..], i);
    }
  }

  /** It never goes out, with the token or without it, and never waits again. */
  lemma CancelledNeverGoesOut(acts: seq<Action>, i: nat)
    requires Run(INIT, acts).Some? && WaitCancel(i) in acts
    ensures PlaceOf(Run(INIT, acts).value, i) == Cancelled
  {
    RunPlaces(INIT, acts);
    StaysCancelled(INIT, acts, i);
  }
}
