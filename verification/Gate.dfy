/** The cold-start gate of internal/h2gate/transport.go, step by step. */
module Gate {
  import opened Basics

  // The first request of a cold burst leads a dial, the others park until it is
  // resolved. One label per atomic action of any number of requests, in any order.

  datatype State = Cold | Dialing | Warm

  datatype Outcome = Pending | Released | Failed | LeaderGone

  /** A generation; closes counts how often its channel done was closed, and leader is the request that leads it, once one does. */
  datatype Gen = Gen(outcome: Outcome, waiters: int, closes: nat, leader: Option<nat>)

  const NEW_GEN := Gen(Pending, 0, 0, None)

  /** Where a request stands. */
  datatype Pc =
    | Start                              // at the head of the loop
    | CountLeader(gen: nat)              // admitted as leader, not counted yet
    | Leading(gen: nat)                  // inside lead
    | Parked(gen: nat)                   // in the select on gen.done
    | Leaving(gen: nat, expired: bool)   // cancelled or expired, not unparked yet
    | Expired                            // unparked by the bound, not counted yet
    | CountFailure                       // its dial failed, neither counter added
    | CountReset                         // coldResets still to be added
    | Sending                            // past the gate
    | Done

  /** The transport, and the program counters of all requests. lagging is the number of releases not counted yet. */
  datatype S = S(state: State, gens: seq<Gen>, handover: bool, pcs: map<nat, Pc>,
                 leaders: nat, releases: nat, failures: nat, handovers: nat, coldResets: nat, fallThroughs: nat, lagging: nat)

  const INIT := S(Cold, [], false, map[], 0, 0, 0, 0, 0, 0, 0)

  datatype Action =
    | Arrive(i: nat)                     // a new call of RoundTrip
    | Fast(i: nat)                       // warm.Load is true
    | Admit(i: nat)                      // the critical section at the loop's head
    | AddLeader(i: nat)
    | GotConn(i: nat, g: nat)            // the hook of the request that leads g: release
    | AddRelease
    | Respond(i: nat)                    // the leader's send returned a response: release
    | GiveUp(i: nat)                     // its context ended, or it failed without a verdict on the dial, or it panicked
    | DialFails(i: nat)                  // its dial failed
    | AddFailure(i: nat)
    | AddReset(i: nat)
    | Wake(i: nat)                       // gen.done is closed
    | Quit(i: nat, expired: bool)        // its context ended, or its wait bound did
    | Unpark(i: nat)                     // leave
    | AddFallThrough(i: nat)

  // ----- the critical sections -----

  function Last(s: S): nat
    requires s.gens != []
  {
    |s.gens| - 1
  }

  /** The newest generation, 0 before the first. */
  function Newest(s: S): nat {
    if s.gens == [] then 0 else |s.gens| - 1
  }

  function Move(s: S, i: nat, pc: Pc): S {
    s.(pcs := s.pcs[i := pc])
  }

  /** Whether a caller at the loop's head leads. */
  predicate Leads(s: S) {
    s.state == Cold || (s.state == Dialing && s.handover)
  }

  /** A caller that leads: on a cold gate it starts a generation, after a handover it takes the one left to it. */
  function Lead(s: S, i: nat): S
    requires s.state == Cold || s.gens != []
  {
    var gens := if s.state == Cold then s.gens + [NEW_GEN] else s.gens;
    var g := |gens| - 1;
    Move(s.(state := Dialing, handover := false, gens := gens[g := gens[g].(leader := Some(i))]), i, CountLeader(g))
  }

  function Park(s: S, i: nat): S
    requires s.gens != []
  {
    var g := Last(s);
    Move(s.(gens := s.gens[g := s.gens[g].(waiters := s.gens[g].waiters + 1)]), i, Parked(g))
  }

  /** leave: a request stops waiting on g. */
  function Leave(s: S, i: nat, g: nat, expired: bool): S
    requires g < |s.gens|
  {
    Move(s.(gens := s.gens[g := s.gens[g].(waiters := s.gens[g].waiters - 1)]), i, if expired then Expired else Done)
  }

  /** A generation ends. */
  function Resolve(s: S, g: nat, outcome: Outcome): S
    requires g < |s.gens|
  {
    s.(gens := s.gens[g := s.gens[g].(outcome := outcome, closes := s.gens[g].closes + 1)])
  }

  /** release */
  function Release(s: S, g: nat): S
    requires g < |s.gens|
  {
    if s.gens[g].outcome != Pending then s
    else Resolve(s, g, Released).(state := Warm, lagging := s.lagging + 1)
  }

  /** abandonLocked */
  function Abandon(s: S, g: nat): S
    requires g < |s.gens|
  {
    var r := Resolve(s, g, LeaderGone);
    if s.gens[g].waiters == 0 then r.(state := Cold, coldResets := s.coldResets + 1)
    else r.(handover := true, handovers := s.handovers + 1, gens := r.gens + [NEW_GEN])
  }

  // ----- the counters' atomic adds, outside the lock -----

  function LeaderCounted(s: S, i: nat, g: nat): S {
    Move(s, i, Leading(g)).(leaders := s.leaders + 1)
  }

  function FailureCounted(s: S, i: nat): S {
    Move(s, i, CountReset).(failures := s.failures + 1)
  }

  function ResetCounted(s: S, i: nat): S {
    Move(s, i, Done).(coldResets := s.coldResets + 1)
  }

  function FallThroughCounted(s: S, i: nat): S {
    Move(s, i, Sending).(fallThroughs := s.fallThroughs + 1)
  }

  // ----- the protocol -----

  /** One action; None when it is not enabled. */
  function Next(s: S, a: Action): Option<S> {
    match a
    case Arrive(i) => if i in s.pcs then None else Some(Move(s, i, Start))
    case AddRelease => if s.lagging == 0 then None else Some(s.(lagging := s.lagging - 1, releases := s.releases + 1))
    case GotConn(i, g) => if g < |s.gens| && s.gens[g].leader == Some(i) && i in s.pcs && !s.pcs[i].CountLeader? then Some(Release(s, g)) else None
    case _ => if a.i !in s.pcs then None else Act(s, a, s.pcs[a.i])
  }

  /** An action of request a.i, which stands at pc. */
  function Act(s: S, a: Action, pc: Pc): Option<S>
    requires !a.AddRelease?
  {
    match a
    case Fast(i) => if pc == Start && s.state == Warm then Some(Move(s, i, Sending)) else None
    case Admit(i) =>
      if pc != Start then None
      else if s.state == Warm then Some(Move(s, i, Sending))
      else if Leads(s) then (if s.state == Cold || s.gens != [] then Some(Lead(s, i)) else None)
      else if s.gens != [] then Some(Park(s, i)) else None
    case AddLeader(i) => if pc.CountLeader? then Some(LeaderCounted(s, i, pc.gen)) else None
    case Respond(i) => if pc.Leading? && pc.gen < |s.gens| then Some(Move(Release(s, pc.gen), i, Done)) else None
    case GiveUp(i) =>
      if !(pc.Leading? && pc.gen < |s.gens|) then None
      else if s.gens[pc.gen].outcome != Pending then Some(Move(s, i, Done))
      else Some(Move(Abandon(s, pc.gen), i, Done))
    case DialFails(i) =>
      if !(pc.Leading? && pc.gen < |s.gens|) then None
      else if s.gens[pc.gen].outcome != Pending then Some(Move(s, i, Done))
      else Some(Move(Resolve(s, pc.gen, Failed).(state := Cold), i, CountFailure))
    case AddFailure(i) => if pc == CountFailure then Some(FailureCounted(s, i)) else None
    case AddReset(i) => if pc == CountReset then Some(ResetCounted(s, i)) else None
    case Wake(i) =>
      if !(pc.Parked? && pc.gen < |s.gens|) then None
      else (match s.gens[pc.gen].outcome
            case Pending => None
            case Released => Some(Move(s, i, Sending))
            case Failed => Some(Move(s, i, Done))
            case LeaderGone => Some(Move(s, i, Start)))
    case Quit(i, expired) => if pc.Parked? then Some(Move(s, i, Leaving(pc.gen, expired))) else None
    case Unpark(i) =>
      if !(pc.Leaving? && pc.gen < |s.gens|) then None
      else Some(Leave(s, i, pc.gen, pc.expired))
    case AddFallThrough(i) => if pc == Expired then Some(FallThroughCounted(s, i)) else None
    case _ => None
  }

  // ----- counting -----

  /** What a request is counted under: the waiters of a generation, or a counter still to be added to. */
  datatype Tag = WaitsOn(gen: nat) | Uncounted | Unreset

  predicate Has(pc: Pc, tag: Tag) {
    match tag
    case WaitsOn(g) => (pc.Parked? || pc.Leaving?) && pc.gen == g
    case Uncounted => pc.CountFailure?
    case Unreset => pc.CountFailure? || pc.CountReset?
  }

  /** The requests counted under tag. */
  function At(pcs: map<nat, Pc>, tag: Tag): set<nat> {
    set i | i in pcs && Has(pcs[i], tag)
  }

  function One(b: bool): nat {
    if b then 1 else 0
  }

  lemma AtWithout(pcs: map<nat, Pc>, i: nat, tag: Tag)
    ensures |At(pcs, tag)| == |At(pcs, tag) - {i}| + One(i in pcs && Has(pcs[i], tag))
  {
    if i in pcs && Has(pcs[i], tag) {
      assert At(pcs, tag) == At(pcs, tag) - {i} + {i};
    } else {
      assert At(pcs, tag) == At(pcs, tag) - {i};
    }
  }

  /** The count changes with the one request that moves. */
  lemma AtMoves(pcs: map<nat, Pc>, i: nat, pc: Pc, tag: Tag)
    ensures |At(pcs[i := pc], tag)| == |At(pcs, tag)| - One(i in pcs && Has(pcs[i], tag)) + One(Has(pc, tag))
  {
    AtWithout(pcs, i, tag);
    AtWithout(pcs[i := pc], i, tag);
    assert At(pcs[i := pc], tag) - {i} == At(pcs, tag) - {i};
  }

  /** The generations that ended with outcome o. */
  function Ended(gens: seq<Gen>, o: Outcome): nat {
    if gens == [] then 0 else Ended(gens[..|gens| - 1], o) + One(gens[|gens| - 1].outcome == o)
  }

  lemma {:induction false} EndedUpdate(gens: seq<Gen>, g: nat, gen: Gen, o: Outcome)
    requires g < |gens|
    ensures Ended(gens[g := gen], o) == Ended(gens, o) - One(gens[g].outcome == o) + One(gen.outcome == o)
  {
    var n := |gens| - 1;
    if g == n {
      assert gens[g := gen][..n] == gens[..n];
    } else {
      EndedUpdate(gens[..n], g, gen, o);
      assert gens[g := gen][..n] == gens[..n][g := gen];
    }
  }

  lemma EndedAppend(gens: seq<Gen>, gen: Gen, o: Outcome)
    ensures Ended(gens + [gen], o) == Ended(gens, o) + One(gen.outcome == o)
  {
    assert (gens + [gen])[..|gens|] == gens;
  }

  lemma {:induction false} EndedTotal(gens: seq<Gen>)
    ensures Ended(gens, Pending) + Ended(gens, Released) + Ended(gens, Failed) + Ended(gens, LeaderGone) == |gens|
  {
    if gens != [] {
      EndedTotal(gens[..|gens| - 1]);
    }
  }

  // ----- what every step keeps -----

  /** A generation is pending exactly while its channel is open, and only the newest one can be: while the gate is dialing. */
  predicate OnePending(s: S) {
    && (forall g :: 0 <= g < |s.gens| ==> s.gens[g].closes == One(s.gens[g].outcome != Pending))
    && (forall g :: 0 <= g < |s.gens| && s.gens[g].outcome == Pending ==> g == |s.gens| - 1 && s.state == Dialing)
    && (s.state == Dialing ==> s.gens != [] && s.gens[Last(s)].outcome == Pending)
    && (s.state == Warm ==> s.gens != [] && s.gens[Last(s)].outcome == Released)
    && (forall g :: 0 <= g < |s.gens| && s.gens[g].outcome == Released ==> s.state == Warm && g == |s.gens| - 1)
  }

  /** Every generation has its one leader, except the one a handover left; a pending one's leader is still on its way. */
  predicate Led(s: S) {
    && (s.handover ==> s.state == Dialing)
    && (forall g :: 0 <= g < |s.gens| ==> (s.gens[g].leader.None? <==> s.handover && g == |s.gens| - 1))
    && (forall g :: 0 <= g < |s.gens| && s.gens[g].outcome == Pending && s.gens[g].leader.Some? ==>
          var l := s.gens[g].leader.value;
          l in s.pcs && (s.pcs[l] == CountLeader(g) || s.pcs[l] == Leading(g)))
    && (forall i <- s.pcs :: s.pcs[i].CountLeader? || s.pcs[i].Leading? ==>
          s.pcs[i].gen < |s.gens| && s.gens[s.pcs[i].gen].leader == Some(i))
    && (forall i <- s.pcs :: s.pcs[i].CountLeader? ==> s.gens[s.pcs[i].gen].outcome == Pending)
  }

  /** The waiters the pending generation counts are the requests that wait on it; nobody waits on one that a handover left. */
  predicate Waiters(s: S) {
    && (forall i <- s.pcs :: s.pcs[i].Parked? || s.pcs[i].Leaving? ==> s.pcs[i].gen < |s.gens|)
    && (s.state == Dialing && s.gens != [] ==> s.gens[Last(s)].waiters == |At(s.pcs, WaitsOn(Last(s)))|)
    && (s.handover && s.gens != [] ==> s.gens[Last(s)].waiters == 0)
  }

  /** A leader admitted and not counted. */
  predicate LeaderLag(s: S) {
    s.gens != [] && s.gens[Last(s)].leader.Some? &&
    s.gens[Last(s)].leader.value in s.pcs && s.pcs[s.gens[Last(s)].leader.value].CountLeader?
  }

  /** The counters count generations, up to the adds that are still to come. */
  predicate Counted(s: S) {
    && s.leaders + One(LeaderLag(s)) + One(s.handover) == |s.gens|
    && s.releases + s.lagging == Ended(s.gens, Released)
    && s.failures + |At(s.pcs, Uncounted)| == Ended(s.gens, Failed)
    && s.handovers + s.coldResets + |At(s.pcs, Unreset)| == Ended(s.gens, Failed) + Ended(s.gens, LeaderGone)
  }

  predicate Inv(s: S) {
    OnePending(s) && Led(s) && Waiters(s) && Counted(s)
  }

  /** How the three counts change when one request moves. */
  lemma CountsMove(s: S, i: nat, pc: Pc, g: nat)
    ensures |At(s.pcs[i := pc], WaitsOn(g))| == |At(s.pcs, WaitsOn(g))| - One(i in s.pcs && Has(s.pcs[i], WaitsOn(g))) + One(Has(pc, WaitsOn(g)))
    ensures |At(s.pcs[i := pc], Uncounted)| == |At(s.pcs, Uncounted)| - One(i in s.pcs && Has(s.pcs[i], Uncounted)) + One(Has(pc, Uncounted))
    ensures |At(s.pcs[i := pc], Unreset)| == |At(s.pcs, Unreset)| - One(i in s.pcs && Has(s.pcs[i], Unreset)) + One(Has(pc, Unreset))
  {
    AtMoves(s.pcs, i, pc, WaitsOn(g));
    AtMoves(s.pcs, i, pc, Uncounted);
    AtMoves(s.pcs, i, pc, Unreset);
  }

  /** A program counter of a request that leads nothing now. */
  predicate Aside(pc: Pc) {
    !pc.CountLeader? && !pc.Leading?
  }

  /** t is s but for the waiters' counts, the counters and the program counter of i, which leads nothing. */
  predicate MovesAside(s: S, t: S, i: nat, pc: Pc) {
    && t.state == s.state && t.handover == s.handover && |t.gens| == |s.gens|
    && (forall g :: 0 <= g < |s.gens| ==> t.gens[g] == s.gens[g].(waiters := t.gens[g].waiters))
    && t.pcs == s.pcs[i := pc] && Aside(pc) && (i in s.pcs ==> Aside(s.pcs[i]))
  }

  lemma {:induction false} EndedSame(a: seq<Gen>, b: seq<Gen>, o: Outcome)
    requires |a| == |b| && forall g :: 0 <= g < |a| ==> a[g].outcome == b[g].outcome
    ensures Ended(a, o) == Ended(b, o)
  {
    if a != [] {
      EndedSame(a[..|a| - 1], b[..|b| - 1], o);
    }
  }

  lemma AsidePending(s: S, t: S, i: nat, pc: Pc)
    requires OnePending(s) && MovesAside(s, t, i, pc)
    ensures OnePending(t)
  {
  }

  lemma AsideLed(s: S, t: S, i: nat, pc: Pc)
    requires Led(s) && MovesAside(s, t, i, pc)
    ensures Led(t) && LeaderLag(t) == LeaderLag(s)
  {
  }

  lemma AsideKeeps(s: S, t: S, i: nat, pc: Pc)
    requires OnePending(s) && Led(s) && MovesAside(s, t, i, pc)
    ensures OnePending(t) && Led(t) && LeaderLag(t) == LeaderLag(s)
    ensures forall o :: Ended(t.gens, o) == Ended(s.gens, o)
  {
    AsidePending(s, t, i, pc);
    AsideLed(s, t, i, pc);
    forall o ensures Ended(t.gens, o) == Ended(s.gens, o) {
      EndedSame(s.gens, t.gens, o);
    }
  }

  /** A program counter the gate's state does not depend on. */
  predicate Free(pc: Pc) {
    pc.Start? || pc.Expired? || pc.Sending? || pc.Done?
  }

  /** A request that leads nothing moves on and no count changes. */
  lemma MoveKeeps(s: S, i: nat, pc: Pc)
    requires Inv(s) && Aside(pc) && (i in s.pcs ==> Aside(s.pcs[i]))
    requires pc.Parked? || pc.Leaving? ==> pc.gen < |s.gens|
    requires |At(s.pcs[i := pc], WaitsOn(Newest(s)))| == |At(s.pcs, WaitsOn(Newest(s)))|
    requires |At(s.pcs[i := pc], Uncounted)| == |At(s.pcs, Uncounted)| && |At(s.pcs[i := pc], Unreset)| == |At(s.pcs, Unreset)|
    ensures Inv(Move(s, i, pc))
  {
    AsideKeeps(s, Move(s, i, pc), i, pc);
  }

  /** A request that nothing waits for moves on. */
  lemma FreeMove(s: S, i: nat, pc: Pc)
    requires Inv(s) && Free(pc) && (i in s.pcs ==> Free(s.pcs[i]))
    ensures Inv(Move(s, i, pc))
  {
    CountsMove(s, i, pc, Newest(s));
    MoveKeeps(s, i, pc);
  }

  /** A waiter of a generation that ended leaves the select. */
  lemma WakeKeeps(s: S, i: nat, pc: Pc)
    requires Inv(s) && i in s.pcs && s.pcs[i].Parked? && s.gens[s.pcs[i].gen].outcome != Pending && Free(pc)
    ensures Inv(Move(s, i, pc))
  {
    CountsMove(s, i, pc, Newest(s));
    if s.state == Dialing {
      MoveKeeps(s, i, pc);
    } else {
      AsideKeeps(s, Move(s, i, pc), i, pc);
    }
  }

  /** A waiter stops waiting for its own reason, and then is unparked. */
  lemma QuitKeeps(s: S, i: nat, expired: bool)
    requires Inv(s) && i in s.pcs && s.pcs[i].Parked?
    ensures Inv(Move(s, i, Leaving(s.pcs[i].gen, expired)))
  {
    var pc := Leaving(s.pcs[i].gen, expired);
    CountsMove(s, i, pc, Newest(s));
    MoveKeeps(s, i, pc);
  }

  lemma UnparkWaits(s: S, i: nat, g: nat, expired: bool)
    requires Led(s) && Waiters(s) && i in s.pcs && s.pcs[i] == Leaving(g, expired) && g < |s.gens|
    ensures Waiters(Leave(s, i, g, expired))
  {
    var t := Leave(s, i, g, expired);
    CountsMove(s, i, t.pcs[i], Newest(s));
    assert t.gens[Newest(s)].waiters == s.gens[Newest(s)].waiters - One(g == Newest(s));
  }

  lemma UnparkKeeps(s: S, i: nat, g: nat, expired: bool)
    requires Inv(s) && i in s.pcs && s.pcs[i] == Leaving(g, expired) && g < |s.gens|
    ensures Inv(Leave(s, i, g, expired))
  {
    var pc := if expired then Expired else Done;
    AsideKeeps(s, Leave(s, i, g, expired), i, pc);
    CountsMove(s, i, pc, Newest(s));
    UnparkWaits(s, i, g, expired);
  }

  lemma ParkKeeps(s: S, i: nat)
    requires Inv(s) && i in s.pcs && s.pcs[i].Start? && s.state == Dialing && !s.handover
    ensures Inv(Park(s, i))
  {
    AsideKeeps(s, Park(s, i), i, Parked(Last(s)));
    CountsMove(s, i, Parked(Last(s)), Newest(s));
  }

  /** Nobody waits on a generation that does not exist yet. */
  lemma NoneWaitsPast(s: S)
    requires Waiters(s)
    ensures At(s.pcs, WaitsOn(|s.gens|)) == {}
  {
  }

  /** On a cold gate the leader starts a generation. */
  lemma LeadCold(s: S, i: nat)
    requires Inv(s) && i in s.pcs && s.pcs[i].Start? && s.state == Cold
    ensures Inv(Lead(s, i))
  {
    var t, g := Lead(s, i), |s.gens|;
    CountsMove(s, i, CountLeader(g), g);
    NoneWaitsPast(s);
    forall o ensures Ended(t.gens, o) == Ended(s.gens, o) + One(o == Pending) {
      EndedAppend(s.gens, NEW_GEN, o);
      EndedUpdate(s.gens + [NEW_GEN], g, t.gens[g], o);
    }
    assert OnePending(t);
    assert Led(t);
    assert Waiters(t);
  }

  /** After a handover it takes the generation that was left. */
  lemma LeadHandedOver(s: S, i: nat)
    requires Inv(s) && i in s.pcs && s.pcs[i].Start? && s.state == Dialing && s.handover
    ensures Inv(Lead(s, i))
  {
    var t, g := Lead(s, i), Last(s);
    CountsMove(s, i, CountLeader(g), g);
    forall o ensures Ended(t.gens, o) == Ended(s.gens, o) {
      EndedUpdate(s.gens, g, t.gens[g], o);
    }
    assert OnePending(t);
    assert Led(t);
    assert Waiters(t);
  }

  lemma LeadKeeps(s: S, i: nat)
    requires Inv(s) && i in s.pcs && s.pcs[i].Start? && Leads(s)
    ensures Inv(Lead(s, i))
  {
    if s.state == Cold {
      LeadCold(s, i);
    } else {
      LeadHandedOver(s, i);
    }
  }

  lemma AddLeaderKeeps(s: S, i: nat)
    requires Inv(s) && i in s.pcs && s.pcs[i].CountLeader?
    ensures Inv(LeaderCounted(s, i, s.pcs[i].gen))
  {
    var t := LeaderCounted(s, i, s.pcs[i].gen);
    CountsMove(s, i, t.pcs[i], Newest(s));
    assert Led(t);
    assert Waiters(t);
  }

  /** A failed leader adds to the two counters, one after the other. */
  lemma AddFailureKeeps(s: S, i: nat)
    requires Inv(s) && i in s.pcs && s.pcs[i].CountFailure?
    ensures Inv(FailureCounted(s, i))
  {
    AsideKeeps(s, FailureCounted(s, i), i, CountReset);
    CountsMove(s, i, CountReset, Newest(s));
  }

  lemma AddResetKeeps(s: S, i: nat)
    requires Inv(s) && i in s.pcs && s.pcs[i].CountReset?
    ensures Inv(ResetCounted(s, i))
  {
    AsideKeeps(s, ResetCounted(s, i), i, Done);
    CountsMove(s, i, Done, Newest(s));
  }

  lemma FallThroughKeeps(s: S, i: nat)
    requires Inv(s) && i in s.pcs && s.pcs[i].Expired?
    ensures Inv(FallThroughCounted(s, i))
  {
    AsideKeeps(s, FallThroughCounted(s, i), i, Sending);
    CountsMove(s, i, Sending, Newest(s));
  }

  /** A leader that leaves a generation that ended before. */
  lemma LeaderDone(s: S, i: nat)
    requires Inv(s) && i in s.pcs && s.pcs[i].Leading? && s.gens[s.pcs[i].gen].outcome != Pending
    ensures Inv(Move(s, i, Done))
  {
    CountsMove(s, i, Done, Newest(s));
    var t := Move(s, i, Done);
    assert Led(t);
    assert Waiters(t);
  }

  lemma ReleaseKeeps(s: S, g: nat)
    requires Inv(s) && g < |s.gens| && s.gens[g].leader.Some?
    requires s.gens[g].leader.value in s.pcs && !s.pcs[s.gens[g].leader.value].CountLeader?
    ensures Inv(Release(s, g))
    ensures Release(s, g).pcs == s.pcs && |Release(s, g).gens| == |s.gens| && Release(s, g).gens[g].outcome != Pending
    ensures forall k :: 0 <= k < |s.gens| ==> Release(s, g).gens[k].leader == s.gens[k].leader
  {
    ReleaseCounts(s, g);
    var t := Release(s, g);
    assert OnePending(t);
    assert Led(t);
    assert Waiters(t);
  }

  lemma ReleaseCounts(s: S, g: nat)
    requires OnePending(s) && Counted(s) && g < |s.gens| && s.gens[g].leader.Some?
    requires s.gens[g].leader.value in s.pcs && !s.pcs[s.gens[g].leader.value].CountLeader?
    ensures Counted(Release(s, g))
  {
    var t := Release(s, g);
    forall o ensures Ended(t.gens, o) == Ended(s.gens, o) - One(s.gens[g].outcome == o) + One(t.gens[g].outcome == o) {
      EndedUpdate(s.gens, g, t.gens[g], o);
    }
  }

  /** A leader that leaves nobody behind turns the gate cold. */
  lemma AbandonAlone(s: S, i: nat)
    requires Inv(s) && i in s.pcs && s.pcs[i].Leading? && s.gens[s.pcs[i].gen].outcome == Pending
    requires s.gens[s.pcs[i].gen].waiters == 0
    ensures Inv(Move(Abandon(s, s.pcs[i].gen), i, Done))
  {
    var g := s.pcs[i].gen;
    var t := Move(Abandon(s, g), i, Done);
    CountsMove(s, i, Done, g);
    forall o ensures Ended(t.gens, o) == Ended(s.gens, o) - One(o == Pending) + One(o == LeaderGone) {
      EndedUpdate(s.gens, g, t.gens[g], o);
    }
    assert OnePending(t);
    assert Led(t);
    assert Waiters(t);
  }

  /** A leader that leaves waiters behind hands a new generation over, on which nobody waits. */
  lemma AbandonHandsOver(s: S, i: nat)
    requires Inv(s) && i in s.pcs && s.pcs[i].Leading? && s.gens[s.pcs[i].gen].outcome == Pending
    requires s.gens[s.pcs[i].gen].waiters != 0
    ensures Inv(Move(Abandon(s, s.pcs[i].gen), i, Done))
  {
    var g := s.pcs[i].gen;
    var t := Move(Abandon(s, g), i, Done);
    CountsMove(s, i, Done, |s.gens|);
    NoneWaitsPast(s);
    HandOverEnded(s, g);
    assert OnePending(t);
    assert Led(t);
    assert Waiters(t);
  }

  lemma HandOverEnded(s: S, g: nat)
    requires g < |s.gens| && s.gens[g].outcome == Pending && s.gens[g].waiters != 0
    ensures forall o :: Ended(Abandon(s, g).gens, o) == Ended(s.gens, o) + One(o == LeaderGone)
  {
    var gone := s.gens[g].(outcome := LeaderGone, closes := s.gens[g].closes + 1);
    forall o ensures Ended(Abandon(s, g).gens, o) == Ended(s.gens, o) + One(o == LeaderGone) {
      EndedUpdate(s.gens, g, gone, o);
      EndedAppend(s.gens[g := gone], NEW_GEN, o);
    }
  }

  lemma AbandonKeeps(s: S, i: nat)
    requires Inv(s) && i in s.pcs && s.pcs[i].Leading? && s.gens[s.pcs[i].gen].outcome == Pending
    ensures Inv(Move(Abandon(s, s.pcs[i].gen), i, Done))
  {
    if s.gens[s.pcs[i].gen].waiters == 0 {
      AbandonAlone(s, i);
    } else {
      AbandonHandsOver(s, i);
    }
  }

  lemma DialFailsKeeps(s: S, i: nat)
    requires Inv(s) && i in s.pcs && s.pcs[i].Leading? && s.gens[s.pcs[i].gen].outcome == Pending
    ensures Inv(Move(Resolve(s, s.pcs[i].gen, Failed).(state := Cold), i, CountFailure))
  {
    var g := s.pcs[i].gen;
    var t := Move(Resolve(s, g, Failed).(state := Cold), i, CountFailure);
    CountsMove(s, i, CountFailure, Newest(s));
    forall o ensures Ended(t.gens, o) == Ended(s.gens, o) - One(o == Pending) + One(o == Failed) {
      EndedUpdate(s.gens, g, t.gens[g], o);
    }
    assert OnePending(t);
    assert Led(t);
    assert Waiters(t);
  }

  lemma LeaderStepKeeps(s: S, a: Action)
    requires Inv(s) && Next(s, a).Some?
    requires a.Respond? || a.GiveUp? || a.DialFails?
    ensures Inv(Next(s, a).value)
  {
    var i, g := a.i, s.pcs[a.i].gen;
    if a.Respond? {
      ReleaseKeeps(s, g);
      LeaderDone(Release(s, g), i);
    } else if s.gens[g].outcome != Pending {
      LeaderDone(s, i);
    } else if a.GiveUp? {
      AbandonKeeps(s, i);
    } else {
      DialFailsKeeps(s, i);
    }
  }

  lemma WaiterStepKeeps(s: S, a: Action)
    requires Inv(s) && Next(s, a).Some?
    requires a.Wake? || a.Quit? || a.Unpark?
    ensures Inv(Next(s, a).value)
  {
    var pc := s.pcs[a.i];
    if a.Wake? {
      WakeKeeps(s, a.i, Next(s, a).value.pcs[a.i]);
    } else if a.Quit? {
      QuitKeeps(s, a.i, a.expired);
    } else {
      UnparkKeeps(s, a.i, pc.gen, pc.expired);
    }
  }

  lemma CallerStepKeeps(s: S, a: Action)
    requires Inv(s) && Next(s, a).Some?
    requires a.Arrive? || a.Fast? || a.Admit?
    ensures Inv(Next(s, a).value)
  {
    if a.Arrive? {
      FreeMove(s, a.i, Start);
    } else if s.state == Warm {
      FreeMove(s, a.i, Sending);
    } else if Leads(s) {
      LeadKeeps(s, a.i);
    } else {
      ParkKeeps(s, a.i);
    }
  }

  /** Every action keeps the invariant. */
  lemma StepKeeps(s: S, a: Action)
    requires Inv(s) && Next(s, a).Some?
    ensures Inv(Next(s, a).value)
  {
    if a.Arrive? || a.Fast? || a.Admit? {
      CallerStepKeeps(s, a);
    } else if a.Wake? || a.Quit? || a.Unpark? {
      WaiterStepKeeps(s, a);
    } else if a.GotConn? {
      ReleaseKeeps(s, a.g);
    } else if a.Respond? || a.GiveUp? || a.DialFails? {
      LeaderStepKeeps(s, a);
    } else if a.AddLeader? {
      AddLeaderKeeps(s, a.i);
    } else if a.AddFailure? {
      AddFailureKeeps(s, a.i);
    } else if a.AddReset? {
      AddResetKeeps(s, a.i);
    } else if a.AddFallThrough? {
      FallThroughKeeps(s, a.i);
    }
  }

  // ----- whole runs -----

  /** The actions acts, in order; None when one is not enabled. */
  function Run(s: S, acts: seq<Action>): Option<S>
    decreases |acts|
  {
    if acts == [] then Some(s)
    else match Next(s, acts[0])
         case None => None
         case Some(t) => Run(t, acts[1..])
  }

  lemma {:induction false} RunKeeps(s: S, acts: seq<Action>)
    requires Inv(s) && Run(s, acts).Some?
    ensures Inv(Run(s, acts).value)
    decreases |acts|
  {
    if acts != [] {
      StepKeeps(s, acts[0]);
      RunKeeps(Next(s, acts[0]).value, acts[1..]);
    }
  }

  lemma InitHolds()
    ensures Inv(INIT)
  {
  }

  /** l is on its way to resolve generation g, which it alone leads. */
  predicate LiveLeader(s: S, g: nat, l: nat) {
    && l in s.pcs && (s.pcs[l] == CountLeader(g) || s.pcs[l] == Leading(g))
    && forall j <- s.pcs :: s.pcs[j] == CountLeader(g) || s.pcs[j] == Leading(g) ==> j == l
  }

  /**
    At most one generation is pending, and it is the newest; a channel is
    closed exactly once, when its generation ends; a request that waits on a
    pending generation has exactly one live leader; and nobody waits on a
    generation that a handover left to the next caller.
  */
  predicate Safe(s: S) {
    && (forall g :: 0 <= g < |s.gens| && s.gens[g].outcome == Pending ==> g == |s.gens| - 1)
    && (forall g :: 0 <= g < |s.gens| ==> s.gens[g].closes == One(s.gens[g].outcome != Pending))
    && (forall i <- s.pcs :: s.pcs[i].Parked? ==> HasLeader(s, s.pcs[i].gen))
    && (s.handover ==> s.gens != [] && forall i <- s.pcs :: s.pcs[i] != Parked(|s.gens| - 1))
  }

  /** Generation g has ended, or a live leader is to end it. */
  predicate HasLeader(s: S, g: nat) {
    g < |s.gens| && (s.gens[g].outcome == Pending ==> s.gens[g].leader.Some? && LiveLeader(s, g, s.gens[g].leader.value))
  }

  lemma InvIsSafe(s: S)
    requires Inv(s)
    ensures Safe(s)
  {
    forall i | i in s.pcs && s.pcs[i].Parked?
      ensures HasLeader(s, s.pcs[i].gen)
      ensures s.handover ==> s.pcs[i] != Parked(|s.gens| - 1)
    {
      if s.gens[s.pcs[i].gen].outcome == Pending {
        ParkedIsLed(s, i);
      }
    }
  }

  lemma ReachableInv(acts: seq<Action>)
    requires Run(INIT, acts).Some?
    ensures Inv(Run(INIT, acts).value)
  {
    InitHolds();
    RunKeeps(INIT, acts);
  }

  /** Every reachable state is safe. */
  lemma GateSafety(acts: seq<Action>)
    requires Run(INIT, acts).Some?
    ensures Safe(Run(INIT, acts).value)
  {
    ReachableInv(acts);
    InvIsSafe(Run(INIT, acts).value);
  }

  /** A waiter of a pending generation has a live leader. */
  lemma ParkedIsLed(s: S, i: nat)
    requires Inv(s) && i in s.pcs && s.pcs[i].Parked? && s.gens[s.pcs[i].gen].outcome == Pending
    ensures !s.handover && s.gens[s.pcs[i].gen].leader.Some? && LiveLeader(s, s.pcs[i].gen, s.gens[s.pcs[i].gen].leader.value)
  {
    assert i in At(s.pcs, WaitsOn(s.pcs[i].gen));
  }

  lemma WarmStays(s: S, a: Action)
    requires OnePending(s) && Next(s, a).Some? && s.state == Warm
    ensures Next(s, a).value.state == Warm
  {
  }

  lemma GensStay(s: S, a: Action)
    requires Next(s, a).Some?
    ensures |s.gens| <= |Next(s, a).value.gens|
  {
  }

  lemma OutcomeStays(s: S, a: Action, g: nat)
    requires OnePending(s) && Next(s, a).Some? && g < |s.gens| && s.gens[g].outcome != Pending
    ensures g < |Next(s, a).value.gens| && Next(s, a).value.gens[g].outcome == s.gens[g].outcome
  {
  }

  /** The gate stays warm, a generation that ended keeps its outcome, and the waiters it failed were failed by a failed dial. */
  lemma WarmForGood(s: S, a: Action)
    requires Inv(s) && Next(s, a).Some?
    ensures s.state == Warm ==> Next(s, a).value.state == Warm
    ensures |s.gens| <= |Next(s, a).value.gens|
    ensures forall g :: 0 <= g < |s.gens| && s.gens[g].outcome != Pending ==> Next(s, a).value.gens[g].outcome == s.gens[g].outcome
  {
    if s.state == Warm {
      WarmStays(s, a);
    }
    GensStay(s, a);
    forall g | 0 <= g < |s.gens| && s.gens[g].outcome != Pending
      ensures Next(s, a).value.gens[g].outcome == s.gens[g].outcome
    {
      OutcomeStays(s, a, g);
    }
  }

  /** leaders = releases + handovers + cold resets + (1 if a leader is in flight), up to the adds still to come; at most one release; a failure is one cold reset. */
  predicate Balanced(s: S) {
    && s.leaders + One(LeaderLag(s)) ==
       s.releases + s.lagging + s.handovers + s.coldResets + |At(s.pcs, Unreset)| + One(s.state == Dialing && !s.handover)
    && s.releases + s.lagging == One(s.state == Warm)
    && s.failures + |At(s.pcs, Uncounted)| <= s.coldResets + s.handovers + |At(s.pcs, Unreset)|
  }

  lemma InvIsBalanced(s: S)
    requires Inv(s)
    ensures Balanced(s)
  {
    EndedTotal(s.gens);
    OnlyLast(s.gens, Pending);
    OnlyLast(s.gens, Released);
  }

  lemma CountersAgree(acts: seq<Action>)
    requires Run(INIT, acts).Some?
    ensures Balanced(Run(INIT, acts).value)
  {
    ReachableInv(acts);
    InvIsBalanced(Run(INIT, acts).value);
  }

  /** An outcome that only the newest generation can have is counted at most once. */
  lemma {:induction false} OnlyLast(gens: seq<Gen>, o: Outcome)
    requires forall g :: 0 <= g < |gens| - 1 ==> gens[g].outcome != o
    ensures Ended(gens, o) == One(gens != [] && gens[|gens| - 1].outcome == o)
  {
    if gens != [] {
      NoneEnded(gens[..|gens| - 1], o);
    }
  }

  lemma {:induction false} NoneEnded(gens: seq<Gen>, o: Outcome)
    requires forall g :: 0 <= g < |gens| ==> gens[g].outcome != o
    ensures Ended(gens, o) == 0
  {
    if gens != [] {
      NoneEnded(gens[..|gens| - 1], o);
    }
  }

  /** Nobody is parked for good: from any reachable state, steps of its leader and its own get a parked request out of the select. */
  lemma NobodyStuck(s: S, i: nat) returns (acts: seq<Action>)
    requires Inv(s) && i in s.pcs && s.pcs[i].Parked?
    ensures |acts| <= 3 && Run(s, acts).Some? && i in Run(s, acts).value.pcs && !Run(s, acts).value.pcs[i].Parked?
    ensures forall a <- acts :: a == Wake(i) || ((a.Respond? || a.AddLeader?) && s.gens[s.pcs[i].gen].leader == Some(a.i))
  {
    var g := s.pcs[i].gen;
    if s.gens[g].outcome != Pending {
      acts := [Wake(i)];
      RunWake(s, i);
    } else {
      ParkedIsLed(s, i);
      var l := s.gens[g].leader.value;
      if s.pcs[l].CountLeader? {
        RunCounted(s, i, l);
        acts := [AddLeader(l), Respond(l), Wake(i)];
      } else {
        RunRespond(s, i, l);
        acts := [Respond(l), Wake(i)];
      }
    }
  }

  lemma RunWake(s: S, i: nat)
    requires Inv(s) && i in s.pcs && s.pcs[i].Parked? && s.gens[s.pcs[i].gen].outcome != Pending
    ensures Run(s, [Wake(i)]).Some? && i in Run(s, [Wake(i)]).value.pcs && !Run(s, [Wake(i)]).value.pcs[i].Parked?
  {
    assert [Wake(i)][1..] == [];
  }

  lemma RunCounted(s: S, i: nat, l: nat)
    requires Inv(s) && i in s.pcs && s.pcs[i].Parked? && l in s.pcs && s.pcs[l] == CountLeader(s.pcs[i].gen)
    ensures var r := Run(s, [AddLeader(l), Respond(l), Wake(i)]); r.Some? && i in r.value.pcs && !r.value.pcs[i].Parked?
  {
    StepKeeps(s, AddLeader(l));
    RunRespond(LeaderCounted(s, l, s.pcs[i].gen), i, l);
    assert [AddLeader(l), Respond(l), Wake(i)][1..] == [Respond(l), Wake(i)];
  }

  lemma RunRespond(s: S, i: nat, l: nat)
    requires Inv(s) && i in s.pcs && s.pcs[i].Parked? && l in s.pcs && s.pcs[l] == Leading(s.pcs[i].gen)
    ensures var r := Run(s, [Respond(l), Wake(i)]); r.Some? && i in r.value.pcs && !r.value.pcs[i].Parked?
  {
    var t := Next(s, Respond(l)).value;
    StepKeeps(s, Respond(l));
    RunWake(t, i);
    assert [Respond(l), Wake(i)][1..] == [Wake(i)];
  }
}
