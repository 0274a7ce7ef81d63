/** Where the gate of internal/h2gate/transport.go sends each request, said of the states before and after a step alone. */
module GateRoutes {
  import opened Basics
  import opened Gate

  /** Every place request i can go to next. */
  predicate MayGo(s: S, i: nat, pc: Pc)
    requires i in s.pcs
  {
    match s.pcs[i]
    case Start =>
      if s.state == Warm then pc == Sending
      else if s.state == Cold then pc == CountLeader(|s.gens|)
      else if |s.gens| == 0 then false
      else if s.handover then pc == CountLeader(|s.gens| - 1)
      else pc == Parked(|s.gens| - 1)
    case CountLeader(g) => pc == Leading(g)
    case Leading(g) => pc == Done || (pc == CountFailure && Is(s, g, Pending))
    case Parked(g) =>
      || pc == Leaving(g, true)
      || pc == Leaving(g, false)
      || (pc == Sending && Is(s, g, Released))
      || (pc == Done && Is(s, g, Failed))
      || (pc == Start && Is(s, g, LeaderGone))
    case Leaving(g, expired) => pc == if expired then Expired else Done
    case Expired => pc == Sending
    case CountFailure => pc == CountReset
    case CountReset => pc == Done
    case Sending => false
    case Done => false
  }

  predicate Is(s: S, g: nat, o: Outcome) {
    g < |s.gens| && s.gens[g].outcome == o
  }

  /** t has the same gate and generations as s, but for how many wait on g. */
  predicate SameGate(s: S, t: S, g: nat, waiters: int) {
    && t.state == s.state && t.handover == s.handover && |t.gens| == |s.gens|
    && (forall k :: 0 <= k < |s.gens| && k != g ==> t.gens[k] == s.gens[k])
    && (g < |s.gens| ==> t.gens[g] == s.gens[g].(waiters := waiters))
  }

  /** What t has counted more than s: a release counts once it is made, even when its add is still to come. */
  predicate Adds(s: S, t: S, leaders: nat, releases: nat, failures: nat, handovers: nat, coldResets: nat, fallThroughs: nat) {
    && t.leaders == s.leaders + leaders
    && t.releases + t.lagging == s.releases + s.lagging + releases
    && t.failures == s.failures + failures
    && t.handovers == s.handovers + handovers
    && t.coldResets == s.coldResets + coldResets
    && t.fallThroughs == s.fallThroughs + fallThroughs
  }

  /** The gate and the generations stay as they are, and nothing is counted but leaders, failures, cold resets and fall-throughs. */
  predicate Only(s: S, t: S, leaders: nat, failures: nat, coldResets: nat, fallThroughs: nat) {
    SameGate(s, t, |s.gens|, 0) && Adds(s, t, leaders, 0, failures, 0, coldResets, fallThroughs)
  }

  /** What becomes of the generation g its leader leaves pending: a failed dial, a response, or no verdict. */
  predicate Ends(s: S, t: S, g: nat, pc: Pc)
    requires g < |s.gens| && g < |t.gens|
  {
    && (forall k :: 0 <= k < g ==> t.gens[k] == s.gens[k])
    && t.gens[g] == s.gens[g].(outcome := t.gens[g].outcome, closes := s.gens[g].closes + 1)
    && match t.gens[g].outcome
       case Pending => false
       case Failed => pc == CountFailure && t.state == Cold && !t.handover && |t.gens| == g + 1 && Adds(s, t, 0, 0, 0, 0, 0, 0)
       case Released => pc == Done && t.state == Warm && !t.handover && |t.gens| == g + 1 && Adds(s, t, 0, 1, 0, 0, 0, 0)
       case LeaderGone =>
         && pc == Done
         && if s.gens[g].waiters == 0
            then t.state == Cold && !t.handover && |t.gens| == g + 1 && Adds(s, t, 0, 0, 0, 0, 1, 0)
            else t.state == Dialing && t.handover && |t.gens| == g + 2 && t.gens[g + 1] == Gen(Pending, 0, 0, None) && Adds(s, t, 0, 0, 0, 1, 0, 0)
  }

  /** What a step that takes request i from s to t does to the gate. */
  predicate Effect(s: S, t: S, i: nat)
    requires i in s.pcs && i in t.pcs
  {
    match s.pcs[i]
    case Start =>
      (match t.pcs[i]
       case CountLeader(g) =>
         && t.state == Dialing && !t.handover && |t.gens| == g + 1 && |s.gens| == (if s.state == Cold then g else g + 1)
         && (forall k :: 0 <= k < g && k < |s.gens| ==> t.gens[k] == s.gens[k])
         && t.gens[g] == Gen(Pending, 0, 0, Some(i)) && Adds(s, t, 0, 0, 0, 0, 0, 0)
       case Parked(g) => g < |s.gens| && SameGate(s, t, g, s.gens[g].waiters + 1) && Adds(s, t, 0, 0, 0, 0, 0, 0)
       case _ => Only(s, t, 0, 0, 0, 0))
    case CountLeader(_) => Only(s, t, 1, 0, 0, 0)
    case Leading(g) =>
      && g < |s.gens| && g < |t.gens|
      && if s.gens[g].outcome == Pending then Ends(s, t, g, t.pcs[i]) else Only(s, t, 0, 0, 0, 0)
    case Leaving(g, _) => g < |s.gens| && SameGate(s, t, g, s.gens[g].waiters - 1) && Adds(s, t, 0, 0, 0, 0, 0, 0)
    case Expired => Only(s, t, 0, 0, 0, 1)
    case CountFailure => Only(s, t, 0, 1, 0, 0)
    case CountReset => Only(s, t, 0, 0, 1, 0)
    case _ => Only(s, t, 0, 0, 0, 0)
  }

  /** A step that moves no request: an add that was still to come, or the hook of the leader in flight, which makes the gate warm. */
  predicate NobodyMoves(s: S, t: S) {
    || t == s
    || (s.lagging > 0 && t == s.(lagging := s.lagging - 1, releases := s.releases + 1))
    || (&& s.state == Dialing && s.gens != [] && s.gens[Last(s)].leader.Some?
        && s.gens[Last(s)].leader.value in s.pcs && s.pcs[s.gens[Last(s)].leader.value] == Leading(Last(s))
        && t.state == Warm && t.handover == s.handover && t.gens == s.gens[..Last(s)] + [s.gens[Last(s)].(outcome := Released, closes := 1)]
        && Adds(s, t, 0, 1, 0, 0, 0, 0))
  }

  /** The request a step is about, none for an add after a release. */
  function Mover(a: Action): Option<nat> {
    if a.AddRelease? then None else Some(a.i)
  }

  /** A step moves no request but the one it is about. */
  lemma OthersStay(s: S, a: Action, i: nat)
    requires Next(s, a).Some? && Mover(a) != Some(i)
    ensures i in Next(s, a).value.pcs <==> i in s.pcs
    ensures i in s.pcs ==> Next(s, a).value.pcs[i] == s.pcs[i]
  {
  }

  lemma MoverStays(s: S, a: Action)
    requires Next(s, a).Some? && Mover(a).Some?
    ensures a.i in Next(s, a).value.pcs
  {
  }

  /** Request i is the one that moves from s to t. */
  predicate Moves(s: S, a: Action, i: nat) {
    && Next(s, a).Some? && Mover(a) == Some(i) && i in s.pcs && i in Next(s, a).value.pcs
    && Next(s, a).value.pcs[i] != s.pcs[i]
  }

  lemma Routed(s: S, a: Action, i: nat)
    requires OnePending(s) && Moves(s, a, i)
    ensures MayGo(s, i, Next(s, a).value.pcs[i])
  {
  }

  lemma CallerAffects(s: S, a: Action, i: nat)
    requires OnePending(s) && Led(s) && Moves(s, a, i) && s.pcs[i].Start?
    requires s.handover && s.gens != [] ==> s.gens[Last(s)].waiters == 0
    ensures Effect(s, Next(s, a).value, i)
  {
  }

  lemma LeaderAffects(s: S, a: Action, i: nat)
    requires OnePending(s) && Led(s) && Moves(s, a, i) && s.pcs[i].Leading?
    ensures Effect(s, Next(s, a).value, i)
  {
    if s.gens[s.pcs[i].gen].outcome == Pending {
      LeaderEnds(s, a, i, s.pcs[i].gen);
    }
  }

  lemma LeaderEnds(s: S, a: Action, i: nat, g: nat)
    requires Moves(s, a, i) && s.pcs[i] == Leading(g)
    requires |s.gens| == g + 1 && s.gens[g].outcome == Pending && s.state == Dialing && !s.handover
    ensures |Next(s, a).value.gens| > g && Ends(s, Next(s, a).value, g, Next(s, a).value.pcs[i])
  {
  }

  lemma WaiterAffects(s: S, a: Action, i: nat)
    requires Moves(s, a, i) && (s.pcs[i].Parked? || s.pcs[i].Leaving?)
    ensures Effect(s, Next(s, a).value, i)
  {
  }

  lemma CountAffects(s: S, a: Action, i: nat)
    requires Moves(s, a, i) && !s.pcs[i].Start? && !s.pcs[i].Leading? && !s.pcs[i].Parked? && !s.pcs[i].Leaving?
    ensures Effect(s, Next(s, a).value, i)
  {
  }

  lemma Still(s: S, a: Action)
    requires OnePending(s) && Led(s) && Next(s, a).Some? && Next(s, a).value.pcs == s.pcs
    ensures NobodyMoves(s, Next(s, a).value)
  {
    if a.GotConn? {
      HookIs(s, a.i, a.g);
    }
  }

  lemma HookIs(s: S, i: nat, g: nat)
    requires OnePending(s) && Led(s) && Next(s, GotConn(i, g)).Some?
    ensures NobodyMoves(s, Next(s, GotConn(i, g)).value)
  {
    var t := Next(s, GotConn(i, g)).value;
    if s.gens[g].outcome == Pending {
      assert t.gens == s.gens[..g] + [s.gens[g].(outcome := Released, closes := 1)];
    }
  }

  lemma StepAffects(s: S, a: Action, i: nat)
    requires Inv(s) && Moves(s, a, i)
    ensures Effect(s, Next(s, a).value, i)
  {
    if s.pcs[i].Start? {
      CallerAffects(s, a, i);
    } else if s.pcs[i].Leading? {
      LeaderAffects(s, a, i);
    } else if s.pcs[i].Parked? || s.pcs[i].Leaving? {
      WaiterAffects(s, a, i);
    } else {
      CountAffects(s, a, i);
    }
  }

  /** What request i does in a step from s to t: it stays, it arrives at the loop's head, or it takes a route open to it, with that route's effect. */
  predicate Follows(s: S, t: S, i: nat)
    requires i in t.pcs
  {
    if i !in s.pcs then t.pcs[i] == Start && Only(s, t, 0, 0, 0, 0)
    else t.pcs[i] == s.pcs[i] || (MayGo(s, i, t.pcs[i]) && Effect(s, t, i))
  }

  /** Every request but the mover stays where it is, and none is lost. */
  ghost predicate OthersKept(s: S, t: S, mover: Option<nat>) {
    forall j: nat :: mover != Some(j) ==> (j in t.pcs <==> j in s.pcs) && (j in s.pcs ==> t.pcs[j] == s.pcs[j])
  }

  /** The mover follows, the others are kept; a step that moves none is an add or the leader's hook. */
  ghost predicate Steps(s: S, t: S, mover: Option<nat>) {
    && OthersKept(s, t, mover)
    && (mover.Some? ==> mover.value in t.pcs && Follows(s, t, mover.value))
    && (t.pcs == s.pcs ==> NobodyMoves(s, t))
  }

  lemma Arrives(s: S, a: Action)
    requires Next(s, a).Some? && Mover(a).Some? && a.i !in s.pcs && a.i in Next(s, a).value.pcs
    ensures Follows(s, Next(s, a).value, a.i)
  {
  }

  lemma StepKeepsOthers(s: S, a: Action)
    requires Next(s, a).Some?
    ensures OthersKept(s, Next(s, a).value, Mover(a))
  {
    var t := Next(s, a).value;
    forall j: nat | Mover(a) != Some(j)
      ensures (j in t.pcs <==> j in s.pcs) && (j in s.pcs ==> t.pcs[j] == s.pcs[j])
    {
      OthersStay(s, a, j);
    }
  }

  lemma StepFollows(s: S, a: Action)
    requires Inv(s) && Next(s, a).Some?
    ensures Steps(s, Next(s, a).value, Mover(a))
  {
    StepKeepsOthers(s, a);
    if Mover(a).Some? {
      MoverFollows(s, a);
    }
    if Next(s, a).value.pcs == s.pcs {
      Still(s, a);
    }
  }

  lemma MoverFollows(s: S, a: Action)
    requires Inv(s) && Next(s, a).Some? && Mover(a).Some?
    ensures a.i in Next(s, a).value.pcs && Follows(s, Next(s, a).value, a.i)
  {
    MoverStays(s, a);
    if a.i !in s.pcs {
      Arrives(s, a);
    } else if Next(s, a).value.pcs[a.i] != s.pcs[a.i] {
      Routed(s, a, a.i);
      StepAffects(s, a, a.i);
    }
  }

  /** Every step of every run follows the routes. */
  lemma RoutesFollowed(acts: seq<Action>, a: Action)
    requires Run(INIT, acts).Some? && Next(Run(INIT, acts).value, a).Some?
    ensures Steps(Run(INIT, acts).value, Next(Run(INIT, acts).value, a).value, Mover(a))
  {
    ReachableInv(acts);
    StepFollows(Run(INIT, acts).value, a);
  }

  /** A request that leaves the select for a send finds its generation released, for an error failed, and for the loop's head without a leader. */
  lemma WokenWhere(acts: seq<Action>, a: Action, i: nat, g: nat)
    requires Run(INIT, acts).Some? && Next(Run(INIT, acts).value, a).Some?
    requires i in Run(INIT, acts).value.pcs && Run(INIT, acts).value.pcs[i] == Parked(g)
    ensures var s, t := Run(INIT, acts).value, Next(Run(INIT, acts).value, a).value;
            && i in t.pcs
            && (t.pcs[i] == Sending ==> Is(s, g, Released)) && (t.pcs[i] == Done ==> Is(s, g, Failed))
            && (t.pcs[i] == Start ==> Is(s, g, LeaderGone))
            && (t.pcs[i] == Parked(g) || t.pcs[i].Sending? || t.pcs[i].Done? || t.pcs[i].Start? || t.pcs[i].Leaving?)
  {
    RoutesFollowed(acts, a);
    assert Mover(a) != Some(i) ==> i in Next(Run(INIT, acts).value, a).value.pcs;
  }

  // ----- and every route is open -----

  /** The action that takes request i from one place to the next. */
  function Via(i: nat, from: Pc, to: Pc): Action {
    match from
    case Start => Admit(i)
    case CountLeader(_) => AddLeader(i)
    case Leading(_) => if to == Done then Respond(i) else DialFails(i)
    case Parked(_) => if to.Leaving? then Quit(i, to.expired) else Wake(i)
    case Leaving(_, _) => Unpark(i)
    case Expired => AddFallThrough(i)
    case CountFailure => AddFailure(i)
    case _ => AddReset(i)
  }

  /** The action that takes a route is enabled and ends where the route does. */
  predicate Open(s: S, i: nat, pc: Pc)
    requires i in s.pcs
  {
    var t := Next(s, Via(i, s.pcs[i], pc));
    t.Some? && i in t.value.pcs && t.value.pcs[i] == pc
  }

  lemma OpenStart(s: S, i: nat, pc: Pc)
    requires OnePending(s) && i in s.pcs && MayGo(s, i, pc) && s.pcs[i].Start?
    ensures Open(s, i, pc)
  {
  }

  lemma OpenLeading(s: S, i: nat, pc: Pc)
    requires Led(s) && i in s.pcs && MayGo(s, i, pc) && s.pcs[i].Leading?
    ensures Open(s, i, pc)
  {
  }

  lemma OpenWaiting(s: S, i: nat, pc: Pc)
    requires Waiters(s) && i in s.pcs && MayGo(s, i, pc) && (s.pcs[i].Parked? || s.pcs[i].Leaving?)
    ensures Open(s, i, pc)
  {
  }

  /** Every route that a request may take, it can. */
  lemma RoutesOpen(s: S, i: nat, pc: Pc)
    requires Inv(s) && i in s.pcs && MayGo(s, i, pc)
    ensures Open(s, i, pc)
  {
    if s.pcs[i].Start? {
      OpenStart(s, i, pc);
    } else if s.pcs[i].Leading? {
      OpenLeading(s, i, pc);
    } else if s.pcs[i].Parked? || s.pcs[i].Leaving? {
      OpenWaiting(s, i, pc);
    }
  }

  /** The leader of a pending generation can end it in each of the three ways. */
  lemma LeaderDecides(s: S, i: nat, o: Outcome) returns (a: Action)
    requires Inv(s) && i in s.pcs && s.pcs[i].Leading? && s.gens[s.pcs[i].gen].outcome == Pending && o != Pending
    ensures Next(s, a).Some? && s.pcs[i].gen < |Next(s, a).value.gens| && Next(s, a).value.gens[s.pcs[i].gen].outcome == o
  {
    a := match o case Released => Respond(i) case Failed => DialFails(i) case _ => GiveUp(i);
  }

  /** The hook of a pending generation's leader makes the gate warm and moves nobody. */
  lemma HookReleases(s: S, i: nat, g: nat)
    requires Inv(s) && i in s.pcs && s.pcs[i] == Leading(g) && s.gens[g].outcome == Pending
    ensures var t := Next(s, GotConn(i, g)); t.Some? && t.value.pcs == s.pcs && t.value.state == Warm && NobodyMoves(s, t.value)
  {
    Still(s, GotConn(i, g));
  }

  // ----- who is sent past a gate that is not warm -----

  /** The requests past the gate. */
  function Past(pcs: map<nat, Pc>): set<nat> {
    set i | i in pcs && pcs[i] == Sending
  }

  /** Nobody passes a gate that is not warm but by the wait bound, and each that does is counted. */
  predicate Held(s: S) {
    && s.fallThroughs <= |Past(s.pcs)|
    && (s.state != Warm ==> |Past(s.pcs)| == s.fallThroughs)
  }

  predicate Sent(pcs: map<nat, Pc>, i: nat) {
    i in pcs && pcs[i] == Sending
  }

  lemma PastWithout(pcs: map<nat, Pc>, i: nat)
    ensures |Past(pcs)| == |Past(pcs) - {i}| + One(Sent(pcs, i))
  {
    if Sent(pcs, i) {
      assert Past(pcs) == Past(pcs) - {i} + {i};
    } else {
      assert Past(pcs) == Past(pcs) - {i};
    }
  }

  lemma PastMoves(pcs: map<nat, Pc>, after: map<nat, Pc>, i: nat)
    requires forall j: nat :: j != i ==> (Sent(after, j) <==> Sent(pcs, j))
    ensures |Past(after)| == |Past(pcs)| - One(Sent(pcs, i)) + One(Sent(after, i))
  {
    PastWithout(pcs, i);
    PastWithout(after, i);
    assert Past(after) - {i} == Past(pcs) - {i} by {
      forall j: nat ensures j in Past(after) - {i} <==> j in Past(pcs) - {i} {
        assert j != i ==> (Sent(after, j) <==> Sent(pcs, j));
      }
    }
  }

  /** How many a step sends past the gate. */
  lemma PastStep(s: S, a: Action)
    requires Next(s, a).Some? && Mover(a).Some?
    ensures |Past(Next(s, a).value.pcs)| == |Past(s.pcs)| - One(Sent(s.pcs, a.i)) + One(Sent(Next(s, a).value.pcs, a.i))
  {
    var t := Next(s, a).value;
    forall j: nat | j != a.i ensures Sent(t.pcs, j) <==> Sent(s.pcs, j) {
      OthersStay(s, a, j);
    }
    PastMoves(s.pcs, t.pcs, a.i);
  }

  lemma StepHeld(s: S, a: Action)
    requires Inv(s) && Held(s) && Next(s, a).Some?
    ensures Held(Next(s, a).value)
  {
    WarmForGood(s, a);
    if Mover(a).Some? {
      PastStep(s, a);
      MoverFollows(s, a);
      if a.i in s.pcs && Next(s, a).value.pcs[a.i] == s.pcs[a.i] {
        HookCounts(s, a);
      }
      SentCounted(s, Next(s, a).value, a.i);
    }
  }

  /** The leader's hook adds no fall-through. */
  lemma HookCounts(s: S, a: Action)
    requires Next(s, a).Some? && Mover(a).Some? && a.i in s.pcs && a.i in Next(s, a).value.pcs && Next(s, a).value.pcs[a.i] == s.pcs[a.i]
    ensures Next(s, a).value.fallThroughs == s.fallThroughs
  {
  }

  lemma {:induction false} RunHeld(s: S, acts: seq<Action>)
    requires Inv(s) && Held(s) && Run(s, acts).Some?
    ensures Held(Run(s, acts).value)
    decreases |acts|
  {
    if acts != [] {
      StepKeeps(s, acts[0]);
      StepHeld(s, acts[0]);
      RunHeld(Next(s, acts[0]).value, acts[1..]);
    }
  }

  lemma InitHeld()
    ensures Held(INIT)
  {
    assert Past(INIT.pcs) == {};
  }

  /** In every reachable state, a cold or dialing gate has let past exactly the requests whose wait bound expired. */
  lemma ColdGateHolds(acts: seq<Action>)
    requires Run(INIT, acts).Some?
    ensures Held(Run(INIT, acts).value)
  {
    InitHolds();
    InitHeld();
    RunHeld(INIT, acts);
  }

  /** A request goes past a gate that is not warm only by the wait bound, which counts it. */
  lemma SentCounted(s: S, t: S, i: nat)
    requires OnePending(s) && i in t.pcs && Follows(s, t, i)
    requires i in s.pcs && t.pcs[i] == s.pcs[i] ==> t.fallThroughs == s.fallThroughs
    ensures Sent(s.pcs, i) ==> Sent(t.pcs, i)
    ensures t.fallThroughs == s.fallThroughs + One(i in s.pcs && s.pcs[i] == Expired && t.pcs[i] == Sending)
    ensures Sent(t.pcs, i) && !Sent(s.pcs, i) && s.state != Warm ==> s.pcs[i] == Expired
  {
  }
}
