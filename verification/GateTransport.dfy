/**
  The critical sections of the gate as internal/h2gate/transport.go writes
  them, on mutable generations and a transport that points at the newest one.
  Each is proved to be the gate's action of that name; what the actions keep
  is proved in Gate.
*/
module GateTransport {
  import opened Basics
  import opened Gate

  /** generation: closed stands for its channel done. */
  class Generation {
    var outcome: Outcome
    var waiters: int
    var closed: bool
    ghost var leader: Option<nat>

    constructor ()
      ensures outcome == Pending && waiters == 0 && !closed && leader == None
    {
      outcome, waiters, closed, leader := Pending, 0, false, None;
    }

    ghost function View(): Gen
      reads this
    {
      Gen(outcome, waiters, One(closed), leader)
    }

    /** close(gen.done), which panics on a closed channel. */
    method Close()
      requires !closed
      modifies this`closed
      ensures closed
    {
      closed := true;
    }
  }

  ghost function Views(gens: seq<Generation>): (r: seq<Gen>)
    reads gens
    ensures |r| == |gens| && forall g :: 0 <= g < |r| ==> r[g] == gens[g].View()
  {
    seq(|gens|, g requires 0 <= g < |gens| reads gens => gens[g].View())
  }

  /** s once i leads its newest generation. */
  function Taken(s: S, i: nat): S
    requires s.gens != []
  {
    var g := |s.gens| - 1;
    Move(s.(state := Dialing, handover := false, gens := s.gens[g := s.gens[g].(leader := Some(i))]), i, CountLeader(g))
  }

  /** The leader of a cold gate starts the generation that it takes. */
  lemma LeadTakes(s: S, i: nat)
    requires Leads(s) && (s.state == Cold || s.gens != [])
    ensures Lead(s, i) == Taken(if s.state == Cold then s.(gens := s.gens + [NEW_GEN]) else s, i)
  {
  }

  class Transport {
    var state: State
    var gen: Generation?
    var handover: bool
    var warm: bool
    var handovers: nat
    var coldResets: nat
    ghost var gens: seq<Generation>
    ghost var rest: S

    /** gen is the newest generation, warm says what state says, and a channel is closed when its generation has ended. */
    ghost predicate Valid()
      reads this, gens
    {
      && (forall a, b :: 0 <= a < b < |gens| ==> gens[a] != gens[b])
      && (if gens == [] then gen == null else gen == gens[|gens| - 1])
      && (state != Cold ==> gens != [])
      && (warm <==> state == Warm)
      && (forall g :: 0 <= g < |gens| ==> (gens[g].closed <==> gens[g].outcome != Pending))
    }

    /** The gate's state; rest holds what the critical sections do not touch. */
    ghost function View(): S
      reads this, gens
    {
      rest.(state := state, gens := Views(gens), handover := handover, handovers := handovers, coldResets := coldResets)
    }

    constructor ()
      ensures Valid() && View() == INIT
    {
      state, gen, handover, warm, handovers, coldResets := Cold, null, false, false, 0, 0;
      gens, rest := [], INIT;
    }

    /** A new generation on a cold gate. */
    method StartGeneration()
      requires Valid()
      modifies this`gen, this`gens
      ensures Valid() && fresh(set g | g in gens && g !in old(gens))
      ensures |gens| == |old(gens)| + 1 && View() == old(View()).(gens := old(View()).gens + [NEW_GEN])
    {
      var next := new Generation();
      gen, gens := next, gens + [next];
      assert Views(gens) == old(View()).gens + [NEW_GEN];
    }

    /** The caller i goes on to pc. */
    ghost method MoveOn(i: nat, pc: Pc)
      requires Valid()
      modifies this`rest
      ensures Valid() && View() == Move(old(View()), i, pc)
    {
      rest := rest.(pcs := rest.pcs[i := pc]);
    }

    method SetDialing()
      requires Valid() && !warm && gens != []
      modifies this`state, this`handover
      ensures Valid() && View() == old(View()).(state := Dialing, handover := false)
    {
      state := Dialing;
      handover := false;
    }

    /** The newest generation is led by i. */
    ghost method NameLeader(i: nat)
      requires Valid() && gens != [] && gen != null
      modifies gen`leader
      ensures Valid()
      ensures var v := old(View());
              View() == v.(gens := v.gens[|v.gens| - 1 := v.gens[|v.gens| - 1].(leader := Some(i))])
    {
      gen.leader := Some(i);
      assert Views(gens) == old(View()).gens[|gens| - 1 := old(View()).gens[|gens| - 1].(leader := Some(i))];
    }

    /** The caller i takes the newest generation to lead it. */
    method TakeLead(ghost i: nat) returns (g: Generation)
      requires Valid() && gens != [] && !warm
      modifies this`state, this`handover, this`rest, gens
      ensures Valid() && g == gens[|gens| - 1]
      ensures View() == Taken(old(View()), i)
    {
      g := gen;
      NameLeader(i);
      SetDialing();
      MoveOn(i, CountLeader(|gens| - 1));
    }

    /** RoundTrip's critical section when the caller i parks. */
    method ParkOn(ghost i: nat) returns (g: Generation)
      requires Valid() && state == Dialing
      modifies this`rest, gens
      ensures Valid() && View() == Park(old(View()), i)
      ensures gens != [] && g == gens[|gens| - 1]
    {
      g := gen;
      g.waiters := g.waiters + 1;
      assert Views(gens) == Park(old(View()), i).gens;
      MoveOn(i, Parked(|gens| - 1));
    }

    /** RoundTrip's critical section when the caller i leads: it takes the generation left to it, or starts one. */
    method BecomeLeader(ghost i: nat) returns (g: Generation)
      requires Valid() && Leads(View())
      modifies this, gens
      ensures Valid() && View() == Lead(old(View()), i)
      ensures gens != [] && g == gens[|gens| - 1]
    {
      LeadTakes(View(), i);
      if state == Cold {
        StartGeneration();
      }
      g := TakeLead(i);
    }

    /** RoundTrip up to the select: a warm gate lets the caller through, a cold one or one handed over makes it the leader, any other parks it. */
    method Enter(ghost i: nat) returns (through: bool, leads: bool, g: Generation?)
      requires Valid() && i in View().pcs && View().pcs[i] == Start
      modifies this, gens
      ensures Valid() && Next(old(View()), Admit(i)) == Some(View())
      ensures through || (gens != [] && g == gens[|gens| - 1])
    {
      if state == Warm {
        through, leads, g := true, false, null;
        MoveOn(i, Sending);
      } else if state == Cold || handover {
        through, leads := false, true;
        g := BecomeLeader(i);
      } else {
        through, leads := false, false;
        g := ParkOn(i);
      }
    }

    /** The waiter i stops waiting on the generation g for its own reason. */
    method Unpark(gen: Generation, ghost i: nat, ghost g: nat, ghost expired: bool)
      requires Valid() && g < |gens| && gens[g] == gen
      modifies this`rest, gen`waiters
      ensures Valid() && View() == Leave(old(View()), i, g, expired)
    {
      gen.waiters := gen.waiters - 1;
      assert Views(gens) == Leave(old(View()), i, g, expired).gens;
      MoveOn(i, if expired then Expired else Done);
    }

    /** A pending generation ends: its outcome is set and its channel closed. */
    method EndGeneration(gen: Generation, outcome: Outcome, ghost g: nat)
      requires Valid() && g < |gens| && gens[g] == gen && gen.outcome == Pending && outcome != Pending
      modifies gen
      ensures Valid() && View() == Resolve(old(View()), g, outcome)
    {
      gen.outcome := outcome;
      gen.Close();
      assert Views(gens) == Resolve(old(View()), g, outcome).gens;
    }

    /** The gate opens; the counter of releases lags behind by one. */
    method TurnWarm()
      requires Valid() && gens != []
      modifies this`state, this`warm, this`rest
      ensures Valid() && View() == old(View()).(state := Warm, lagging := old(View()).lagging + 1)
    {
      state := Warm;
      warm := true;
      rest := rest.(lagging := rest.lagging + 1);
    }

    /** release */
    method ReleaseGate(gen: Generation, ghost g: nat)
      requires Valid() && g < |gens| && gens[g] == gen
      modifies this`state, this`warm, this`rest, gen
      ensures Valid() && View() == Release(old(View()), g)
    {
      if gen.outcome != Pending {
        return;
      }
      EndGeneration(gen, Released, g);
      TurnWarm();
    }

    method SetCold()
      requires Valid() && !warm
      modifies this`state
      ensures Valid() && View() == old(View()).(state := Cold)
    {
      state := Cold;
    }

    /** abandonLocked with nobody waiting. */
    method TurnCold()
      requires Valid() && !warm
      modifies this`state, this`coldResets
      ensures Valid() && View() == old(View()).(state := Cold, coldResets := old(coldResets) + 1)
    {
      SetCold();
      coldResets := coldResets + 1;
    }

    /** abandonLocked with waiters: a new generation for the first of them to lead. */
    method HandOver()
      requires Valid() && gens != []
      modifies this`handover, this`handovers, this`gen, this`gens
      ensures Valid() && fresh(set g | g in gens && g !in old(gens))
      ensures View() == old(View()).(handover := true, handovers := old(handovers) + 1, gens := old(View()).gens + [NEW_GEN])
    {
      handover := true;
      handovers := handovers + 1;
      StartGeneration();
    }

    /** abandonLocked; a pending generation's transport is dialing. */
    method AbandonLocked(gen: Generation, ghost g: nat) returns (waiters: int)
      requires Valid() && g < |gens| && gens[g] == gen && gen.outcome == Pending && state == Dialing
      modifies this, gen
      ensures Valid() && View() == Abandon(old(View()), g)
      ensures waiters == old(gen.waiters)
    {
      waiters := gen.waiters;
      EndGeneration(gen, LeaderGone, g);
      if waiters == 0 {
        TurnCold();
      } else {
        HandOver();
      }
    }

    /** lead, when its request got a response. */
    method LeadResponded(gen: Generation, ghost i: nat, ghost g: nat)
      requires Valid() && g < |gens| && gens[g] == gen && i in View().pcs && View().pcs[i] == Leading(g)
      modifies this`state, this`warm, this`rest, gen
      ensures Valid() && Next(old(View()), Respond(i)) == Some(View())
    {
      ReleaseGate(gen, g);
      MoveOn(i, Done);
    }

    /** lead, when its request ended without a verdict on the dial, or panicked. */
    method LeadGone(gen: Generation, ghost i: nat, ghost g: nat)
      requires Valid() && g < |gens| && gens[g] == gen && i in View().pcs && View().pcs[i] == Leading(g)
      requires gen.outcome == Pending ==> state == Dialing
      modifies this, gen
      ensures Valid() && Next(old(View()), GiveUp(i)) == Some(View())
    {
      if gen.outcome == Pending {
        var _ := AbandonLocked(gen, g);
      }
      MoveOn(i, Done);
    }

    /** lead, when its dial failed while its context was alive. */
    method LeadFailed(gen: Generation, ghost i: nat, ghost g: nat)
      requires Valid() && g < |gens| && gens[g] == gen && i in View().pcs && View().pcs[i] == Leading(g)
      requires gen.outcome == Pending ==> state == Dialing
      modifies this`state, this`rest, gen
      ensures Valid() && Next(old(View()), DialFails(i)) == Some(View())
    {
      if gen.outcome != Pending {
        MoveOn(i, Done);
        return;
      }
      EndGeneration(gen, Failed, g);
      SetCold();
      MoveOn(i, CountFailure);
    }
  }
}
