/** What the pooled bodies of internal/codec/scratch.go deliver, read off the steps of a run: no reader sees another call's bytes. */
module ScratchText {
  import opened Basics
  import opened Scratch

  /** The text a step writes to body e, when epoch bodies were begun before it. */
  function StepText(a: Action, epoch: nat, e: nat): string {
    if a.Append? && epoch == e then a.text else ""
  }

  function Begun(a: Action, epoch: nat): nat {
    if a.Store? then epoch + 1 else epoch
  }

  /** The texts appended to body e, in order: those between the e-th Store and the next. */
  function Text(acts: seq<Action>, epoch: nat, e: nat): string {
    if acts == [] then "" else StepText(acts[0], epoch, e) + Text(acts[1..], Begun(acts[0], epoch), e)
  }

  /** The capacity the scratch has after a run: the largest buffer its calls grew to, given up once it is past the ceiling. */
  function Grown(acts: seq<Action>, cap: nat): nat {
    if acts == [] then cap
    else Grown(acts[1..], match acts[0]
                          case Get => if cap == 0 then 4096 else cap
                          case Append(_, grown) => Max(cap, grown)
                          case Recycle => if cap <= 8388608 then cap else 0
                          case _ => cap)
  }

  /** A scratch on its way from the pool to its call is empty. */
  predicate Clean(s: S) {
    s.taking ==> s.buf == ""
  }

  /** The bytes of body e so far. */
  function Prior(s: S, e: nat): string {
    if e in s.bodies then s.bodies[e] else if s.building && e == s.epoch then s.buf else ""
  }

  lemma StepClean(s: S, a: Action)
    requires Inv(s) && Clean(s) && Next(s, a).Some?
    ensures Clean(Next(s, a).value) && Next(s, a).value.epoch == Begun(a, s.epoch)
  {
  }

  lemma StepWrites(s: S, a: Action, e: nat)
    requires Placed(s) && Intact(s) && Clean(s) && Next(s, a).Some?
    ensures Prior(Next(s, a).value, e) == Prior(s, e) + StepText(a, s.epoch, e)
  {
  }

  lemma Together(a: string, b: string, c: string)
    ensures (a + b) + c == a + (b + c)
  {
  }

  lemma {:induction false} RunWrites(s: S, acts: seq<Action>, e: nat)
    requires Inv(s) && Clean(s) && Run(s, acts).Some?
    ensures Prior(Run(s, acts).value, e) == Prior(s, e) + Text(acts, s.epoch, e)
    decreases |acts|
  {
    if acts != [] {
      var t := Next(s, acts[0]).value;
      StepKeeps(s, acts[0]);
      StepClean(s, acts[0]);
      StepWrites(s, acts[0], e);
      RunWrites(t, acts[1..], e);
      Together(Prior(s, e), StepText(acts[0], s.epoch, e), Text(acts[1..], t.epoch, e));
    }
  }

  lemma SealedText(s: S, acts: seq<Action>, e: nat)
    requires Inv(s) && Clean(s) && s.bodies == map[] && !s.building && Run(s, acts).Some? && e in Run(s, acts).value.bodies
    ensures Run(s, acts).value.bodies[e] == Text(acts, s.epoch, e)
  {
    RunWrites(s, acts, e);
    assert Prior(s, e) == "";
  }

  /** Every body is what its own call appended, whatever the scratch held before. */
  lemma BodiesAreTheirTexts(acts: seq<Action>, e: nat)
    requires Run(INIT, acts).Some? && e in Run(INIT, acts).value.bodies
    ensures Run(INIT, acts).value.bodies[e] == Text(acts, 0, e)
  {
    InitHolds();
    SealedText(INIT, acts, e);
  }

  /**
    No buffer is reused under a reader: in every reachable state, what a
    reader has delivered, then or before, are the first bytes of what the call
    of its body appended; and while its reference is not dropped that body is
    the one the scratch serves now, whole, and the scratch is neither pooled
    nor taken nor on its way to the pool.
  */
  lemma ReadersSeeTheirBody(acts: seq<Action>, r: nat)
    requires Run(INIT, acts).Some? && r in Run(INIT, acts).value.readers
    ensures var s := Run(INIT, acts).value;
            var reader := s.readers[r];
            && reader.got <= Text(acts, 0, reader.epoch) && |reader.got| == reader.off
            && (!reader.dropped ==> reader.epoch == s.epoch && s.buf == Text(acts, 0, s.epoch) && !s.pooled && !s.taking && !s.recycling)
            && (reader.read == Copying ==> !reader.dropped)
  {
    Reachable(acts);
    ReaderIs(Run(INIT, acts).value, r);
    BodiesAreTheirTexts(acts, Run(INIT, acts).value.readers[r].epoch);
  }

  lemma ReaderIs(s: S, r: nat)
    requires Inv(s) && r in s.readers
    ensures var reader := s.readers[r];
            && reader.epoch in s.bodies && reader.got <= s.bodies[reader.epoch] && |reader.got| == reader.off
            && (!reader.dropped ==> reader.epoch == s.epoch && s.buf == s.bodies[s.epoch] && !s.pooled && !s.taking && !s.recycling)
            && (reader.read == Copying ==> !reader.dropped)
  {
    assert ReaderOK(s, s.readers[r]);
    if !s.readers[r].dropped {
      OpenReader(s, r);
    }
  }

  /** The buffer goes back to the pool exactly when it is within the ceiling, and a call that finds none allocates the initial one. */
  lemma {:induction false} CapacityIs(s: S, acts: seq<Action>)
    requires Run(s, acts).Some?
    ensures Run(s, acts).value.cap == Grown(acts, s.cap)
    decreases |acts|
  {
    if acts != [] {
      StepCapacity(s, acts[0]);
      CapacityIs(Next(s, acts[0]).value, acts[1..]);
    }
  }

  lemma StepCapacity(s: S, a: Action)
    requires Next(s, a).Some?
    ensures Next(s, a).value.cap == Grown([a], s.cap)
  {
    assert [a][1..] == [];
  }

  /** NewBody on a pooled scratch begins the next body: empty, of its own generation, with the call's one reference. */
  lemma NewBodyBegins(s: S)
    requires Inv(s) && s.pooled
    ensures var t := Run(s, [Get, Store]);
            && t.Some? && t.value.building && t.value.buf == "" && t.value.epoch == s.epoch + 1
            && GenOf(t.value.word) == Gen(s.epoch + 1) && Refs(t.value.word) == 1 && !ReleasedIn(t.value.word)
  {
    var one := Next(s, Get).value;
    assert Next(one, Store) == Some(Reused(one));
    GetKeeps(s);
    StoreCounts(one);
    assert [Get, Store][1..] == [Store] && [Store][1..] == [];
    assert Run(one, [Store]) == Some(Reused(one));
  }

  // ----- what a reader's calls do -----

  lemma RunThree(s: S, a: Action, b: Action, c: Action, one: S, two: S, three: S)
    requires Next(s, a) == Some(one) && Next(one, b) == Some(two) && Next(two, c) == Some(three)
    ensures Run(s, [a, b, c]) == Some(three)
  {
    assert [a, b, c][1..] == [b, c] && [b, c][1..] == [c] && [c][1..] == [];
    assert Run(two, [c]) == Some(three);
    assert Run(one, [b, c]) == Some(three);
  }

  /** A reader between two Reads. */
  predicate Ready(s: S, r: nat) {
    r in s.readers && s.readers[r].length.Some? && s.readers[r].read == Idle
  }

  lemma CopySteps(s: S, r: nat, n: nat)
    requires Ready(s, r) && !s.readers[r].closed && s.readers[r].off + n <= s.readers[r].length.value <= |s.buf|
    ensures var t := Run(s, [Lock(r), Check(r), Copy(r, n)]);
            && t.Some? && Ready(t.value, r) && t.value.readers[r].off == s.readers[r].off + n
            && t.value.readers[r].got == s.readers[r].got + s.buf[s.readers[r].off..s.readers[r].off + n]
  {
    var one := Next(s, Lock(r)).value;
    var two := Next(one, Check(r)).value;
    RunThree(s, Lock(r), Check(r), Copy(r, n), one, two, Next(two, Copy(r, n)).value);
  }

  lemma OpenIs(s: S, r: nat)
    requires Inv(s) && Ready(s, r) && !s.readers[r].closed
    ensures s.readers[r].epoch in s.bodies && s.buf == s.bodies[s.readers[r].epoch]
    ensures s.readers[r].length.value == |s.buf| && s.readers[r].off <= |s.buf| && s.readers[r].got == s.buf[..s.readers[r].off]
  {
    assert ReaderOK(s, s.readers[r]);
    OpenReader(s, r);
  }

  /** A Read of an open reader delivers the next bytes its call appended, up to the last. */
  lemma ReadDelivers(acts: seq<Action>, r: nat, n: nat)
    requires Run(INIT, acts).Some? && Ready(Run(INIT, acts).value, r) && !Run(INIT, acts).value.readers[r].closed
    requires var reader := Run(INIT, acts).value.readers[r]; reader.off + n <= |Text(acts, 0, reader.epoch)|
    ensures var reader := Run(INIT, acts).value.readers[r];
            var t := Run(Run(INIT, acts).value, [Lock(r), Check(r), Copy(r, n)]);
            && t.Some? && Ready(t.value, r) && t.value.readers[r].off == reader.off + n
            && t.value.readers[r].got == Text(acts, 0, reader.epoch)[..reader.off + n]
  {
    var s := Run(INIT, acts).value;
    Reachable(acts);
    OpenIs(s, r);
    BodiesAreTheirTexts(acts, s.readers[r].epoch);
    CopySteps(s, r, n);
    Extended(s.buf, s.readers[r].off, n);
  }

  lemma Extended(text: string, off: nat, n: nat)
    requires off + n <= |text|
    ensures text[..off] + text[off..off + n] == text[..off + n]
  {
  }

  /** A Read of a closed reader delivers nothing. */
  lemma ClosedReads(s: S, r: nat)
    requires Ready(s, r) && s.readers[r].closed
    ensures Next(s, Lock(r)).Some? && Next(Next(s, Lock(r)).value, Check(r)) == Some(s)
  {
    var reader := s.readers[r];
    assert s.readers[r := reader.(read := Checking)][r := reader] == s.readers;
  }

  lemma CloseSteps(s: S, r: nat)
    requires Ready(s, r) && !s.readers[r].closed && !s.readers[r].cleared && !s.readers[r].dropped
    requires GenOf(s.word) == Gen(s.readers[r].epoch) && Refs(s.word) > 0
    ensures var t := Run(s, [Close(r), Clear(r), Unref(r)]);
            && t.Some? && r in t.value.readers && t.value.word == s.word - 1
            && t.value.readers[r] == s.readers[r].(closed := true, cleared := true, dropped := true)
            && (t.value.recycling <==> s.recycling || Refs(s.word - 1) == 0)
  {
    var one := Next(s, Close(r)).value;
    var two := Next(one, Clear(r)).value;
    RunThree(s, Close(r), Clear(r), Unref(r), one, two, Next(two, Unref(r)).value);
  }

  /** The first Close of a reader drops its one reference, and no step of it does again; the last reference recycles the scratch. */
  lemma CloseDrops(s: S, r: nat)
    requires Inv(s) && Ready(s, r) && !s.readers[r].closed
    ensures var t := Run(s, [Close(r), Clear(r), Unref(r)]);
            && t.Some? && r in t.value.readers && Refs(t.value.word) + 1 == Refs(s.word)
            && (t.value.recycling <==> Refs(s.word) == 1)
            && Next(t.value, Close(r)).None? && Next(t.value, Clear(r)).None? && Next(t.value, Unref(r)).None?
  {
    assert ReaderOK(s, s.readers[r]);
    OpenReader(s, r);
    DropRef(s.word);
    CloseSteps(s, r);
    var t := Run(s, [Close(r), Clear(r), Unref(r)]).value;
    NothingLeft(t, r);
  }

  lemma NothingLeft(s: S, r: nat)
    requires r in s.readers && s.readers[r].closed && s.readers[r].cleared && s.readers[r].dropped
    ensures Next(s, Close(r)).None? && Next(s, Clear(r)).None? && Next(s, Unref(r)).None?
  {
  }
}
