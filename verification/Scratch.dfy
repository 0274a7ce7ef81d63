/** The pooled request bodies of internal/codec/scratch.go, step by step. */
module Scratch {
  import opened Basics

  // One scratch, which serves one body after another, under any interleaving of
  // handles and readers. A load and the swap that succeeds on its value are one step.

  // ----- the packed word -----

  const FLAG: nat := 0x8000_0000            // stateReleased, bit 31
  const GENERATIONS: nat := 0x1_0000_0000   // 1 << stateGenShift

  function GenOf(w: nat): nat {
    w / GENERATIONS
  }

  predicate ReleasedIn(w: nat) {
    Bit(w) == 1
  }

  function Refs(w: nat): nat {
    w % FLAG
  }

  function One(b: bool): nat {
    if b then 1 else 0
  }

  /** The generation of the n-th body: uint32 wraps. */
  function Gen(epoch: nat): nat {
    epoch % GENERATIONS
  }

  function Bit(w: nat): nat {
    w / FLAG % 2
  }

  function Pack(gen: nat, bit: nat, refs: nat): nat {
    gen * GENERATIONS + bit * FLAG + refs
  }

  lemma Unpacked(w: nat)
    ensures w == Pack(GenOf(w), Bit(w), Refs(w)) && Bit(w) < 2 && Refs(w) < FLAG
  {
    assert w == w / FLAG * FLAG + w % FLAG;
    assert w / FLAG == w / FLAG / 2 * 2 + w / FLAG % 2;
    assert w / FLAG / 2 == w / GENERATIONS;
  }

  /** The fields of a packed word. */
  lemma Packed(gen: nat, bit: nat, refs: nat)
    requires bit < 2 && refs < FLAG
    ensures var w := Pack(gen, bit, refs); GenOf(w) == gen && Bit(w) == bit && Refs(w) == refs
  {
    var w := Pack(gen, bit, refs);
    assert w == (2 * gen + bit) * FLAG + refs;
    assert w / FLAG == 2 * gen + bit;
  }

  /** Adding a reference leaves the other fields alone while the count has room. */
  lemma AddRef(w: nat)
    requires Refs(w) < FLAG - 1
    ensures GenOf(w + 1) == GenOf(w) && (ReleasedIn(w + 1) <==> ReleasedIn(w)) && Refs(w + 1) == Refs(w) + 1
  {
    Unpacked(w);
    Packed(GenOf(w), Bit(w), Refs(w) + 1);
  }

  /** Dropping one borrows from no other field while the count is not zero. */
  lemma DropRef(w: nat)
    requires Refs(w) > 0
    ensures GenOf(w - 1) == GenOf(w) && (ReleasedIn(w - 1) <==> ReleasedIn(w)) && Refs(w - 1) == Refs(w) - 1
  {
    Unpacked(w);
    Packed(GenOf(w), Bit(w), Refs(w) - 1);
  }

  /** Release sets the flag and drops the call's reference in one subtraction. */
  lemma SetReleased(w: nat)
    requires Refs(w) > 0 && !ReleasedIn(w)
    ensures GenOf(w + FLAG - 1) == GenOf(w) && ReleasedIn(w + FLAG - 1) && Refs(w + FLAG - 1) == Refs(w) - 1
  {
    Unpacked(w);
    Packed(GenOf(w), 1, Refs(w) - 1);
  }

  /** The word NewBody stores. */
  lemma FreshWord(gen: nat)
    ensures var w := gen * GENERATIONS + 1; GenOf(w) == gen && !ReleasedIn(w) && Refs(w) == 1
  {
  }

  /** A handle matches again exactly after a multiple of 2^32 reuses: until then every handle of an earlier body is stale. */
  lemma MatchesAgain(epoch: nat, later: nat)
    requires epoch <= later
    ensures Gen(epoch) == Gen(later) <==> (later - epoch) % GENERATIONS == 0
    ensures epoch < later < epoch + GENERATIONS ==> Gen(epoch) != Gen(later)
  {
  }

  // ----- the system -----

  const CEILING: nat := 0x80_0000
  const INITIAL_CAP: nat := 0x1000

  /** A Read in progress holds the reader's mutex: it is to check the closed flag, or is past it. */
  datatype Reading = Idle | Checking | Copying

  /** A BodyReader of body epoch; length is its slice's once Open has fetched it, got what it has delivered. */
  datatype Reader = Reader(epoch: nat, length: Option<nat>, off: nat, got: string, read: Reading, closed: bool, cleared: bool, dropped: bool)

  /**
    The scratch: its word and buffer (cap is 0 when it has none), and where it
    is: in the pool, taken by a NewBody that has not stored the word yet, in
    the hands of the goroutine that dropped the last reference, or serving
    body epoch. bodies maps each epoch to the bytes its body was built with.
  */
  datatype S = S(word: nat, buf: string, cap: nat, pooled: bool, taking: bool, recycling: bool, building: bool,
                 epoch: nat, readers: map<nat, Reader>, bodies: map<nat, string>, recycles: nat)

  const INIT := S(0, "", 0, true, false, false, false, 0, map[], map[], 0)

  datatype Action =
    | Get                               // NewBody: the pool hands the scratch over
    | Store                             // NewBody: the new generation's word
    | Append(text: string, cap: nat)    // the call encodes into the buffer
    | Open(epoch: nat, r: nat)          // through a handle of that epoch
    | Fetch(r: nat)                     // Open: the reader's slice of the buffer
    | Release(epoch: nat)
    | Lock(r: nat)                      // Read
    | Check(r: nat)
    | Copy(r: nat, n: nat)
    | Close(r: nat)                     // Close: the swap of the closed flag
    | Clear(r: nat)                     // Close: data = nil, once no Read holds the mutex
    | Unref(r: nat)                     // Close: the reference
    | Recycle

  /** A handle of the given body, kept for fewer than 2^32 reuses of the scratch, as its documentation asks. */
  predicate Handle(s: S, epoch: nat) {
    0 < epoch <= s.epoch < epoch + GENERATIONS
  }

  /** The call's bytes are complete at the first Open. */
  function Seal(s: S): S {
    if s.building then s.(building := false, bodies := s.bodies[s.epoch := s.buf]) else s
  }

  function Reused(s: S): S {
    var epoch := s.epoch + 1;
    s.(taking := false, building := true, epoch := epoch, word := (GenOf(s.word) + 1) % GENERATIONS * GENERATIONS + 1)
  }

  function Taken(s: S): S {
    s.(pooled := false, taking := true, cap := if s.cap == 0 then INITIAL_CAP else s.cap, buf := "")
  }

  function Appended(s: S, text: string, cap: nat): S {
    s.(buf := s.buf + text, cap := Max(s.cap, cap))
  }

  function Opened(s: S, epoch: nat, r: nat): S {
    Seal(s).(word := s.word + 1, readers := s.readers[r := Reader(epoch, None, 0, "", Idle, false, false, false)])
  }

  /** A reference is gone; the goroutine that dropped the last one recycles the scratch. */
  function Dropped(s: S, word: nat): S {
    s.(word := word, recycling := s.recycling || Refs(word) == 0)
  }

  function With(s: S, r: nat, reader: Reader): S {
    s.(readers := s.readers[r := reader])
  }

  function Unreferenced(s: S, r: nat, reader: Reader): S
    requires s.word > 0
  {
    Dropped(With(s, r, reader.(dropped := true)), s.word - 1)
  }

  function Recycled(s: S): S {
    if s.cap <= CEILING then s.(recycling := false, pooled := true, recycles := s.recycles + 1)
    else s.(recycling := false, pooled := true, recycles := s.recycles + 1, cap := 0, buf := "")
  }

  /** One step; None when it is not enabled. */
  function Next(s: S, a: Action): Option<S> {
    match a
    case Get => if s.pooled then Some(Taken(s)) else None
    case Store => if s.taking then Some(Reused(s)) else None
    case Append(text, cap) =>
      if s.building && |s.buf| + |text| <= cap then Some(Appended(s, text, cap)) else None
    case Open(epoch, r) =>
      if !Handle(s, epoch) || r in s.readers then None
      else if GenOf(s.word) != Gen(epoch) || Refs(s.word) == 0 then Some(s)
      else if Refs(s.word) == FLAG - 1 then None
      else Some(Opened(s, epoch, r))
    case Release(epoch) =>
      if !Handle(s, epoch) then None
      else if GenOf(s.word) != Gen(epoch) || ReleasedIn(s.word) then Some(s)
      else Some(Dropped(Seal(s), s.word + FLAG - 1))
    case Recycle => if s.recycling then Some(Recycled(s)) else None
    case _ => if a.r in s.readers then ReaderStep(s, a, s.readers[a.r]) else None
  }

  function ReaderStep(s: S, a: Action, reader: Reader): Option<S>
  {
    match a
    case Fetch(r) => if reader.length.None? then Some(With(s, r, reader.(length := Some(|s.buf|)))) else None
    case Lock(r) => if reader.length.Some? && reader.read == Idle then Some(With(s, r, reader.(read := Checking))) else None
    case Check(r) => if reader.read == Checking then Some(With(s, r, reader.(read := if reader.closed then Idle else Copying))) else None
    case Copy(r, n) =>
      if reader.read == Copying && reader.length.Some? && reader.off + n <= reader.length.value <= |s.buf|
      then Some(With(s, r, reader.(read := Idle, off := reader.off + n, got := reader.got + s.buf[reader.off..reader.off + n]))) else None
    case Close(r) => if reader.length.Some? && !reader.closed then Some(With(s, r, reader.(closed := true))) else None
    case Clear(r) => if reader.closed && !reader.cleared && reader.read == Idle then Some(With(s, r, reader.(cleared := true))) else None
    case Unref(r) =>
      if !(reader.cleared && !reader.dropped) then None
      else if GenOf(s.word) != Gen(reader.epoch) || Refs(s.word) == 0 then None
      else Some(Unreferenced(s, r, reader))
    case _ => None
  }

  // ----- what every step keeps -----

  /** The readers that hold a reference. */
  function Holding(readers: map<nat, Reader>): set<nat> {
    set r | r in readers && !readers[r].dropped
  }

  lemma HoldingChange(readers: map<nat, Reader>, r: nat, reader: Reader)
    ensures |Holding(readers[r := reader])| == |Holding(readers)| - One(r in readers && !readers[r].dropped) + One(!reader.dropped)
  {
    var rest := Holding(readers) - {r};
    if reader.dropped {
      assert Holding(readers[r := reader]) == rest;
    } else {
      assert Holding(readers[r := reader]) == rest + {r};
    }
    if r in Holding(readers) {
      assert Holding(readers) == rest + {r};
    } else {
      assert Holding(readers) == rest;
    }
  }

  /** The count is the call's reference, until it is released, and one for every open reader; the word carries the body's generation. */
  predicate Counted(s: S) {
    if s.epoch == 0 then s.word == 0 && s.readers == map[]
    else
      && GenOf(s.word) == Gen(s.epoch)
      && Refs(s.word) == One(!ReleasedIn(s.word)) + |Holding(s.readers)|
  }

  /** The scratch is in one place; it is pooled or on its way there exactly when no reference is left, once for every body. */
  predicate Placed(s: S) {
    && One(s.pooled) + One(s.taking) + One(s.recycling) == One(Refs(s.word) == 0)
    && s.recycles + One(s.recycling) + One(Refs(s.word) > 0) == s.epoch
    && (s.building ==> Refs(s.word) > 0 && !ReleasedIn(s.word) && Holding(s.readers) == {})
    && (s.pooled ==> s.cap <= CEILING)
    && |s.buf| <= s.cap
  }

  /** What a reader may do: it holds its reference until its Close has cleared it, and no Read is in it then. */
  predicate ReaderOK(s: S, reader: Reader) {
    && 0 < reader.epoch <= s.epoch
    && (!reader.dropped ==> reader.epoch == s.epoch)
    && (reader.dropped ==> reader.cleared)
    && (reader.cleared ==> reader.closed && reader.length.Some? && reader.read != Copying)
    && (reader.read != Idle ==> reader.length.Some?)
    && (reader.closed ==> reader.length.Some?)
    && reader.epoch in s.bodies
    && (reader.length.Some? ==> reader.length.value == |s.bodies[reader.epoch]|)
    && reader.off <= |s.bodies[reader.epoch]|
    && reader.got == s.bodies[reader.epoch][..reader.off]
  }

  /** While references are held and the body is built, the buffer holds its bytes. */
  predicate Intact(s: S) {
    && (Refs(s.word) > 0 && !s.building ==> s.epoch in s.bodies && s.buf == s.bodies[s.epoch])
    && (s.building ==> s.epoch !in s.bodies)
    && (forall e <- s.bodies :: e <= s.epoch)
  }

  predicate Inv(s: S) {
    && Counted(s) && Placed(s) && Intact(s)
    && forall r <- s.readers :: ReaderOK(s, s.readers[r])
  }

  lemma GetKeeps(s: S)
    requires Inv(s) && s.pooled
    ensures Inv(Taken(s))
  {
  }

  /** With no reference left, no reader is open. */
  lemma NoneHolding(s: S)
    requires Counted(s) && Refs(s.word) == 0
    ensures Holding(s.readers) == {}
  {
  }

  lemma NextGen(epoch: nat)
    ensures Gen(epoch + 1) == (Gen(epoch) + 1) % GENERATIONS
  {
  }

  lemma StoreCounts(s: S)
    requires Counted(s) && Refs(s.word) == 0
    ensures Counted(Reused(s)) && Refs(Reused(s).word) == 1 && !ReleasedIn(Reused(s).word)
  {
    NoneHolding(s);
    FreshWord((GenOf(s.word) + 1) % GENERATIONS);
    NextGen(s.epoch);
  }

  lemma StoreKeeps(s: S)
    requires Inv(s) && s.taking
    ensures Inv(Reused(s))
  {
    var t := Reused(s);
    NoneHolding(s);
    StoreCounts(s);
    forall r | r in t.readers ensures ReaderOK(t, t.readers[r]) {
      assert r !in Holding(s.readers);
    }
  }

  lemma AppendKeeps(s: S, text: string, cap: nat)
    requires Inv(s) && s.building && |s.buf| + |text| <= cap
    ensures Inv(Appended(s, text, cap))
  {
  }

  lemma SealKeeps(s: S)
    requires Inv(s) && Refs(s.word) > 0
    ensures var t := Seal(s);
            && t == s.(building := false, bodies := t.bodies)
            && Inv(t) && t.epoch in t.bodies && t.buf == t.bodies[t.epoch]
            && forall e <- s.bodies :: e in t.bodies && t.bodies[e] == s.bodies[e]
  {
  }

  /** An open adds one reader and one reference. */
  lemma {:induction false} OpenCounts(s: S, r: nat)
    requires Counted(s) && s.epoch > 0 && r !in s.readers && Refs(s.word) < FLAG - 1
    ensures Counted(Opened(s, s.epoch, r)) && Refs(s.word + 1) == Refs(s.word) + 1 && (ReleasedIn(s.word + 1) <==> ReleasedIn(s.word))
  {
    AddRef(s.word);
    HoldingChange(s.readers, r, Opened(s, s.epoch, r).readers[r]);
  }

  lemma {:induction false} OpenKeeps(s: S, r: nat)
    requires Inv(s) && r !in s.readers && 0 < Refs(s.word) < FLAG - 1
    ensures Inv(Opened(s, s.epoch, r))
  {
    SealKeeps(s);
    OpenCounts(s, r);
  }

  lemma {:induction false} ReleaseKeeps(s: S)
    requires Inv(s) && s.epoch > 0 && !ReleasedIn(s.word)
    ensures Inv(Dropped(Seal(s), s.word + FLAG - 1))
  {
    SealKeeps(s);
    SetReleased(s.word);
  }

  lemma RecycleKeeps(s: S)
    requires Inv(s) && s.recycling
    ensures Inv(Recycled(s))
  {
  }

  /** A reader's step that drops nothing changes nothing but that reader. */
  lemma ReaderMoves(s: S, r: nat, reader: Reader)
    requires Inv(s) && r in s.readers && ReaderOK(s, reader) && reader.dropped == s.readers[r].dropped
    ensures Inv(With(s, r, reader))
  {
    HoldingChange(s.readers, r, reader);
    assert Holding(With(s, r, reader).readers) == Holding(s.readers);
  }

  /** An open reader's body is the one the scratch serves, whole. */
  lemma OpenReader(s: S, r: nat)
    requires Inv(s) && r in s.readers && !s.readers[r].dropped
    ensures s.readers[r].epoch == s.epoch && s.epoch in s.bodies && s.buf == s.bodies[s.epoch] && Refs(s.word) > 0
    ensures !s.building && !s.pooled && !s.taking && !s.recycling
    ensures GenOf(s.word) == Gen(s.readers[r].epoch)
  {
    assert r in Holding(s.readers);
  }

  lemma UnrefKeeps(s: S, r: nat)
    requires Inv(s) && r in s.readers && s.readers[r].cleared && !s.readers[r].dropped
    ensures s.word > 0 && Inv(Unreferenced(s, r, s.readers[r]))
  {
    OpenReader(s, r);
    DropRef(s.word);
    HoldingChange(s.readers, r, s.readers[r].(dropped := true));
  }

  lemma ReaderStepKeeps(s: S, a: Action)
    requires Inv(s) && Next(s, a).Some?
    requires a.Fetch? || a.Lock? || a.Check? || a.Copy? || a.Close? || a.Clear?
    ensures Inv(Next(s, a).value)
  {
    var t, reader := Next(s, a).value, s.readers[a.r];
    if a.Fetch? || a.Copy? {
      OpenReader(s, a.r);
    }
    ReaderMoves(s, a.r, t.readers[a.r]);
  }

  /** A handle that matches is one of the scratch's body. */
  lemma OpenStepKeeps(s: S, epoch: nat, r: nat)
    requires Inv(s) && Next(s, Open(epoch, r)).Some?
    ensures Inv(Next(s, Open(epoch, r)).value)
  {
    if GenOf(s.word) == Gen(epoch) && Refs(s.word) != 0 {
      MatchesAgain(epoch, s.epoch);
      OpenKeeps(s, r);
    }
  }

  lemma ReleaseStepKeeps(s: S, epoch: nat)
    requires Inv(s) && Next(s, Release(epoch)).Some?
    ensures Inv(Next(s, Release(epoch)).value)
  {
    if GenOf(s.word) == Gen(epoch) && !ReleasedIn(s.word) {
      MatchesAgain(epoch, s.epoch);
      ReleaseKeeps(s);
    }
  }

  lemma StepKeeps(s: S, a: Action)
    requires Inv(s) && Next(s, a).Some?
    ensures Inv(Next(s, a).value)
  {
    match a
    case Get => GetKeeps(s);
    case Store => StoreKeeps(s);
    case Append(text, cap) => AppendKeeps(s, text, cap);
    case Open(epoch, r) => OpenStepKeeps(s, epoch, r);
    case Release(epoch) => ReleaseStepKeeps(s, epoch);
    case Recycle => RecycleKeeps(s);
    case Unref(r) => UnrefKeeps(s, r);
    case _ => ReaderStepKeeps(s, a);
  }

  /** A body's bytes never change once it is built. */
  lemma BodiesFixed(s: S, a: Action)
    requires Inv(s) && Next(s, a).Some?
    ensures forall e <- s.bodies :: e in Next(s, a).value.bodies && Next(s, a).value.bodies[e] == s.bodies[e]
  {
  }

  // ----- whole runs -----

  function Run(s: S, acts: seq<Action>): Option<S>
    decreases |acts|
  {
    if acts == [] then Some(s)
    else match Next(s, acts[0])
         case None => None
         case Some(t) => Run(t, acts[1..])
  }

  lemma {:induction false} RunKeeps(s: S, acts: seq<Action>)
    requires Inv(s) && Run(s, acts).Some?
    ensures Inv(Run(s, acts).value)
    decreases |acts|
  {
    if acts != [] {
      StepKeeps(s, acts[0]);
      RunKeeps(Next(s, acts[0]).value, acts[1..]);
    }
  }

  lemma InitHolds()
    ensures Inv(INIT)
  {
    assert Holding(INIT.readers) == {};
  }

  lemma Reachable(acts: seq<Action>)
    requires Run(INIT, acts).Some?
    ensures Inv(Run(INIT, acts).value)
  {
    InitHolds();
    RunKeeps(INIT, acts);
  }

  /** The packed count is the call's reference plus one for every open reader, and the scratch is recycled once for every body, when the count is zero. */
  lemma CountsReferences(acts: seq<Action>)
    requires Run(INIT, acts).Some?
    ensures var s := Run(INIT, acts).value;
            && (s.epoch > 0 ==> GenOf(s.word) == Gen(s.epoch) && Refs(s.word) == One(!ReleasedIn(s.word)) + |Holding(s.readers)|)
            && s.recycles + One(s.recycling) == s.epoch - One(Refs(s.word) > 0)
            && (s.pooled || s.taking || s.recycling <==> Refs(s.word) == 0)
            && (s.pooled ==> s.cap <= CEILING)
  {
    Reachable(acts);
  }

  /** unref never panics: a reader past its Close finds its own generation and a count above zero. */
  lemma UnrefEnabled(acts: seq<Action>, r: nat)
    requires Run(INIT, acts).Some? && r in Run(INIT, acts).value.readers
    requires Run(INIT, acts).value.readers[r].cleared && !Run(INIT, acts).value.readers[r].dropped
    ensures Next(Run(INIT, acts).value, Unref(r)).Some?
  {
    Reachable(acts);
    OpenReader(Run(INIT, acts).value, r);
  }

  /** Through a handle of an earlier body nothing happens to the scratch, in any reachable state. */
  lemma StaleHandleInert(acts: seq<Action>, epoch: nat, r: nat)
    requires Run(INIT, acts).Some?
    requires var s := Run(INIT, acts).value; Handle(s, epoch) && epoch < s.epoch && r !in s.readers
    ensures var s := Run(INIT, acts).value; Next(s, Open(epoch, r)) == Some(s) && Next(s, Release(epoch)) == Some(s)
  {
    Reachable(acts);
    MatchesAgain(epoch, Run(INIT, acts).value.epoch);
  }

  /** A live handle opens exactly while some reference is left, and releases exactly once. */
  lemma LiveHandle(s: S, r: nat)
    requires Inv(s) && s.epoch > 0 && r !in s.readers && Refs(s.word) < FLAG - 1
    ensures Next(s, Open(s.epoch, r)) == Some(if Refs(s.word) > 0 then Opened(s, s.epoch, r) else s)
    ensures Next(s, Release(s.epoch)).Some?
    ensures var t := Next(s, Release(s.epoch)).value; ReleasedIn(t.word) && Next(t, Release(s.epoch)) == Some(t)
    ensures ReleasedIn(s.word) ==> Next(s, Release(s.epoch)) == Some(s)
  {
    if !ReleasedIn(s.word) {
      SetReleased(s.word);
    }
  }
}
