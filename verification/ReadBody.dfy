/**
  The reader of response bodies (internal/engine/read.go): a loop that fills a
  buffer in place and replaces it by a larger one when it is full.
*/
module ReadBody {
  import opened Basics

  datatype ReadError = TooLarge | Fault(cause: string)

  datatype Result = Ok(body: string) | Err(error: ReadError)

  /**
    An io.Reader: the bytes still to come, how many of them each call hands
    over at most (all that is asked for, once the list is used up; a zero is a
    call that reads nothing), how the body ends, and whether the end comes
    with the last bytes or after them.
  */
  class Reader {
    var rest: string
    var chunks: seq<nat>
    const fault: Option<string>
    const eager: bool

    constructor (rest: string, chunks: seq<nat>, fault: Option<string>, eager: bool)
      ensures this.rest == rest && this.chunks == chunks && this.fault == fault && this.eager == eager
    {
      this.rest, this.chunks, this.fault, this.eager := rest, chunks, fault, eager;
    }

    /** Read into p from position at on: n bytes, and whether the body ended. */
    method Read(p: array<char>, at: nat) returns (n: nat, ended: bool)
      requires at < p.Length
      modifies this`rest, this`chunks, p
      ensures at + n <= p.Length && n + |rest| == |old(rest)|
      ensures p[..at + n] + rest == old(p[..at] + rest)
      ensures ended ==> rest == ""
      ensures !ended ==> |chunks| < |old(chunks)| || (|chunks| == |old(chunks)| && |rest| < |old(rest)|)
    {
      n := Min(p.Length - at, |rest|);
      if chunks != [] {
        n := Min(n, chunks[0]);
        chunks := chunks[1..];
      }
      forall k | 0 <= k < n {
        p[at + k] := rest[k];
      }
      assert p[..at + n] == old(p[..at]) + rest[..n];
      assert rest == rest[..n] + rest[n..];
      rest := rest[n..];
      ended := rest == "" && (n == 0 || eager);
    }
  }

  const INITIAL_DECLARED: nat := 0x4_0000
  const INITIAL_UNDECLARED: nat := 0x1000
  const MIN_GROW: nat := 512

  /** The first buffer's size. */
  function FirstSize(declared: int, limit: nat): nat
    requires -1 <= declared <= limit
  {
    if declared > INITIAL_DECLARED then INITIAL_DECLARED
    else if declared >= 0 then declared + 1
    else Min(INITIAL_UNDECLARED, limit + 1)
  }

  /** How long a body of which held bytes are there can still become: a declaration it has outgrown counts for nothing. */
  function End(held: nat, declared: int, limit: nat): nat {
    if declared > held then declared else limit
  }

  /** The size of the buffer after one of size held. */
  function NextSize(held: nat, declared: int, limit: nat): nat {
    var next := Max(2 * held, MIN_GROW);
    if 2 * next > End(held, declared, limit) then End(held, declared, limit) + 1 else next
  }

  /** grow */
  method Grow(buf: array<char>, declared: int, limit: nat) returns (nb: array<char>)
    requires buf.Length <= limit && declared <= limit
    ensures fresh(nb) && nb.Length == NextSize(buf.Length, declared, limit)
    ensures buf.Length < nb.Length <= limit + 1 && nb[..buf.Length] == buf[..]
  {
    var held := buf.Length;
    var end := limit;
    if declared > held {
      end := declared;
    }
    var next := Max(2 * held, MIN_GROW);
    if 2 * next > end {
      next := end + 1;
    }
    nb := new char[next];
    forall k | 0 <= k < held {
      nb[k] := buf[k];
    }
  }

  /** What a body read comes to: the whole body exactly when it ends within the limit. */
  function Outcome(content: string, fault: Option<string>, declared: int, limit: nat): Result {
    if declared > limit || |content| > limit then Err(TooLarge)
    else match fault
         case Some(e) => Err(Fault(e))
         case None => Ok(content)
  }

  /** What the buffers of an honestly declared body of d bytes have taken so far, the last one of size cap. */
  predicate Thrifty(d: nat, cap: nat, taken: nat) {
    if cap == d + 1 then taken <= 2 * d + 1
    else cap < d && ((cap == INITIAL_DECLARED && taken == cap) || (2 * cap <= d && taken <= 2 * cap && INITIAL_DECLARED <= cap))
  }

  lemma ThriftyGrows(d: nat, cap: nat, taken: nat, limit: nat)
    requires Thrifty(d, cap, taken) && cap <= d <= limit
    ensures Thrifty(d, NextSize(cap, d, limit), taken + NextSize(cap, d, limit))
  {
  }

  /** The buffer, or the one it is replaced by when its held bytes fill it. */
  method MakeRoom(buf: array<char>, held: nat, declared: int, limit: nat, ghost d: nat, ghost taken: nat)
    returns (nb: array<char>, ghost total: nat)
    requires held <= buf.Length && held <= limit && declared <= limit && buf.Length <= limit + 1
    requires declared == d ==> held <= d && Thrifty(d, buf.Length, taken)
    ensures if held < buf.Length then nb == buf else fresh(nb)
    ensures held < nb.Length <= limit + 1 && nb[..held] == buf[..held]
    ensures declared == d ==> Thrifty(d, nb.Length, total)
    ensures total == taken + if nb == buf then 0 else nb.Length
  {
    nb, total := buf, taken;
    if held == buf.Length {
      if declared == d {
        ThriftyGrows(d, held, taken, limit);
      }
      nb := Grow(buf, declared, limit);
      total := taken + nb.Length;
    }
  }

  /** What the loop answers once the reader has ended. */
  function Ended(content: string, fault: Option<string>, limit: nat): Result {
    if |content| > limit then Err(TooLarge)
    else match fault
         case None => Ok(content)
         case Some(e) => Err(Fault(e))
  }

  /** The size of the one buffer that reads a body of d bytes: one honestly declared within 256 KiB, or an undeclared one below 4 KiB. */
  function InOne(d: nat, declared: int, limit: nat): Option<nat> {
    if declared == d <= 262144 then Some(d + 1)
    else if declared == -1 && d < 4096 <= limit then Some(4096)
    else None
  }

  /** ReadBody; most is the most bytes held at once, taken the size of all buffers together. */
  method ReadBody(r: Reader, declared: int, limit: nat) returns (res: Result, ghost most: nat, ghost taken: nat)
    requires declared >= -1
    modifies r
    ensures res == Outcome(old(r.rest), r.fault, declared, limit)
    ensures declared > limit ==> r.rest == old(r.rest) && taken == 0
    ensures most <= limit + 1
    ensures declared == |old(r.rest)| ==> taken <= 2 * declared + 1
    ensures declared <= limit && InOne(|old(r.rest)|, declared, limit).Some? ==> taken == InOne(|old(r.rest)|, declared, limit).value
  {
    ghost var content := r.rest;
    most, taken := 0, 0;
    if declared > limit {
      return Err(TooLarge), most, taken;
    }
    var buf := new char[FirstSize(declared, limit)];
    taken := buf.Length;
    var held: nat := 0;
    while true
      invariant 0 <= held <= buf.Length <= limit + 1 && fresh(buf)
      invariant content == buf[..held] + r.rest && most <= limit + 1
      invariant declared == |content| ==> Thrifty(|content|, buf.Length, taken)
      invariant InOne(|content|, declared, limit).Some? ==> taken == buf.Length == InOne(|content|, declared, limit).value
      decreases |r.chunks|, |r.rest|
    {
      if held == buf.Length && held > limit {
        return Err(TooLarge), most, taken;
      }
      assert held <= |content|;
      buf, taken := MakeRoom(buf, held, declared, limit, |content|, taken);
      var n, ended := r.Read(buf, held);
      held := held + n;
      most := Max(most, held);
      if ended {
        assert buf[..held] == content;
        return Ended(buf[..held], r.fault, limit), most, taken;
      }
    }
  }
}
