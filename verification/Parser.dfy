/**
  What the decoder is given of its JSON parser (internal/codec/decode.go):
  the events it delivers for a body, where each one's token ends, and how it
  stops. The parser is not modelled. What is assumed of it is lexical, and
  names no state of the decoder.
*/
module Parser {
  import opened Basics
  import opened Json
  import opened Wire
  import opened Control
  import opened Cut
  import opened Nesting
  import M = Machine

  const COMMA: Byte := 0x2C

  /** The deepest nesting at which the parser's skipper accepts every body the traversal accepts. */
  const SKIP_DEPTH: nat := M.MAX_NESTING - 1

  /** How the parser stops: the root closes, and the trailing-data check has its verdict, or byte `at` is refused. */
  datatype Stop = Closed(trailing: Option<Reason>) | Broken(at: nat, reason: Reason)

  /**
    What the parser makes of a body: a tree that begins with what it delivers,
    the ends of the tokens it delivers, how it stops, and, for the body cut
    where cutPoint says, what it delivers then and whether it ends with errCut.
  */
  datatype Source = Source(body: Bytes, tree: Json, ends: seq<nat>, stop: Stop, cutEvents: seq<Event>, cutErr: bool)

  /** The events of the whole body. */
  function Delivered(src: Source): seq<Event>
    requires |src.ends| <= |Events(src.tree)|
  {
    Events(src.tree)[..|src.ends|]
  }

  /** Tokens end one after the other, none in white space, and a closing brace ends just the objects. */
  ghost predicate Tokens(src: Source) {
    && |src.ends| <= |Events(src.tree)|
    && (forall i, k :: 0 <= i < k < |src.ends| ==> src.ends[i] < src.ends[k])
    && (forall i :: 0 <= i < |src.ends| ==> 0 < src.ends[i] <= |src.body| && !IsSpace(src.body[src.ends[i] - 1]))
    && (forall i :: 0 <= i < |src.ends| && src.body[src.ends[i] - 1] == CLOSE_BRACE ==> Events(src.tree)[i] == ObjectEnd)
  }

  /** How many of the tokens end at byte n or before. */
  function Upto(ends: seq<nat>, n: nat): (k: nat)
    ensures k <= |ends|
  {
    if ends == [] then 0
    else if ends[|ends| - 1] <= n then |ends|
    else Upto(ends[..|ends| - 1], n)
  }

  /** Nothing but white space from byte n on. */
  ghost predicate OnlySpace(body: Bytes, n: nat) {
    forall k :: n <= k < |body| ==> IsSpace(body[k])
  }

  /** Some first members of the root, with the brace that opens it. */
  ghost predicate WholeMembers(es: seq<Event>, tree: Json) {
    tree.Obj? && exists i :: 0 <= i <= |tree.members| && es == [ObjectBegin] + MemberEvents(tree.members[..i])
  }

  /**
    A body whose root closes delivers its whole tree. The skipper, which finds
    nothing after the root but white space, accepts it when it is nested no
    deeper than SKIP_DEPTH.
  */
  ghost predicate ClosedParse(src: Source, trailing: Option<Reason>)
    requires Tokens(src)
  {
    && |src.ends| == |Events(src.tree)|
    && BackslashesInside(src.body[..src.ends[|src.ends| - 1]])
    && (OnlySpace(src.body, src.ends[|src.ends| - 1]) && Height(src.tree) <= SKIP_DEPTH ==> trailing.None?)
  }

  /**
    A body refused at some byte delivers a part of a tree. A closing brace
    that it passed without an event lies in a string; one that it refuses
    after whole members of the root follows a comma.
  */
  ghost predicate BrokenParse(src: Source, at: nat)
    requires Tokens(src)
  {
    && |src.ends| < |Events(src.tree)|
    && at <= |src.body| && (src.ends != [] ==> src.ends[|src.ends| - 1] <= at)
    && BackslashesInside(src.body[..at])
    && (forall n: nat :: Upto(src.ends, n) == |src.ends| && n < at && src.body[n] == CLOSE_BRACE ==> LexAll(src.body[..n]) != Outside)
    && (at < |src.body| && src.body[at] == CLOSE_BRACE && WholeMembers(Delivered(src), src.tree) ==>
          forall m: nat :: EndsAt(src.body[..at], m) ==> src.body[m] == COMMA)
  }

  /** The parser reads the body past byte n, or up to it without a failure before. */
  predicate Reaches(src: Source, n: nat) {
    match src.stop
    case Closed(_) => src.ends != [] && n < src.ends[|src.ends| - 1]
    case Broken(at, _) => n <= at
  }

  /** Byte n is outside strings, right after a brace, a bracket or a string, and no \u escape is cut. */
  ghost predicate CleanCut(body: Bytes, n: nat)
    requires n < |body|
  {
    && LexAll(body[..n]) == Outside
    && (exists m: nat :: EndsAt(body[..n], m) && body[m] in {OPEN_BRACE, CLOSE_BRACE, CLOSE_BRACKET, QUOTE})
    && Complete(body[..n])
  }

  /**
    Over the body cut before byte n, the parser ends with errCut only when it
    got there, and at a clean cut it has then delivered the tokens before it.
  */
  ghost predicate CutParse(src: Source, n: nat)
    requires Tokens(src) && n < |src.body|
  {
    src.cutErr ==> Reaches(src, n) && (CleanCut(src.body, n) ==> src.cutEvents == Events(src.tree)[..Upto(src.ends, n)])
  }

  /** What is assumed of the parser. */
  ghost predicate Parsed(src: Source) {
    && Tokens(src)
    && (match src.stop
        case Closed(trailing) => ClosedParse(src, trailing)
        case Broken(at, _) => BrokenParse(src, at))
    && forall n :: 0 <= n < |src.body| && EndsAt(src.body, n) && CutAt(src.body, n) ==> CutParse(src, n)
  }

  lemma {:induction false} UptoIs(ends: seq<nat>, n: nat)
    requires forall i, k :: 0 <= i < k < |ends| ==> ends[i] < ends[k]
    ensures forall i :: 0 <= i < |ends| ==> (ends[i] <= n <==> i < Upto(ends, n))
  {
    if ends != [] && ends[|ends| - 1] > n {
      UptoIs(ends[..|ends| - 1], n);
    }
  }

  lemma InsideUpto(b: Bytes, reach: nat, n: nat)
    requires n <= reach <= |b| && BackslashesInside(b[..reach])
    ensures BackslashesInside(b[..n])
  {
    InsidePrefix(b[..reach], n);
    assert b[..reach][..n] == b[..n];
  }

  lemma CutLast(body: Bytes, n: nat)
    requires n < |body| && CutAt(body, n)
    ensures exists m: nat :: EndsAt(body[..n], m) && body[m] in {OPEN_BRACE, CLOSE_BRACE, CLOSE_BRACKET, QUOTE}
  {
    var m: nat :| m < n && EndsAt(body[..n], m) && body[..n][m] in {OPEN_BRACE, CLOSE_BRACE, CLOSE_BRACKET, QUOTE};
    assert body[m] == body[..n][m];
  }

  /** What cutPoint accepts is a clean cut: its count of quotes says that the cut is outside strings. */
  lemma CutIsClean(src: Source, n: nat)
    requires Parsed(src) && n < |src.body| && CutAt(src.body, n) && Reaches(src, n)
    ensures CleanCut(src.body, n)
  {
    InsideUpto(src.body, match src.stop case Closed(_) => src.ends[|src.ends| - 1] case Broken(at, _) => at, n);
    CutOutsideStrings(src.body, n);
    CutLast(src.body, n);
  }

  /** So the tokens before it are what is then delivered. */
  lemma CutDelivers(src: Source, n: nat)
    requires Parsed(src) && src.cutErr && n < |src.body| && EndsAt(src.body, n) && CutAt(src.body, n)
    ensures Reaches(src, n) && CleanCut(src.body, n) && src.cutEvents == Events(src.tree)[..Upto(src.ends, n)]
  {
    assert CutParse(src, n);
    CutIsClean(src, n);
  }

  /** The closing brace that is the body's last byte other than white space closes the root, when it does close. */
  lemma RootEnd(src: Source, n: nat)
    requires Tokens(src) && src.stop.Closed? && ClosedParse(src, src.stop.trailing) && EndsAt(src.body, n) && Reaches(src, n)
    ensures src.ends[|src.ends| - 1] == n + 1 && Upto(src.ends, n) == |Events(src.tree)| - 1
    ensures Height(src.tree) <= SKIP_DEPTH ==> src.stop.trailing.None?
  {
    UptoIs(src.ends, n);
  }

  lemma MembersOpen(es: seq<Event>, tree: Json)
    requires WholeMembers(es, tree)
    ensures Balance(es) == 1
  {
    var i :| 0 <= i <= |tree.members| && es == [ObjectBegin] + MemberEvents(tree.members[..i]);
    MembersBalance(tree.members[..i]);
    BalanceConcat([ObjectBegin], MemberEvents(tree.members[..i]));
  }

  /** After whole members of the root, its end is the event that closes it. */
  lemma MembersThenEnd(tree: Json, k: nat)
    requires k < |Events(tree)| && Balance(Events(tree)[..k]) == 1 && Events(tree)[k] == ObjectEnd
    ensures k + 1 == |Events(tree)|
  {
    assert Events(tree)[..k + 1] == Events(tree)[..k] + [ObjectEnd];
    BalanceConcat(Events(tree)[..k], [ObjectEnd]);
    if k + 1 < |Events(tree)| {
      InsideValue(tree, k + 1);
    }
  }

  /** A token that ends past byte n, all of the body there is, ends at byte n; at a brace it closes an object, here the root. */
  lemma BraceDelivered(src: Source, n: nat, k: nat)
    requires Tokens(src) && |src.ends| < |Events(src.tree)| && k < |src.ends| && n < src.ends[k]
    requires n < |src.body| && EndsAt(src.body, n) && src.body[n] == CLOSE_BRACE
    ensures !WholeMembers(Events(src.tree)[..k], src.tree)
  {
    assert src.ends[k] == n + 1;
    if WholeMembers(Events(src.tree)[..k], src.tree) {
      MembersOpen(Events(src.tree)[..k], src.tree);
      MembersThenEnd(src.tree, k);
    }
  }

  /** A clean cut is not right after a comma. */
  lemma NoComma(body: Bytes, n: nat)
    requires n < |body| && CleanCut(body, n)
    ensures !(forall m: nat :: EndsAt(body[..n], m) ==> body[m] == COMMA)
  {
    var m: nat :| EndsAt(body[..n], m) && body[m] in {OPEN_BRACE, CLOSE_BRACE, CLOSE_BRACKET, QUOTE};
  }

  /** A body that is broken does not come to its last brace after whole members of the root. */
  lemma BrokenCut(src: Source, n: nat, at: nat)
    requires Tokens(src) && BrokenParse(src, at) && n <= at
    requires n < |src.body| && EndsAt(src.body, n) && src.body[n] == CLOSE_BRACE && CleanCut(src.body, n)
    ensures !WholeMembers(Events(src.tree)[..Upto(src.ends, n)], src.tree)
  {
    var k := Upto(src.ends, n);
    UptoIs(src.ends, n);
    if k < |src.ends| {
      BraceDelivered(src, n, k);
    } else {
      NoComma(src.body, n);
    }
  }

  /**
    So a cut traversal that ends with errCut after whole members of the root
    has read a body that is not broken, up to the root's end, and nothing but
    white space follows that.
  */
  lemma CutReadsAll(src: Source, n: nat)
    requires Parsed(src) && src.cutErr && n < |src.body| && EndsAt(src.body, n) && CutAt(src.body, n)
    requires WholeMembers(src.cutEvents, src.tree)
    ensures src.stop.Closed? && src.tree.Obj?
    ensures src.cutEvents == [ObjectBegin] + MemberEvents(src.tree.members)
    ensures Height(src.tree) <= SKIP_DEPTH ==> src.stop.trailing.None?
  {
    CutDelivers(src, n);
    match src.stop
    case Closed(_) => RootEnd(src, n);
    case Broken(at, _) => BrokenCut(src, n, at);
  }

  const BLANK_OBJECT: Bytes := [0x20, 0x20, 0x20, 0x20, OPEN_BRACE, CLOSE_BRACE]

  /** A parse of an object without members, of its body cut before the brace too. */
  function BlankParse(body: Bytes): Source {
    Source(body, Obj([], "{}"), [5, 6], Closed(None), [ObjectBegin], true)
  }

  lemma BlankCut(src: Source)
    requires src.ends == [5, 6] && src.tree == Obj([], "{}") && src.stop.Closed? && src.cutEvents == [ObjectBegin]
    requires |src.body| == 6 && Tokens(src)
    ensures CutParse(src, 5)
  {
    assert Events(src.tree) == [ObjectBegin, ObjectEnd];
    assert [5, 6][..1] == [5] && Upto([5], 5) == 1;
    assert [ObjectBegin, ObjectEnd][..1] == [ObjectBegin];
  }

  /** The assumptions can be met, by a body whose cut traversal decides and by a body that is not JSON. */
  lemma ParsersExist(reason: Reason)
    ensures Parsed(BlankParse(BLANK_OBJECT)) && BlankParse(BLANK_OBJECT).cutErr
    ensures Parsed(Source([], Null, [], Broken(0, reason), [], false))
  {
    var src := BlankParse(BLANK_OBJECT);
    assert Events(src.tree) == [ObjectBegin, ObjectEnd];
    BlankCut(src);
  }
}
