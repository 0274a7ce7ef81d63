/** Field paths as a *ResponseValidationError prints them (text.go). */
module PathText {
  import opened Basics
  import opened Wire
  import opened SafeText
  import Utf8

  const MAX_NAME_CHARS: nat := 128
  const MAX_PATH_CHARS: nat := 320

  // ----- decimal numbers -----

  function Itoa(n: nat): string {
    if n < 10 then ['0' + n as char] else Itoa(n / 10) + ['0' + (n % 10) as char]
  }

  lemma {:induction false} ItoaPrintable(n: nat)
    ensures Printable(Itoa(n))
  {
    if n >= 10 {
      ItoaPrintable(n / 10);
    }
  }

  // ----- the renderer -----

  /** pathText as a value: n counts the characters written, and a full path takes nothing more. */
  datatype Line = Line(b: string, n: nat, full: bool)

  const EMPTY := Line("", 0, false)

  /** A part of a path: the SDK's own text, or a name the server chose. */
  datatype Part = Own(s: string) | Server(s: string)

  /** utf8.RuneCount of a rendering. */
  function RuneCount(t: string): nat {
    match Shown(t)
    case None => 0
    case Some(k) => k
  }

  /** The characters a name may take after n of them. */
  function Room(n: nat, limit: nat): int {
    Min(MAX_NAME_CHARS, limit - n)
  }

  /** fixed */
  function WithOwn(t: Line, s: string, limit: nat): Line {
    if t.full then t
    else if t.n + |s| > limit then t.(b := t.b + ELLIPSIS, full := true)
    else Line(t.b + s, t.n + |s|, false)
  }

  /** name: the path is full when the name and its ellipsis take more than a room that the path's own limit left. */
  function WithServer(t: Line, s: string, limit: nat): Line {
    if t.full then t
    else WithText(t, Rendered(s, Room(t.n, limit), true), Room(t.n, limit))
  }

  function WithText(t: Line, text: string, room: int): Line {
    Line(t.b + text, t.n + RuneCount(text), room < MAX_NAME_CHARS && RuneCount(text) > room)
  }

  function With(t: Line, part: Part, limit: nat): Line {
    match part
    case Own(s) => WithOwn(t, s, limit)
    case Server(s) => WithServer(t, s, limit)
  }

  function WithAll(t: Line, parts: seq<Part>, limit: nat): Line
    decreases |parts|
  {
    if parts == [] then t else WithAll(With(t, parts[0], limit), parts[1..], limit)
  }

  lemma {:induction false} AllConcat(t: Line, a: seq<Part>, b: seq<Part>, limit: nat)
    ensures WithAll(t, a + b, limit) == WithAll(WithAll(t, a, limit), b, limit)
    decreases |a|
  {
    if a == [] {
      assert a + b == b;
    } else {
      assert (a + b)[1..] == a[1..] + b;
      AllConcat(With(t, a[0], limit), a[1..], b, limit);
    }
  }

  /** pathText */
  class Path {
    var b: string
    var n: nat
    const limit: nat
    var full: bool

    function View(): Line
      reads this
    {
      Line(b, n, full)
    }

    constructor (limit: nat)
      ensures View() == EMPTY && this.limit == limit
    {
      this.b, this.n, this.limit, this.full := "", 0, limit, false;
    }

    /** fixed */
    method Fixed(s: string)
      modifies this
      ensures View() == WithOwn(old(View()), s, limit)
    {
      if full {
        return;
      }
      if n + |s| > limit {
        b := b + ELLIPSIS;
        full := true;
        return;
      }
      b := b + s;
      n := n + |s|;
    }

    /** name */
    method Name(s: string)
      modifies this
      ensures View() == WithServer(old(View()), s, limit)
    {
      if full {
        return;
      }
      var room := Min(MAX_NAME_CHARS, limit - n);
      var text := AppendSafeText("", s, room, true);
      assert text == Rendered(s, room, true);
      b := b + text;
      var written := RuneCount(text);
      if room < MAX_NAME_CHARS && written > room {
        full := true;
      }
      n := n + written;
    }
  }

  // ----- whole paths -----

  function IndexParts(i: Option<nat>): seq<Part> {
    match i
    case None => []
    case Some(n) => [Own("[" + Itoa(n) + "]")]
  }

  function NameParts(name: Option<string>): seq<Part> {
    match name
    case None => []
    case Some(s) => [Own("."), Server(s)]
  }

  function MemberParts(s: string): seq<Part> {
    if s == "" then [] else [Own("."), Own(s)]
  }

  function Parts(p: FieldPath): seq<Part> {
    if p.top == "" then [Own(".")]
    else [Own(p.top)] + IndexParts(p.index) + NameParts(p.name) + MemberParts(p.member) + NameParts(p.key)
  }

  /** p as it is printed. */
  function RenderedPath(p: FieldPath): string {
    WithAll(EMPTY, Parts(p), MAX_PATH_CHARS).b
  }

  lemma AllOne(t: Line, part: Part, limit: nat)
    ensures WithAll(t, [part], limit) == With(t, part, limit)
  {
    assert [part][1..] == [];
  }

  lemma AllTwo(t: Line, first: Part, second: Part, limit: nat)
    ensures WithAll(t, [first, second], limit) == With(With(t, first, limit), second, limit)
  {
    assert [first, second][1..] == [second];
    AllOne(With(t, first, limit), second, limit);
  }

  method WriteName(t: Path, name: Option<string>)
    modifies t
    ensures t.View() == WithAll(old(t.View()), NameParts(name), t.limit)
  {
    match name {
      case None =>
      case Some(s) =>
        AllTwo(t.View(), Own("."), Server(s), t.limit);
        t.Fixed(".");
        t.Name(s);
    }
  }

  method WriteIndex(t: Path, index: Option<nat>)
    modifies t
    ensures t.View() == WithAll(old(t.View()), IndexParts(index), t.limit)
  {
    match index {
      case None =>
      case Some(n) =>
        AllOne(t.View(), Own("[" + Itoa(n) + "]"), t.limit);
        t.Fixed("[" + Itoa(n) + "]");
    }
  }

  method WriteMember(t: Path, s: string)
    modifies t
    ensures t.View() == WithAll(old(t.View()), MemberParts(s), t.limit)
  {
    if s != "" {
      AllTwo(t.View(), Own("."), Own(s), t.limit);
      t.Fixed(".");
      t.Fixed(s);
    }
  }

  /** renderFieldPath */
  method RenderFieldPath(p: FieldPath) returns (text: string)
    ensures text == RenderedPath(p)
  {
    if p.top == "" {
      AllOne(EMPTY, Own("."), MAX_PATH_CHARS);
      return ".";
    }
    var t := new Path(MAX_PATH_CHARS);
    ghost var done := [Own(p.top)];
    AllOne(EMPTY, Own(p.top), MAX_PATH_CHARS);
    t.Fixed(p.top);
    AllConcat(EMPTY, done, IndexParts(p.index), MAX_PATH_CHARS);
    WriteIndex(t, p.index);
    done := done + IndexParts(p.index);
    AllConcat(EMPTY, done, NameParts(p.name), MAX_PATH_CHARS);
    WriteName(t, p.name);
    done := done + NameParts(p.name);
    AllConcat(EMPTY, done, MemberParts(p.member), MAX_PATH_CHARS);
    WriteMember(t, p.member);
    done := done + MemberParts(p.member);
    AllConcat(EMPTY, done, NameParts(p.key), MAX_PATH_CHARS);
    WriteName(t, p.key);
    text := t.b;
  }

  // ----- what is printed of a part -----

  /** tail is what a path prints of part: all of it, its first characters whole and an ellipsis, or nothing once it is full. */
  ghost predicate PrintedOf(part: Part, tail: string) {
    || tail == ""
    || match part
       case Own(s) => tail == s || tail == ELLIPSIS
       case Server(s) =>
         || tail == Full(s, true)
         || exists k :: 0 <= k < |Pieces(s, true)| && tail == Texts(Pieces(s, true)[..k]) + ELLIPSIS
  }

  lemma PartPrinted(t: Line, part: Part, limit: nat) returns (tail: string)
    ensures With(t, part, limit).b == t.b + tail && PrintedOf(part, tail)
    ensures t.full ==> tail == "" && With(t, part, limit) == t
  {
    if t.full {
      tail := "";
      assert t.b + tail == t.b;
    } else {
      match part
      case Own(s) => tail := if t.n + |s| > limit then ELLIPSIS else s;
      case Server(s) =>
        tail := Rendered(s, Room(t.n, limit), true);
        var k := CutIs(Pieces(s, true), Room(t.n, limit));
    }
  }

  function Joined(tails: seq<string>): string {
    if tails == [] then "" else tails[0] + Joined(tails[1..])
  }

  lemma JoinedFirst(b: string, first: string, rest: seq<string>)
    ensures b + Joined([first] + rest) == b + first + Joined(rest)
  {
    assert ([first] + rest)[1..] == rest;
  }

  /** Nothing is split, and nothing is out of order: a printed path is its parts one after the other, each whole or cut after a whole character of it and marked. */
  lemma {:induction false} PathPrinted(t: Line, parts: seq<Part>, limit: nat) returns (tails: seq<string>)
    ensures |tails| == |parts| && WithAll(t, parts, limit).b == t.b + Joined(tails)
    ensures forall i :: 0 <= i < |parts| ==> PrintedOf(parts[i], tails[i])
    decreases |parts|
  {
    if parts == [] {
      tails := [];
    } else {
      var first := PartPrinted(t, parts[0], limit);
      var u := With(t, parts[0], limit);
      var rest := PathPrinted(u, parts[1..], limit);
      JoinedFirst(t.b, first, rest);
      tails := [first] + rest;
    }
  }

  // ----- how long a path is -----

  /** level characters are written before the path is cut, or ends; cut says whether an ellipsis follows them. */
  datatype Fill = Fill(level: nat, cut: bool)

  /** What a part does to a path of n characters: the path ends there, or goes on. */
  datatype Next = Ends(fill: Fill) | Goes(n: nat)

  function FilledBy(n: nat, part: Part, limit: nat): Next {
    match part
    case Own(s) => if n + |s| > limit then Ends(Fill(n, true)) else Goes(n + |s|)
    case Server(s) => FilledByName(n, CutChars(Pieces(s, true), Room(n, limit)), limit)
  }

  /** A name that takes chars characters. */
  function FilledByName(n: nat, chars: nat, limit: nat): Next {
    if Room(n, limit) >= MAX_NAME_CHARS || chars <= Room(n, limit) then Goes(n + chars)
    else if chars == 0 then Ends(Fill(n, false))
    else Ends(Fill(n + chars - 1, true))
  }

  /** How far parts fill a path that has n characters, from their lengths alone. */
  function Filled(n: nat, parts: seq<Part>, limit: nat): Fill
    decreases |parts|
  {
    if parts == [] then Fill(n, false)
    else
      match FilledBy(n, parts[0], limit)
      case Ends(f) => f
      case Goes(m) => Filled(m, parts[1..], limit)
  }

  function Chars(f: Fill): nat {
    f.level + if f.cut then 1 else 0
  }

  predicate OwnPrintable(parts: seq<Part>) {
    forall i :: 0 <= i < |parts| && parts[i].Own? ==> Printable(parts[i].s)
  }

  /** A printed line fills as the lengths say. */
  predicate Fills(u: Line, next: Next) {
    match next
    case Ends(f) => u.full && Shown(u.b) == Some(Chars(f))
    case Goes(m) => !u.full && u.n == m && Shown(u.b) == Some(m)
  }

  lemma OwnFills(t: Line, s: string, limit: nat)
    requires !t.full && Shown(t.b) == Some(t.n) && Printable(s)
    ensures Fills(WithOwn(t, s, limit), FilledBy(t.n, Own(s), limit))
  {
    if t.n + |s| > limit {
      EllipsisShown(ELLIPSIS);
      ShownConcat(t.b, ELLIPSIS);
    } else {
      PrintableShown(s);
      ShownConcat(t.b, s);
    }
  }

  lemma WrittenShown(b: string, n: nat, s: string, room: int)
    requires Shown(b) == Some(n)
    ensures var text := Rendered(s, room, true);
            RuneCount(text) == CutChars(Pieces(s, true), room) && Shown(b + text) == Some(n + RuneCount(text))
  {
    RenderedShown(s, room, true);
    ShownAppend(b, n, Rendered(s, room, true), CutChars(Pieces(s, true), room));
  }

  lemma ShownAppend(b: string, n: nat, text: string, chars: nat)
    requires Shown(b) == Some(n) && Shown(text) == Some(chars)
    ensures RuneCount(text) == chars && Shown(b + text) == Some(n + chars)
  {
    ShownConcat(b, text);
  }

  lemma TextFills(t: Line, text: string, chars: nat, limit: nat)
    requires RuneCount(text) == chars && Shown(t.b + text) == Some(t.n + chars)
    ensures Fills(WithText(t, text, Room(t.n, limit)), FilledByName(t.n, chars, limit))
  {
  }

  lemma ServerFills(t: Line, s: string, limit: nat)
    requires !t.full && Shown(t.b) == Some(t.n)
    ensures Fills(WithServer(t, s, limit), FilledBy(t.n, Server(s), limit))
  {
    WrittenShown(t.b, t.n, s, Room(t.n, limit));
    TextFills(t, Rendered(s, Room(t.n, limit), true), CutChars(Pieces(s, true), Room(t.n, limit)), limit);
  }

  /** A full path stays as it is. */
  lemma {:induction false} FullStays(t: Line, parts: seq<Part>, limit: nat)
    requires t.full
    ensures WithAll(t, parts, limit) == t
    decreases |parts|
  {
    if parts != [] {
      FullStays(t, parts[1..], limit);
    }
  }

  /** What is printed has as many characters as the lengths say. */
  lemma {:induction false} AllFills(t: Line, parts: seq<Part>, limit: nat)
    requires !t.full && Shown(t.b) == Some(t.n) && OwnPrintable(parts)
    ensures Shown(WithAll(t, parts, limit).b) == Some(Chars(Filled(t.n, parts, limit)))
    decreases |parts|
  {
    if parts != [] {
      var u := With(t, parts[0], limit);
      match parts[0] {
        case Own(s) => OwnFills(t, s, limit);
        case Server(s) => ServerFills(t, s, limit);
      }
      if u.full {
        FullStays(u, parts[1..], limit);
      } else {
        AllFills(u, parts[1..], limit);
      }
    }
  }

  /** A name that is cut at its own limit takes 129 characters, so a path may be one past its limit before it ends. */
  lemma {:induction false} FilledWithin(n: nat, parts: seq<Part>, limit: nat)
    requires n <= limit + 1
    ensures Filled(n, parts, limit).level <= limit + 1
    decreases |parts|
  {
    if parts != [] {
      if parts[0].Server? {
        CutCharsWithin(Pieces(parts[0].s, true), Room(n, limit));
      }
      match FilledBy(n, parts[0], limit)
      case Ends(_) =>
      case Goes(m) => FilledWithin(m, parts[1..], limit);
    }
  }

  predicate Plain(p: FieldPath) {
    Printable(p.top) && Printable(p.member)
  }

  lemma PlainParts(p: FieldPath)
    requires Plain(p)
    ensures OwnPrintable(Parts(p))
  {
    if p.index.Some? {
      ItoaPrintable(p.index.value);
    }
  }

  /**
    The cap. A printed path has the characters that fill it and the ellipsis
    that ends it, at most 322; it stays within 320 exactly when what fills it
    leaves room for that ellipsis.
  */
  lemma PathCap(p: FieldPath)
    requires Plain(p)
    ensures var f := Filled(0, Parts(p), MAX_PATH_CHARS);
            && Shown(RenderedPath(p)) == Some(Chars(f)) && Chars(f) <= MAX_PATH_CHARS + 2
            && (Shown(RenderedPath(p)).value <= MAX_PATH_CHARS <==> f.level < MAX_PATH_CHARS || (f.level == MAX_PATH_CHARS && !f.cut))
  {
    PlainParts(p);
    AllFills(EMPTY, Parts(p), MAX_PATH_CHARS);
    FilledWithin(0, Parts(p), MAX_PATH_CHARS);
  }

  // ----- the full path -----

  function SafeName(s: string): string {
    Rendered(s, MAX_NAME_CHARS, true)
  }

  /** The parts with nothing cut but the names, each at its own limit. */
  function FullText(parts: seq<Part>): string {
    if parts == [] then ""
    else (match parts[0] case Own(s) => s case Server(s) => SafeName(s)) + FullText(parts[1..])
  }

  function FullChars(parts: seq<Part>): nat {
    if parts == [] then 0
    else (match parts[0] case Own(s) => |s| case Server(s) => CutChars(Pieces(s, true), MAX_NAME_CHARS)) + FullChars(parts[1..])
  }

  /** A cut that leaves room for what the wider one kept is the same cut. */
  lemma {:induction false} SameCut(ps: seq<Piece>, wide: int, room: int)
    requires CutChars(ps, wide) <= room <= wide
    ensures Cut(ps, room) == Cut(ps, wide) && CutChars(ps, room) == CutChars(ps, wide)
  {
    if ps != [] && ps[0].width <= wide {
      SameCut(ps[1..], wide - ps[0].width, room - ps[0].width);
    }
  }

  /** A name that fits is written as its own limit has it. */
  lemma ServerFits(t: Line, s: string, limit: nat)
    requires !t.full && t.n + CutChars(Pieces(s, true), MAX_NAME_CHARS) <= limit
    ensures WithServer(t, s, limit) == Line(t.b + SafeName(s), t.n + CutChars(Pieces(s, true), MAX_NAME_CHARS), false)
  {
    CutCharsWithin(Pieces(s, true), MAX_NAME_CHARS);
    RenderedShown(s, Room(t.n, limit), true);
    if Room(t.n, limit) < MAX_NAME_CHARS {
      SameCut(Pieces(s, true), MAX_NAME_CHARS, Room(t.n, limit));
    }
  }

  /** A path that fits is printed in full. */
  lemma {:induction false} AllFit(t: Line, parts: seq<Part>, limit: nat)
    requires !t.full && t.n + FullChars(parts) <= limit
    ensures WithAll(t, parts, limit) == Line(t.b + FullText(parts), t.n + FullChars(parts), false)
    decreases |parts|
  {
    if parts == [] {
      assert t.b + "" == t.b;
    } else {
      var u := With(t, parts[0], limit);
      if parts[0].Server? {
        ServerFits(t, parts[0].s, limit);
      }
      AllFit(u, parts[1..], limit);
      TextJoined(t.b, u.b, parts);
    }
  }

  lemma TextJoined(b: string, c: string, parts: seq<Part>)
    requires parts != [] && c == b + match parts[0] case Own(s) => s case Server(s) => SafeName(s)
    ensures c + FullText(parts[1..]) == b + FullText(parts)
  {
  }

  /** p with nothing cut but its names, each at its own limit. */
  function FullPath(p: FieldPath): string {
    FullText(Parts(p))
  }

  /** A path of at most 320 characters is printed in full. */
  lemma PathFits(p: FieldPath)
    requires FullChars(Parts(p)) <= MAX_PATH_CHARS
    ensures RenderedPath(p) == FullPath(p)
  {
    AllFit(EMPTY, Parts(p), MAX_PATH_CHARS);
    assert "" + FullPath(p) == FullPath(p);
  }

  // ----- where the first part that does not fit stands -----

  /** A line that is not full counts its characters. */
  lemma {:induction false} AllCounted(t: Line, parts: seq<Part>, limit: nat)
    requires !t.full && Shown(t.b) == Some(t.n) && OwnPrintable(parts)
    ensures var u := WithAll(t, parts, limit); u.full || Shown(u.b) == Some(u.n)
    decreases |parts|
  {
    if parts != [] {
      var u := With(t, parts[0], limit);
      match parts[0] {
        case Own(s) => OwnFills(t, s, limit);
        case Server(s) => ServerFills(t, s, limit);
      }
      if u.full {
        FullStays(u, parts[1..], limit);
      } else {
        AllCounted(u, parts[1..], limit);
      }
    }
  }

  /** What parts that fit come to. */
  lemma FitsCounted(a: seq<Part>, limit: nat)
    requires FullChars(a) <= limit && OwnPrintable(a)
    ensures var t := WithAll(EMPTY, a, limit); !t.full && t.n == FullChars(a) && Shown(t.b) == Some(t.n)
  {
    AllFit(EMPTY, a, limit);
    AllCounted(EMPTY, a, limit);
  }

  lemma EndsAtOwn(t: Line, s: string, rest: seq<Part>, limit: nat)
    requires !t.full && Shown(t.b) == Some(t.n) && t.n + |s| > limit
    ensures Shown(WithAll(t, [Own(s)] + rest, limit).b) == Some(t.n + 1)
  {
    assert ([Own(s)] + rest)[1..] == rest;
    FullStays(WithOwn(t, s, limit), rest, limit);
    EllipsisShown(ELLIPSIS);
    ShownConcat(t.b, ELLIPSIS);
  }

  lemma SplitParts(p: FieldPath, i: nat)
    requires Plain(p) && i < |Parts(p)|
    ensures WithAll(EMPTY, Parts(p), MAX_PATH_CHARS) ==
            WithAll(WithAll(EMPTY, Parts(p)[..i], MAX_PATH_CHARS), [Parts(p)[i]] + Parts(p)[i + 1..], MAX_PATH_CHARS)
    ensures OwnPrintable(Parts(p)[..i]) && OwnPrintable(Parts(p)[i + 1..])
  {
    PlainParts(p);
    assert Parts(p) == Parts(p)[..i] + ([Parts(p)[i]] + Parts(p)[i + 1..]);
    AllConcat(EMPTY, Parts(p)[..i], [Parts(p)[i]] + Parts(p)[i + 1..], MAX_PATH_CHARS);
  }

  /**
    Where the SDK's own text is the first part that does not fit, the path
    ends with an ellipsis in its place: within the cap if and only if the
    parts before take less than 320 characters.
  */
  lemma CapAtOwn(p: FieldPath, i: nat)
    requires Plain(p) && i < |Parts(p)| && Parts(p)[i].Own?
    requires FullChars(Parts(p)[..i]) <= MAX_PATH_CHARS < FullChars(Parts(p)[..i]) + |Parts(p)[i].s|
    ensures Shown(RenderedPath(p)) == Some(FullChars(Parts(p)[..i]) + 1)
  {
    SplitParts(p, i);
    FitsCounted(Parts(p)[..i], MAX_PATH_CHARS);
    EndsAtOwn(WithAll(EMPTY, Parts(p)[..i], MAX_PATH_CHARS), Parts(p)[i].s, Parts(p)[i + 1..], MAX_PATH_CHARS);
  }

  // ----- where the limits are not kept -----

  /**
    A name that the path's own limit cuts ends the path exactly when what is
    kept of it fills the room; otherwise its ellipsis fits as well, the path
    stays open, and what follows is written after the cut.
  */
  lemma CutNameEnds(t: Line, s: string, limit: nat) returns (k: nat)
    requires !t.full && t.n <= limit && Room(t.n, limit) < MAX_NAME_CHARS && Widths(Pieces(s, true)) > Room(t.n, limit)
    ensures k < |Pieces(s, true)| && WithServer(t, s, limit).b == t.b + (Texts(Pieces(s, true)[..k]) + ELLIPSIS)
    ensures WithServer(t, s, limit).full <==> Widths(Pieces(s, true)[..k]) == Room(t.n, limit)
  {
    k := CutIs(Pieces(s, true), Room(t.n, limit));
    RenderedShown(s, Room(t.n, limit), true);
  }

  predicate PlainText(s: string) {
    Printable(s) && forall k :: 0 <= k < |s| ==> s[k] != '\\'
  }

  /** A plain character is its own piece. */
  lemma PlainFirst(c: char, rest: string)
    requires 0x20 <= c as int < 0x7F && c != '\\'
    ensures Pieces([c] + rest, true) == [Piece([c], 1, 1)] + Pieces(rest, true)
  {
    var s := [c] + rest;
    assert s[..1] == [c] && Utf8.IsSequence(s[..1]);
    NotHidden(c as int, HIDDEN);
    assert PieceAt(s, true) == Piece([c], 1, 1);
    assert s[1..] == rest;
  }

  /** The pieces of plain text. */
  function Singles(u: string): seq<Piece> {
    if u == "" then [] else [Piece([u[0]], 1, 1)] + Singles(u[1..])
  }

  lemma {:induction false} PlainPieces(u: string, v: string)
    requires PlainText(u)
    ensures Pieces(u + v, true) == Singles(u) + Pieces(v, true)
    decreases |u|
  {
    if u == "" {
      assert u + v == v;
    } else {
      Reheaded(u, v);
      PlainFirst(u[0], u[1..] + v);
      PlainPieces(u[1..], v);
      Associates(Piece([u[0]], 1, 1), Singles(u[1..]), Pieces(v, true));
    }
  }

  lemma Reheaded(u: string, v: string)
    requires u != ""
    ensures u + v == [u[0]] + (u[1..] + v)
  {
  }

  lemma Associates(p: Piece, a: seq<Piece>, b: seq<Piece>)
    ensures [p] + (a + b) == [p] + a + b
  {
  }

  lemma {:induction false} SinglesAre(u: string)
    ensures Texts(Singles(u)) == u && Widths(Singles(u)) == |u|
  {
    if u != "" {
      SinglesAre(u[1..]);
      OnePiece(Piece([u[0]], 1, 1), Singles(u[1..]));
      assert [u[0]] + u[1..] == u;
    }
  }

  lemma OnePiece(p: Piece, rest: seq<Piece>)
    ensures Texts([p] + rest) == p.text + Texts(rest) && Widths([p] + rest) == p.width + Widths(rest)
  {
    assert ([p] + rest)[1..] == rest;
  }

  /** Pieces that fit are written before what follows them. */
  predicate Before(a: seq<Piece>, b: seq<Piece>, limit: int) {
    && Cut(a + b, limit) == Texts(a) + Cut(b, limit - Widths(a))
    && CutChars(a + b, limit) == Widths(a) + CutChars(b, limit - Widths(a))
  }

  lemma NoneBefore(b: seq<Piece>, limit: int)
    ensures Before([], b, limit)
  {
    assert [] + b == b;
  }

  lemma OneMoreBefore(p: Piece, a: seq<Piece>, b: seq<Piece>, limit: int)
    requires p.width <= limit && Before(a, b, limit - p.width)
    ensures Before([p] + a, b, limit)
  {
    Together([p], a, b);
    Together(p.text, Texts(a), Cut(b, limit - p.width - Widths(a)));
    CutHead(p, a + b, limit);
    OnePiece(p, a);
  }

  lemma Together<T>(a: seq<T>, b: seq<T>, c: seq<T>)
    ensures a + b + c == a + (b + c)
  {
  }

  lemma {:induction false} CutBefore(a: seq<Piece>, b: seq<Piece>, limit: int)
    requires Widths(a) <= limit
    ensures Before(a, b, limit)
    decreases |a|
  {
    if a == [] {
      NoneBefore(b, limit);
    } else {
      CutBefore(a[1..], b, limit - a[0].width);
      OneMoreBefore(a[0], a[1..], b, limit);
      assert [a[0]] + a[1..] == a;
    }
  }

  lemma CutHead(p: Piece, rest: seq<Piece>, limit: int)
    requires p.width <= limit
    ensures Cut([p] + rest, limit) == p.text + Cut(rest, limit - p.width)
    ensures CutChars([p] + rest, limit) == p.width + CutChars(rest, limit - p.width)
  {
    assert ([p] + rest)[1..] == rest;
  }

  /** Plain text is written as it is before what follows it. */
  lemma PlainBefore(u: string, v: string, limit: int)
    requires PlainText(u) && |u| <= limit
    ensures Cut(Pieces(u + v, true), limit) == u + Cut(Pieces(v, true), limit - |u|)
    ensures CutChars(Pieces(u + v, true), limit) == |u| + CutChars(Pieces(v, true), limit - |u|)
  {
    PlainPieces(u, v);
    SinglesAre(u);
    CutAfter(u, Pieces(u + v, true), Singles(u), Pieces(v, true), limit);
  }

  lemma CutAfter(u: string, whole: seq<Piece>, a: seq<Piece>, b: seq<Piece>, limit: int)
    requires whole == a + b && Texts(a) == u && Widths(a) == |u| <= limit
    ensures Cut(whole, limit) == u + Cut(b, limit - |u|) && CutChars(whole, limit) == |u| + CutChars(b, limit - |u|)
  {
    CutBefore(a, b, limit);
  }

  /** Plain text longer than the limit takes the limit and its ellipsis. */
  lemma PlainCut(s: string, limit: nat)
    requires PlainText(s) && limit < |s|
    ensures CutChars(Pieces(s, true), limit) == limit + 1
  {
    var u, c, rest := s[..limit], s[limit], s[limit + 1..];
    assert u + ([c] + rest) == s;
    PlainBefore(u, [c] + rest, limit);
    PlainOver(c, rest);
  }

  lemma PlainOver(c: char, rest: string)
    requires 0x20 <= c as int < 0x7F && c != '\\'
    ensures CutChars(Pieces([c] + rest, true), 0) == 1
  {
    PlainFirst(c, rest);
  }

  /** The cap is not always kept: two ellipses can stand beyond it. */
  lemma CapExceeded() returns (p: FieldPath)
    ensures Plain(p) && Shown(RenderedPath(p)) == Some(MAX_PATH_CHARS + 2)
  {
    var top, name := seq(191, _ => 'a'), seq(129, _ => 'b');
    p := FieldPath(top, None, Some(name), "c", None);
    PathCap(p);
    PlainCut(name, MAX_NAME_CHARS);
    var parts := Parts(p);
    assert parts == [Own(top), Own("."), Server(name), Own("."), Own("c")];
    assert parts[1..] == [Own("."), Server(name), Own("."), Own("c")];
    assert parts[2..] == [Server(name), Own("."), Own("c")] && parts[3..] == [Own("."), Own("c")];
    assert Filled(192, parts[2..], MAX_PATH_CHARS) == Filled(321, parts[2..][1..], MAX_PATH_CHARS);
  }

  /** U+2028, as UTF-8. */
  const SEPARATOR: string := "\U{E2}" + "\U{80}" + "\U{A8}"

  /** It is written as an escape of six characters. */
  lemma SeparatorPiece(v: string, limit: int)
    requires v == SEPARATOR && limit < 6
    ensures Cut(Pieces(v, true), limit) == ELLIPSIS && CutChars(Pieces(v, true), limit) == 1
  {
    assert v == "\U{E2}\U{80}\U{A8}" && Utf8.IsSequence(v) && v[..3] == v;
    assert Rune(v) == 0x2028;
    SeparatorUnsafe(0x2028, HIDDEN);
    assert |QuoteRune(0x2028)| == 6;
  }

  lemma SeparatorUnsafe(r: nat, ranges: seq<(nat, nat)>)
    requires r == 0x2028 && ranges == HIDDEN
    ensures InRanges(r, ranges)
  {
    assert ranges[4] == (0x2028, 0x202E);
    InRangesAt(r, ranges, 4);
  }

  lemma {:induction false} InRangesAt(r: nat, ranges: seq<(nat, nat)>, k: nat)
    requires k < |ranges| && ranges[k].0 <= r <= ranges[k].1
    ensures InRanges(r, ranges)
  {
    if k > 0 {
      InRangesAt(r, ranges[1..], k - 1);
    }
  }

  /** A name of 15 plain characters and a separator, after 301 characters: the separator does not fit, its ellipsis does. */
  lemma CutLine(t: Line, kept: string)
    requires !t.full && t.n == 301 && PlainText(kept) && |kept| == 15
    ensures WithServer(t, kept + SEPARATOR, MAX_PATH_CHARS) == Line(t.b + (kept + ELLIPSIS), 317, false)
  {
    PlainBefore(kept, SEPARATOR, 19);
    SeparatorPiece(SEPARATOR, 4);
    RenderedShown(kept + SEPARATOR, 19, true);
  }

  /** Nor does a cut always end a path: a name cut before a wide escape leaves room, and the member is written after the ellipsis. */
  lemma TextAfterCut() returns (p: FieldPath, kept: string)
    ensures Plain(p) && RenderedPath(p) == p.top + "." + (kept + ELLIPSIS) + "." + p.member
    ensures p.name == Some(kept + SEPARATOR) && p.member != ""
  {
    var top := seq(300, _ => 'a');
    kept := seq(15, _ => 'b');
    p := FieldPath(top, None, Some(kept + SEPARATOR), "c", None);
    var before, after := [Own(top), Own(".")], [Own("."), Own("c")];
    var server := Server(kept + SEPARATOR);
    assert Parts(p) == before + ([server] + after);
    AllConcat(EMPTY, before, [server] + after, MAX_PATH_CHARS);
    AllTwo(EMPTY, Own(top), Own("."), MAX_PATH_CHARS);
    assert "" + top == top;
    var t := Line(top + ".", 301, false);
    AllConcat(t, [server], after, MAX_PATH_CHARS);
    AllOne(t, server, MAX_PATH_CHARS);
    CutLine(t, kept);
    AllTwo(WithServer(t, kept + SEPARATOR, MAX_PATH_CHARS), Own("."), Own("c"), MAX_PATH_CHARS);
  }

  // ----- the paths of the response schema -----

  /** A path the decoder reports: RootFailure, TopFailure, AnswerFailure, KeyFailure or CardFailure. */
  predicate SchemaPath(p: FieldPath) {
    || p == FieldPath("", None, None, "", None)
    || p == FieldPath("model", None, None, "", None)
    || (p.top == "usage" && p.index.None? && p.name.None? && p.key.None? && p.member in {"", "input_tokens", "output_tokens"})
    || p == FieldPath("answers", None, None, "", None)
    || p == FieldPath("models", None, None, "", None)
    || (p.top == "answers" && p.index.None? && p.name.Some? && exists f: Field :: p.member == FieldName(f))
    || (p.top == "models" && p.index.Some? && p.name.None? && p.key.None? && (p.member == "" || exists f: CardField :: p.member == CardFieldName(f)))
  }

  lemma {:induction false} ItoaLength(n: nat, digits: nat)
    requires 0 < digits && n < Power10(digits)
    ensures |Itoa(n)| <= digits
    decreases digits
  {
    if n >= 10 {
      ItoaLength(n / 10, digits - 1);
    }
  }

  function Power10(n: nat): nat {
    if n == 0 then 1 else 10 * Power10(n - 1)
  }

  lemma {:induction false} CharsConcat(a: seq<Part>, b: seq<Part>)
    ensures FullChars(a + b) == FullChars(a) + FullChars(b)
    decreases |a|
  {
    if a == [] {
      assert a + b == b;
    } else {
      assert (a + b)[1..] == a[1..] + b;
      CharsConcat(a[1..], b);
    }
  }

  lemma ServerChars(s: string)
    ensures FullChars([Server(s)]) == CutChars(Pieces(s, true), MAX_NAME_CHARS)
  {
    assert [Server(s)][1..] == [];
  }

  lemma NameChars(name: Option<string>)
    ensures FullChars(NameParts(name)) <= if name.Some? then MAX_NAME_CHARS + 2 else 0
  {
    if name.Some? {
      CutCharsWithin(Pieces(name.value, true), MAX_NAME_CHARS);
      ServerChars(name.value);
      assert NameParts(name)[0] == Own(".") && NameParts(name)[1..] == [Server(name.value)];
    }
  }

  lemma OwnChars(s: string)
    ensures FullChars([Own(s)]) == |s|
  {
    assert [Own(s)][1..] == [];
  }

  lemma MemberChars(s: string)
    ensures FullChars(MemberParts(s)) == if s == "" then 0 else |s| + 1
  {
    if s != "" {
      assert MemberParts(s)[1..] == [Own(s)];
      OwnChars(s);
    }
  }

  /** The parts of a path together. */
  lemma PathChars(p: FieldPath)
    requires p.top != ""
    ensures FullChars(Parts(p)) <= |p.top| + (if p.index.Some? then |Itoa(p.index.value)| + 2 else 0) + |p.member| + 1
                                   + (if p.name.Some? then MAX_NAME_CHARS + 2 else 0) + (if p.key.Some? then MAX_NAME_CHARS + 2 else 0)
  {
    OwnChars(p.top);
    if p.index.Some? {
      OwnChars("[" + Itoa(p.index.value) + "]");
    }
    NameChars(p.name);
    NameChars(p.key);
    MemberChars(p.member);
    CharsConcat([Own(p.top)], IndexParts(p.index));
    CharsConcat([Own(p.top)] + IndexParts(p.index), NameParts(p.name));
    CharsConcat([Own(p.top)] + IndexParts(p.index) + NameParts(p.name), MemberParts(p.member));
    CharsConcat([Own(p.top)] + IndexParts(p.index) + NameParts(p.name) + MemberParts(p.member), NameParts(p.key));
  }

  /** The cap truncates no path the response schema can produce, an answer's with two server-chosen names included. */
  lemma SchemaPathFits(p: FieldPath)
    requires SchemaPath(p) && (p.index.Some? ==> p.index.value < Power10(20))
    ensures Plain(p) && FullChars(Parts(p)) <= 281
  {
    if p.top != "" {
      PathChars(p);
    }
    if p.index.Some? {
      ItoaLength(p.index.value, 20);
    }
    if p.top == "answers" && p.name.Some? {
      var f: Field :| p.member == FieldName(f);
      FieldNames(f);
    }
    if p.top == "models" && p.index.Some? && p.member != "" {
      var f: CardField :| p.member == CardFieldName(f);
      CardFieldNames(f);
    }
  }

  lemma FieldNames(f: Field)
    ensures Printable(FieldName(f)) && |FieldName(f)| <= 13
  {
  }

  lemma CardFieldNames(f: CardField)
    ensures Printable(CardFieldName(f)) && |CardFieldName(f)| <= 12
  {
  }
}
