/**
  A response body as the parser delivers it: a JSON tree whose nodes carry
  their raw text, and its preorder event list, which is what the streaming
  decoder sees.
*/
module Json {
  import opened Basics

  /** Text that is never empty: a number, or the raw bytes of a value. */
  type Text = s: string | s != "" witness "0"

  /** A number as it is spelled, with the finite binary64 value it denotes, if any (a zero without its sign). */
  datatype Number = Number(text: Text, value: Option<real>)

  datatype Json =
    | Null
    | Bool(b: bool)
    | Num(num: Number)
    | Str(s: string, raw: Text)
    | Arr(elems: seq<Json>, raw: Text)
    | Obj(members: seq<Member>, raw: Text)

  datatype Member = Member(key: string, value: Json)

  /** The value of the last member called key: the last member wins. */
  function Last(ms: seq<Member>, key: string): Option<Json> {
    if ms == [] then None
    else if ms[|ms| - 1].key == key then Some(ms[|ms| - 1].value)
    else Last(ms[..|ms| - 1], key)
  }

  /** The names of ms, each once, in the order of first appearance. */
  function Names(ms: seq<Member>): seq<string> {
    if ms == [] then []
    else
      var names := Names(ms[..|ms| - 1]);
      if ms[|ms| - 1].key in names then names else names + [ms[|ms| - 1].key]
  }

  /** The bytes the value has in the body. */
  function RawOf(j: Json): Text {
    match j
    case Null => "null"
    case Bool(b) => if b then "true" else "false"
    case Num(n) => n.text
    case Str(_, raw) => raw
    case Arr(_, raw) => raw
    case Obj(_, raw) => raw
  }

  /** How deep containers nest in j, j included. */
  function Height(j: Json): nat
    decreases j, 1
  {
    match j
    case Arr(es, _) => 1 + ElemsHeight(es)
    case Obj(ms, _) => 1 + MembersHeight(ms)
    case _ => 0
  }

  function MembersHeight(ms: seq<Member>): nat
    decreases ms, 0
  {
    if ms == [] then 0 else Max(MembersHeight(ms[..|ms| - 1]), Height(ms[|ms| - 1].value))
  }

  function ElemsHeight(es: seq<Json>): nat
    decreases es, 0
  {
    if es == [] then 0 else Max(ElemsHeight(es[..|es| - 1]), Height(es[|es| - 1]))
  }

  datatype Event =
    | ObjectBegin
    | ObjectEnd
    | ArrayBegin
    | ArrayEnd
    | KeyEv(key: string)
    | StrEv(s: string)
    | NumEv(num: Number)
    | BoolEv
    | NullEv

  /** The preorder events of j. */
  function Events(j: Json): (es: seq<Event>)
    ensures es != []
    decreases j, 1
  {
    match j
    case Null => [NullEv]
    case Bool(_) => [BoolEv]
    case Num(n) => [NumEv(n)]
    case Str(s, _) => [StrEv(s)]
    case Arr(es, _) => [ArrayBegin] + ElemEvents(es) + [ArrayEnd]
    case Obj(ms, _) => [ObjectBegin] + MemberEvents(ms) + [ObjectEnd]
  }

  function MemberEvents(ms: seq<Member>): seq<Event>
    decreases ms, 0
  {
    if ms == [] then []
    else MemberEvents(ms[..|ms| - 1]) + ([KeyEv(ms[|ms| - 1].key)] + Events(ms[|ms| - 1].value))
  }

  function ElemEvents(es: seq<Json>): seq<Event>
    decreases es, 0
  {
    if es == [] then [] else ElemEvents(es[..|es| - 1]) + Events(es[|es| - 1])
  }

  lemma {:induction false} LastInNames(ms: seq<Member>, key: string)
    ensures Last(ms, key).Some? <==> key in Names(ms)
  {
    if ms != [] {
      LastInNames(ms[..|ms| - 1], key);
    }
  }

  lemma {:induction false} NamesDistinct(ms: seq<Member>)
    ensures forall a, b :: 0 <= a < b < |Names(ms)| ==> Names(ms)[a] != Names(ms)[b]
  {
    if ms != [] {
      NamesDistinct(ms[..|ms| - 1]);
    }
  }
}
