/** A JSON text as adapter/internal/jsonx reads it: decoded strings, numbers as they are spelled, members in order. */
module JsonTree {
  datatype Tree = Null | Bool(b: bool) | Num(text: string) | Str(text: string) | Arr(elems: seq<Tree>) | Obj(members: seq<(string, Tree)>)
}
