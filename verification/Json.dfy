/** JSON trees, and the places in them. */
module Json {
  import opened Basics

  datatype Json =
    | Null
    | Bool(b: bool)
    | Number(text: string)
    | String(s: string)
    | Array(items: seq<Json>)
    | Object(fields: map<string, Json>)

  // A step down into an object or an array.
  datatype Pos = Key(k: string) | Index(i: nat)

  function Child(t: Json, p: Pos): Option<Json> {
    match p
    case Key(k) => if t.Object? && k in t.fields then Some(t.fields[k]) else None
    case Index(i) => if t.Array? && i < |t.items| then Some(t.items[i]) else None
  }

  function Lookup(t: Json, q: seq<Pos>): Option<Json> {
    if q == [] then Some(t)
    else
      match Child(t, q[0])
      case None => None
      case Some(child) => Lookup(child, q[1..])
  }
}
