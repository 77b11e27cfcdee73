/** JSON values as serde_json holds them, and places inside them. */
module Json {
  import opened Basics

  datatype Number = PosInt(u: u64) | NegInt(i: neg64) | Float(r: real)

  datatype Json =
    | Null
    | Bool(b: bool)
    | Num(n: Number)
    | Str(s: string)
    | Arr(items: seq<Json>)
    | Obj(fields: map<string, Json>)

  /** The keys that lead from a value to a place inside it. */
  type Path = seq<string>

  /** The value at a place, if there is one. */
  function At(v: Json, path: Path): Option<Json> {
    if path == [] then Some(v)
    else if v.Obj? && path[0] in v.fields then At(v.fields[path[0]], path[1..])
    else None
  }

  /** The value with x put at a place whose parents are objects; otherwise the value itself. */
  function SetAt(v: Json, path: Path, x: Json): Json {
    if path == [] then x
    else if !v.Obj? then v
    else if |path| == 1 then Obj(v.fields[path[0] := x])
    else if path[0] in v.fields then Obj(v.fields[path[0] := SetAt(v.fields[path[0]], path[1..], x)])
    else v
  }

  lemma {:induction false} AtAppend(v: Json, p: Path, q: Path)
    ensures At(v, p + q) == if At(v, p).None? then None else At(At(v, p).value, q)
  {
    if p == [] {
      assert p + q == q;
    } else {
      assert (p + q)[0] == p[0] && (p + q)[1..] == p[1..] + q;
      if v.Obj? && p[0] in v.fields {
        AtAppend(v.fields[p[0]], p[1..], q);
      }
    }
  }
}
