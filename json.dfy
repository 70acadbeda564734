/** JSON values as json.loads returns them, and the Python truthiness and
    dict.get the launcher applies to them. */
module JsonValues {

  datatype Option<+T> = None | Some(value: T)

  /** A decoded JSON value. Numbers are integers in this model. */
  datatype Json =
    | Null
    | Bool(b: bool)
    | Num(n: int)
    | Str(s: string)
    | Arr(items: seq<Json>)
    | Obj(fields: map<string, Json>)

  /** A decoded JSON object: the shape of config.json. */
  type Document = map<string, Json>

  /** Python's bool(v) for the decoded value. */
  predicate Truthy(v: Json)
  {
    match v
    case Null => false
    case Bool(b) => b
    case Num(n) => n != 0
    case Str(s) => s != ""
    case Arr(items) => items != []
    case Obj(fields) => fields != map[]
  }

  /** A value pathlib.Path accepts where the source passes it on only when
      truthy: a string, or anything falsy (which is never passed). */
  predicate PathLike(v: Json)
  {
    v.Str? || !Truthy(v)
  }

  /** d.get(key, default). */
  function Get(d: Document, key: string, default: Json): Json
  {
    if key in d then d[key] else default
  }
}
