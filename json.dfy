/** JavaScript values as they reach the core: request bodies, documents, query filters and
    handler results. Numbers are integers here; `NaN` and fractions do not occur. */
module Json {
  import opened Text

  datatype Value =
    | Undefined
    | Null
    | Bool(b: bool)
    | Num(n: int)
    | Str(s: string)
    | Arr(items: seq<Value>)
    | Obj(fields: map<string, Value>)

  /** A document or any other plain object, as a map from property name to value. */
  type Doc = map<string, Value>

  /** JavaScript truthiness: `undefined`, `null`, `false`, `0` and `''` are falsy; every array
      and object, even an empty one, is truthy. */
  predicate Truthy(v: Value)
  {
    match v
    case Undefined => false
    case Null => false
    case Bool(b) => b
    case Num(n) => n != 0
    case Str(s) => s != ""
    case Arr(_) => true
    case Obj(_) => true
  }

  /** Property access `d[k]` on a plain object: a missing property reads as `undefined`. */
  function Get(d: Doc, k: string): (r: Value)
    ensures k !in d ==> r == Undefined
  {
    if k in d then d[k] else Undefined
  }

  /** `typeof v === 'object'`, which holds for `null` as well. */
  predicate IsObjectType(v: Value)
  {
    v.Null? || v.Arr? || v.Obj?
  }

  function JoinComma(parts: seq<string>): string
  {
    if parts == [] then "" else if |parts| == 1 then parts[0] else parts[0] + "," + JoinComma(parts[1..])
  }

  /** `String(v)`, as a template literal `${v}` renders a value. */
  function Render(v: Value): string
    decreases v
  {
    match v
    case Undefined => "undefined"
    case Null => "null"
    case Bool(b) => if b then "true" else "false"
    case Num(n) => IntString(n)
    case Str(s) => s
    case Arr(items) =>
      JoinComma(seq(|items|, i requires 0 <= i < |items| =>
        if items[i].Null? || items[i].Undefined? then "" else Render(items[i])))
    case Obj(_) => "[object Object]"
  }
}
