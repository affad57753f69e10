/** Parsed JSON values, and the Python operations the backend applies to
    them: `d[key]`, `xs[0]`, and `Model(**d)`'s demand for a mapping.
    Numbers are integers; floating point is not modelled. */
module Json {
  import opened Wrappers
  import opened Errors

  datatype Json =
    | JNull
    | JBool(b: bool)
    | JNum(n: int)
    | JStr(s: string)
    | JArr(items: seq<Json>)
    | JObj(fields: map<string, Json>)

  /** Python `j[key]` with a string key: only a dictionary accepts it. */
  function Subscript(j: Json, key: string): (r: Result<Json, Error>)
    ensures r.Success? <==> j.JObj? && key in j.fields
    ensures r.Success? ==> r.value == j.fields[key]
    ensures j.JObj? && key !in j.fields ==> r == Failure(KeyError(key))
    ensures !j.JObj? ==> r == Failure(TypeError)
  {
    match j
    case JObj(m) => if key in m then Success(m[key]) else Failure(KeyError(key))
    case _ => Failure(TypeError)
  }

  /** Python `j[0]`: the first element of a list, the first character of a
      string, a lookup of the integer key 0 in a dictionary. */
  function First(j: Json): (r: Result<Json, Error>)
    ensures j.JArr? && |j.items| > 0 ==> r == Success(j.items[0])
    ensures j.JArr? && |j.items| == 0 ==> r == Failure(IndexError)
    ensures r.Success? ==> j.JArr? || j.JStr?
  {
    match j
    case JArr(xs) => if |xs| > 0 then Success(xs[0]) else Failure(IndexError)
    case JStr(s) => if |s| > 0 then Success(JStr([s[0]])) else Failure(IndexError)
    case JObj(_) => Failure(KeyError("0"))
    case _ => Failure(TypeError)
  }

  /** The argument of `Model(**j)` must be a mapping. */
  function AsMapping(j: Json): (r: Result<map<string, Json>, Error>)
    ensures r.Success? <==> j.JObj?
    ensures r.Success? ==> j == JObj(r.value)
  {
    match j
    case JObj(m) => Success(m)
    case _ => Failure(TypeError)
  }
}
