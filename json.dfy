/**
 * Parsed JSON as Python holds it after `response.json()`: None, bool, number, str, list, dict.
 * Numbers are mathematical reals; a dict is its pairs in insertion order.
 */
module Json {
  import opened Results
  import opened PyDict

  datatype Json =
    | JNull
    | JBool(b: bool)
    | JNum(n: real)
    | JStr(s: string)
    | JArr(elems: seq<Json>)
    | JObj(members: Items<Json>)

  /** `v[key]` with a string key: a dict without the key raises KeyError, any other value TypeError. */
  function Subscript(v: Json, key: string): Result<Json> {
    match v
    case JObj(m) =>
      (match Get(m, key)
       case Some(x) => Ok(x)
       case None => Err(KeyError(key)))
    case _ => Err(TypeError)
  }

  /** `v[path[0]][path[1]]...`, failing at the first step that fails. */
  function At(v: Json, path: seq<string>): Result<Json>
    decreases |path|
  {
    if path == [] then Ok(v)
    else
      var child :- Subscript(v, path[0]);
      At(child, path[1..])
  }

  /** The values `for x in v` visits: a list's elements, a dict's keys, a string's characters. */
  function Iterate(v: Json): Result<seq<Json>> {
    match v
    case JArr(xs) => Ok(xs)
    case JObj(m) => Ok(seq(|m|, i requires 0 <= i < |m| => JStr(m[i].0)))
    case JStr(s) => Ok(seq(|s|, i requires 0 <= i < |s| => JStr([s[i]])))
    case _ => Err(TypeError)
  }

  /** The entries `for pool in data['data']` visits. */
  function DataEntries(data: Json): Result<seq<Json>> {
    var entries :- Subscript(data, "data");
    Iterate(entries)
  }

  /** Every dict in `v` has distinct keys, as every Python dict does. */
  predicate WellFormed(v: Json) {
    match v
    case JArr(xs) => forall i :: 0 <= i < |xs| ==> WellFormed(xs[i])
    case JObj(m) => DistinctKeys(m) && forall i :: 0 <= i < |m| ==> WellFormed(m[i].1)
    case _ => true
  }
}
