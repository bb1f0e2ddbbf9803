/**
 * Parsed configuration documents.  The two JSON files the runner reads arrive
 * as nested dictionaries; reading and parsing them is not part of this model,
 * so the parsed trees are inputs.
 */
module ConfigTree {
  import opened Wrappers

  /** A JSON value as Python's json module returns it (null is Python's None). */
  datatype Value =
    | JNull
    | JBool(b: bool)
    | JInt(i: int)
    | JReal(r: real)
    | JString(s: string)
    | JArray(items: seq<Value>)
    | JObject(fields: map<string, Value>)

  /** A JSON object, i.e. a Python dict parsed from the configuration. */
  type Dict = map<string, Value>

  /** The exceptions the flattener can raise on a configuration of the wrong shape. */
  datatype Fault =
    | NotAnObject(key: string)   // `.get` called on a section that is not a dict
    | NotIterable(key: string)   // `enumerate` over a value that is not a list or string

  /** `d.get(key)`: the value under `key`, or None when the key is missing. */
  function Get(d: Dict, key: string): Value {
    if key in d then d[key] else JNull
  }

  /**
   * `d.get(key, {})` as a section that is then queried with `.get`: a missing
   * key yields the empty dict, a dict is returned as is, and anything else
   * (None included) makes the following `.get` raise.
   */
  function Section(d: Dict, key: string): (r: Result<Dict, Fault>)
    ensures r.Success? <==> key !in d || d[key].JObject?
    ensures r.Success? ==> r.value == SectionOrEmpty(d, key)
    ensures r.Failure? ==> r.error == NotAnObject(key)
  {
    if key !in d then Success(map[])
    else match d[key]
      case JObject(fields) => Success(fields)
      case _ => Failure(NotAnObject(key))
  }

  /**
   * The section `Section` would return when it succeeds, and the empty dict
   * otherwise; used to name configuration fields in statements about
   * successful runs.
   */
  function SectionOrEmpty(d: Dict, key: string): Dict {
    if key in d && d[key].JObject? then d[key].fields else map[]
  }
}
