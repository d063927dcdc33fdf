/**
 * The Python values and exceptions that the response normaliser of app.py
 * handles: what `json.loads` and `ast.literal_eval` can hand back, and the
 * exceptions they can raise.  Only the distinctions the code makes
 * (`isinstance(_, str)`, `isinstance(_, list)`, truthiness of a list,
 * subscripting a dict, which `except` clause catches what) are modelled.
 */
module PyValues {

  /** A Python object produced by one of the two decoders. */
  datatype Value =
    | VNone                          // None (also what `null` decodes to)
    | VBool(b: bool)
    | VInt(i: int)
    | VFloat(x: real)                // finite floats only; rounding is not modelled
    | VStr(s: string)
    | VList(items: seq<Value>)
    | VTuple(items: seq<Value>)      // literal_eval of "'a', 'b'" or "('a', 'b')"
    | VDict(entries: map<Value, Value>)

  /** The exception classes that can reach one of the `except` clauses. */
  datatype PyException =
    | JSONDecodeError   // json.loads on malformed text
    | RecursionError    // json.loads / literal_eval on too deeply nested text
    | ValueError        // literal_eval on Python that is not a literal ("Python, SQL")
    | SyntaxError       // literal_eval on text that is not Python at all ("None found")
    | TypeError         // subscripting a non-dict, joining a non-str item
    | KeyError          // subscripting a dict without the key

  /** The result of evaluating a Python expression: a value, or an exception in flight. */
  datatype Outcome<+T> = Ok(value: T) | Raised(exc: PyException)

  /** A value that may be absent. */
  datatype Option<+T> = Nothing | Some(value: T)

  /**
   * A library decoder taken from `str` to a Python value.  `json.loads` and
   * `ast.literal_eval` are library code; the model treats each as an arbitrary
   * total function of this type, so every fact proved holds for whatever
   * grammar they implement.
   */
  type Decoder = string -> Outcome<Value>

  /** `isinstance(v, str)` and the `str` inside. */
  predicate IsStr(v: Value) { v.VStr? }

  /** True when every item of a list is a `str`, so that `str.join` accepts it. */
  predicate AllStr(items: seq<Value>) {
    forall i :: 0 <= i < |items| ==> items[i].VStr?
  }

  /** The strings inside a list all of whose items are `str`. */
  function Strs(items: seq<Value>): (r: seq<string>)
    requires AllStr(items)
    ensures |r| == |items|
    ensures forall i :: 0 <= i < |items| ==> items[i] == VStr(r[i])
  {
    if items == [] then [] else [items[0].s] + Strs(items[1..])
  }

  /** The Python list of `str` values holding `ss`. */
  function StrList(ss: seq<string>): (r: seq<Value>)
    ensures AllStr(r) && Strs(r) == ss
  {
    if ss == [] then [] else [VStr(ss[0])] + StrList(ss[1..])
  }

  /**
   * `v[key]` for a string key: a dict yields the entry or raises `KeyError`;
   * every other value the decoders produce (None, bool, int, float, str, list,
   * tuple) raises `TypeError`.
   */
  function Subscript(v: Value, key: string): (r: Outcome<Value>)
    ensures r.Ok? <==> v.VDict? && VStr(key) in v.entries
    ensures r.Ok? ==> r.value == v.entries[VStr(key)]
    ensures r == Raised(KeyError) <==> v.VDict? && VStr(key) !in v.entries
    ensures r == Raised(TypeError) <==> !v.VDict?
  {
    match v
    case VDict(entries) =>
      if VStr(key) in entries then Ok(entries[VStr(key)]) else Raised(KeyError)
    case _ => Raised(TypeError)
  }
}
