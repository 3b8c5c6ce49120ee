/**
 * The Python values json.loads produces, with just the operations the
 * server applies to them: truthiness (`x or default`), dict.get and str().
 */
module PyJson {

  /**
   * A Python float as far as int() and truthiness see it: 0.0 and -0.0,
   * another finite value (kept as the integer int() truncates it to), an
   * infinity (json.loads accepts Infinity and -Infinity), or NaN.
   */
  datatype Float = Zero | NonZero(trunc: int) | Infinite(positive: bool) | NaN

  datatype Json =
    | JNull
    | JBool(b: bool)
    | JInt(i: int)
    | JFloat(f: Float)
    | JStr(s: string)
    | JArr(elems: seq<Json>)
    | JObj(fields: map<string, Json>)

  /** bool(v): None, False, zero, and empty strings, lists and dicts are false. */
  predicate Truthy(v: Json) {
    match v
    case JNull => false
    case JBool(b) => b
    case JInt(i) => i != 0
    case JFloat(f) => !f.Zero?
    case JStr(s) => s != []
    case JArr(a) => a != []
    case JObj(m) => m != map[]
  }

  /** dict.get(key, default). */
  function Get(m: map<string, Json>, key: string, default: Json): Json {
    if key in m then m[key] else default
  }

  /**
   * str(v) (and an f-string placeholder): a string is itself; every other
   * value is written by Python's own str(), given here as `show`.
   */
  function PyStr(v: Json, show: Json -> string): string {
    if v.JStr? then v.s else show(v)
  }

  /**
   * What Python's str() guarantees for the values `show` stands for: the
   * text of None, a bool, a number, a list or a dict is never empty and
   * never starts or ends with whitespace.
   */
  ghost predicate ShowsPlainly(show: Json -> string, ws: char -> bool) {
    forall v: Json :: !v.JStr? ==> show(v) != [] && !ws(show(v)[0]) && !ws(show(v)[|show(v)| - 1])
  }
}
