/** The dynamically typed values that flow through the crawler as Python dicts:
    scraped fields, notice records and the nested dicts and lists inside them. */
module Values {
  import opened Text

  /** A Python value as it appears in a scraped or stored record.  Nested dicts
      are kept as maps: the model does not track their insertion order. */
  datatype Value =
    | Null
    | Str(s: string)
    | Bool(b: bool)
    | Int(i: int)
    | List(elems: seq<Value>)
    | Dict(entries: map<string, Value>)

  /** A record: a dict from field name to value. */
  type Item = map<string, Value>

  /** `item.get(key, default)` */
  function Get(item: Item, key: string, default: Value): Value {
    if key in item then item[key] else default
  }

  /** Python's truthiness (`if v:`). */
  predicate Truthy(v: Value) {
    match v
    case Null => false
    case Str(s) => s != ""
    case Bool(b) => b
    case Int(i) => i != 0
    case List(es) => es != []
    case Dict(m) => m != map[]
  }

  /** `repr(v)`; dict keys are listed in sorted order and quotes inside strings are not escaped. */
  function Repr(v: Value): string
    decreases v
  {
    match v
    case Null => "None"
    case Str(s) => "'" + s + "'"
    case Bool(b) => if b then "True" else "False"
    case Int(i) => IntToString(i)
    case List(es) => "[" + Join(", ", seq(|es|, i requires 0 <= i < |es| => Repr(es[i]))) + "]"
    case Dict(m) =>
      var keys := SortStrings(m.Keys);
      "{" + Join(", ", seq(|keys|, i requires 0 <= i < |keys| => "'" + keys[i] + "': " + Repr(m[keys[i]]))) + "}"
  }

  /** `str(v)`: a string is itself, anything else is its `repr`. */
  function Show(v: Value): string {
    match v
    case Str(s) => s
    case _ => Repr(v)
  }
}
