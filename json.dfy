/**
 * The JavaScript values the controllers and the configuration store handle:
 * parsed JSON bodies of the catalog and of the media-library service, the
 * configuration values, and `undefined`. Numbers are integer-valued.
 */
module Json {
  import opened Strings

  datatype Option<T> = None | Some(value: T)

  datatype Value =
    | Undefined
    | Null
    | Bool(b: bool)
    | Num(n: int)
    | Str(s: string)
    | Arr(items: seq<Value>)
    | Obj(fields: Record)

  /** A JavaScript object as its own enumerable properties. */
  type Record = map<string, Value>

  /** Property access `r.k`: a missing property reads as `undefined`. */
  function Field(r: Record, k: string): (v: Value)
    ensures k !in r ==> v == Undefined
  {
    if k in r then r[k] else Undefined
  }

  /** JavaScript truthiness (`if (v)`, `!v`). */
  predicate Truthy(v: Value) {
    match v
    case Undefined => false
    case Null => false
    case Bool(b) => b
    case Num(n) => n != 0
    case Str(s) => s != ""
    case Arr(_) => true
    case Obj(_) => true
  }

  /** `v || fallback`. */
  function Or(v: Value, fallback: Value): (r: Value)
    ensures r == v || r == fallback
    ensures Truthy(r) <==> Truthy(v) || Truthy(fallback)
    ensures Truthy(v) ==> r == v
  {
    if Truthy(v) then v else fallback
  }

  /** A default parameter `p = fallback`: it applies only when `undefined` is passed. */
  function Default(v: Value, fallback: Value): (r: Value)
    ensures v != Undefined ==> r == v
    ensures v == Undefined ==> r == fallback
  {
    if v == Undefined then fallback else v
  }

  /** `String(v)`, the text a template literal `${v}` inserts. */
  function Display(v: Value): string
    decreases v, 1
  {
    match v
    case Undefined => "undefined"
    case Null => "null"
    case Bool(b) => if b then "true" else "false"
    case Num(n) => IntToString(n)
    case Str(s) => s
    case Arr(items) => DisplayItems(items)
    case Obj(_) => "[object Object]"
  }

  /** `Array.prototype.toString`: the elements joined by commas, `null` and `undefined` as empty text. */
  function DisplayItems(items: seq<Value>): string
    decreases items, 0
  {
    if items == [] then ""
    else
      var first := if items[0] == Undefined || items[0] == Null then "" else Display(items[0]);
      if |items| == 1 then first else first + "," + DisplayItems(items[1..])
  }
}
