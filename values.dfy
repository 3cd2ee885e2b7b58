/** Values shared by the dashboard's components: an optional value (JavaScript's
    `undefined`/`null` versus a present value) and the dynamically typed field
    values that rows, filters and payloads carry, with JavaScript truthiness. */
module Values {

  datatype Option<+T> = None | Some(value: T) {
    /** The value when present, else `default` (the `??` operator). */
    function GetOr(default: T): T {
      match this
      case Some(v) => v
      case None => default
    }
  }

  /** A dynamically typed JavaScript value, restricted to what the dashboard
      stores in rows and filters. Numbers are integers here; `Obj` stands for any
      object or array, which JavaScript always treats as truthy. */
  datatype Value =
    | Undefined
    | Null
    | Bool(b: bool)
    | Num(n: int)
    | Str(s: string)
    | Obj

  /** JavaScript truthiness: `undefined`, `null`, `false`, `0` and `""` are the
      falsy values; everything else is truthy. */
  predicate Truthy(v: Value) {
    match v
    case Undefined => false
    case Null => false
    case Bool(b) => b
    case Num(n) => n != 0
    case Str(s) => s != ""
    case Obj => true
  }

  /** Truthiness of an optional string (a cookie value, a slug, a label). */
  predicate TruthyString(s: Option<string>) {
    s.Some? && s.value != ""
  }
}
