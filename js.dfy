/**
 * The slice of JavaScript value semantics that the service-credential code
 * relies on: JSON values (what a decoded token payload and the request
 * credentials are made of), property reads that may yield `undefined`, and
 * truthiness as tested by `!x`.
 */
module Js {
  import opened Wrappers

  /** A JSON value. Numbers are reals: JSON cannot encode NaN or infinities. */
  datatype Value =
    | Null
    | Bool(b: bool)
    | Num(n: real)
    | Str(s: string)
    | Arr(items: seq<Value>)
    | Obj(fields: map<string, Value>)

  /**
   * A JavaScript expression that may evaluate to `undefined` is an
   * `Option<Value>`: `None` is `undefined`, `Some(v)` is the value `v`.
   */
  type Js = Option<Value>

  /** `undefined`, `null`, `false`, `0` (and `-0`) and `""` are falsy. */
  predicate Falsy(x: Js)
    ensures Falsy(x) <==>
      x in {None, Some(Null), Some(Bool(false)), Some(Num(0.0)), Some(Str(""))}
  {
    match x
    case None => true
    case Some(Null) => true
    case Some(Bool(b)) => !b
    case Some(Num(n)) => n == 0.0
    case Some(Str(s)) => s == ""
    case Some(Arr(_)) => false
    case Some(Obj(_)) => false
  }

  /** `!!x` */
  predicate Truthy(x: Js) {
    !Falsy(x)
  }

  /**
   * `x?.key`: the own property `key` of an object, and `undefined` for
   * `undefined`, `null` and every other value (none of the keys read by the
   * modelled code is a property of a string, number, boolean or array).
   * When `x` is known to be truthy this is also plain `x.key`.
   */
  function Get(x: Js, key: string): (r: Js)
    ensures x == None || x == Some(Null) ==> r == None
    ensures r.Some? <==> x.Some? && x.value.Obj? && key in x.value.fields
    ensures r.Some? ==> r.value == x.value.fields[key]
  {
    match x
    case Some(Obj(fields)) => if key in fields then Some(fields[key]) else None
    case _ => None
  }
}
