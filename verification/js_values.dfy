/**
 * The JavaScript values the engine inspects: what `typeof`, `Array.isArray`,
 * `isObject` and object spread see of them. Functions are opaque references;
 * what a function returns when called is supplied separately (see Resolution).
 */
module JsValues {

  /** A reference to a JavaScript function (a dispatched transform or a subscriber callback). */
  type FnRef = nat

  datatype JsValue =
    | Undefined
    | Null
    | Bool(b: bool)
    | Num(n: int)
    | Str(s: string)
    | Obj(fields: map<string, JsValue>)   // a plain key/value record
    | Arr(items: seq<JsValue>)
    | Func(ref: FnRef)
    | Promise(settled: JsValue)           // a promise, already settled with `settled`

  /** The string JavaScript's `typeof` gives. */
  function TypeOf(v: JsValue): string
  {
    match v
    case Undefined => "undefined"
    case Bool(_) => "boolean"
    case Num(_) => "number"
    case Str(_) => "string"
    case Func(_) => "function"
    case _ => "object"
  }

  /** JavaScript's `Array.isArray`. */
  predicate IsArray(v: JsValue)
  {
    v.Arr?
  }

  /**
   * The source's `isObject`: not null, of type "object", and not an array.
   * Besides plain records this admits promises, which are objects too.
   */
  predicate IsObject(v: JsValue)
    ensures IsObject(v) <==> v.Obj? || v.Promise?
  {
    v != Null && TypeOf(v) == "object" && !IsArray(v)
  }

  /**
   * `isObject(v) ? { ...v } : v`: object spread keeps a record's own fields and
   * turns a promise, which has no own enumerable fields, into an empty record.
   */
  function CopyIfObject(v: JsValue): (r: JsValue)
    ensures IsObject(v) ==> r.Obj? && (v.Obj? ==> r.fields == v.fields)
    ensures v.Promise? ==> r.fields == map[]
    ensures !IsObject(v) ==> r == v
    ensures !r.Promise?
  {
    if IsObject(v) then
      match v
      case Obj(fields) => Obj(fields)
      case _ => Obj(map[])
    else v
  }

  /** A value the resolution chain stops at: neither a function nor a promise. */
  predicate IsConcrete(v: JsValue)
  {
    !v.Func? && !v.Promise?
  }

  /** Copying is idempotent, and leaves a value that is not a promise as it was. */
  lemma CopyIfObjectStable(v: JsValue)
    ensures CopyIfObject(CopyIfObject(v)) == CopyIfObject(v)
    ensures !v.Promise? ==> CopyIfObject(v) == v
  {
  }
}
