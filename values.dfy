/** The values that the merge engine walks: a finite tree of JavaScript values. */
module Values {

  datatype Option<+T> = None | Some(value: T)

  /** A JavaScript value as the merge sees it. Functions and class instances are
      opaque and identified by an id; objects are flat string-keyed maps. */
  datatype Value =
    | Null
    | Undef
    | Bool(b: bool)
    | Num(n: int)
    | Str(s: string)
    | Fn(id: nat)                        // a callable
    | Instance(id: nat)                  // an object that is not plain: a Date, a RegExp, a class instance
    | Arr(items: seq<Value>)
    | Obj(fields: map<string, Value>)    // a plain object

  /** `isPlainObject`: only the `Obj` variant is a plain object. */
  predicate IsPlainObject(v: Value) {
    v.Obj?
  }

  /** `value === null || value === undefined` */
  predicate IsNullish(v: Value) {
    v.Null? || v.Undef?
  }

  /** A value the merge never descends into: neither nullish, nor an array, nor a plain object. */
  predicate IsLeaf(v: Value) {
    !IsNullish(v) && !v.Arr? && !IsPlainObject(v)
  }

  /** `object[key]`: reading a missing property gives `undefined`. */
  function Get(m: map<string, Value>, key: string): Value {
    if key in m then m[key] else Undef
  }

  /** The properties a value contributes when it is used as defaults: its fields if it is a
      plain object, none otherwise. */
  function AsDefaults(v: Value): map<string, Value> {
    if IsPlainObject(v) then v.fields else map[]
  }

  /** True when no array occurs anywhere inside `v`. */
  predicate ArrayFree(v: Value) {
    match v
    case Arr(_) => false
    case Obj(fields) => forall k :: k in fields ==> ArrayFree(fields[k])
    case _ => true
  }
}
