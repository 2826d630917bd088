/** The default-merging engine of src/defu.ts: the recursive merge `_defu`, the fold built by
    `createDefu`, and the three preset entry points. */
module Defu {
  import opened Values

  /** The per-key override hook. It is shown the value the result under construction holds at
      the key (`Undef` when absent), the key, the incoming base value and the namespace; it
      either claims the key, giving the value to store there, or declines with `None`. */
  datatype Merger =
    | NoMerger
    | Custom(claim: (Value, string, Value, string) -> Option<Value>)

  /** Asks the merger, if there is one, whether it claims `key`. */
  function Claim(merger: Merger, current: Value, key: string, value: Value, namespace: string): Option<Value> {
    match merger
    case NoMerger => None
    case Custom(claim) => claim(current, key, value, namespace)
  }

  /** The two base keys that are never merged (the prototype-pollution guard). */
  predicate IsGuardedKey(key: string) {
    key == "__proto__" || key == "constructor"
  }

  /** The namespace handed to a nested merge: the key itself at the root (empty namespace),
      otherwise the namespace and the key joined by a dot. */
  function ChildNamespace(namespace: string, key: string): string {
    (if namespace != "" then namespace + "." else "") + key
  }

  /** What the `merge(key)` step writes to `object[key]` when the base holds `value` there and the
      result currently holds `current`; `None` when the step returns without writing. */
  function MergeKey(key: string, value: Value, current: Value, namespace: string, merger: Merger): (r: Option<Value>)
    ensures r.None? <==> IsGuardedKey(key) || IsNullish(value)
    decreases value, 5
  {
    if IsGuardedKey(key) || IsNullish(value) then None
    else
      match Claim(merger, current, key, value, namespace)
      case Some(claimed) => Some(claimed)
      case None =>
        if value.Arr? && current.Arr? then
          Some(Arr(value.items + current.items))
        else if IsPlainObject(value) && IsPlainObject(current) then
          Some(Obj(Merge(value.fields, current, ChildNamespace(namespace, key), merger)))
        else
          Some(value)
  }

  /** The effect of visiting `key` of the base when the result started as a copy of `defaults`:
      every key is visited once and each visit touches only its own key, so `object[key]` is
      still the default value when the visit happens. */
  function Visit(base: map<string, Value>, defaults: map<string, Value>, key: string, namespace: string, merger: Merger): Option<Value>
    decreases Obj(base), 2
  {
    if key in base then MergeKey(key, base[key], Get(defaults, key), namespace, merger) else None
  }

  /** `_defu(base, defaults, namespace, merger)`: a copy of `defaults` (of `{}` when `defaults` is
      not a plain object) in which every key of `base` has been merged. */
  function Merge(base: map<string, Value>, defaults: Value, namespace: string, merger: Merger): map<string, Value>
    decreases Obj(base), if IsPlainObject(defaults) then 3 else 4
  {
    if !IsPlainObject(defaults) then
      Merge(base, Obj(map[]), namespace, merger)
    else
      var d := defaults.fields;
      map key | key in d.Keys + base.Keys && (key in d || Visit(base, d, key, namespace, merger).Some?) ::
        match Visit(base, d, key, namespace, merger)
        case Some(v) => v
        case None => d[key]
  }

  /** `_defu` as the source runs it: start from a copy of the defaults and update it key by key,
      in whatever order the base's keys are enumerated. */
  method ApplyDefaults(base: map<string, Value>, defaults: Value, namespace: string, merger: Merger)
    returns (result: map<string, Value>)
    ensures result == Merge(base, defaults, namespace, merger)
    decreases Obj(base), if IsPlainObject(defaults) then 3 else 4
  {
    if !IsPlainObject(defaults) {
      result := ApplyDefaults(base, Obj(map[]), namespace, merger);
      return;
    }
    var d := defaults.fields;
    result := d;
    var pending := base.Keys;
    while pending != {}
      invariant pending <= base.Keys
      invariant forall k :: k in result <==>
        k in d || (k !in pending && Visit(base, d, k, namespace, merger).Some?)
      invariant forall k :: k in result ==>
        result[k] == (if k !in pending && Visit(base, d, k, namespace, merger).Some?
                      then Visit(base, d, k, namespace, merger).value
                      else d[k])
      decreases pending
    {
      var key :| key in pending;
      pending := pending - {key};
      if IsGuardedKey(key) {
        continue;
      }
      var value := base[key];
      if IsNullish(value) {
        continue;
      }
      var current := Get(result, key);
      var claimed := Claim(merger, current, key, value, namespace);
      if claimed.Some? {
        result := result[key := claimed.value];
      } else if value.Arr? && current.Arr? {
        result := result[key := Arr(value.items + current.items)];
      } else if IsPlainObject(value) && IsPlainObject(current) {
        var nested := ApplyDefaults(value.fields, current, ChildNamespace(namespace, key), merger);
        result := result[key := Obj(nested)];
      } else {
        result := result[key := value];
      }
    }
  }

  /** The `reduce` of `createDefu`: each argument is merged in as the defaults of the result so
      far, with the root namespace. */
  function Reduce(merger: Merger, acc: map<string, Value>, args: seq<Value>): map<string, Value>
    decreases |args|
  {
    if args == [] then acc else Reduce(merger, Merge(acc, args[0], "", merger), args[1..])
  }

  /** `createDefu(merger)`: the variadic entry point, a fold of the arguments starting from `{}`. */
  function CreateDefu(merger: Merger): (entry: seq<Value> -> map<string, Value>)
    ensures entry([]) == map[]
  {
    args => Reduce(merger, map[], args)
  }

  /** `defu`: no merger. */
  function StandardDefu(): seq<Value> -> map<string, Value> {
    CreateDefu(NoMerger)
  }

  /** The merger of `defuFn`: a callable base value is applied to a defined current value.
      `apply(id, x)` stands for calling the function `Fn(id)` on `x`. */
  function FnMerger(apply: (nat, Value) -> Value): Merger {
    Custom((current: Value, key: string, value: Value, namespace: string) =>
      if !current.Undef? && value.Fn? then Some(apply(value.id, current)) else None)
  }

  /** `defuFn` */
  function DefuFn(apply: (nat, Value) -> Value): seq<Value> -> map<string, Value> {
    CreateDefu(FnMerger(apply))
  }

  /** The merger of `defuArrayFn`: a callable base value is applied to a current array value. */
  function ArrayFnMerger(apply: (nat, Value) -> Value): Merger {
    Custom((current: Value, key: string, value: Value, namespace: string) =>
      if current.Arr? && value.Fn? then Some(apply(value.id, current)) else None)
  }

  /** `defuArrayFn` */
  function DefuArrayFn(apply: (nat, Value) -> Value): seq<Value> -> map<string, Value> {
    CreateDefu(ArrayFnMerger(apply))
  }
}
