/** What the presets `defuFn` and `defuArrayFn` add to the standard rules. */
module PresetProperties {
  import opened Values
  import opened Defu
  import opened MergeProperties

  /** With the merger of `defuFn`, a callable base value is called on the value already at its
      key when that value is defined; over an undefined or missing value it is stored as a leaf. */
  lemma FnMergerCallsFunction(apply: (nat, Value) -> Value, base: map<string, Value>, defaults: Value, namespace: string, key: string)
    requires Effective(base, key) && base[key].Fn?
    ensures key in Merge(base, defaults, namespace, FnMerger(apply))
    ensures var current := Get(AsDefaults(defaults), key);
      Merge(base, defaults, namespace, FnMerger(apply))[key] ==
        if !current.Undef? then apply(base[key].id, current) else base[key]
  {
    MergeAt(base, defaults, namespace, FnMerger(apply), key);
  }

  /** With the merger of `defuArrayFn`, a callable base value is called only on an array already
      at its key; over anything else it is stored as a leaf. */
  lemma ArrayFnMergerCallsFunction(apply: (nat, Value) -> Value, base: map<string, Value>, defaults: Value, namespace: string, key: string)
    requires Effective(base, key) && base[key].Fn?
    ensures key in Merge(base, defaults, namespace, ArrayFnMerger(apply))
    ensures var current := Get(AsDefaults(defaults), key);
      Merge(base, defaults, namespace, ArrayFnMerger(apply))[key] ==
        if current.Arr? then apply(base[key].id, current) else base[key]
  {
    MergeAt(base, defaults, namespace, ArrayFnMerger(apply), key);
  }

  /** Neither preset merger claims a base value that is not callable, so for such values the
      standard rules (arrays, plain objects, leaves) apply unchanged. */
  lemma PresetMergersIgnoreNonCallables(apply: (nat, Value) -> Value, current: Value, key: string, value: Value, namespace: string)
    requires !value.Fn?
    ensures Claim(FnMerger(apply), current, key, value, namespace) == None
    ensures Claim(ArrayFnMerger(apply), current, key, value, namespace) == None
  {
  }
}
