# defu, modelled in Dafny

defu fills in missing fields of a configuration object from one or more default objects.
It recurses into nested plain objects and concatenates arrays. The whole engine is
`src/defu.ts`; this project models all of it.

- `_defu(base, defaults, namespace, merger)` is a recursive merge. The result starts as a copy
  of `defaults` (of `{}` when `defaults` is not a plain object), and every key of `base` is then
  merged into it. Keys `__proto__` and `constructor` are skipped. So are `null` and `undefined`
  values. An optional merger may claim a key. Otherwise two arrays concatenate (base first),
  two plain objects merge recursively under a dot-joined namespace, and in every other case
  the base value overwrites the default.
- `createDefu(merger)` returns a variadic entry point. It folds `_defu` left to right over its
  arguments, starting from `{}`, so each argument has priority over those to its right.
- `defu`, `defuFn` and `defuArrayFn` are the presets. They differ only in their merger.

Files:

- `values.dfy` (module `Values`): the value tree (`Null`, `Undef`, booleans, integers, strings,
  callables `Fn(id)`, non-plain objects `Instance(id)`, arrays, plain objects as
  `map<string, Value>`). `isPlainObject` is "is the `Obj` variant".
- `defu.dfy` (module `Defu`): the engine. `Merge` is the functional specification of `_defu`.
  `ApplyDefaults` is `_defu` as the source runs it: a loop over the base's keys that updates the
  result map in place, calling itself for nested plain objects. It is proved equal to `Merge`.
  `Reduce` and `CreateDefu` are the fold. `StandardDefu`, `DefuFn` and `DefuArrayFn` are the
  presets, with `FnMerger` and `ArrayFnMerger` as their callbacks.
- `merge_properties.dfy` (module `MergeProperties`): what one `_defu` call promises, key by key.
- `fold_properties.dfy` (module `FoldProperties`): what the variadic entry points promise.
- `presets.dfy` (module `PresetProperties`): what the two function-calling presets add.
- `examples.dfy` (module `Examples`): concrete merges.

Calling a JavaScript function is outside the model. The presets therefore take a parameter
`apply: (nat, Value) -> Value`, where `apply(id, x)` stands for calling `Fn(id)` on `x`.

Behaviour worth knowing, proved here:

- Merging an object with itself returns it unchanged when it holds no array. Non-empty
  arrays at unguarded keys are doubled: `{x: [1]}` merged with itself is `{x: [1, 1]}`.
- For `constructor` the fold's precedence is reversed. The result so far is never merged at a
  guarded key, so the last argument's value is the one that survives
  (`GuardedKeyTakesLastArgument`). In the model the same holds for an own `__proto__` key; in
  the source such a key becomes a prototype instead (see "Left out").
- In `defuFn` the callable must be in the earlier (higher-priority) argument:
  `defuFn({a: f}, {a: 1})` is `{a: f(1)}`. `defuFn({a: 1}, {a: f})` is `{a: 1}`, because a
  callable among the defaults is never called.
- A root-level key `""` gives its children the root namespace again. So the namespace is the
  dot-joined key path only when the first key is not empty (`NamespaceIsJoinedPath`).

## Model

| member | source | states |
|---|---|---|
| `Defu.ApplyDefaults` | src/defu.ts:5-63 | The in-place loop over the base's keys, visiting them in any order, returns exactly the specified merge `Merge`. Non-plain defaults are handled by re-running with `{}`. |
| `Defu.CreateDefu` | src/defu.ts:66-70 | The entry point returns `{}` when called with no arguments. |
| `Defu.MergeKey` | src/defu.ts:17-44 | The per-key step writes nothing exactly when the key is `__proto__` or `constructor` or the base value is null/undefined; in every other case it writes a value. What it writes is characterised by `ClaimedKeyHoldsClaim`, `ArraysConcatenate`, `ObjectsRecurse` and `BaseLeafOverrides`. |
| `Defu.Merge` | src/defu.ts:5-63 | A definition without a contract of its own: the specification of `_defu`. `ApplyDefaults` is proved equal to it, and the `MergeProperties` lemmas characterise it key by key. |
| `Defu.Reduce` | src/defu.ts:69 | A definition without a contract of its own: the `reduce` of `createDefu`. `ReduceAppend` and the other `FoldProperties` lemmas characterise it. |
| `Defu.StandardDefu` | src/defu.ts:73 | A definition without a contract of its own: `createDefu()` with no merger. `LeftmostValueWins`, `LeafSticks` and `ArraysConcatenateAcrossArguments` characterise it. |
| `Defu.FnMerger` | src/defu.ts:77-82 | A definition without a contract of its own: the callback of `defuFn`. `FnMergerCallsFunction` and `PresetMergersIgnoreNonCallables` characterise it. |
| `Defu.DefuFn` | src/defu.ts:77-82 | A definition without a contract of its own: `createDefu` with `FnMerger`. `EntryIsLeftFold`, `FunctionAppliedToLaterValue` and `FunctionInLaterArgumentNotCalled` characterise it. |
| `Defu.ArrayFnMerger` | src/defu.ts:85-90 | A definition without a contract of its own: the callback of `defuArrayFn`. `ArrayFnMergerCallsFunction` and `PresetMergersIgnoreNonCallables` characterise it. |
| `Defu.DefuArrayFn` | src/defu.ts:85-90 | A definition without a contract of its own: `createDefu` with `ArrayFnMerger`. `EntryIsLeftFold` and `ArrayFnMergerCallsFunction` characterise it. |
| `MergeProperties.ResultKeys` | src/defu.ts:15-43 | The result's keys are exactly the defaults' keys plus the base keys that are neither guarded nor null/undefined. This holds for every merger; in particular, with no merger there are no other keys. |
| `MergeProperties.DefaultKept` | src/defu.ts:15-26 | A default survives unchanged when the base has no non-null, non-undefined, unguarded value at its key. |
| `MergeProperties.BaseLeafOverrides` | src/defu.ts:41-43 | When the merger does not claim the key and the pair is neither (array, array) nor (plain object, plain object), the base value overwrites the default. |
| `MergeProperties.ArraysConcatenate` | src/defu.ts:32-33 | Two arrays at a key give an array whose length is the sum of both, holding the base elements first, then the default elements. |
| `MergeProperties.ObjectsRecurse` | src/defu.ts:34-40 | Two plain objects at a key give the recursive merge of the two, under the child namespace. |
| `MergeProperties.ClaimedKeyHoldsClaim` | src/defu.ts:28-30 | When the merger claims a key, the result holds what the merger produced and no other rule applies. |
| `MergeProperties.IneffectiveEntriesIgnored` | src/defu.ts:18-26 | Dropping the guarded keys and the null/undefined values from the base does not change the result. |
| `MergeProperties.IneffectiveBaseNeverReachesMerger` | src/defu.ts:18-30 | When the base has only guarded or null/undefined entries, every merger gives the plain copy of the defaults, so the merger is never consulted for them. |
| `MergeProperties.NonPlainDefaultsActAsEmpty` | src/defu.ts:11-13 | Defaults that are not a plain object merge exactly like `{}`. |
| `MergeProperties.NamespaceIsJoinedPath` | src/defu.ts:38 | The child namespace of the dot-joined path `p` is the dot-joined path `p + [key]`, when the first key is not empty. |
| `MergeProperties.SelfMergeIsIdentity` | src/defu.ts:32-43 | With no merger, merging an array-free object with itself returns the object. |
| `FoldProperties.ReduceAppend` | src/defu.ts:69 | Folding one more argument merges the fold so far, as base, with that argument as defaults, under the root namespace. |
| `FoldProperties.EntryIsLeftFold` | src/defu.ts:66-70 | The entry point on `args + [a]` is `_defu(entry(args), a, "", merger)`, so it is the left fold starting from `{}`. |
| `FoldProperties.SingleArgumentIsCopy` | src/defu.ts:66-70 | With one argument, the entry point returns a copy of that argument's properties (`{}` for a non-object). |
| `FoldProperties.NullishStaysNullish` | src/defu.ts:66-70 | From a result with no value at a key, arguments that give that key no value leave it null, undefined or missing, for any merger. |
| `FoldProperties.LeafSticks` | src/defu.ts:66-70 | In `defu`, once the result holds a leaf at an unguarded key, no later argument changes it. |
| `FoldProperties.LeftmostValueWinsFrom` | src/defu.ts:66-70 | Take any starting result with no value at an unguarded key. In `defu`, the first argument with a non-null/undefined leaf there decides the key. |
| `FoldProperties.LeftmostValueWins` | src/defu.ts:66-70 | In `defu`, at an unguarded key, the leftmost argument with a non-null/undefined leaf value decides the result. |
| `FoldProperties.NoValueStaysNullish` | src/defu.ts:66-70 | For any entry point, a key that no argument gives a value is null, undefined or missing in the result. |
| `FoldProperties.ArraysAccumulate` | src/defu.ts:66-70 | In `defu`, once the result holds an array at an unguarded key, the arrays of all later arguments there are appended in argument order, and their non-array values there are ignored. |
| `FoldProperties.ArraysConcatenateFrom` | src/defu.ts:66-70 | Take any starting result with no value at an unguarded key. In `defu`, if argument `i` holds an array there and no earlier argument holds a value, the result is the concatenation of the arrays of argument `i` and all later arguments, in argument order. |
| `FoldProperties.ArraysConcatenateAcrossArguments` | src/defu.ts:66-70 | In `defu`, at an unguarded key, if argument `i` holds an array and no earlier argument holds a value, the result is the arrays of argument `i` and all later arguments concatenated in argument order; later non-array values are ignored. |
| `FoldProperties.GuardedKeyTakesLastArgument` | src/defu.ts:18-20 | For `__proto__` and `constructor`, every entry point's result holds the last argument's value, whatever the merger. For `__proto__` this describes the flat-map model only (see "Left out"). |
| `PresetProperties.FnMergerCallsFunction` | src/defu.ts:77-82 | Under `defuFn`'s merger, a callable base value is called on the defined value already at its key. Over an undefined or missing value it is stored as a leaf. |
| `PresetProperties.ArrayFnMergerCallsFunction` | src/defu.ts:85-90 | Under `defuArrayFn`'s merger, a callable base value is called only on an array already at its key. Over anything else it is stored as a leaf. |
| `PresetProperties.PresetMergersIgnoreNonCallables` | src/defu.ts:77-90 | Neither preset merger claims a value that is not callable, so the standard rules apply to such values. |
| `Examples.NoArguments` | src/defu.ts:66-70 | `defu()` is `{}`. |
| `Examples.ArraysJoin` | src/defu.ts:32-33 | `defu({x: [1, 2]}, {x: [3, 4]})` is `{x: [1, 2, 3, 4]}`. |
| `Examples.NestedObjectsMerge` | src/defu.ts:34-40 | `defu({a: {b: 1}}, {a: {b: 2, c: 3}})` is `{a: {b: 1, c: 3}}`. |
| `Examples.InnerMerge` | src/defu.ts:34-43 | The nested step of that example, under namespace `a`, is `{b: 1, c: 3}`. |
| `Examples.NullNeverOverrides` | src/defu.ts:24-26 | `defu({a: null}, {a: 5})` is `{a: 5}`. |
| `Examples.PrototypeKeyNotMerged` | src/defu.ts:18-20 | `defu({__proto__: {polluted: true}}, {})`, with `__proto__` as an own key, is `{}`. |
| `Examples.ArrayKeptOverLaterLeaf` | src/defu.ts:32-42 | `defu({x: [1]}, {x: 5}, {x: [2]}).x` is `[1, 2]`. |
| `Examples.SelfMergeDoublesArrays` | src/defu.ts:32-33 | Merging `{x: [1]}` with itself gives `{x: [1, 1]}`: the merge is not idempotent on arrays. |
| `Examples.FunctionAppliedToLaterValue` | src/defu.ts:77-82 | `defuFn({a: f}, {a: 1})` is `{a: f(1)}`. |
| `Examples.FunctionInLaterArgumentNotCalled` | src/defu.ts:77-82 | `defuFn({a: 1}, {a: f})` is `{a: 1}`. |

## Left out

- Inherited enumerable keys: `for..in` walks the prototype chain (src/defu.ts:48-50). Objects here are flat maps with no prototype chain.
- Symbol-keyed properties and their property descriptors (src/defu.ts:53-60). Keys are strings only.
- `Object.assign` treats an own `__proto__` key of `defaults` as the prototype setter (src/defu.ts:15). The model copies such a key as an ordinary entry. This affects any call in which an argument, or a nested default, has an own `__proto__` key: in the source that object becomes the result's prototype, and its enumerable keys then reach later merges through `for..in` (src/defu.ts:48).
- `Examples.PrototypeKeyNotMerged`: holds only in the flat-map model. In the source, `defu` on an argument parsed from `{"__proto__": {"polluted": true}}` followed by `{}` gives `{polluted: true}`, by the inherited-key route above.
- Keys inherited from the object prototype: in the source a result object inherits `toString`, `valueOf` and similar, so `object[key]` at such a key is not `undefined` even when the defaults lack it. `defuFn({valueOf: f}, {})` therefore calls `f` in the source, while the model reads a missing key as `undefined` and stores `f`.
- Mergers in general: the model's merger sees only the value at the key, and it can only claim the key by writing a new value there. It cannot read or write other keys, and it cannot return true without writing. The shipped mergers fit this shape. Because each visit then touches only its own key, the enumeration order of the base's keys cannot be observed, and the loop in `ApplyDefaults` takes them in any order.
- Calling functions: a callable is an opaque `Fn(id)`, and calling it is the parameter `apply`.
- `isPlainObject` (from `./_utils`) is not part of this model. Class instances, dates and other non-plain objects are the opaque `Instance(id)` leaves.
- Numbers are unbounded integers. Floating point, `NaN`, bigint and symbol values are not modelled.
- Reference identity: the model has no references. It does not show that untouched default leaves are shared with the input, or that the inputs are not mutated.
- The default namespace `"."` of `_defu` (src/defu.ts:8) is never used, because `createDefu` always passes `""`. The model always passes the namespace explicitly.
- Cyclic inputs cannot be expressed with finite datatypes. Their unbounded recursion is not modelled.
- TypeScript types (`./types`) are not part of this model.
