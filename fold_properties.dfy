/** What the entry points built by `createDefu` promise: a left fold of `_defu` over the
    arguments, so that every argument has priority over all the arguments to its right. */
module FoldProperties {
  import opened Values
  import opened Defu
  import opened MergeProperties

  /** What an argument offers at `key`; an argument that is not a plain object is merged in as `{}`. */
  function ValueAt(arg: Value, key: string): Value {
    Get(AsDefaults(arg), key)
  }

  /** The elements of the arrays the arguments hold at `key`, in argument order. */
  function ArraysAt(args: seq<Value>, key: string): seq<Value> {
    if args == [] then []
    else (if ValueAt(args[0], key).Arr? then ValueAt(args[0], key).items else []) + ArraysAt(args[1..], key)
  }

  /** One more argument merges the result so far, as base, with that argument as defaults. */
  lemma {:induction false} ReduceAppend(merger: Merger, acc: map<string, Value>, args: seq<Value>, last: Value)
    ensures Reduce(merger, acc, args + [last]) == Merge(Reduce(merger, acc, args), last, "", merger)
    decreases |args|
  {
    if args == [] {
      assert args + [last] == [last];
    } else {
      assert (args + [last])[1..] == args[1..] + [last];
      ReduceAppend(merger, Merge(acc, args[0], "", merger), args[1..], last);
    }
  }

  /** The entry point is the left fold `_defu(... _defu(_defu({}, a1), a2) ..., an)`. */
  lemma EntryIsLeftFold(merger: Merger, args: seq<Value>, last: Value)
    ensures CreateDefu(merger)(args + [last]) == Merge(CreateDefu(merger)(args), last, "", merger)
  {
    ReduceAppend(merger, map[], args, last);
  }

  /** With a single argument the entry point returns a copy of its properties. */
  lemma SingleArgumentIsCopy(merger: Merger, arg: Value)
    ensures CreateDefu(merger)([arg]) == AsDefaults(arg)
  {
    assert [arg][1..] == [];
    assert Reduce(merger, map[], [arg]) == Merge(map[], arg, "", merger);
    IneffectiveBaseNeverReachesMerger(map[], arg, "", merger);
  }

  /** A key that no argument gives a value stays null or undefined, whatever the merger. */
  lemma {:induction false} NullishStaysNullish(merger: Merger, acc: map<string, Value>, args: seq<Value>, key: string)
    requires IsNullish(Get(acc, key))
    requires forall j :: 0 <= j < |args| ==> IsNullish(ValueAt(args[j], key))
    ensures IsNullish(Get(Reduce(merger, acc, args), key))
    decreases |args|
  {
    if args != [] {
      var next := Merge(acc, args[0], "", merger);
      MergeAt(acc, args[0], "", merger, key);
      assert IsNullish(Get(next, key));
      NullishStaysNullish(merger, next, args[1..], key);
    }
  }

  /** Once the result holds a leaf at `key`, the later arguments of `defu` cannot replace it. */
  lemma {:induction false} LeafSticks(acc: map<string, Value>, args: seq<Value>, key: string)
    requires !IsGuardedKey(key)
    requires IsLeaf(Get(acc, key))
    ensures Get(Reduce(NoMerger, acc, args), key) == Get(acc, key)
    decreases |args|
  {
    if args != [] {
      var next := Merge(acc, args[0], "", NoMerger);
      BaseLeafOverrides(acc, args[0], "", NoMerger, key);
      LeafSticks(next, args[1..], key);
    }
  }

  /** `LeftmostValueWins`, from an arbitrary starting result that has no value at `key`. */
  lemma {:induction false} LeftmostValueWinsFrom(acc: map<string, Value>, args: seq<Value>, i: nat, key: string)
    requires !IsGuardedKey(key)
    requires IsNullish(Get(acc, key))
    requires i < |args|
    requires forall j :: 0 <= j < i ==> IsNullish(ValueAt(args[j], key))
    requires IsLeaf(ValueAt(args[i], key))
    ensures Get(Reduce(NoMerger, acc, args), key) == ValueAt(args[i], key)
    decreases i
  {
    var next := Merge(acc, args[0], "", NoMerger);
    MergeAt(acc, args[0], "", NoMerger, key);
    if i == 0 {
      LeafSticks(next, args[1..], key);
    } else {
      LeftmostValueWinsFrom(next, args[1..], i - 1, key);
    }
  }

  /** In `defu`, the leftmost argument that has a value at `key` decides it, when that value is a
      leaf. */
  lemma LeftmostValueWins(args: seq<Value>, i: nat, key: string)
    requires !IsGuardedKey(key)
    requires i < |args|
    requires forall j :: 0 <= j < i ==> IsNullish(ValueAt(args[j], key))
    requires IsLeaf(ValueAt(args[i], key))
    ensures Get(StandardDefu()(args), key) == ValueAt(args[i], key)
  {
    LeftmostValueWinsFrom(map[], args, i, key);
  }

  /** In any entry point, a key none of the arguments gives a value is null or undefined in the
      result (or missing). */
  lemma NoValueStaysNullish(merger: Merger, args: seq<Value>, key: string)
    requires forall j :: 0 <= j < |args| ==> IsNullish(ValueAt(args[j], key))
    ensures IsNullish(Get(CreateDefu(merger)(args), key))
  {
    NullishStaysNullish(merger, map[], args, key);
  }

  /** Once the result holds an array at `key`, `defu` appends the arrays of later arguments;
      their other values there are ignored. */
  lemma {:induction false} ArraysAccumulate(acc: map<string, Value>, args: seq<Value>, key: string)
    requires !IsGuardedKey(key)
    requires Get(acc, key).Arr?
    ensures Get(Reduce(NoMerger, acc, args), key) == Arr(Get(acc, key).items + ArraysAt(args, key))
    decreases |args|
  {
    if args != [] {
      var next := Merge(acc, args[0], "", NoMerger);
      MergeAt(acc, args[0], "", NoMerger, key);
      var xs := Get(acc, key).items;
      var ys := if ValueAt(args[0], key).Arr? then ValueAt(args[0], key).items else [];
      assert xs + [] == xs;
      assert Get(next, key) == Arr(xs + ys);
      ArraysAccumulate(next, args[1..], key);
      assert xs + ys + ArraysAt(args[1..], key) == xs + ArraysAt(args, key);
    }
  }

  /** `ArraysConcatenateAcrossArguments`, from an arbitrary starting result that has no value at `key`. */
  lemma {:induction false} ArraysConcatenateFrom(acc: map<string, Value>, args: seq<Value>, i: nat, key: string)
    requires !IsGuardedKey(key)
    requires IsNullish(Get(acc, key))
    requires i < |args|
    requires forall j :: 0 <= j < i ==> IsNullish(ValueAt(args[j], key))
    requires ValueAt(args[i], key).Arr?
    ensures Get(Reduce(NoMerger, acc, args), key) == Arr(ArraysAt(args, key))
    decreases i
  {
    var next := Merge(acc, args[0], "", NoMerger);
    MergeAt(acc, args[0], "", NoMerger, key);
    if i == 0 {
      ArraysAccumulate(next, args[1..], key);
    } else {
      ArraysConcatenateFrom(next, args[1..], i - 1, key);
    }
  }

  /** In `defu`, when argument `i` holds an array at `key` and no earlier argument holds a value
      there, the result is the concatenation of the arrays that argument `i` and all later
      arguments hold at `key`, in argument order. */
  lemma ArraysConcatenateAcrossArguments(args: seq<Value>, i: nat, key: string)
    requires !IsGuardedKey(key)
    requires i < |args|
    requires forall j :: 0 <= j < i ==> IsNullish(ValueAt(args[j], key))
    requires ValueAt(args[i], key).Arr?
    ensures Get(StandardDefu()(args), key) == Arr(ArraysAt(args, key))
  {
    ArraysConcatenateFrom(map[], args, i, key);
  }

  /** The guard works against the fold's own precedence: a guarded key is never merged from the
      result so far, so the result holds whatever the LAST argument has there. */
  lemma GuardedKeyTakesLastArgument(merger: Merger, args: seq<Value>, key: string)
    requires IsGuardedKey(key)
    requires |args| > 0
    ensures Get(CreateDefu(merger)(args), key) == ValueAt(args[|args| - 1], key)
  {
    var init, last := args[..|args| - 1], args[|args| - 1];
    assert args == init + [last];
    ReduceAppend(merger, map[], init, last);
    MergeAt(Reduce(merger, map[], init), last, "", merger, key);
  }
}
