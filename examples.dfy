/** Concrete merges: the documented behaviour of `defu` and its presets on small inputs. */
module Examples {
  import opened Values
  import opened Defu
  import opened MergeProperties
  import opened FoldProperties

  /** `defu()` is `{}`. */
  lemma NoArguments()
    ensures StandardDefu()([]) == map[]
  {
  }

  /** `defu({x: [1, 2]}, {x: [3, 4]})` is `{x: [1, 2, 3, 4]}`. */
  lemma ArraysJoin()
    ensures StandardDefu()([Obj(map["x" := Arr([Num(1), Num(2)])]), Obj(map["x" := Arr([Num(3), Num(4)])])])
      == map["x" := Arr([Num(1), Num(2), Num(3), Num(4)])]
  {
    var a, b := Obj(map["x" := Arr([Num(1), Num(2)])]), Obj(map["x" := Arr([Num(3), Num(4)])]);
    assert [a, b] == [a] + [b];
    EntryIsLeftFold(NoMerger, [a], b);
    SingleArgumentIsCopy(NoMerger, a);
    var r := Merge(a.fields, b, "", NoMerger);
    forall k ensures k in r <==> k == "x" {
      ResultKeys(a.fields, b, "", NoMerger, k);
    }
    ArraysConcatenate(a.fields, b, "", NoMerger, "x");
    assert r["x"].items == [Num(1), Num(2), Num(3), Num(4)];
  }

  /** `defu({a: {b: 1}}, {a: {b: 2, c: 3}})` is `{a: {b: 1, c: 3}}`. */
  lemma NestedObjectsMerge()
    ensures StandardDefu()([Obj(map["a" := Obj(map["b" := Num(1)])]), Obj(map["a" := Obj(map["b" := Num(2), "c" := Num(3)])])])
      == map["a" := Obj(map["b" := Num(1), "c" := Num(3)])]
  {
    var a, b := Obj(map["a" := Obj(map["b" := Num(1)])]), Obj(map["a" := Obj(map["b" := Num(2), "c" := Num(3)])]);
    assert [a, b] == [a] + [b];
    EntryIsLeftFold(NoMerger, [a], b);
    SingleArgumentIsCopy(NoMerger, a);
    InnerMerge();
    var inner := map["b" := Num(1), "c" := Num(3)];
    var r := Merge(a.fields, b, "", NoMerger);
    forall k ensures k in r <==> k == "a" {
      ResultKeys(a.fields, b, "", NoMerger, k);
    }
    ObjectsRecurse(a.fields, b, "", NoMerger, "a");
    assert ChildNamespace("", "a") == "a";
    assert r["a"] == Obj(inner);
  }

  /** The nested step of `NestedObjectsMerge`, one namespace level down. */
  lemma InnerMerge()
    ensures Merge(map["b" := Num(1)], Obj(map["b" := Num(2), "c" := Num(3)]), "a", NoMerger)
      == map["b" := Num(1), "c" := Num(3)]
  {
    var base, defaults := map["b" := Num(1)], Obj(map["b" := Num(2), "c" := Num(3)]);
    var inner := Merge(base, defaults, "a", NoMerger);
    forall k ensures k in inner <==> k == "b" || k == "c" {
      ResultKeys(base, defaults, "a", NoMerger, k);
    }
    BaseLeafOverrides(base, defaults, "a", NoMerger, "b");
    DefaultKept(base, defaults, "a", NoMerger, "c");
  }

  /** `defu({a: null}, {a: 5})` is `{a: 5}`. */
  lemma NullNeverOverrides()
    ensures StandardDefu()([Obj(map["a" := Null]), Obj(map["a" := Num(5)])]) == map["a" := Num(5)]
  {
    var a, b := Obj(map["a" := Null]), Obj(map["a" := Num(5)]);
    assert [a, b] == [a] + [b];
    EntryIsLeftFold(NoMerger, [a], b);
    SingleArgumentIsCopy(NoMerger, a);
    var r := Merge(a.fields, b, "", NoMerger);
    forall k ensures k in r <==> k == "a" {
      ResultKeys(a.fields, b, "", NoMerger, k);
    }
    MergeAt(a.fields, b, "", NoMerger, "a");
  }

  /** `defu({__proto__: {polluted: true}}, {})` is `{}` when `__proto__` is an own key of the first
      argument: the guarded key is not merged. */
  lemma PrototypeKeyNotMerged()
    ensures StandardDefu()([Obj(map["__proto__" := Obj(map["polluted" := Bool(true)])]), Obj(map[])]) == map[]
  {
    var a, b := Obj(map["__proto__" := Obj(map["polluted" := Bool(true)])]), Obj(map[]);
    assert [a, b] == [a] + [b];
    EntryIsLeftFold(NoMerger, [a], b);
    SingleArgumentIsCopy(NoMerger, a);
    IneffectiveBaseNeverReachesMerger(a.fields, b, "", NoMerger);
  }

  /** Merging `{x: [1]}` with itself doubles the array: the merge is not idempotent on arrays. */
  lemma SelfMergeDoublesArrays()
    ensures Merge(map["x" := Arr([Num(1)])], Obj(map["x" := Arr([Num(1)])]), "", NoMerger)
      == map["x" := Arr([Num(1), Num(1)])]
  {
    var base, defaults := map["x" := Arr([Num(1)])], Obj(map["x" := Arr([Num(1)])]);
    var r := Merge(base, defaults, "", NoMerger);
    forall k ensures k in r <==> k == "x" {
      ResultKeys(base, defaults, "", NoMerger, k);
    }
    ArraysConcatenate(base, defaults, "", NoMerger, "x");
    assert r["x"].items == [Num(1), Num(1)];
  }

  /** `defuFn({a: f}, {a: 1})` is `{a: f(1)}`; the callable must sit in the earlier argument. */
  lemma FunctionAppliedToLaterValue(apply: (nat, Value) -> Value)
    ensures DefuFn(apply)([Obj(map["a" := Fn(0)]), Obj(map["a" := Num(1)])]) == map["a" := apply(0, Num(1))]
  {
    var a, b := Obj(map["a" := Fn(0)]), Obj(map["a" := Num(1)]);
    assert [a, b] == [a] + [b];
    EntryIsLeftFold(FnMerger(apply), [a], b);
    SingleArgumentIsCopy(FnMerger(apply), a);
    var r := Merge(a.fields, b, "", FnMerger(apply));
    forall k ensures k in r <==> k == "a" {
      ResultKeys(a.fields, b, "", FnMerger(apply), k);
    }
    MergeAt(a.fields, b, "", FnMerger(apply), "a");
  }

  /** `defuFn({a: 1}, {a: f})` is `{a: 1}`: a callable among the defaults is never called. */
  lemma FunctionInLaterArgumentNotCalled(apply: (nat, Value) -> Value)
    ensures DefuFn(apply)([Obj(map["a" := Num(1)]), Obj(map["a" := Fn(0)])]) == map["a" := Num(1)]
  {
    var a, b := Obj(map["a" := Num(1)]), Obj(map["a" := Fn(0)]);
    assert [a, b] == [a] + [b];
    EntryIsLeftFold(FnMerger(apply), [a], b);
    SingleArgumentIsCopy(FnMerger(apply), a);
    var r := Merge(a.fields, b, "", FnMerger(apply));
    forall k ensures k in r <==> k == "a" {
      ResultKeys(a.fields, b, "", FnMerger(apply), k);
    }
    MergeAt(a.fields, b, "", FnMerger(apply), "a");
  }

  /** `defu({x: [1]}, {x: 5}, {x: [2]}).x` is `[1, 2]`: an array in the result is kept over a later
      non-array value and still collects later arrays. */
  lemma ArrayKeptOverLaterLeaf()
    ensures Get(StandardDefu()([Obj(map["x" := Arr([Num(1)])]), Obj(map["x" := Num(5)]), Obj(map["x" := Arr([Num(2)])])]), "x")
      == Arr([Num(1), Num(2)])
  {
    var args := [Obj(map["x" := Arr([Num(1)])]), Obj(map["x" := Num(5)]), Obj(map["x" := Arr([Num(2)])])];
    ArraysConcatenateAcrossArguments(args, 0, "x");
    assert args[1..][1..][1..] == [];
    assert ArraysAt(args, "x") == [Num(1)] + ([] + ([Num(2)] + []));
  }
}
