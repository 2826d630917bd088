/** What one call of `_defu` promises, key by key. */
module MergeProperties {
  import opened Values
  import opened Defu

  /** A base entry that takes part in the merge: not a guarded key and not null or undefined. */
  predicate Effective(base: map<string, Value>, key: string) {
    key in base && !IsGuardedKey(key) && !IsNullish(base[key])
  }

  /** The merge seen at one key: `Merge` unfolded once, through the non-plain-defaults case. */
  lemma MergeAt(base: map<string, Value>, defaults: Value, namespace: string, merger: Merger, key: string)
    ensures var r, d := Merge(base, defaults, namespace, merger), AsDefaults(defaults);
      && (key in r <==> key in d || Visit(base, d, key, namespace, merger).Some?)
      && (key in r ==> r[key] == if Visit(base, d, key, namespace, merger).Some?
                                 then Visit(base, d, key, namespace, merger).value
                                 else d[key])
  {
    if !IsPlainObject(defaults) {
      assert Merge(base, defaults, namespace, merger) == Merge(base, Obj(map[]), namespace, merger);
    }
  }

  /** The result holds exactly the keys of the defaults and the effective keys of the base,
      whatever the merger does. */
  lemma ResultKeys(base: map<string, Value>, defaults: Value, namespace: string, merger: Merger, key: string)
    ensures key in Merge(base, defaults, namespace, merger) <==>
      key in AsDefaults(defaults) || Effective(base, key)
  {
    MergeAt(base, defaults, namespace, merger, key);
  }

  /** A default survives unchanged unless the base has an effective value at its key. */
  lemma DefaultKept(base: map<string, Value>, defaults: Value, namespace: string, merger: Merger, key: string)
    requires key in AsDefaults(defaults) && !Effective(base, key)
    ensures key in Merge(base, defaults, namespace, merger)
    ensures Merge(base, defaults, namespace, merger)[key] == AsDefaults(defaults)[key]
  {
    MergeAt(base, defaults, namespace, merger, key);
  }

  /** Unless the merger claims the key or both sides are arrays or both plain objects, the base
      value overwrites the default. */
  lemma BaseLeafOverrides(base: map<string, Value>, defaults: Value, namespace: string, merger: Merger, key: string)
    requires Effective(base, key)
    requires Claim(merger, Get(AsDefaults(defaults), key), key, base[key], namespace).None?
    requires !(base[key].Arr? && Get(AsDefaults(defaults), key).Arr?)
    requires !(IsPlainObject(base[key]) && IsPlainObject(Get(AsDefaults(defaults), key)))
    ensures key in Merge(base, defaults, namespace, merger)
    ensures Merge(base, defaults, namespace, merger)[key] == base[key]
  {
    MergeAt(base, defaults, namespace, merger, key);
  }

  /** Two arrays at the same key concatenate, base elements first. */
  lemma ArraysConcatenate(base: map<string, Value>, defaults: Value, namespace: string, merger: Merger, key: string)
    requires Effective(base, key) && base[key].Arr?
    requires Get(AsDefaults(defaults), key).Arr?
    requires Claim(merger, Get(AsDefaults(defaults), key), key, base[key], namespace).None?
    ensures key in Merge(base, defaults, namespace, merger)
    ensures var merged := Merge(base, defaults, namespace, merger)[key];
      var xs, ys := base[key].items, AsDefaults(defaults)[key].items;
      && merged.Arr?
      && |merged.items| == |xs| + |ys|
      && merged.items[..|xs|] == xs
      && merged.items[|xs|..] == ys
  {
    MergeAt(base, defaults, namespace, merger, key);
  }

  /** Two plain objects at the same key are merged recursively, one namespace level down. */
  lemma ObjectsRecurse(base: map<string, Value>, defaults: Value, namespace: string, merger: Merger, key: string)
    requires Effective(base, key) && IsPlainObject(base[key])
    requires IsPlainObject(Get(AsDefaults(defaults), key))
    requires Claim(merger, Get(AsDefaults(defaults), key), key, base[key], namespace).None?
    ensures key in Merge(base, defaults, namespace, merger)
    ensures Merge(base, defaults, namespace, merger)[key] ==
      Obj(Merge(base[key].fields, AsDefaults(defaults)[key], ChildNamespace(namespace, key), merger))
  {
    MergeAt(base, defaults, namespace, merger, key);
  }

  /** A claimed key holds what the merger produced, and no other rule applies to it. */
  lemma ClaimedKeyHoldsClaim(base: map<string, Value>, defaults: Value, namespace: string, merger: Merger, key: string, claimed: Value)
    requires Effective(base, key)
    requires Claim(merger, Get(AsDefaults(defaults), key), key, base[key], namespace) == Some(claimed)
    ensures key in Merge(base, defaults, namespace, merger)
    ensures Merge(base, defaults, namespace, merger)[key] == claimed
  {
    MergeAt(base, defaults, namespace, merger, key);
  }

  /** Guarded keys and null or undefined base values never change the result: dropping them from
      the base gives the same merge. */
  lemma IneffectiveEntriesIgnored(base: map<string, Value>, defaults: Value, namespace: string, merger: Merger)
    ensures Merge(base, defaults, namespace, merger) ==
      Merge(map k | k in base && Effective(base, k) :: base[k], defaults, namespace, merger)
  {
    var effective := map k | k in base && Effective(base, k) :: base[k];
    var r, r' := Merge(base, defaults, namespace, merger), Merge(effective, defaults, namespace, merger);
    forall k ensures k in r <==> k in r'
      ensures k in r ==> r[k] == r'[k]
    {
      MergeAt(base, defaults, namespace, merger, k);
      MergeAt(effective, defaults, namespace, merger, k);
    }
  }

  /** ... and they never reach the merger: when the base has no effective entry, every merger
      gives the plain copy of the defaults. */
  lemma IneffectiveBaseNeverReachesMerger(base: map<string, Value>, defaults: Value, namespace: string, merger: Merger)
    requires forall k :: k in base ==> !Effective(base, k)
    ensures Merge(base, defaults, namespace, merger) == AsDefaults(defaults)
  {
    var r := Merge(base, defaults, namespace, merger);
    forall k ensures k in r <==> k in AsDefaults(defaults)
      ensures k in r ==> r[k] == AsDefaults(defaults)[k]
    {
      MergeAt(base, defaults, namespace, merger, k);
    }
  }

  /** Defaults that are not a plain object behave exactly like `{}`. */
  lemma NonPlainDefaultsActAsEmpty(base: map<string, Value>, defaults: Value, namespace: string, merger: Merger)
    requires !IsPlainObject(defaults)
    ensures Merge(base, defaults, namespace, merger) == Merge(base, Obj(map[]), namespace, merger)
  {
  }

  /** The dot-joined path of keys from the root. */
  function JoinPath(path: seq<string>): string {
    if |path| == 0 then ""
    else if |path| == 1 then path[0]
    else JoinPath(path[..|path| - 1]) + "." + path[|path| - 1]
  }

  /** Nested merges see the dot-joined path of keys that leads to them, provided the first key is
      not the empty string (an empty root key yields the root namespace again). */
  lemma {:induction false} NamespaceIsJoinedPath(path: seq<string>, key: string)
    requires |path| > 0 ==> path[0] != ""
    ensures ChildNamespace(JoinPath(path), key) == JoinPath(path + [key])
  {
    var extended := path + [key];
    assert extended[..|extended| - 1] == path;
    if |path| > 1 {
      assert JoinPath(path) != "" by {
        assert |JoinPath(path)| >= 1;
      }
    }
  }

  /** Merging a plain object with itself as its own defaults gives it back, as long as it holds
      no array anywhere (arrays would be doubled, see the examples). */
  lemma {:induction false} SelfMergeIsIdentity(m: map<string, Value>, namespace: string)
    requires ArrayFree(Obj(m))
    ensures Merge(m, Obj(m), namespace, NoMerger) == m
    decreases Obj(m)
  {
    var r := Merge(m, Obj(m), namespace, NoMerger);
    forall k ensures k in r <==> k in m
      ensures k in r ==> r[k] == m[k]
    {
      MergeAt(m, Obj(m), namespace, NoMerger, k);
      if k in m && !IsGuardedKey(k) && !IsNullish(m[k]) && IsPlainObject(m[k]) {
        SelfMergeIsIdentity(m[k].fields, ChildNamespace(namespace, k));
      }
    }
  }
}
