// Structural helpers on JavaScript objects: recursive merge and deep equality.
module ObjectUtils {
  import opened JsValues

  // ---------------------------------------------------------------------------
  // Deep merge
  // ---------------------------------------------------------------------------

  /** Extends `acc` with each key of `ks` that it does not list yet, in order. */
  function AppendMissing(acc: seq<string>, ks: seq<string>): (r: seq<string>)
    ensures forall k :: k in r <==> k in acc || k in ks
    ensures Distinct(acc) ==> Distinct(r)
    ensures acc <= r
    decreases |ks|
  {
    if ks == [] then acc
    else if ks[0] in acc then AppendMissing(acc, ks[1..])
    else AppendMissing(acc + [ks[0]], ks[1..])
  }

  /** The keys of a merge: the base's keys, then the update's keys the base lacks. */
  function MergedKeys(base: Value, update: Value): seq<string> {
    AppendMissing(Keys(base), Keys(update))
  }

  /**
   * The recursive merge of two objects: each key of either side maps to the
   * merge of both values when both are objects, otherwise to the update's
   * value unless that is `undefined`, in which case to the base's.
   */
  function Merge(base: Value, update: Value): (r: Value)
    requires IsObject(base) && IsObject(update)
    ensures r.Obj?
    decreases base, 1
  {
    Fill(base, update, MergedKeys(base, update), Obj([]))
  }

  /** What a merge stores under key `k`. */
  function MergeValue(base: Value, update: Value, k: string): Value
    requires IsObject(base) && IsObject(update)
    decreases base, 0, 0
  {
    var bv := Prop(base, k);
    var uv := Prop(update, k);
    if IsObject(bv) && IsObject(uv) then
      PropOfKeySmaller(base, k);
      Merge(bv, uv)
    else if uv != Undefined then uv
    else bv
  }

  /** Assigns the merged value of each key of `ks`, in order, onto `acc`. */
  function Fill(base: Value, update: Value, ks: seq<string>, acc: Value): (r: Value)
    requires IsObject(base) && IsObject(update) && acc.Obj?
    ensures r.Obj?
    decreases base, 0, |ks|
  {
    if ks == [] then acc
    else Fill(base, update, ks[1..], SetProp(acc, ks[0], MergeValue(base, update, ks[0])))
  }

  /** One step of `Fill`: the first key is assigned, then the rest. */
  lemma FillStep(base: Value, update: Value, ks: seq<string>, acc: Value)
    requires IsObject(base) && IsObject(update) && acc.Obj? && ks != []
    ensures Fill(base, update, ks, acc) == Fill(base, update, ks[1..], SetProp(acc, ks[0], MergeValue(base, update, ks[0])))
  {
  }

  /** The first loop of `deepMerge`: appends each update key that the base does not list. */
  method CollectKeys(base: Value, update: Value) returns (baseKeys: seq<string>)
    ensures baseKeys == MergedKeys(base, update)
  {
    baseKeys := Keys(base);
    var updateKeys := Keys(update);
    for i := 0 to |updateKeys|
      invariant AppendMissing(baseKeys, updateKeys[i..]) == MergedKeys(base, update)
    {
      assert updateKeys[i..][1..] == updateKeys[i + 1..];
      if updateKeys[i] !in baseKeys {
        baseKeys := baseKeys + [updateKeys[i]];
      }
    }
  }

  /** `deepMerge(base, update)`: collects the keys, then fills a fresh object with them. */
  method DeepMerge(base: Value, update: Value) returns (r: Value)
    requires IsObject(base) && IsObject(update)
    ensures r == Merge(base, update)
    decreases base, 1
  {
    var baseKeys := CollectKeys(base, update);
    r := FillMerged(base, update, baseKeys);
  }

  /** The second loop of `deepMerge`: assigns each key its merged value. */
  method FillMerged(base: Value, update: Value, baseKeys: seq<string>) returns (newObj: Value)
    requires IsObject(base) && IsObject(update)
    requires forall k :: k in baseKeys ==> k in Keys(base) || k in Keys(update)
    ensures newObj == Fill(base, update, baseKeys, Obj([]))
    decreases base, 0
  {
    newObj := Obj([]);
    for i := 0 to |baseKeys|
      invariant newObj.Obj?
      invariant Fill(base, update, baseKeys[i..], newObj) == Fill(base, update, baseKeys, Obj([]))
    {
      FillStep(base, update, baseKeys[i..], newObj);
      assert baseKeys[i..][1..] == baseKeys[i + 1..];
      newObj := AssignMerged(base, update, baseKeys[i], newObj);
    }
  }

  /** The body of the second loop: `newObj[key]` becomes the merged value, recursing into nested objects. */
  method AssignMerged(base: Value, update: Value, key: string, newObj: Value) returns (r: Value)
    requires IsObject(base) && IsObject(update) && newObj.Obj?
    requires key in Keys(base) || key in Keys(update)
    ensures r == SetProp(newObj, key, MergeValue(base, update, key))
    decreases base, 0, 0
  {
    r := newObj;
    if key in Keys(base) || key in Keys(update) {
      var baseValue := Prop(base, key);
      var updateValue := Prop(update, key);
      if IsObject(baseValue) && IsObject(updateValue) {
        PropOfKeySmaller(base, key);
        var merged := DeepMerge(baseValue, updateValue);
        r := SetProp(r, key, merged);
      } else if updateValue != Undefined {
        r := SetProp(r, key, updateValue);
      } else {
        r := SetProp(r, key, baseValue);
      }
    }
  }

  /** The keys filled in are those already present plus those visited. */
  lemma {:induction false} FillMember(base: Value, update: Value, ks: seq<string>, acc: Value, k: string)
    requires IsObject(base) && IsObject(update) && acc.Obj?
    ensures k in Keys(Fill(base, update, ks, acc)) <==> k in Keys(acc) || k in ks
    decreases |ks|
  {
    if ks != [] {
      var next := SetProp(acc, ks[0], MergeValue(base, update, ks[0]));
      FillMember(base, update, ks[1..], next, k);
    }
  }

  /** Filling never repeats a key. */
  lemma {:induction false} FillDistinct(base: Value, update: Value, ks: seq<string>, acc: Value)
    requires IsObject(base) && IsObject(update) && acc.Obj? && Distinct(Keys(acc))
    ensures Distinct(Keys(Fill(base, update, ks, acc)))
    decreases |ks|
  {
    if ks != [] {
      var next := SetProp(acc, ks[0], MergeValue(base, update, ks[0]));
      SetPropKeepsDistinct(acc, ks[0], MergeValue(base, update, ks[0]));
      FillDistinct(base, update, ks[1..], next);
    }
  }

  /** A visited key holds its merged value; any other key keeps what it held. */
  lemma {:induction false} FillProp(base: Value, update: Value, ks: seq<string>, acc: Value, k: string)
    requires IsObject(base) && IsObject(update) && acc.Obj?
    ensures Prop(Fill(base, update, ks, acc), k) == if k in ks then MergeValue(base, update, k) else Prop(acc, k)
    decreases |ks|
  {
    if ks != [] {
      var next := SetProp(acc, ks[0], MergeValue(base, update, ks[0]));
      FillProp(base, update, ks[1..], next, k);
    }
  }

  /** The merge holds the union of the keys, each once. */
  lemma MergeKeys(base: Value, update: Value)
    requires IsObject(base) && IsObject(update)
    ensures forall k :: k in Keys(Merge(base, update)) <==> k in Keys(base) || k in Keys(update)
    ensures Distinct(Keys(Merge(base, update)))
  {
    forall k ensures k in Keys(Merge(base, update)) <==> k in Keys(base) || k in Keys(update) {
      FillMember(base, update, MergedKeys(base, update), Obj([]), k);
    }
    FillDistinct(base, update, MergedKeys(base, update), Obj([]));
  }

  /**
   * A key present on both sides as objects is merged recursively; otherwise
   * the update's value wins unless it is `undefined`, and then the base's
   * value stays.
   */
  lemma MergeProp(base: Value, update: Value, k: string)
    requires IsObject(base) && IsObject(update)
    ensures
      var bv, uv := Prop(base, k), Prop(update, k);
      Prop(Merge(base, update), k) ==
        if IsObject(bv) && IsObject(uv) then Merge(bv, uv)
        else if uv != Undefined then uv
        else bv
  {
    if k in MergedKeys(base, update) {
      MergeStoresMergeValue(base, update, k);
    } else {
      MergeLeavesOut(base, update, k);
    }
  }

  /** A key of either side holds its merged value. */
  lemma MergeStoresMergeValue(base: Value, update: Value, k: string)
    requires IsObject(base) && IsObject(update) && k in MergedKeys(base, update)
    ensures Prop(Merge(base, update), k) == MergeValue(base, update, k)
  {
    FillProp(base, update, MergedKeys(base, update), Obj([]), k);
  }

  /** A key of neither side is absent from the merge. */
  lemma MergeLeavesOut(base: Value, update: Value, k: string)
    requires IsObject(base) && IsObject(update) && k !in MergedKeys(base, update)
    ensures Prop(Merge(base, update), k) == Undefined
  {
    FillProp(base, update, MergedKeys(base, update), Obj([]), k);
  }

  /** A defined entry of the update that is not an object replaces the base's entry. */
  lemma MergePrimitiveWins(base: Value, update: Value, k: string)
    requires IsObject(base) && IsObject(update)
    requires Prop(update, k) != Undefined && !IsObject(Prop(update, k))
    ensures Prop(Merge(base, update), k) == Prop(update, k)
  {
    MergeProp(base, update, k);
  }
  /** An object entry of the update is merged into an object entry of the base and replaces any other. */
  lemma MergeObjectEntry(base: Value, update: Value, k: string)
    requires IsObject(base) && IsObject(update) && Prop(update, k).Obj?
    ensures Prop(Merge(base, update), k) ==
      if IsObject(Prop(base, k)) then Merge(Prop(base, k), Prop(update, k)) else Prop(update, k)
  {
    MergeProp(base, update, k);
  }

  /** A key the update leaves out, or sets to `undefined`, keeps the base's entry. */
  lemma MergeKeepsBase(base: Value, update: Value, k: string)
    requires IsObject(base) && IsObject(update) && Prop(update, k) == Undefined
    ensures Prop(Merge(base, update), k) == Prop(base, k)
  {
    MergeProp(base, update, k);
  }



  // ---------------------------------------------------------------------------
  // Deep equality
  // ---------------------------------------------------------------------------

  /** `arraysAreEqual`: the same length, and every element of the first occurs in the second. */
  method ArraysAreEqual<T(==)>(arr1: seq<T>, arr2: seq<T>) returns (r: bool)
    ensures r <==> |arr1| == |arr2| && forall i :: 0 <= i < |arr1| ==> arr1[i] in arr2
  {
    if |arr1| != |arr2| {
      return false;
    }
    for i := 0 to |arr1|
      invariant forall j :: 0 <= j < i ==> arr1[j] in arr2
    {
      if arr1[i] !in arr2 {
        return false;
      }
    }
    return true;
  }

  /** The condition `arraysAreEqual` decides. */
  predicate SameKeyLists(a: seq<string>, b: seq<string>) {
    |a| == |b| && forall i :: 0 <= i < |a| ==> a[i] in b
  }

  /** A list without repeats has as many distinct elements as entries. */
  lemma {:induction false} DistinctCardinality(s: seq<string>)
    requires Distinct(s)
    ensures |set x | x in s| == |s|
  {
    if s != [] {
      var rest := s[1..];
      DistinctCardinality(rest);
      assert (set x | x in s) == (set x | x in rest) + {s[0]};
      assert s[0] !in (set x | x in rest);
    }
  }

  /** For key lists without repeats the check is symmetric: both list the same keys. */
  lemma SameKeyListsSymmetric(a: seq<string>, b: seq<string>)
    requires Distinct(a) && SameKeyLists(a, b)
    ensures SameKeyLists(b, a)
    ensures forall k :: k in a <==> k in b
  {
    var sa, sb := set x | x in a, set x | x in b;
    forall x | x in sa ensures x in sb {
      var i :| 0 <= i < |a| && a[i] == x;
    }
    DistinctCardinality(a);
    CardinalityAtMostLength(b);
    var extra := sb - sa;
    assert sb == sa + extra;
    assert |sb| == |sa| + |extra|;
    assert |extra| == 0;
    assert sa == sb;
    forall j | 0 <= j < |b| ensures b[j] in a {
      assert b[j] in sb;
    }
  }

  /** A list has at most as many distinct elements as entries. */
  lemma {:induction false} CardinalityAtMostLength(s: seq<string>)
    ensures |set x | x in s| <= |s|
  {
    if s != [] {
      CardinalityAtMostLength(s[1..]);
      assert (set x | x in s) == (set x | x in s[1..]) + {s[0]};
    }
  }

  /**
   * `deepEqual`: identical values are equal; values of different `typeof`, or
   * unequal primitives, are not; two objects are equal when their key lists
   * pass `arraysAreEqual` and every key of the first holds deep-equal values.
   */
  function DeepEqual(a: Value, b: Value): bool
    decreases a, 1
  {
    if StrictEquals(a, b) then true
    else if TypeOf(a) != TypeOf(b) then false
    else if TypeOf(a) in {"string", "number", "boolean"} then false
    else if a == Null || b == Null then false
    else SameKeyLists(Keys(a), Keys(b)) && PropsDeepEqual(a, b, Keys(a))
  }

  /** The loop over the first object's keys, stopping at the first unequal property. */
  function PropsDeepEqual(a: Value, b: Value, ks: seq<string>): bool
    requires forall k :: k in ks ==> k in Keys(a)
    decreases a, 0, |ks|
  {
    if ks == [] then true
    else
      PropOfKeySmaller(a, ks[0]);
      DeepEqual(Prop(a, ks[0]), Prop(b, ks[0])) && PropsDeepEqual(a, b, ks[1..])
  }

  /** The loop succeeds exactly when every visited key holds deep-equal values. */
  lemma {:induction false} PropsDeepEqualAll(a: Value, b: Value, ks: seq<string>)
    requires forall k :: k in ks ==> k in Keys(a)
    ensures PropsDeepEqual(a, b, ks) <==> forall k :: k in ks ==> DeepEqual(Prop(a, k), Prop(b, k))
    decreases |ks|
  {
    if ks != [] {
      PropsDeepEqualAll(a, b, ks[1..]);
    }
  }

  /** Every value is deep-equal to itself, objects included although they are never identical. */
  lemma {:induction false} DeepEqualReflexive(a: Value)
    ensures DeepEqual(a, a)
    decreases a
  {
    if IsObject(a) {
      forall k | k in Keys(a) ensures DeepEqual(Prop(a, k), Prop(a, k)) {
        PropOfKeySmaller(a, k);
        DeepEqualReflexive(Prop(a, k));
      }
      PropsDeepEqualAll(a, a, Keys(a));
    }
  }

  /** The properties of a well-formed object are well-formed. */
  lemma PropWellFormed(v: Value, k: string)
    requires WellFormed(v)
    ensures WellFormed(Prop(v, k))
  {
  }

  /** On well-formed values deep equality does not depend on the order of its arguments. */
  lemma {:induction false} DeepEqualSymmetric(a: Value, b: Value)
    requires WellFormed(a) && WellFormed(b)
    ensures DeepEqual(a, b) <==> DeepEqual(b, a)
    decreases a, 1
  {
    if IsObject(a) && IsObject(b) {
      ObjectsDeepEqual(a, b);
      ObjectsDeepEqual(b, a);
      if SameKeyLists(Keys(a), Keys(b)) || SameKeyLists(Keys(b), Keys(a)) {
        KeyListsAgree(a, b);
        forall k | k in Keys(a) ensures DeepEqual(Prop(a, k), Prop(b, k)) <==> DeepEqual(Prop(b, k), Prop(a, k)) {
          PropDeepEqualSymmetric(a, b, k);
        }
      }
    }
  }

  /** Two objects are deep-equal when their key lists pass the check and every key of the first holds deep-equal values. */
  lemma ObjectsDeepEqual(a: Value, b: Value)
    requires IsObject(a) && IsObject(b)
    ensures DeepEqual(a, b) <==>
      SameKeyLists(Keys(a), Keys(b)) && forall k :: k in Keys(a) ==> DeepEqual(Prop(a, k), Prop(b, k))
  {
    PropsDeepEqualAll(a, b, Keys(a));
  }

  /** The properties under one key of two well-formed values compare the same both ways. */
  lemma {:induction false} PropDeepEqualSymmetric(a: Value, b: Value, k: string)
    requires WellFormed(a) && WellFormed(b) && k in Keys(a)
    ensures DeepEqual(Prop(a, k), Prop(b, k)) <==> DeepEqual(Prop(b, k), Prop(a, k))
    decreases a, 0
  {
    PropOfKeySmaller(a, k);
    PropWellFormed(a, k);
    PropWellFormed(b, k);
    DeepEqualSymmetric(Prop(a, k), Prop(b, k));
  }

  /** When either key list passes the check against the other, both do and they list the same keys. */
  lemma KeyListsAgree(a: Value, b: Value)
    requires WellFormed(a) && WellFormed(b) && IsObject(a) && IsObject(b)
    requires SameKeyLists(Keys(a), Keys(b)) || SameKeyLists(Keys(b), Keys(a))
    ensures SameKeyLists(Keys(a), Keys(b)) && SameKeyLists(Keys(b), Keys(a))
    ensures forall k :: k in Keys(a) <==> k in Keys(b)
  {
    if a.Arr? { ArrayKeysDistinct(a); }
    if b.Arr? { ArrayKeysDistinct(b); }
    if SameKeyLists(Keys(a), Keys(b)) {
      SameKeyListsSymmetric(Keys(a), Keys(b));
    } else {
      SameKeyListsSymmetric(Keys(b), Keys(a));
    }
  }

}
