/**
 * The request descriptors of the key/value client (kv-store/request.ts): a
 * shallow left-to-right `merge` of plain objects, the three default records,
 * and the constructors that lay caller options over them.
 */
module Requests {
  import opened JsValues

  /** Request type tags. */
  const GetRequestType: string := "GetRequest"
  const UpdateRequestType: string := "UpdateRequest"
  const DeleteRequestType: string := "DeleteRequest"

  /** `{ path: '' }` */
  const EmptyKey: Value := Obj([Field("path", Str(""))])

  const DefaultGetRequest: Value := Obj([
    Field("type", Str(GetRequestType)),
    Field("apiVersion", Str("v1")),
    Field("section", Str("kv")),
    Field("subsection", Undefined),
    Field("index", Undefined),
    Field("key", EmptyKey),
    Field("token", Str(""))
  ])

  const DefaultUpdateRequest: Value := Obj([
    Field("type", Str(UpdateRequestType)),
    Field("apiVersion", Str("v1")),
    Field("section", Str("kv")),
    Field("subsection", Undefined),
    Field("index", Undefined),
    Field("key", EmptyKey),
    Field("value", Str(""))
  ])

  const DefaultDeleteRequest: Value := Obj([
    Field("type", Str(DeleteRequestType)),
    Field("apiVersion", Str("v1")),
    Field("section", Str("kv")),
    Field("subsection", Undefined),
    Field("index", Str("0")),
    Field("key", EmptyKey)
  ])

  /** Assigns `acc[k] = src[k]` for each key `k` of `ks`, in order. */
  function AssignFrom(acc: Value, src: Value, ks: seq<string>): (r: Value)
    requires acc.Obj?
    ensures r.Obj?
  {
    if ks == [] then acc
    else
      var k := ks[|ks| - 1];
      SetProp(AssignFrom(acc, src, ks[..|ks| - 1]), k, Prop(src, k))
  }

  /** The object `merge(...objs)` builds: the own keys of each object copied in turn onto a fresh object. */
  function MergeAll(objs: seq<Value>): (r: Value)
    ensures r.Obj?
  {
    if objs == [] then Obj([])
    else
      var last := objs[|objs| - 1];
      AssignFrom(MergeAll(objs[..|objs| - 1]), last, Keys(last))
  }

  /** Some object of `objs` owns the key `k`. */
  predicate Owned(objs: seq<Value>, k: string) {
    objs != [] && (Owned(objs[..|objs| - 1], k) || k in Keys(objs[|objs| - 1]))
  }

  /** The value of `k` in the last object that owns it; `undefined` when none does. */
  function LastOwnerValue(objs: seq<Value>, k: string): Value {
    if objs == [] then Undefined
    else if k in Keys(objs[|objs| - 1]) then Prop(objs[|objs| - 1], k)
    else LastOwnerValue(objs[..|objs| - 1], k)
  }

  /** The inner `for...in` loop of `merge`: copies each own key of `nextObj` onto `newObj`. */
  method AssignOwnKeys(newObj: Value, nextObj: Value) returns (r: Value)
    requires newObj.Obj?
    ensures r == AssignFrom(newObj, nextObj, Keys(nextObj))
  {
    r := newObj;
    var keys := Keys(nextObj);
    for j := 0 to |keys|
      invariant r == AssignFrom(newObj, nextObj, keys[..j])
    {
      var key := keys[j];
      AssignFromStep(newObj, nextObj, keys, j);
      if key in Keys(nextObj) {
        r := SetProp(r, key, Prop(nextObj, key));
      }
    }
    assert keys[..|keys|] == keys;
  }

  /** One more key: `AssignFrom` over `ks[..j + 1]` sets `ks[j]` on the one over `ks[..j]`. */
  lemma AssignFromStep(acc: Value, src: Value, ks: seq<string>, j: nat)
    requires acc.Obj? && j < |ks|
    ensures AssignFrom(acc, src, ks[..j + 1]) == SetProp(AssignFrom(acc, src, ks[..j]), ks[j], Prop(src, ks[j]))
  {
    assert ks[..j + 1][..j] == ks[..j];
  }

  /** `merge`: copies the own keys of each object in turn onto a fresh object. */
  method MergeRecords(objs: seq<Value>) returns (newObj: Value)
    ensures newObj == MergeAll(objs)
  {
    newObj := Obj([]);
    for i := 0 to |objs|
      invariant newObj == MergeAll(objs[..i])
    {
      newObj := AssignOwnKeys(newObj, objs[i]);
      assert objs[..i + 1][..i] == objs[..i];
    }
    assert objs[..|objs|] == objs;
  }

  /** Copying keys `ks` adds exactly those keys, without introducing repeats. */
  lemma {:induction false} AssignFromDistinct(acc: Value, src: Value, ks: seq<string>)
    requires acc.Obj? && Distinct(Keys(acc))
    ensures Distinct(Keys(AssignFrom(acc, src, ks)))
  {
    if ks != [] {
      var init := ks[..|ks| - 1];
      var last := ks[|ks| - 1];
      AssignFromDistinct(acc, src, init);
      SetPropKeepsDistinct(AssignFrom(acc, src, init), last, Prop(src, last));
    }
  }

  /** A key is present after copying exactly when it was present before or was copied. */
  lemma {:induction false} AssignFromMember(acc: Value, src: Value, ks: seq<string>, k: string)
    requires acc.Obj?
    ensures k in Keys(AssignFrom(acc, src, ks)) <==> k in Keys(acc) || k in ks
  {
    if ks != [] {
      var init := ks[..|ks| - 1];
      AssignFromMember(acc, src, init, k);
      assert ks == init + [ks[|ks| - 1]];
    }
  }

  /** A copied key holds the source's value. */
  lemma {:induction false} AssignFromCopied(acc: Value, src: Value, ks: seq<string>, k: string)
    requires acc.Obj? && k in ks
    ensures Prop(AssignFrom(acc, src, ks), k) == Prop(src, k)
  {
    var init := ks[..|ks| - 1];
    var last := ks[|ks| - 1];
    if k != last {
      assert k in init by { assert ks == init + [last]; }
      AssignFromCopied(acc, src, init, k);
    }
  }

  /** A key that is not copied keeps the value it had. */
  lemma {:induction false} AssignFromUntouched(acc: Value, src: Value, ks: seq<string>, k: string)
    requires acc.Obj? && k !in ks
    ensures Prop(AssignFrom(acc, src, ks), k) == Prop(acc, k)
  {
    if ks != [] {
      var init := ks[..|ks| - 1];
      assert k !in init;
      AssignFromUntouched(acc, src, init, k);
    }
  }

  /** `merge` yields exactly the keys some argument owns, each once. */
  lemma {:induction false} MergeAllDistinct(objs: seq<Value>)
    ensures Distinct(Keys(MergeAll(objs)))
  {
    if objs != [] {
      var init := objs[..|objs| - 1];
      var last := objs[|objs| - 1];
      MergeAllDistinct(init);
      AssignFromDistinct(MergeAll(init), last, Keys(last));
    }
  }

  /** `merge` yields exactly the keys some argument owns. */
  lemma {:induction false} MergeAllMember(objs: seq<Value>, k: string)
    ensures k in Keys(MergeAll(objs)) <==> Owned(objs, k)
  {
    if objs != [] {
      var init := objs[..|objs| - 1];
      var last := objs[|objs| - 1];
      MergeAllMember(init, k);
      AssignFromMember(MergeAll(init), last, Keys(last), k);
    }
  }

  /** Each key of `merge`'s result holds the value of the last argument that owns it. */
  lemma {:induction false} MergeAllProp(objs: seq<Value>, k: string)
    ensures Prop(MergeAll(objs), k) == LastOwnerValue(objs, k)
  {
    if objs != [] {
      var init := objs[..|objs| - 1];
      var last := objs[|objs| - 1];
      MergeAllProp(init, k);
      if k in Keys(last) {
        AssignFromCopied(MergeAll(init), last, Keys(last), k);
      } else {
        AssignFromUntouched(MergeAll(init), last, Keys(last), k);
      }
    }
  }

  /**
   * A key that the later object owns takes its value there, even when that
   * value is `undefined`; a key it lacks keeps the earlier object's value.
   */
  lemma OverOwnKeys(defaults: Value, options: Value, k: string)
    ensures Prop(MergeAll([defaults, options]), k) ==
      if k in Keys(options) then Prop(options, k) else Prop(defaults, k)
  {
    var objs := [defaults, options];
    MergeAllProp(objs, k);
    assert objs[..1] == [defaults];
    assert [defaults][..0] == [];
    assert LastOwnerValue([defaults], k) == Prop(defaults, k);
    assert LastOwnerValue(objs, k) == if k in Keys(options) then Prop(options, k) else LastOwnerValue([defaults], k);
  }

  /** `getRequest(options)` */
  function GetRequest(options: Value): Value {
    MergeAll([DefaultGetRequest, options])
  }

  /** `updateRequest(options)` */
  function UpdateRequest(options: Value): Value {
    MergeAll([DefaultUpdateRequest, options])
  }

  /** `deleteRequest(options)` */
  function DeleteRequest(options: Value): Value {
    MergeAll([DefaultDeleteRequest, options])
  }

  /** The identifying fields of the default get request. */
  lemma DefaultGetRequestTags()
    ensures Prop(DefaultGetRequest, "type") == Str(GetRequestType)
    ensures Prop(DefaultGetRequest, "apiVersion") == Str("v1")
    ensures Prop(DefaultGetRequest, "section") == Str("kv")
  {
    var fs := DefaultGetRequest.fields;
    assert Obj(fs) == DefaultGetRequest;
    PropOfFirstField(fs, 1);
    PropOfFirstField(fs, 2);
  }

  /** The index and key of the default get request. */
  lemma DefaultGetRequestTarget()
    ensures Prop(DefaultGetRequest, "index") == Undefined
    ensures Prop(DefaultGetRequest, "key") == EmptyKey
  {
    var fs := DefaultGetRequest.fields;
    assert Obj(fs) == DefaultGetRequest;
    PropOfFirstField(fs, 4);
    PropOfFirstField(fs, 5);
  }

  /** The token of the default get request. */
  lemma DefaultGetRequestToken()
    ensures Prop(DefaultGetRequest, "token") == Str("")
  {
    var fs := DefaultGetRequest.fields;
    assert Obj(fs) == DefaultGetRequest;
    PropOfFirstField(fs, 6);
  }

  /** The fields of the default update request that differ from a get request. */
  lemma DefaultUpdateRequestFields()
    ensures Prop(DefaultUpdateRequest, "type") == Str(UpdateRequestType)
    ensures Prop(DefaultUpdateRequest, "index") == Undefined
    ensures Prop(DefaultUpdateRequest, "value") == Str("")
  {
    var fs := DefaultUpdateRequest.fields;
    assert Obj(fs) == DefaultUpdateRequest;
    PropOfFirstField(fs, 4);
    PropOfFirstField(fs, 6);
  }

  /** The fields of the default delete request that differ from a get request. */
  lemma DefaultDeleteRequestFields()
    ensures Prop(DefaultDeleteRequest, "type") == Str(DeleteRequestType)
    ensures Prop(DefaultDeleteRequest, "index") == Str("0")
  {
    var fs := DefaultDeleteRequest.fields;
    assert Obj(fs) == DefaultDeleteRequest;
    PropOfFirstField(fs, 4);
  }

  /** The version, section and key of the default update request. */
  lemma DefaultUpdateRequestTarget()
    ensures Prop(DefaultUpdateRequest, "apiVersion") == Str("v1")
    ensures Prop(DefaultUpdateRequest, "section") == Str("kv")
    ensures Prop(DefaultUpdateRequest, "key") == EmptyKey
  {
    var fs := DefaultUpdateRequest.fields;
    assert Obj(fs) == DefaultUpdateRequest;
    PropOfFirstField(fs, 1);
    PropOfFirstField(fs, 2);
    PropOfFirstField(fs, 5);
  }

  /** The version, section and key of the default delete request. */
  lemma DefaultDeleteRequestTarget()
    ensures Prop(DefaultDeleteRequest, "apiVersion") == Str("v1")
    ensures Prop(DefaultDeleteRequest, "section") == Str("kv")
    ensures Prop(DefaultDeleteRequest, "key") == EmptyKey
  {
    var fs := DefaultDeleteRequest.fields;
    assert Obj(fs) == DefaultDeleteRequest;
    PropOfFirstField(fs, 1);
    PropOfFirstField(fs, 2);
    PropOfFirstField(fs, 5);
  }

  /**
   * Without overriding options a get request is a `v1` request to the `kv`
   * section with an empty token, no index and the empty key path.
   */
  lemma GetRequestDefaults(options: Value)
    ensures "type" !in Keys(options) ==> Prop(GetRequest(options), "type") == Str(GetRequestType)
    ensures "apiVersion" !in Keys(options) ==> Prop(GetRequest(options), "apiVersion") == Str("v1")
    ensures "section" !in Keys(options) ==> Prop(GetRequest(options), "section") == Str("kv")
    ensures "token" !in Keys(options) ==> Prop(GetRequest(options), "token") == Str("")
    ensures "index" !in Keys(options) ==> Prop(GetRequest(options), "index") == Undefined
    ensures "key" !in Keys(options) ==> Prop(GetRequest(options), "key") == EmptyKey
  {
    DefaultGetRequestTags();
    DefaultGetRequestTarget();
    DefaultGetRequestToken();
    OverOwnKeys(DefaultGetRequest, options, "type");
    OverOwnKeys(DefaultGetRequest, options, "apiVersion");
    OverOwnKeys(DefaultGetRequest, options, "section");
    OverOwnKeys(DefaultGetRequest, options, "token");
    OverOwnKeys(DefaultGetRequest, options, "index");
    OverOwnKeys(DefaultGetRequest, options, "key");
  }

  /**
   * Without overriding options an update request is a `v1` request to the
   * `kv` section for the empty key path, carrying the empty value and no index.
   */
  lemma UpdateRequestDefaults(options: Value)
    ensures "type" !in Keys(options) ==> Prop(UpdateRequest(options), "type") == Str(UpdateRequestType)
    ensures "apiVersion" !in Keys(options) ==> Prop(UpdateRequest(options), "apiVersion") == Str("v1")
    ensures "section" !in Keys(options) ==> Prop(UpdateRequest(options), "section") == Str("kv")
    ensures "key" !in Keys(options) ==> Prop(UpdateRequest(options), "key") == EmptyKey
    ensures "value" !in Keys(options) ==> Prop(UpdateRequest(options), "value") == Str("")
    ensures "index" !in Keys(options) ==> Prop(UpdateRequest(options), "index") == Undefined
  {
    DefaultUpdateRequestFields();
    DefaultUpdateRequestTarget();
    OverOwnKeys(DefaultUpdateRequest, options, "type");
    OverOwnKeys(DefaultUpdateRequest, options, "apiVersion");
    OverOwnKeys(DefaultUpdateRequest, options, "section");
    OverOwnKeys(DefaultUpdateRequest, options, "key");
    OverOwnKeys(DefaultUpdateRequest, options, "value");
    OverOwnKeys(DefaultUpdateRequest, options, "index");
  }

  /**
   * Without overriding options a delete request is a `v1` request to the
   * `kv` section for the empty key path, carrying the index `'0'`.
   */
  lemma DeleteRequestDefaults(options: Value)
    ensures "type" !in Keys(options) ==> Prop(DeleteRequest(options), "type") == Str(DeleteRequestType)
    ensures "apiVersion" !in Keys(options) ==> Prop(DeleteRequest(options), "apiVersion") == Str("v1")
    ensures "section" !in Keys(options) ==> Prop(DeleteRequest(options), "section") == Str("kv")
    ensures "key" !in Keys(options) ==> Prop(DeleteRequest(options), "key") == EmptyKey
    ensures "index" !in Keys(options) ==> Prop(DeleteRequest(options), "index") == Str("0")
  {
    DefaultDeleteRequestFields();
    DefaultDeleteRequestTarget();
    OverOwnKeys(DefaultDeleteRequest, options, "type");
    OverOwnKeys(DefaultDeleteRequest, options, "apiVersion");
    OverOwnKeys(DefaultDeleteRequest, options, "section");
    OverOwnKeys(DefaultDeleteRequest, options, "key");
    OverOwnKeys(DefaultDeleteRequest, options, "index");
  }
}
