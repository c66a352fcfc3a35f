/**
 * JavaScript values as the client handles them: request records, option bags,
 * header and query maps and decoded response bodies are all plain objects.
 * An object keeps its keys in insertion order, as `Object.keys` and `for...in`
 * report them; an array answers to the keys "0", "1", ... like any object.
 */
module JsValues {

  datatype Value =
    | Undefined
    | Null
    | Bool(b: bool)
    | Num(n: int)
    | Str(s: string)
    | Arr(items: seq<Value>)
    | Obj(fields: seq<Field>)

  datatype Field = Field(key: string, val: Value)

  /** `obj !== null && typeof obj === 'object'` */
  predicate IsObject(v: Value) {
    v.Arr? || v.Obj?
  }

  /** The `typeof` operator. */
  function TypeOf(v: Value): string {
    match v
    case Undefined => "undefined"
    case Bool(_) => "boolean"
    case Num(_) => "number"
    case Str(_) => "string"
    case _ => "object"
  }

  /** JavaScript truthiness, as used by `a || b` and `if (a)`. */
  predicate Truthy(v: Value) {
    match v
    case Undefined => false
    case Null => false
    case Bool(b) => b
    case Num(n) => n != 0
    case Str(s) => s != ""
    case _ => true
  }

  /**
   * `a === b`. Primitives compare by value. Objects compare by identity, and
   * every object that reaches a comparison in this client is freshly built
   * (decoded from a response body), so two objects are never identical.
   */
  predicate StrictEquals(a: Value, b: Value) {
    !IsObject(a) && a == b
  }

  lemma StrictEqualsOnPrimitives(a: Value, b: Value)
    requires !IsObject(a)
    ensures StrictEquals(a, b) <==> a == b
  {
  }

  /** The decimal digit for `d`. */
  function Digit(d: nat): (c: char)
    requires d < 10
    ensures c as int == '0' as int + d
  {
    (48 + d) as char
  }

  /** Decimal rendering of a natural number, as `String(n)` gives it. */
  function NatToString(n: nat): (r: string)
    ensures |r| >= 1
    ensures n < 10 <==> |r| == 1
    ensures forall i :: 0 <= i < |r| ==> '0' <= r[i] <= '9'
    decreases n
  {
    if n < 10 then [Digit(n)] else NatToString(n / 10) + [Digit(n % 10)]
  }

  /** Distinct numbers render differently, so array keys never collide. */
  lemma {:induction false} NatToStringInjective(m: nat, n: nat)
    requires NatToString(m) == NatToString(n)
    ensures m == n
  {
    if m >= 10 && n >= 10 {
      var sm, sn := NatToString(m), NatToString(n);
      assert sm[|sm| - 1] == Digit(m % 10) && sn[|sn| - 1] == Digit(n % 10);
      assert sm[..|sm| - 1] == NatToString(m / 10);
      assert sn[..|sn| - 1] == NatToString(n / 10);
      NatToStringInjective(m / 10, n / 10);
    }
  }

  /** Decimal rendering of an integer, with a leading minus sign when negative. */
  function IntToString(n: int): (r: string)
    ensures |r| >= 1
  {
    if n < 0 then "-" + NatToString(-n) else NatToString(n)
  }

  /** The keys `Object.keys` lists, in order; only objects and arrays have any. */
  function Keys(v: Value): (ks: seq<string>)
    ensures v.Obj? ==> |ks| == |v.fields| && forall i :: 0 <= i < |ks| ==> ks[i] == v.fields[i].key
    ensures v.Arr? ==> |ks| == |v.items| && forall i :: 0 <= i < |ks| ==> ks[i] == NatToString(i)
    ensures !IsObject(v) ==> ks == []
  {
    match v
    case Obj(fields) => seq(|fields|, i requires 0 <= i < |fields| => fields[i].key)
    case Arr(items) => seq(|items|, i requires 0 <= i < |items| => NatToString(i))
    case _ => []
  }

  /** The position of the first occurrence of `k` in `ks`, or `|ks|` when it is absent. */
  function KeyIndex(ks: seq<string>, k: string): (i: nat)
    ensures i <= |ks|
    ensures i < |ks| ==> ks[i] == k
    ensures forall j :: 0 <= j < i ==> ks[j] != k
    ensures i == |ks| <==> k !in ks
  {
    if ks == [] then 0
    else if ks[0] == k then 0
    else 1 + KeyIndex(ks[1..], k)
  }

  /** The first-occurrence conditions determine the position. */
  lemma KeyIndexUnique(ks: seq<string>, k: string, i: nat)
    requires i <= |ks|
    requires i < |ks| ==> ks[i] == k
    requires forall j :: 0 <= j < i ==> ks[j] != k
    ensures KeyIndex(ks, k) == i
  {
  }

  /** Property access `v[k]`: `undefined` when `k` is not an own key of `v`. */
  function Prop(v: Value, k: string): (r: Value)
    ensures r == Undefined || r < v
    ensures k !in Keys(v) ==> r == Undefined
  {
    var i := KeyIndex(Keys(v), k);
    match v
    case Obj(fields) => if i < |fields| then fields[i].val else Undefined
    case Arr(items) => if i < |items| then items[i] else Undefined
    case _ => Undefined
  }

  /** A listed key reads one of the value's own children, which is smaller than the value. */
  lemma PropOfKeySmaller(v: Value, k: string)
    requires k in Keys(v)
    ensures Prop(v, k) < v
  {
  }

  /** The first field carrying a key supplies that key's value. */
  lemma PropOfFirstField(fields: seq<Field>, i: nat)
    requires i < |fields|
    requires forall j :: 0 <= j < i ==> fields[j].key != fields[i].key
    ensures Prop(Obj(fields), fields[i].key) == fields[i].val
  {
    KeyIndexUnique(Keys(Obj(fields)), fields[i].key, i);
  }

  /** Reading an object whose first field is `f`: that field, or a read of the rest. */
  lemma PropCons(f: Field, rest: seq<Field>, k: string)
    ensures Prop(Obj([f] + rest), k) == if f.key == k then f.val else Prop(Obj(rest), k)
  {
    var ks := Keys(Obj([f] + rest));
    assert ks[1..] == Keys(Obj(rest));
  }

  /** The entries of a three-entry object literal with distinct keys read back under their keys. */
  lemma Literal3(f0: Field, f1: Field, f2: Field)
    requires f0.key != f1.key && f0.key != f2.key && f1.key != f2.key
    ensures Prop(Obj([f0, f1, f2]), f0.key) == f0.val
    ensures Prop(Obj([f0, f1, f2]), f1.key) == f1.val
    ensures Prop(Obj([f0, f1, f2]), f2.key) == f2.val
  {
    assert [f0, f1, f2] == [f0] + [f1, f2];
    assert [f1, f2] == [f1] + [f2];
    assert [f2] == [f2] + [];
    PropCons(f0, [f1, f2], f0.key);
    PropCons(f0, [f1, f2], f1.key);
    PropCons(f1, [f2], f1.key);
    PropCons(f0, [f1, f2], f2.key);
    PropCons(f1, [f2], f2.key);
    PropCons(f2, [], f2.key);
  }

  /** The entries of a four-entry object literal with distinct keys read back under their keys. */
  lemma Literal4(f0: Field, f1: Field, f2: Field, f3: Field)
    requires f0.key != f1.key && f0.key != f2.key && f0.key != f3.key
    requires f1.key != f2.key && f1.key != f3.key && f2.key != f3.key
    ensures Prop(Obj([f0, f1, f2, f3]), f0.key) == f0.val
    ensures Prop(Obj([f0, f1, f2, f3]), f1.key) == f1.val
    ensures Prop(Obj([f0, f1, f2, f3]), f2.key) == f2.val
    ensures Prop(Obj([f0, f1, f2, f3]), f3.key) == f3.val
  {
    assert [f0, f1, f2, f3] == [f0] + [f1, f2, f3];
    Literal3(f1, f2, f3);
    PropCons(f0, [f1, f2, f3], f0.key);
    PropCons(f0, [f1, f2, f3], f1.key);
    PropCons(f0, [f1, f2, f3], f2.key);
    PropCons(f0, [f1, f2, f3], f3.key);
  }

  /** The entries of a five-entry object literal with distinct keys read back under their keys. */
  lemma Literal5(f0: Field, f1: Field, f2: Field, f3: Field, f4: Field)
    requires f0.key != f1.key && f0.key != f2.key && f0.key != f3.key && f0.key != f4.key
    requires f1.key != f2.key && f1.key != f3.key && f1.key != f4.key
    requires f2.key != f3.key && f2.key != f4.key && f3.key != f4.key
    ensures Prop(Obj([f0, f1, f2, f3, f4]), f0.key) == f0.val
    ensures Prop(Obj([f0, f1, f2, f3, f4]), f1.key) == f1.val
    ensures Prop(Obj([f0, f1, f2, f3, f4]), f2.key) == f2.val
    ensures Prop(Obj([f0, f1, f2, f3, f4]), f3.key) == f3.val
    ensures Prop(Obj([f0, f1, f2, f3, f4]), f4.key) == f4.val
  {
    assert [f0, f1, f2, f3, f4] == [f0] + [f1, f2, f3, f4];
    Literal4(f1, f2, f3, f4);
    PropCons(f0, [f1, f2, f3, f4], f0.key);
    PropCons(f0, [f1, f2, f3, f4], f1.key);
    PropCons(f0, [f1, f2, f3, f4], f2.key);
    PropCons(f0, [f1, f2, f3, f4], f3.key);
    PropCons(f0, [f1, f2, f3, f4], f4.key);
  }

  /** A three-entry object literal reads `undefined` under any other key. */
  lemma Literal3Absent(f0: Field, f1: Field, f2: Field, k: string)
    requires k != f0.key && k != f1.key && k != f2.key
    ensures Prop(Obj([f0, f1, f2]), k) == Undefined
  {
    assert [f0, f1, f2] == [f0] + [f1, f2];
    assert [f1, f2] == [f1] + [f2];
    assert [f2] == [f2] + [];
    PropCons(f0, [f1, f2], k);
    PropCons(f1, [f2], k);
    PropCons(f2, [], k);
  }

  /** A four-entry object literal reads `undefined` under any other key. */
  lemma Literal4Absent(f0: Field, f1: Field, f2: Field, f3: Field, k: string)
    requires k != f0.key && k != f1.key && k != f2.key && k != f3.key
    ensures Prop(Obj([f0, f1, f2, f3]), k) == Undefined
  {
    assert [f0, f1, f2, f3] == [f0] + [f1, f2, f3];
    Literal3Absent(f1, f2, f3, k);
    PropCons(f0, [f1, f2, f3], k);
  }

  /** The keys of an object literal are its fields' keys, in order. */
  lemma LiteralKeys(fs: seq<Field>, k: string)
    ensures k in Keys(Obj(fs)) <==> exists i :: 0 <= i < |fs| && fs[i].key == k
  {
  }

  /** Property assignment `o[k] = x`: an existing key keeps its place, a new key goes last. */
  function SetProp(o: Value, k: string, x: Value): (r: Value)
    requires o.Obj?
    ensures r.Obj?
    ensures Keys(r) == if k in Keys(o) then Keys(o) else Keys(o) + [k]
    ensures forall k' :: k' in Keys(r) <==> k' == k || k' in Keys(o)
    ensures Prop(r, k) == x
    ensures forall k' :: k' != k ==> Prop(r, k') == Prop(o, k')
  {
    var i := KeyIndex(Keys(o), k);
    if i < |o.fields| then
      var r := Obj(o.fields[i := Field(k, x)]);
      assert Keys(r) == Keys(o);
      r
    else
      var r := Obj(o.fields + [Field(k, x)]);
      assert Keys(r) == Keys(o) + [k];
      forall k' | k' != k ensures Prop(r, k') == Prop(o, k') {
        var j := KeyIndex(Keys(o), k');
        if j < |Keys(o)| {
          KeyIndexUnique(Keys(r), k', j);
        } else {
          KeyIndexUnique(Keys(r), k', |Keys(r)|);
        }
      }
      r
  }

  /** No key occurs twice. */
  ghost predicate Distinct(ks: seq<string>) {
    forall i, j :: 0 <= i < j < |ks| ==> ks[i] != ks[j]
  }

  /** Assigning a property never repeats a key. */
  lemma SetPropKeepsDistinct(o: Value, k: string, x: Value)
    requires o.Obj? && Distinct(Keys(o))
    ensures Distinct(Keys(SetProp(o, k, x)))
  {
  }

  /** Every object, at every depth, has distinct keys, as JavaScript objects always do. */
  ghost predicate WellFormed(v: Value) {
    match v
    case Obj(fields) =>
      Distinct(Keys(v)) && forall i :: 0 <= i < |fields| ==> WellFormed(fields[i].val)
    case Arr(items) => forall i :: 0 <= i < |items| ==> WellFormed(items[i])
    case _ => true
  }

  /** Arrays never repeat a key, since distinct indices render differently. */
  lemma ArrayKeysDistinct(v: Value)
    requires v.Arr?
    ensures Distinct(Keys(v))
  {
    forall i, j | 0 <= i < j < |Keys(v)| ensures Keys(v)[i] != Keys(v)[j] {
      if Keys(v)[i] == Keys(v)[j] {
        NatToStringInjective(i, j);
      }
    }
  }

  /** In a well-formed value every listed key reads back the value stored under it. */
  lemma PropOfListedKey(v: Value, i: nat)
    requires IsObject(v) && Distinct(Keys(v)) && i < |Keys(v)|
    ensures v.Obj? ==> Prop(v, Keys(v)[i]) == v.fields[i].val
    ensures v.Arr? ==> Prop(v, Keys(v)[i]) == v.items[i]
  {
    assert KeyIndex(Keys(v), Keys(v)[i]) == i;
  }

  /** Template-literal rendering `${v}`. Arrays join their elements with commas. */
  function TemplateString(v: Value): string {
    match v
    case Undefined => "undefined"
    case Null => "null"
    case Bool(b) => if b then "true" else "false"
    case Num(n) => IntToString(n)
    case Str(s) => s
    case Arr(items) => JoinItems(v, items, 0)
    case Obj(_) => "[object Object]"
  }

  /** `Array.prototype.join(',')` from position `i` on; `null` and `undefined` elements render empty. */
  function JoinItems(v: Value, items: seq<Value>, i: nat): string
    requires v == Arr(items) && i <= |items|
    decreases v, |items| - i
  {
    if i == |items| then ""
    else
      var head := if items[i].Undefined? || items[i].Null? then "" else TemplateString(items[i]);
      if i + 1 == |items| then head else head + "," + JoinItems(v, items, i + 1)
  }

  /**
   * The expression `v + 1`: numeric addition for numbers, booleans and null,
   * string concatenation for strings and objects.
   */
  function PlusOne(v: Value): (r: Value)
    requires v != Undefined
    ensures v.Num? ==> r == Num(v.n + 1)
    ensures v.Str? ==> r == Str(v.s + "1")
  {
    match v
    case Num(n) => Num(n + 1)
    case Str(s) => Str(s + "1")
    case Bool(b) => Num(if b then 2 else 1)
    case Null => Num(1)
    case _ => Str(TemplateString(v) + "1")
  }
}
