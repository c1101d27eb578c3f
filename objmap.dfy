/** `convertObjToMap`: a JavaScript object turned into a `Map`, key by key, with
    every nested object (arrays included) converted in turn. */
module ObjMap {

  import opened Common

  /** JavaScript values as far as the conversion tells them apart. An array is an
      object whose keys are its indices; `typeof` is "object" for `JNull` and
      `JObject` only. */
  datatype JsValue =
    | JUndefined
    | JNull
    | JBool(b: bool)
    | JNumber(n: int)
    | JString(s: string)
    | JObject(fields: seq<Field>)

  /** One own enumerable property, in `Object.entries` order. */
  datatype Field = Field(key: string, value: JsValue)

  /** A value stored in the resulting Map: kept as it was, or a converted Map. */
  datatype MapValue = Plain(v: JsValue) | Nested(entries: seq<MapEntry>)

  /** One `[key, value]` of a Map, in insertion order. */
  datatype MapEntry = MapEntry(key: string, value: MapValue)

  function Size(v: JsValue): (n: nat)
    ensures n >= 1
  {
    match v
    case JObject(fs) => 1 + FieldsSize(fs)
    case _ => 1
  }

  function FieldsSize(fs: seq<Field>): nat {
    if fs == [] then 0 else FieldsSize(fs[..|fs| - 1]) + Size(fs[|fs| - 1].value) + 1
  }

  lemma {:induction false} FieldSmaller(fs: seq<Field>, i: int)
    requires 0 <= i < |fs|
    ensures Size(fs[i].value) < FieldsSize(fs)
  {
    var n := |fs| - 1;
    if i < n {
      assert fs[..n][i] == fs[i];
      FieldSmaller(fs[..n], i);
    }
  }

  function Keys(m: seq<MapEntry>): seq<string> {
    seq(|m|, i requires 0 <= i < |m| => m[i].key)
  }

  function FieldKeys(fs: seq<Field>): seq<string> {
    seq(|fs|, i requires 0 <= i < |fs| => fs[i].key)
  }

  /** `map.set(key, value)`: an existing key keeps its place and gets the new
      value, a new key goes to the end. */
  function SetEntry(m: seq<MapEntry>, key: string, value: MapValue): (r: seq<MapEntry>)
    ensures Keys(r) == if key in Keys(m) then Keys(m) else Keys(m) + [key]
    ensures key !in Keys(m) ==> r == m + [MapEntry(key, value)]
  {
    if m == [] then [MapEntry(key, value)]
    else if m[0].key == key then
      assert Keys(m) == [m[0].key] + Keys(m[1..]);
      assert Keys([MapEntry(key, value)] + m[1..]) == [key] + Keys(m[1..]);
      [MapEntry(key, value)] + m[1..]
    else
      var rest := SetEntry(m[1..], key, value);
      assert Keys(m) == [m[0].key] + Keys(m[1..]);
      assert Keys([m[0]] + rest) == [m[0].key] + Keys(rest);
      [m[0]] + rest
  }

  /** The converted object, or None for the `TypeError` that `Object.entries(null)`
      throws once the recursion reaches a `null` property. */
  function Convert(fs: seq<Field>): (r: Option<seq<MapEntry>>)
    ensures r.Some? ==> |r.value| <= |fs|
    decreases FieldsSize(fs)
  {
    if fs == [] then Some([])
    else
      var n := |fs| - 1;
      match Convert(fs[..n])
      case None => None
      case Some(m) =>
        match ConvertValue(fs[n].value)
        case None => None
        case Some(v) => Some(SetEntry(m, fs[n].key, v))
  }

  /** The value stored for one property: objects are converted, null throws,
      everything else is kept. */
  function ConvertValue(v: JsValue): (r: Option<MapValue>)
    ensures v.JNull? ==> r.None?
    ensures r.Some? ==> (r.value.Nested? <==> v.JObject?)
    decreases Size(v)
  {
    match v
    case JNull => None
    case JObject(inner) =>
      (match Convert(inner)
       case None => None
       case Some(m) => Some(Nested(m)))
    case _ => Some(Plain(v))
  }

  /** `convertObjToMap(obj)` for the object with properties `fs`: a loop over the
      entries filling a local Map; each value goes through `ConvertProperty`. */
  method ConvertObjToMap(fs: seq<Field>) returns (r: Option<seq<MapEntry>>)
    ensures r == Convert(fs)
    decreases FieldsSize(fs), 1
  {
    var m: seq<MapEntry> := [];
    var i := 0;
    while i < |fs|
      invariant 0 <= i <= |fs|
      invariant Convert(fs[..i]) == Some(m)
    {
      ConvertStep(fs, i, m);
      FieldSmaller(fs, i);
      var pushed := ConvertProperty(fs[i].value);
      if pushed.None? {
        NoneStaysNoneHolds(fs, i + 1);
        return None;
      }
      m := SetEntry(m, fs[i].key, pushed.value);
      i := i + 1;
    }
    assert fs[..i] == fs;
    r := Some(m);
  }

  /** The ternary of the loop body: an object value is converted recursively, a
      null one makes `Object.entries` throw, anything else is kept. */
  method ConvertProperty(v: JsValue) returns (r: Option<MapValue>)
    ensures r == ConvertValue(v)
    decreases Size(v), 0
  {
    match v {
      case JNull =>
        r := None;
      case JObject(inner) =>
        var sub := ConvertObjToMap(inner);
        r := if sub.None? then None else Some(Nested(sub.value));
      case _ =>
        r := Some(Plain(v));
    }
  }

  /** One more property on top of a converted prefix. */
  lemma ConvertStep(fs: seq<Field>, i: int, m: seq<MapEntry>)
    requires 0 <= i < |fs| && Convert(fs[..i]) == Some(m)
    ensures ConvertValue(fs[i].value).None? ==> Convert(fs[..i + 1]) == None
    ensures ConvertValue(fs[i].value).Some? ==>
      Convert(fs[..i + 1]) == Some(SetEntry(m, fs[i].key, ConvertValue(fs[i].value).value))
  {
    assert fs[..i + 1][..i] == fs[..i];
    assert fs[..i + 1][i] == fs[i];
  }

  /** A prefix that throws makes the whole conversion throw. */
  predicate NoneStaysNone(fs: seq<Field>, k: int)
    requires 0 <= k <= |fs|
  {
    Convert(fs[..k]) == None ==> Convert(fs) == None
  }

  lemma {:induction false} NoneStaysNoneHolds(fs: seq<Field>, k: int)
    requires 0 <= k <= |fs|
    ensures NoneStaysNone(fs, k)
    decreases |fs| - k
  {
    if k < |fs| {
      NoneStaysNoneHolds(fs, k + 1);
      assert fs[..k + 1][..k] == fs[..k];
    } else {
      assert fs[..k] == fs;
    }
  }

  /** No `null` occurs anywhere in the value, at any depth. */
  predicate NullFree(v: JsValue)
    decreases Size(v)
  {
    match v
    case JNull => false
    case JObject(fs) => FieldsNullFree(fs)
    case _ => true
  }

  predicate FieldsNullFree(fs: seq<Field>)
    decreases FieldsSize(fs)
  {
    fs == [] || (FieldsNullFree(fs[..|fs| - 1]) && NullFree(fs[|fs| - 1].value))
  }

  /** The conversion succeeds exactly when no property at any depth is `null`. */
  lemma {:induction false} ConvertSucceedsIff(fs: seq<Field>)
    ensures Convert(fs).Some? <==> FieldsNullFree(fs)
    decreases FieldsSize(fs), 1
  {
    if fs != [] {
      var n := |fs| - 1;
      ConvertSucceedsIff(fs[..n]);
      ConvertValueSucceedsIff(fs[n].value);
    }
  }

  lemma {:induction false} ConvertValueSucceedsIff(v: JsValue)
    ensures ConvertValue(v).Some? <==> NullFree(v)
    decreases Size(v), 0
  {
    if v.JObject? {
      ConvertSucceedsIff(v.fields);
    }
  }

  predicate DistinctKeys(fs: seq<Field>) {
    forall i, j :: 0 <= i < j < |fs| ==> fs[i].key != fs[j].key
  }

  /** A successful conversion is the conversion of all but the last property with
      the last one set on top. */
  lemma ConvertLast(fs: seq<Field>)
    requires fs != [] && Convert(fs).Some?
    ensures var n := |fs| - 1;
      && Convert(fs[..n]).Some? && ConvertValue(fs[n].value).Some?
      && Convert(fs).value == SetEntry(Convert(fs[..n]).value, fs[n].key, ConvertValue(fs[n].value).value)
  {
  }

  /** With distinct keys the last key is not among the earlier ones. */
  lemma LastKeyFresh(fs: seq<Field>)
    requires fs != [] && DistinctKeys(fs)
    ensures DistinctKeys(fs[..|fs| - 1])
    ensures fs[|fs| - 1].key !in FieldKeys(fs[..|fs| - 1])
    ensures FieldKeys(fs) == FieldKeys(fs[..|fs| - 1]) + [fs[|fs| - 1].key]
  {
    var n := |fs| - 1;
    var front := fs[..n];
    forall i | 0 <= i < n ensures FieldKeys(front)[i] != fs[n].key {
      assert FieldKeys(front)[i] == fs[i].key;
    }
  }

  /** For an object (whose keys are distinct), a successful conversion has the same
      keys in the same order. */
  lemma {:induction false} ConvertKeys(fs: seq<Field>)
    requires DistinctKeys(fs) && Convert(fs).Some?
    ensures Keys(Convert(fs).value) == FieldKeys(fs)
  {
    if fs != [] {
      var n := |fs| - 1;
      var front := fs[..n];
      ConvertLast(fs);
      LastKeyFresh(fs);
      ConvertKeys(front);
    }
  }

  /** The entry stores the conversion of the property's value. */
  predicate StoredAs(e: MapEntry, f: Field) {
    Some(e.value) == ConvertValue(f.value)
  }

  /** With distinct keys the last property is appended. */
  lemma ConvertAppends(fs: seq<Field>)
    requires fs != [] && DistinctKeys(fs) && Convert(fs).Some?
    ensures var n := |fs| - 1;
      && Convert(fs[..n]).Some? && ConvertValue(fs[n].value).Some?
      && Convert(fs).value == Convert(fs[..n]).value + [MapEntry(fs[n].key, ConvertValue(fs[n].value).value)]
  {
    var n := |fs| - 1;
    ConvertLast(fs);
    LastKeyFresh(fs);
    ConvertKeys(fs[..n]);
  }

  /** Each stored value is the conversion of the property's value: a non-object
      value is kept, an object value becomes its converted Map. */
  lemma {:induction false} ConvertValues(fs: seq<Field>)
    requires DistinctKeys(fs) && Convert(fs).Some?
    ensures var m := Convert(fs).value;
      |m| == |fs| && forall i :: 0 <= i < |fs| ==> StoredAs(m[i], fs[i])
  {
    if fs != [] {
      var n := |fs| - 1;
      var front := fs[..n];
      ConvertAppends(fs);
      LastKeyFresh(fs);
      ConvertValues(front);
      var m0 := Convert(front).value;
      var e := MapEntry(fs[n].key, ConvertValue(fs[n].value).value);
      var m := Convert(fs).value;
      assert StoredAs(e, fs[n]);
      forall i | 0 <= i < |fs| ensures StoredAs(m[i], fs[i]) {
        if i < n {
          assert front[i] == fs[i] && m[i] == m0[i];
          assert StoredAs(m0[i], front[i]);
        }
      }
    }
  }

  /** Property by property: the key is kept, a non-object value is stored as it is,
      an object value becomes a nested Map. */
  lemma ConvertEntries(fs: seq<Field>, i: int)
    requires DistinctKeys(fs) && Convert(fs).Some? && 0 <= i < |fs|
    ensures var m := Convert(fs).value;
      && |m| == |fs| && m[i].key == fs[i].key
      && (!fs[i].value.JObject? ==> m[i].value == Plain(fs[i].value))
      && (fs[i].value.JObject? ==> m[i].value.Nested? && Convert(fs[i].value.fields) == Some(m[i].value.entries))
  {
    ConvertKeys(fs);
    ConvertValues(fs);
    var m := Convert(fs).value;
    assert Keys(m)[i] == FieldKeys(fs)[i];
    var v := fs[i].value;
    assert StoredAs(m[i], fs[i]);
    if v.JObject? {
      assert ConvertValue(v) == (match Convert(v.fields) case None => None case Some(e) => Some(Nested(e)));
    }
  }
}
