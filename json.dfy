/**
 * Values as they travel through `JSON.stringify` / `JSON.parse`. A `Date`
 * (which `toISOString` and `JSON.stringify` render as ISO-8601 text) is kept
 * as its millisecond instant, `JTime`.
 */
module Json {
  import opened Wrappers
  import opened Strings

  datatype Json =
    | JNull
    | JBool(b: bool)
    | JNum(n: int)
    | JStr(s: string)
    | JTime(ms: int)
    | JArr(items: seq<Json>)
    | JObj(fields: seq<(string, Json)>)

  /** JavaScript truthiness (`Boolean(v)`, `v ? … : …`) of a value; `None` is `undefined`. */
  predicate Truthy(v: Option<Json>) {
    match v
    case None => false
    case Some(j) =>
      match j
      case JNull => false
      case JBool(b) => b
      case JNum(n) => n != 0
      case JStr(s) => s != ""
      case _ => true
  }

  /** `typeof v === 'object'` for a non-null value: objects and arrays. */
  predicate IsObject(j: Json) {
    j.JObj? || j.JArr?
  }

  /** The value of the last field named `key` (the one `JSON.parse` keeps). */
  function Field(fields: seq<(string, Json)>, key: string): Option<Json>
  {
    if fields == [] then None
    else
      var last := fields[|fields| - 1];
      if last.0 == key then Some(last.1)
      else
        Field(fields[..|fields| - 1], key)
  }

  /** A found value is one of the fields named `key`, and nothing is found exactly when none is so named. */
  lemma {:induction false} FieldSpec(fields: seq<(string, Json)>, key: string)
    ensures Field(fields, key).Some? ==>
      exists i :: 0 <= i < |fields| && fields[i] == (key, Field(fields, key).value)
    ensures Field(fields, key).None? <==> forall i :: 0 <= i < |fields| ==> fields[i].0 != key
  {
    if fields != [] && fields[|fields| - 1].0 != key {
      var init := fields[..|fields| - 1];
      FieldSpec(init, key);
      assert forall i :: 0 <= i < |init| ==> init[i] == fields[i];
    }
  }

  /** A field no later field overrides is the one looked up. */
  lemma {:induction false} FieldAt(fields: seq<(string, Json)>, i: nat)
    requires i < |fields|
    requires forall j :: i < j < |fields| ==> fields[j].0 != fields[i].0
    ensures Field(fields, fields[i].0) == Some(fields[i].1)
  {
    if i < |fields| - 1 {
      var init := fields[..|fields| - 1];
      assert init[i] == fields[i];
      FieldAt(init, i);
    }
  }

  /** `obj[key]` on an object or array; arrays answer their canonical indices and `length`. */
  function Get(j: Json, key: string): Option<Json>
    requires IsObject(j)
  {
    match j
    case JObj(fields) => Field(fields, key)
    case JArr(items) =>
      if key == "length" then Some(JNum(|items|))
      else
        match ParseNat(key)
        case Some(n) => if n < |items| && NatToString(n) == key then Some(items[n]) else None
        case None => None
  }

  /** A string, or `null` when absent. */
  function StrOrNull(s: Option<string>): Json {
    match s
    case Some(v) => JStr(v)
    case None => JNull
  }
}
