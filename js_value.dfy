/**
 * Property values as the editor stores them (`Record<string, any>`), with the
 * JavaScript object semantics the core depends on: keys keep insertion order,
 * `{ ...p, [k]: v }` replaces an existing key in place or appends a new one,
 * and a missing key reads as `undefined`.
 */
module JsValue {
  import opened Wrappers
  import opened JsText

  /**
   * A value; `Hole` is an array slot that was never assigned (the gap that
   * `copy[5] = x` leaves in a shorter array): reading it or spreading the
   * array gives `undefined`, `filter` and `map` skip it, and JSON writes
   * `null` for it.
   */
  datatype Value =
    | Hole
    | Undefined
    | Str(s: string)
    | Num(n: int)
    | Bool(b: bool)
    | Arr(items: seq<Value>)
    | Obj(fields: seq<Field>)

  datatype Field = Field(key: string, value: Value)

  /** An object's own enumerable properties, in insertion order. */
  type Props = seq<Field>

  /** JavaScript truthiness (`v || fallback` picks the fallback for these). */
  predicate Truthy(v: Value)
  {
    match v
    case Hole => false
    case Undefined => false
    case Str(s) => s != ""
    case Num(n) => n != 0
    case Bool(b) => b
    case Arr(_) => true
    case Obj(_) => true
  }

  predicate HasKey(p: Props, k: string)
  {
    exists i :: 0 <= i < |p| && p[i].key == k
  }

  predicate DistinctKeys(p: Props)
  {
    forall i, j :: 0 <= i < j < |p| ==> p[i].key != p[j].key
  }

  /** `p[k]`: the value stored under the first occurrence of `k`, `None` for `undefined`. */
  function Get(p: Props, k: string): (r: Option<Value>)
    ensures r.None? <==> !HasKey(p, k)
    ensures r.Some? ==> exists i :: 0 <= i < |p| && p[i] == Field(k, r.value)
  {
    if |p| == 0 then None
    else if p[0].key == k then Some(p[0].value)
    else
      var r := Get(p[1..], k);
      assert HasKey(p, k) ==> HasKey(p[1..], k) by {
        if HasKey(p, k) {
          var i :| 0 <= i < |p| && p[i].key == k;
          assert p[1..][i - 1].key == k;
        }
      }
      assert r.Some? ==> exists i :: 0 <= i < |p| && p[i] == Field(k, r.value) by {
        if r.Some? {
          var i :| 0 <= i < |p[1..]| && p[1..][i] == Field(k, r.value);
          assert p[i + 1] == Field(k, r.value);
        }
      }
      r
  }

  lemma HasKeyCons(p: Props, k: string)
    requires |p| > 0
    ensures HasKey(p, k) <==> p[0].key == k || HasKey(p[1..], k)
  {
    if HasKey(p, k) && p[0].key != k {
      var i :| 0 <= i < |p| && p[i].key == k;
      assert p[1..][i - 1].key == k;
    }
    if HasKey(p[1..], k) {
      var i :| 0 <= i < |p[1..]| && p[1..][i].key == k;
      assert p[i + 1].key == k;
    }
  }

  /**
   * `{ ...p, [k]: v }`: the same keys in the same order with `k` now bound to `v`,
   * or `p` followed by the new key when `k` was not yet present.
   */
  function Set(p: Props, k: string, v: Value): (r: Props)
    ensures Get(r, k) == Some(v)
    ensures forall k' :: k' != k ==> Get(r, k') == Get(p, k')
    ensures HasKey(p, k) ==> |r| == |p| && forall i :: 0 <= i < |p| ==> r[i].key == p[i].key
    ensures !HasKey(p, k) ==> r == p + [Field(k, v)]
  {
    if |p| == 0 then [Field(k, v)]
    else if p[0].key == k then
      assert ([Field(k, v)] + p[1..])[1..] == p[1..];
      [Field(k, v)] + p[1..]
    else
      var rest := Set(p[1..], k, v);
      SetStepGet(p, k, v, rest);
      SetStepKeys(p, k, v, rest);
      [p[0]] + rest
  }

  /** The recursive case of `Set`, lookups: a head with another key is kept in front of the updated tail. */
  lemma SetStepGet(p: Props, k: string, v: Value, rest: Props)
    requires |p| > 0 && p[0].key != k
    requires Get(rest, k) == Some(v)
    requires forall k' :: k' != k ==> Get(rest, k') == Get(p[1..], k')
    ensures Get([p[0]] + rest, k) == Some(v)
    ensures forall k' :: k' != k ==> Get([p[0]] + rest, k') == Get(p, k')
  {
    var r := [p[0]] + rest;
    assert r[0] == p[0] && r[1..] == rest;
    forall k' | k' != k ensures Get(r, k') == Get(p, k') {
      assert Get(rest, k') == Get(p[1..], k');
    }
  }

  /** The recursive case of `Set`, key order. */
  lemma SetStepKeys(p: Props, k: string, v: Value, rest: Props)
    requires |p| > 0 && p[0].key != k
    requires HasKey(p[1..], k) ==> |rest| == |p[1..]| && forall i :: 0 <= i < |p[1..]| ==> rest[i].key == p[1..][i].key
    requires !HasKey(p[1..], k) ==> rest == p[1..] + [Field(k, v)]
    ensures HasKey(p, k) ==> |[p[0]] + rest| == |p| && forall i :: 0 <= i < |p| ==> ([p[0]] + rest)[i].key == p[i].key
    ensures !HasKey(p, k) ==> [p[0]] + rest == p + [Field(k, v)]
  {
    var r := [p[0]] + rest;
    HasKeyCons(p, k);
    if HasKey(p, k) {
      forall i | 0 <= i < |p| ensures r[i].key == p[i].key {
        if i > 0 {
          assert r[i] == rest[i - 1] && p[i] == p[1..][i - 1];
        }
      }
    } else {
      assert r == p + [Field(k, v)];
    }
  }

  /** Setting a key keeps an object's keys distinct. */
  lemma SetKeepsDistinct(p: Props, k: string, v: Value)
    requires DistinctKeys(p)
    ensures DistinctKeys(Set(p, k, v))
  {
    var r := Set(p, k, v);
    if !HasKey(p, k) {
      forall i, j | 0 <= i < j < |r| ensures r[i].key != r[j].key {
        if j == |p| {
          assert r[i].key == p[i].key;
        }
      }
    }
  }

  /**
   * `String(v)` for the primitive values a template string interpolates.
   * Arrays and records are never passed here: the prompt writes them as JSON.
   */
  function Show(v: Value): string
  {
    match v
    case Hole => "undefined"
    case Undefined => "undefined"
    case Str(s) => s
    case Num(n) => IntToString(n)
    case Bool(b) => if b then "true" else "false"
    case Arr(_) => "[object Array]"
    case Obj(_) => "[object Object]"
  }

  /** `typeof v === 'object'`: arrays and records. */
  predicate IsObject(v: Value)
  {
    v.Arr? || v.Obj?
  }

  /**
   * A rendering of `JSON.stringify(v)` without string escaping: `undefined`
   * and holes become `null` inside an array, and `undefined` is dropped from
   * a record.
   */
  function Json(v: Value): string
    decreases v, 1
  {
    match v
    case Hole => "null"
    case Undefined => "null"
    case Str(s) => "\"" + s + "\""
    case Num(n) => IntToString(n)
    case Bool(b) => if b then "true" else "false"
    case Arr(items) => "[" + JsonItems(items) + "]"
    case Obj(fields) => "{" + JsonFields(fields, true) + "}"
  }

  function JsonItems(items: seq<Value>): string
    decreases items, 0
  {
    if |items| == 0 then ""
    else if |items| == 1 then Json(items[0])
    else Json(items[0]) + "," + JsonItems(items[1..])
  }

  function JsonFields(fields: seq<Field>, first: bool): string
    decreases fields, 0
  {
    if |fields| == 0 then ""
    else if fields[0].value.Undefined? || fields[0].value.Hole? then JsonFields(fields[1..], first)
    else
      (if first then "" else ",") + "\"" + fields[0].key + "\":" + Json(fields[0].value)
      + JsonFields(fields[1..], false)
  }
}
