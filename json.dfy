/** Result and error kinds shared by the whole model. */
module Outcomes {

  /** The two exception classes the decoder, the constructors and the builder raise. */
  datatype ErrorKind = TypeError | ValueError

  datatype Result<+T> = Ok(value: T) | Err(error: ErrorKind)

  datatype Option<+T> = None | Some(value: T)
}

/**
  The generic decoded-JSON value the core consumes and produces.
  An object is an association list of fields kept in insertion order, which is
  the iteration order of a Python dict.  Numbers only need to be told apart from
  the other kinds, so they are integers here.
*/
module JsonValues {
  import opened Outcomes

  datatype Json =
    | JNull
    | JBool(b: bool)
    | JNum(n: int)
    | JStr(s: string)
    | JArr(items: seq<Json>)
    | JObj(fields: seq<Field>)

  datatype Field = Field(key: string, value: Json)

  /** The keys of an object, in insertion order. */
  function Keys(d: seq<Field>): (r: seq<string>)
    ensures |r| == |d|
    ensures forall i :: 0 <= i < |d| ==> r[i] == d[i].key
  {
    if d == [] then [] else [d[0].key] + Keys(d[1..])
  }

  /** A Python dict never holds a key twice. */
  predicate DistinctKeys(d: seq<Field>) {
    forall i, j :: 0 <= i < j < |d| ==> d[i].key != d[j].key
  }

  /** Every object inside `j`, at any depth, has distinct keys. */
  predicate WellFormed(j: Json) {
    match j
    case JArr(items) => forall i :: 0 <= i < |items| ==> WellFormed(items[i])
    case JObj(fields) =>
      DistinctKeys(fields) && forall i :: 0 <= i < |fields| ==> WellFormed(fields[i].value)
    case _ => true
  }

  /** Number of nodes of a value; the termination measure of the decoder. */
  function Size(j: Json): nat {
    match j
    case JArr(items) => 1 + ItemsSize(items)
    case JObj(fields) => 1 + FieldsSize(fields)
    case _ => 1
  }

  function ItemsSize(items: seq<Json>): nat {
    if items == [] then 0 else Size(items[0]) + ItemsSize(items[1..])
  }

  function FieldsSize(d: seq<Field>): nat {
    if d == [] then 0 else Size(d[0].value) + FieldsSize(d[1..])
  }

  /** `d.get(key, None)`: the value of the first field named `key`. */
  function Get(d: seq<Field>, key: string): (r: Option<Json>)
    ensures r.Some? <==> key in Keys(d)
    ensures r.Some? ==> Field(key, r.value) in d && Size(r.value) <= FieldsSize(d)
  {
    if d == [] then None
    else if d[0].key == key then Some(d[0].value)
    else Get(d[1..], key)
  }

  /** `key in d`. */
  predicate HasKey(d: seq<Field>, key: string) {
    Get(d, key).Some?
  }

  /** `d[key]`, for a key that is present. */
  function Lookup(d: seq<Field>, key: string): Json
    requires HasKey(d, key)
  {
    Get(d, key).value
  }

  /** A field of an object with distinct keys is what `Get` finds under its key. */
  lemma {:induction false} GetDistinct(d: seq<Field>, i: nat)
    requires DistinctKeys(d) && i < |d|
    ensures Get(d, d[i].key) == Some(d[i].value)
  {
    if i > 0 {
      assert d[1..][i - 1] == d[i];
      GetDistinct(d[1..], i - 1);
    }
  }

  /** A key missing from `pre` is looked up in what follows it. */
  lemma {:induction false} GetAfterMiss(pre: seq<Field>, rest: seq<Field>, key: string)
    requires key !in Keys(pre)
    ensures Get(pre + rest, key) == Get(rest, key)
  {
    if pre != [] {
      var whole := pre + rest;
      assert whole[0] == pre[0] && whole[1..] == pre[1..] + rest;
      assert Keys(pre) == [pre[0].key] + Keys(pre[1..]);
      assert whole[0].key != key;
      calc {
        Get(whole, key);
        Get(pre[1..] + rest, key);
        { GetAfterMiss(pre[1..], rest, key); }
        Get(rest, key);
      }
    } else {
      assert pre + rest == rest;
    }
  }
}
