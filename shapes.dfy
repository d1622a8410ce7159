/**
  The structural checks of src/RawJson/utils.py.  Each takes a dict and a key
  name (or a list of key names); a key name is any Python value, so it is a
  `Json` here and a non-string one makes the check answer false.
*/
module Shapes {
  import opened JsonValues

  /** `d.get(key, None)` is a string. */
  predicate StringAt(d: seq<Field>, key: string) {
    Get(d, key).Some? && Get(d, key).value.JStr?
  }

  /** `d.get(key, None)` is a dict. */
  predicate ObjectAt(d: seq<Field>, key: string) {
    Get(d, key).Some? && Get(d, key).value.JObj?
  }

  /** is_single_string_value: one entry only, and it is a string under `keyName`. */
  function IsSingleStringValue(d: seq<Field>, keyName: Json): (r: bool)
    ensures r <==> keyName.JStr? && |d| == 1 && d[0].key == keyName.s && d[0].value.JStr?
  {
    keyName.JStr? && |d| == 1 && StringAt(d, keyName.s)
  }

  /** is_single_dictionary_value: one entry only, and it is a dict under `keyName`. */
  function IsSingleDictionaryValue(d: seq<Field>, keyName: Json): (r: bool)
    ensures r <==> keyName.JStr? && |d| == 1 && d[0].key == keyName.s && d[0].value.JObj?
  {
    keyName.JStr? && |d| == 1 && ObjectAt(d, keyName.s)
  }

  /**
    The `for key in keys` loop of is_string_value: it gives up at the first key
    that is not a string or whose value in `d` is missing, null or not a string.
  */
  function ListedKeysHaveStrings(d: seq<Field>, keys: seq<Json>): (r: bool)
    ensures r <==> forall i :: 0 <= i < |keys| ==> keys[i].JStr? && StringAt(d, keys[i].s)
  {
    if keys == [] then true
    else if !keys[0].JStr? then false
    else if !StringAt(d, keys[0].s) then false
    else ListedKeysHaveStrings(d, keys[1..])
  }

  /** is_string_value: as many entries as listed keys, each listed key holding a string. */
  function IsStringValue(d: seq<Field>, keys: seq<Json>): (r: bool)
    ensures r <==> |d| == |keys| && forall i :: 0 <= i < |keys| ==> keys[i].JStr? && StringAt(d, keys[i].s)
  {
    |d| == |keys| && ListedKeysHaveStrings(d, keys)
  }

  /** The names of a list of string keys. */
  function Names(keys: seq<Json>): (r: seq<string>)
    requires forall i :: 0 <= i < |keys| ==> keys[i].JStr?
    ensures |r| == |keys| && forall i :: 0 <= i < |keys| ==> r[i] == keys[i].s
  {
    if keys == [] then [] else [keys[0].s] + Names(keys[1..])
  }

  /** The set of names appearing in a sequence of strings. */
  function NameSet(s: seq<string>): (r: set<string>)
    ensures forall x :: x in r <==> x in s
  {
    if s == [] then {} else {s[0]} + NameSet(s[1..])
  }

  /**
    For a dict (distinct keys) and distinct listed names, is_string_value holds
    exactly when the dict's key set is the listed set and every value is a string.
  */
  lemma IsStringValueExactKeys(d: seq<Field>, keys: seq<Json>)
    requires DistinctKeys(d)
    requires forall i :: 0 <= i < |keys| ==> keys[i].JStr?
    requires forall i, j :: 0 <= i < j < |keys| ==> keys[i].s != keys[j].s
    ensures IsStringValue(d, keys) <==>
              NameSet(Keys(d)) == NameSet(Names(keys)) &&
              forall i :: 0 <= i < |d| ==> d[i].value.JStr?
  {
    if IsStringValue(d, keys) {
      ExactKeysFromCheck(d, keys);
    }
    if NameSet(Keys(d)) == NameSet(Names(keys)) && forall i :: 0 <= i < |d| ==> d[i].value.JStr? {
      CheckFromExactKeys(d, keys);
    }
  }

  lemma ExactKeysFromCheck(d: seq<Field>, keys: seq<Json>)
    requires DistinctKeys(d)
    requires forall i :: 0 <= i < |keys| ==> keys[i].JStr?
    requires forall i, j :: 0 <= i < j < |keys| ==> keys[i].s != keys[j].s
    requires IsStringValue(d, keys)
    ensures NameSet(Keys(d)) == NameSet(Names(keys))
    ensures forall i :: 0 <= i < |d| ==> d[i].value.JStr?
  {
    var names := Names(keys);
    var dk := NameSet(Keys(d));
    var ks := NameSet(names);
    DistinctCard(Keys(d));
    DistinctCard(names);
    forall x | x in ks ensures x in dk {
      var i :| 0 <= i < |names| && names[i] == x;
      assert StringAt(d, keys[i].s);
    }
    SubsetSameSize(ks, dk);
    forall i | 0 <= i < |d| ensures d[i].value.JStr? {
      assert Keys(d)[i] in dk;
      var j :| 0 <= j < |names| && names[j] == d[i].key;
      assert StringAt(d, keys[j].s);
      GetDistinct(d, i);
    }
  }

  lemma CheckFromExactKeys(d: seq<Field>, keys: seq<Json>)
    requires DistinctKeys(d)
    requires forall i :: 0 <= i < |keys| ==> keys[i].JStr?
    requires forall i, j :: 0 <= i < j < |keys| ==> keys[i].s != keys[j].s
    requires NameSet(Keys(d)) == NameSet(Names(keys))
    requires forall i :: 0 <= i < |d| ==> d[i].value.JStr?
    ensures IsStringValue(d, keys)
  {
    var names := Names(keys);
    DistinctCard(Keys(d));
    DistinctCard(names);
    forall i | 0 <= i < |keys| ensures StringAt(d, keys[i].s) {
      assert names[i] in NameSet(Keys(d));
      var j :| 0 <= j < |d| && Keys(d)[j] == names[i];
      GetDistinct(d, j);
    }
  }

  /** A sequence without repetitions has as many distinct elements as entries. */
  lemma {:induction false} DistinctCard(s: seq<string>)
    requires forall i, j :: 0 <= i < j < |s| ==> s[i] != s[j]
    ensures |NameSet(s)| == |s|
  {
    if s != [] {
      DistinctCard(s[1..]);
      assert s[0] !in NameSet(s[1..]);
    }
  }

  lemma SubsetSameSize(a: set<string>, b: set<string>)
    requires a <= b && |a| == |b|
    ensures a == b
  {
    assert b == a + (b - a);
    assert |b - a| == 0;
  }
}
