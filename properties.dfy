/**
  Properties of the decoder: how the ambiguity resolver collapses a dict, which
  elements are rejected, and the encode/decode round trip.
*/
module DecoderProperties {
  import opened Outcomes
  import opened JsonValues
  import opened Shapes
  import opened Components
  import opened Decoder

  // ---------------------------------------------------------------------------
  // arrayProcessing

  /**
    arrayProcessing raises "dictionary error" exactly when some key is outside
    {translate, text, score, selector} ("with" and "rawtext" included); otherwise
    it returns `{}` for `{}` and else the single entry `{k: d[k]}` of the key k
    of highest priority.
  */
  lemma {:induction false} CollapseResult(d: seq<Field>)
    ensures Collapse(d).Err? <==> exists i :: 0 <= i < |d| && Priority(d[i].key) == -1
    ensures Collapse(d).Err? ==> Collapse(d).error == ValueError
    ensures HasKey(d, "with") || HasKey(d, "rawtext") ==> Collapse(d) == Err(ValueError)
    ensures d == [] ==> Collapse(d) == Ok([])
    ensures Collapse(d).Ok? && d != [] ==>
              var c := Collapse(d).value;
              |c| == 1 && HasKey(d, c[0].key) && c[0].value == Lookup(d, c[0].key) &&
              forall i :: 0 <= i < |d| ==> Priority(d[i].key) <= Priority(c[0].key)
  {
    if HasKey(d, "with") {
      var i :| 0 <= i < |d| && Keys(d)[i] == "with";
      assert Priority(d[i].key) == -1;
    }
    if HasKey(d, "rawtext") {
      var i :| 0 <= i < |d| && Keys(d)[i] == "rawtext";
      assert Priority(d[i].key) == -1;
    }
  }

  /** Within one field list, replacing the value of a field named otherwise leaves a lookup alone. */
  lemma {:induction false} GetOtherField(d: seq<Field>, i: nat, v: Json, key: string)
    requires i < |d| && d[i].key != key
    ensures Get(d[i := Field(d[i].key, v)], key) == Get(d, key)
  {
    if d != [] && d[0].key != key && i > 0 {
      assert d[i := Field(d[i].key, v)][1..] == d[1..][i - 1 := Field(d[i].key, v)];
      GetOtherField(d[1..], i - 1, v, key);
    }
  }

  lemma {:induction false} KeysSameWhenValuesChange(d: seq<Field>, e: seq<Field>)
    requires |d| == |e| && forall i :: 0 <= i < |d| ==> d[i].key == e[i].key
    ensures Keys(d) == Keys(e)
  {
  }

  /**
    The result of arrayProcessing does not depend on the order of the entries:
    two dicts with the same entries collapse alike.  This relies on the four
    priorities being distinct: the `>=` of the loop never chooses between
    different keys.
  */
  lemma CollapseOrderIndependent(d: seq<Field>, e: seq<Field>)
    requires DistinctKeys(d) && DistinctKeys(e)
    requires forall f :: f in d <==> f in e
    ensures Collapse(d) == Collapse(e)
  {
    SameKeysOfSameFields(d, e);
    SameKeysOfSameFields(e, d);
    SameKeysSameRecognized(d, e);
    if AllRecognized(d) && d != [] {
      assert Keys(d)[0] in Keys(e);
      SameKeysSameWinner(d, e);
      var w := Winner(d);
      var v := Lookup(d, w);
      assert Field(w, v) in e;
      var j :| 0 <= j < |e| && e[j] == Field(w, v);
      GetDistinct(e, j);
    }
  }

  lemma SameKeysSameRecognized(d: seq<Field>, e: seq<Field>)
    requires forall k :: k in Keys(d) <==> k in Keys(e)
    ensures AllRecognized(d) <==> AllRecognized(e)
  {
    if AllRecognized(d) {
      forall i | 0 <= i < |e| ensures Recognized(e[i].key) {
        assert Keys(e)[i] in Keys(d);
      }
    }
    if AllRecognized(e) {
      forall i | 0 <= i < |d| ensures Recognized(d[i].key) {
        assert Keys(d)[i] in Keys(e);
      }
    }
  }

  lemma SameKeysSameWinner(d: seq<Field>, e: seq<Field>)
    requires d != [] && e != [] && AllRecognized(d) && AllRecognized(e)
    requires forall k :: k in Keys(d) <==> k in Keys(e)
    ensures Winner(d) == Winner(e)
  {
    assert HasKey(d, "translate") == HasKey(e, "translate");
    assert HasKey(d, "text") == HasKey(e, "text");
    assert HasKey(d, "score") == HasKey(e, "score");
  }

  lemma SameKeysOfSameFields(d: seq<Field>, e: seq<Field>)
    requires forall f :: f in d ==> f in e
    ensures forall k :: k in Keys(d) ==> k in Keys(e)
  {
    forall k | k in Keys(d) ensures k in Keys(e) {
      var i :| 0 <= i < |d| && Keys(d)[i] == k;
      assert d[i] in e;
      var j :| 0 <= j < |e| && e[j] == d[i];
      assert Keys(e)[j] == k;
    }
  }

  // ---------------------------------------------------------------------------
  // Which elements inRawtext accepts

  /**
    A collapsed element is decoded from the winning entry alone: the values of
    the dropped keys are never validated.
  */
  lemma DroppedValuesIgnored(d: seq<Field>, i: nat, v: Json)
    requires i < |d| && |d| > 1
    requires !(HasKey(d, "translate") && HasKey(d, "with"))
    requires AllRecognized(d) && d[i].key != Winner(d)
    ensures DecodeElement(JObj(d[i := Field(d[i].key, v)])) == DecodeElement(JObj(d))
  {
    var e := d[i := Field(d[i].key, v)];
    KeysSameWhenValuesChange(d, e);
    assert Collapse(e) == Collapse(d) by {
      SameKeysSameRecognized(d, e);
      SameKeysSameWinner(d, e);
      GetOtherField(d, i, v, Winner(d));
    }
    assert !(HasKey(e, "translate") && HasKey(e, "with"));
  }

  /** `{"text": x, "score": s}` decodes to Text(x), whatever `s` is. */
  lemma TextBeatsScore(x: string, s: Json)
    ensures DecodeElement(JObj([Field("text", JStr(x)), Field("score", s)])) == Ok(Text(x))
  {
    var d := [Field("text", JStr(x)), Field("score", s)];
    assert !HasKey(d, "translate");
    assert AllRecognized(d);
    assert Winner(d) == "text";
    assert Collapse(d) == Ok([Field("text", JStr(x))]);
  }

  /** An element holding "translate", "with" and any third key is rejected. */
  lemma TranslateWithExtraKeyRejected(d: seq<Field>)
    requires HasKey(d, "translate") && HasKey(d, "with") && |d| > 2
    ensures DecodeElement(JObj(d)) == Err(ValueError)
  {
    assert DecodeElement(JObj(d)) == Dispatch(d);
    assert ToText(d).Err? && ToScore(d).Err? && ToSelector(d).Err?;
    assert ToTranslate(d) == Err(ValueError);
  }

  lemma {:induction false} FirstKeyPresent(d: seq<Field>)
    requires d != []
    ensures HasKey(d, d[0].key)
  {
    assert Keys(d)[0] == d[0].key;
  }

  /** An element without any of the five dispatch keys is rejected. */
  lemma NoDispatchKeyRejected(d: seq<Field>)
    requires !HasKey(d, "text") && !HasKey(d, "score") && !HasKey(d, "selector")
    requires !HasKey(d, "translate") && !HasKey(d, "rawtext")
    ensures DecodeElement(JObj(d)) == Err(ValueError)
  {
    if |d| > 1 {
      FirstKeyPresent(d);
      assert !Recognized(d[0].key);
    }
  }

  /**
    An element holding a key outside {text, score, selector, translate, with,
    rawtext} is rejected, whatever else it holds.
  */
  lemma UnknownKeyRejected(d: seq<Field>, i: nat)
    requires i < |d|
    requires d[i].key !in {"text", "score", "selector", "translate", "with", "rawtext"}
    ensures DecodeElement(JObj(d)).Err?
  {
    assert Keys(d)[i] == d[i].key;
    if |d| == 1 {
      assert d == [d[i]];
      NoDispatchKeyRejected(d);
    } else if HasKey(d, "translate") && HasKey(d, "with") {
      var a :| 0 <= a < |d| && Keys(d)[a] == "translate";
      var b :| 0 <= b < |d| && Keys(d)[b] == "with";
      assert a != b && a != i && b != i;
      if |d| == 2 {
        assert false;
      }
      TranslateWithExtraKeyRejected(d);
    } else {
      assert !Recognized(d[i].key);
    }
  }

  // ---------------------------------------------------------------------------
  // toTranslate and process

  /**
    What toTranslate accepts: a string under "translate"; without "with" as the
    only entry, with "with" one of two; a list of strings under "with" is kept
    as it is, and a dict becomes a nested container.
  */
  lemma ToTranslateShape(d: seq<Field>)
    ensures ToTranslate(d).Ok? ==>
              HasKey(d, "translate") && Lookup(d, "translate").JStr? &&
              ToTranslate(d).value == Translate(Lookup(d, "translate").s, ToTranslate(d).value.args)
    ensures ToTranslate(d).Ok? && !HasKey(d, "with") ==> |d| == 1 && ToTranslate(d).value.args == NoArgs
    ensures ToTranslate(d).Ok? && HasKey(d, "with") ==>
              |d| <= 2 &&
              (ToTranslate(d).value.args.Strs? <==> Lookup(d, "with").JArr?) &&
              (ToTranslate(d).value.args.Nested? <==> Lookup(d, "with").JObj?)
    ensures ToTranslate(d).Ok? && HasKey(d, "with") && Lookup(d, "with").JArr? ==>
              StringsToJson(ToTranslate(d).value.args.strs) == Lookup(d, "with").items
    ensures ToTranslate(d).Err? ==> ToTranslate(d).error == ValueError
  {
    if ToTranslate(d).Ok? && HasKey(d, "with") && Lookup(d, "with").JArr? {
      ToTranslateStrings(d);
    }
    ToTranslateFailsWithValueError(d);
  }

  lemma ToTranslateStrings(d: seq<Field>)
    requires ToTranslate(d).Ok? && HasKey(d, "with") && Lookup(d, "with").JArr?
    ensures StringsToJson(ToTranslate(d).value.args.strs) == Lookup(d, "with").items
  {
    var items := Lookup(d, "with").items;
    var vs := ToValues(items);
    assert AllStrings(vs);
    var ss := Strings(vs);
    assert ToTranslate(d).value.args.strs == ss;
    forall i | 0 <= i < |items| ensures StringsToJson(ss)[i] == items[i] {
      StringValueIsString(items[i]);
    }
  }

  lemma StringValueIsString(j: Json)
    requires ToValue(j).StrVal?
    ensures j == JStr(ToValue(j).s)
  {
  }

  /** An element holding exactly the keys "translate" and "with", in either order. */
  predicate IsPair(d: seq<Field>) {
    |d| == 2 && HasKey(d, "translate") && HasKey(d, "with")
  }

  /** The two keys of a pair are "translate" and "with" and nothing else. */
  lemma PairKeys(d: seq<Field>)
    requires IsPair(d)
    ensures Keys(d) == ["translate", "with"] || Keys(d) == ["with", "translate"]
  {
    assert Keys(d) == [d[0].key, d[1].key];
  }

  /** `{"translate": key, "with": w}` written in that order is a pair. */
  lemma LiteralPair(key: string, w: Json)
    ensures IsPair([Field("translate", JStr(key)), Field("with", w)])
    ensures Lookup([Field("translate", JStr(key)), Field("with", w)], "translate") == JStr(key)
    ensures Lookup([Field("translate", JStr(key)), Field("with", w)], "with") == w
  {
    var d := [Field("translate", JStr(key)), Field("with", w)];
    assert Get(d, "translate") == Some(JStr(key));
    assert Get(d, "with") == Some(w);
  }

  /** A `translate`/`with` pair is never collapsed and goes straight to toTranslate, whatever its key order. */
  lemma PairElement(d: seq<Field>)
    requires IsPair(d)
    ensures DecodeElement(JObj(d)) == ToTranslate(d)
  {
    PairKeys(d);
    assert "text" !in Keys(d) && "score" !in Keys(d) && "selector" !in Keys(d);
    assert !HasKey(d, "text") && !HasKey(d, "score") && !HasKey(d, "selector");
    assert DecodeElement(JObj(d)) == Dispatch(d);
  }

  /**
    toTranslate of a pair: a non-string under "translate" is a ValueError;
    otherwise only the value under "with" decides the outcome.
  */
  lemma PairToTranslate(d: seq<Field>)
    requires IsPair(d)
    ensures !Lookup(d, "translate").JStr? ==> ToTranslate(d) == Err(ValueError)
    ensures Lookup(d, "translate").JStr? ==>
            var key := Lookup(d, "translate").s;
            var w := Lookup(d, "with");
            ToTranslate(d) ==
            if w.JArr? && AllStrings(ToValues(w.items)) then NewTranslate(key, ListVal(ToValues(w.items)))
            else if w.JObj? then
              match RawtextInit(w)
              case Ok(items) => Ok(Translate(key, Nested(items)))
              case Err(e) => Err(e)
            else Err(ValueError)
  {
  }

  /** An empty list and an empty dict under "with" are both accepted, `{}` without calling process. */
  lemma EmptyWithArguments(key: string)
    ensures DecodeElement(JObj([Field("translate", JStr(key)), Field("with", JArr([]))]))
            == Ok(Translate(key, Strs([])))
    ensures DecodeElement(JObj([Field("translate", JStr(key)), Field("with", JObj([]))]))
            == Ok(Translate(key, Nested([])))
  {
    LiteralPair(key, JArr([]));
    PairElement([Field("translate", JStr(key)), Field("with", JArr([]))]);
    PairToTranslate([Field("translate", JStr(key)), Field("with", JArr([]))]);
    assert ToValues([]) == [];
    LiteralPair(key, JObj([]));
    TranslateWithObject([Field("translate", JStr(key)), Field("with", JObj([]))]);
    assert RawtextInit(JObj([])) == Ok([]);
  }

  /**
    process needs a "rawtext" key and decodes its value; keys before or after
    it are neither checked nor rejected.
  */
  lemma ProcessIgnoresExtraKeys(pre: seq<Field>, list: Json, post: seq<Field>)
    requires "rawtext" !in Keys(pre)
    ensures Process(JObj(pre + [Field("rawtext", list)] + post)) == DecodeList(list)
    ensures RawtextInit(JObj(pre + [Field("rawtext", list)] + post)) == DecodeList(list)
  {
    var rest := [Field("rawtext", list)] + post;
    assert pre + [Field("rawtext", list)] + post == pre + rest;
    GetAfterMiss(pre, rest, "rawtext");
    assert rest[0] == Field("rawtext", list);
    assert |pre + rest| > 0;
  }

  /** The same holds of the dict under a Translate's "with", in either key order. */
  lemma NestedWithIgnoresExtraKeys(d: seq<Field>, pre: seq<Field>, list: Json, post: seq<Field>)
    requires IsPair(d) && Lookup(d, "with") == JObj(pre + [Field("rawtext", list)] + post)
    requires "rawtext" !in Keys(pre)
    ensures !Lookup(d, "translate").JStr? ==> DecodeElement(JObj(d)) == Err(ValueError)
    ensures Lookup(d, "translate").JStr? ==>
            DecodeElement(JObj(d)) ==
            match DecodeList(list)
            case Ok(items) => Ok(Translate(Lookup(d, "translate").s, Nested(items)))
            case Err(e) => Err(e)
  {
    TranslateWithObject(d);
    ProcessIgnoresExtraKeys(pre, list, post);
  }

  /** process fails unless its input is a dict with a "rawtext" key. */
  lemma ProcessNeedsRawtext(dictionary: Json)
    requires !dictionary.JObj? || !HasKey(dictionary.fields, "rawtext")
    ensures Process(dictionary) == Err(ValueError)
  {
  }

  // ---------------------------------------------------------------------------
  // Every decoding failure is a ValueError: the constructors called by the
  // decoders always receive values of the right type.

  lemma {:induction false} ElementFailsWithValueError(sentence: Json)
    ensures DecodeElement(sentence).Err? ==> DecodeElement(sentence).error == ValueError
    decreases Size(sentence), 4
  {
    if sentence.JObj? {
      var d := sentence.fields;
      if |d| > 1 && !(HasKey(d, "translate") && HasKey(d, "with")) {
        if Collapse(d).Ok? {
          CollapseSmaller(d);
          DispatchFailsWithValueError(Collapse(d).value);
        }
      } else {
        DispatchFailsWithValueError(d);
      }
    }
  }

  lemma {:induction false} DispatchFailsWithValueError(d: seq<Field>)
    ensures Dispatch(d).Err? ==> Dispatch(d).error == ValueError
    decreases Size(JObj(d)), 3
  {
    if HasKey(d, "text") || HasKey(d, "score") || HasKey(d, "selector") {
    } else if HasKey(d, "translate") {
      ToTranslateFailsWithValueError(d);
    } else if HasKey(d, "rawtext") {
      RawtextInitFailsWithValueError(JObj(d));
    }
  }

  lemma {:induction false} ToTranslateFailsWithValueError(d: seq<Field>)
    ensures ToTranslate(d).Err? ==> ToTranslate(d).error == ValueError
    decreases Size(JObj(d)), 2
  {
    if HasKey(d, "translate") && HasKey(d, "with") && |d| <= 2 {
      var w := Lookup(d, "with");
      if w.JObj? {
        RawtextInitFailsWithValueError(w);
      }
    }
  }

  lemma {:induction false} RawtextInitFailsWithValueError(dictionary: Json)
    ensures RawtextInit(dictionary).Err? ==> RawtextInit(dictionary).error == ValueError
    decreases Size(dictionary), 1
  {
    if dictionary != JObj([]) && dictionary.JObj? && HasKey(dictionary.fields, "rawtext") {
      ListFailsWithValueError(Lookup(dictionary.fields, "rawtext"));
    }
  }

  lemma {:induction false} ListFailsWithValueError(sequence: Json)
    ensures DecodeList(sequence).Err? ==> DecodeList(sequence).error == ValueError
    decreases Size(sequence), 0
  {
    if sequence.JArr? {
      ItemsFailWithValueError(sequence.items);
    }
  }

  lemma {:induction false} ItemsFailWithValueError(items: seq<Json>)
    ensures DecodeItems(items).Err? ==> DecodeItems(items).error == ValueError
    decreases ItemsSize(items), 5
  {
    if items != [] {
      ElementFailsWithValueError(items[0]);
      ItemsFailWithValueError(items[1..]);
    }
  }

  // ---------------------------------------------------------------------------
  // Round trip

  lemma {:induction false} StringsRoundTrip(ss: seq<string>)
    ensures AllStrings(ToValues(StringsToJson(ss)))
    ensures Strings(ToValues(StringsToJson(ss))) == ss
  {
    var vs := ToValues(StringsToJson(ss));
    assert forall i :: 0 <= i < |ss| ==> vs[i] == StrVal(ss[i]);
    assert Strings(vs) == ss;
  }

  /**
    Decoding the serialised form of any component gives the component back,
    including the kind of a Translate's arguments (none, strings, nested).
  */
  lemma {:induction false} ComponentRoundTrip(c: Component)
    ensures DecodeElement(ToDictionary(c)) == Ok(c)
    decreases c, 1
  {
    match c
    case Text(_) => LeafRoundTrip(c);
    case Score(_, _) => LeafRoundTrip(c);
    case Selector(_) => LeafRoundTrip(c);
    case Translate(_, NoArgs) => BareTranslateRoundTrip(c.key);
    case Translate(key, Strs(ss)) => StringsTranslateRoundTrip(key, ss);
    case Translate(key, Nested(items)) =>
      RawtextRoundTrip(items);
      NestedTranslateRoundTrip(key, items);
    case Container(items) =>
      RawtextRoundTrip(items);
      ContainerRoundTrip(items);
  }

  lemma LeafRoundTrip(c: Component)
    requires c.Text? || c.Score? || c.Selector?
    ensures DecodeElement(ToDictionary(c)) == Ok(c)
  {
    var d := ToDictionary(c).fields;
    assert DecodeElement(ToDictionary(c)) == Dispatch(d);
    match c
    case Text(content) =>
      assert HasKey(d, "text");
    case Score(name, objective) =>
      assert !HasKey(d, "text") && HasKey(d, "score");
      var data := Lookup(d, "score").fields;
      assert StringAt(data, "name") && StringAt(data, "objective");
    case Selector(content) =>
      assert !HasKey(d, "text") && !HasKey(d, "score") && HasKey(d, "selector");
  }

  lemma BareTranslateRoundTrip(key: string)
    ensures DecodeElement(ToDictionary(Translate(key, NoArgs))) == Ok(Translate(key, NoArgs))
  {
    var d := [Field("translate", JStr(key))];
    assert ToDictionary(Translate(key, NoArgs)) == JObj(d);
    assert Get(d, "translate") == Some(JStr(key));
    assert !HasKey(d, "text") && !HasKey(d, "score") && !HasKey(d, "selector") && !HasKey(d, "with");
    assert DecodeElement(JObj(d)) == Dispatch(d) == ToTranslate(d);
  }

  lemma StringsTranslateRoundTrip(key: string, ss: seq<string>)
    ensures DecodeElement(ToDictionary(Translate(key, Strs(ss)))) == Ok(Translate(key, Strs(ss)))
  {
    var w := JArr(StringsToJson(ss));
    assert ToDictionary(Translate(key, Strs(ss))) == JObj([Field("translate", JStr(key)), Field("with", w)]);
    LiteralPair(key, w);
    PairElement([Field("translate", JStr(key)), Field("with", w)]);
    PairToTranslate([Field("translate", JStr(key)), Field("with", w)]);
    StringsRoundTrip(ss);
  }

  lemma NestedTranslateRoundTrip(key: string, items: seq<Component>)
    requires RawtextInit(RawtextToDictionary(items)) == Ok(items)
    ensures DecodeElement(ToDictionary(Translate(key, Nested(items)))) == Ok(Translate(key, Nested(items)))
  {
    var w := RawtextToDictionary(items);
    assert ToDictionary(Translate(key, Nested(items))) == JObj([Field("translate", JStr(key)), Field("with", w)]);
    LiteralPair(key, w);
    TranslateWithObject([Field("translate", JStr(key)), Field("with", w)]);
  }

  /** A pair with a dict `w` under "with" decodes `w` as a nested Rawtext, in either key order. */
  lemma TranslateWithObject(d: seq<Field>)
    requires IsPair(d) && Lookup(d, "with").JObj?
    ensures !Lookup(d, "translate").JStr? ==> DecodeElement(JObj(d)) == Err(ValueError)
    ensures Lookup(d, "translate").JStr? ==>
            DecodeElement(JObj(d)) ==
            match RawtextInit(Lookup(d, "with"))
            case Ok(items) => Ok(Translate(Lookup(d, "translate").s, Nested(items)))
            case Err(e) => Err(e)
  {
    PairElement(d);
    PairToTranslate(d);
  }

  lemma ContainerRoundTrip(items: seq<Component>)
    requires RawtextInit(RawtextToDictionary(items)) == Ok(items)
    ensures DecodeElement(ToDictionary(Container(items))) == Ok(Container(items))
  {
    var d := ToDictionary(Container(items)).fields;
    assert !HasKey(d, "text") && !HasKey(d, "score") && !HasKey(d, "selector");
    assert !HasKey(d, "translate") && HasKey(d, "rawtext");
    assert DecodeElement(JObj(d)) == Dispatch(d);
  }

  /** `Rawtext(r.toDictionary())` has the items of `r`, in order. */
  lemma {:induction false} RawtextRoundTrip(items: seq<Component>)
    ensures Process(RawtextToDictionary(items)) == Ok(items)
    ensures RawtextInit(RawtextToDictionary(items)) == Ok(items)
    decreases items, 1
  {
    ItemsRoundTrip(items);
  }

  lemma {:induction false} ItemsRoundTrip(items: seq<Component>)
    ensures DecodeItems(EncodeItems(items)) == Ok(items)
    decreases items, 0
  {
    if items != [] {
      var enc := EncodeItems(items);
      assert enc[0] == ToDictionary(items[0]);
      assert enc[1..] == EncodeItems(items[1..]);
      ComponentRoundTrip(items[0]);
      ItemsRoundTrip(items[1..]);
      assert items == [items[0]] + items[1..];
    }
  }
}
