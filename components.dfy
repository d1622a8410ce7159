/**
  The component classes of src/RawJson/classes.py as values: Text, Score,
  Selector, Translate and the Rawtext container.  A Rawtext that sits inside a
  tree (as an item, or as the arguments of a Translate) is represented by its
  item sequence; the mutable Rawtext object itself is the class in module Builder.
*/
module Components {
  import opened Outcomes
  import opened JsonValues
  import opened Shapes

  datatype Component =
    | Text(content: string)
    | Score(name: string, objective: string)
    | Selector(content: string)
    | Translate(key: string, args: WithArg)
    | Container(items: seq<Component>)

  /** The `with_content` of a Translate: None, a list of strings, or a Rawtext. */
  datatype WithArg = NoArgs | Strs(strs: seq<string>) | Nested(items: seq<Component>)

  /**
    A Python value handed to a constructor or to the builder, which checks its
    type at run time.  A Rawtext object is represented by `Comp(Container(items))`.
  */
  datatype Value =
    | NoneVal
    | StrVal(s: string)
    | ListVal(elems: seq<Value>)
    | TupleVal(elems: seq<Value>)
    | Comp(c: Component)
    | OtherVal

  predicate AllStrings(vs: seq<Value>) {
    forall i :: 0 <= i < |vs| ==> vs[i].StrVal?
  }

  function Strings(vs: seq<Value>): (r: seq<string>)
    requires AllStrings(vs)
    ensures |r| == |vs| && forall i :: 0 <= i < |vs| ==> r[i] == vs[i].s
  {
    if vs == [] then [] else [vs[0].s] + Strings(vs[1..])
  }

  // ---------------------------------------------------------------------------
  // Validating constructors

  /** Text(content): a TypeError unless the content is a string. */
  function NewText(content: Value): (r: Result<Component>)
    ensures r.Ok? <==> content.StrVal?
    ensures r.Ok? ==> r.value.Text? && r.value.content == content.s
    ensures r.Err? ==> r.error == TypeError
  {
    if content.StrVal? then Ok(Text(content.s)) else Err(TypeError)
  }

  /** Score(name, objective): a TypeError unless both are strings. */
  function NewScore(name: Value, objective: Value): (r: Result<Component>)
    ensures r.Ok? <==> name.StrVal? && objective.StrVal?
    ensures r.Ok? ==> r.value == Score(name.s, objective.s)
    ensures r.Err? ==> r.error == TypeError
  {
    if name.StrVal? && objective.StrVal? then Ok(Score(name.s, objective.s)) else Err(TypeError)
  }

  /** Selector(content): a TypeError unless the content is a string. */
  function NewSelector(content: Value): (r: Result<Component>)
    ensures r.Ok? <==> content.StrVal?
    ensures r.Ok? ==> r.value.Selector? && r.value.content == content.s
    ensures r.Err? ==> r.error == TypeError
  {
    if content.StrVal? then Ok(Selector(content.s)) else Err(TypeError)
  }

  /**
    Translate(translate, with_content): the arguments must be None, a list whose
    items are all strings, or a Rawtext; anything else (a tuple among them) is a
    TypeError.  The key is not checked by the constructor; it is a string here.
  */
  function NewTranslate(key: string, withContent: Value): (r: Result<Component>)
    ensures r.Ok? <==> withContent.NoneVal?
                       || (withContent.ListVal? && AllStrings(withContent.elems))
                       || (withContent.Comp? && withContent.c.Container?)
    ensures r.Ok? ==> r.value.Translate? && r.value.key == key
    ensures r.Ok? && withContent.NoneVal? ==> r.value.args == NoArgs
    ensures r.Ok? && withContent.ListVal? ==> r.value.args == Strs(Strings(withContent.elems))
    ensures r.Ok? && withContent.Comp? ==> r.value.args == Nested(withContent.c.items)
    ensures r.Err? ==> r.error == TypeError
  {
    match withContent
    case NoneVal => Ok(Translate(key, NoArgs))
    case ListVal(elems) =>
      if AllStrings(elems) then Ok(Translate(key, Strs(Strings(elems)))) else Err(TypeError)
    case Comp(Container(items)) => Ok(Translate(key, Nested(items)))
    case _ => Err(TypeError)
  }

  // ---------------------------------------------------------------------------
  // Decoders of the leaf components: toText, toScore, toSelector

  /** Text.toText: exactly `{"text": <string>}`, else a ValueError. */
  function ToText(d: seq<Field>): (r: Result<Component>)
    ensures r.Ok? <==> |d| == 1 && d[0].key == "text" && d[0].value.JStr?
    ensures r.Ok? ==> r.value == Text(d[0].value.s)
    ensures r.Err? ==> r.error == ValueError
  {
    if !IsSingleStringValue(d, JStr("text")) then Err(ValueError)
    else NewText(StrVal(Lookup(d, "text").s))
  }

  /** Selector.toSelector: exactly `{"selector": <string>}`, else a ValueError. */
  function ToSelector(d: seq<Field>): (r: Result<Component>)
    ensures r.Ok? <==> |d| == 1 && d[0].key == "selector" && d[0].value.JStr?
    ensures r.Ok? ==> r.value == Selector(d[0].value.s)
    ensures r.Err? ==> r.error == ValueError
  {
    if !IsSingleStringValue(d, JStr("selector")) then Err(ValueError)
    else NewSelector(StrVal(Lookup(d, "selector").s))
  }

  /** The key list `["name", "objective"]` toScore checks. */
  const ScoreKeys: seq<Json> := [JStr("name"), JStr("objective")]

  /**
    Score.toScore: `{"score": data}` alone, where `data` has two entries and holds
    strings under "name" and "objective"; anything else is a ValueError.
  */
  function ToScore(d: seq<Field>): (r: Result<Component>)
    ensures r.Ok? <==> |d| == 1 && d[0].key == "score" && d[0].value.JObj?
                       && |d[0].value.fields| == 2
                       && StringAt(d[0].value.fields, "name")
                       && StringAt(d[0].value.fields, "objective")
    ensures r.Ok? ==> r.value == Score(Lookup(d[0].value.fields, "name").s,
                                       Lookup(d[0].value.fields, "objective").s)
    ensures r.Err? ==> r.error == ValueError
  {
    if !IsSingleDictionaryValue(d, JStr("score")) then Err(ValueError)
    else
      var data := Lookup(d, "score").fields;
      if !IsStringValue(data, ScoreKeys) then Err(ValueError)
      else
        assert ScoreKeys[0].s == "name" && ScoreKeys[1].s == "objective";
        NewScore(StrVal(Lookup(data, "name").s), StrVal(Lookup(data, "objective").s))
  }

  /**
    For a genuine dict under "score" (distinct keys), toScore accepts exactly the
    key set {name, objective} with string values, in either order.
  */
  lemma ToScoreExactKeys(data: seq<Field>)
    requires DistinctKeys(data)
    ensures ToScore([Field("score", JObj(data))]).Ok? <==>
              NameSet(Keys(data)) == {"name", "objective"} &&
              forall i :: 0 <= i < |data| ==> data[i].value.JStr?
  {
    ToScoreChecksData(data);
    IsStringValueExactKeys(data, ScoreKeys);
    ScoreKeyNames();
  }

  lemma ToScoreChecksData(data: seq<Field>)
    ensures ToScore([Field("score", JObj(data))]).Ok? <==> IsStringValue(data, ScoreKeys)
  {
    var d := [Field("score", JObj(data))];
    assert IsSingleDictionaryValue(d, JStr("score"));
    assert Lookup(d, "score").fields == data;
  }

  lemma ScoreKeyNames()
    ensures NameSet(Names(ScoreKeys)) == {"name", "objective"}
  {
    assert Names(ScoreKeys) == ["name", "objective"];
    assert NameSet(["name", "objective"]) == {"name", "objective"};
  }

  // ---------------------------------------------------------------------------
  // Encoders: toDictionary

  function TextToDictionary(content: string): Json {
    JObj([Field("text", JStr(content))])
  }

  function ScoreToDictionary(name: string, objective: string): Json {
    JObj([Field("score", JObj([Field("name", JStr(name)), Field("objective", JStr(objective))]))])
  }

  function SelectorToDictionary(content: string): Json {
    JObj([Field("selector", JStr(content))])
  }

  function StringsToJson(ss: seq<string>): (r: seq<Json>)
    ensures |r| == |ss| && forall i :: 0 <= i < |ss| ==> r[i] == JStr(ss[i])
  {
    if ss == [] then [] else [JStr(ss[0])] + StringsToJson(ss[1..])
  }

  /** Every variant serialises itself; a Rawtext to `{"rawtext": [...]}`. */
  function ToDictionary(c: Component): Json
    decreases c, 0
  {
    match c
    case Text(content) => TextToDictionary(content)
    case Score(name, objective) => ScoreToDictionary(name, objective)
    case Selector(content) => SelectorToDictionary(content)
    case Translate(key, NoArgs) => JObj([Field("translate", JStr(key))])
    case Translate(key, Strs(ss)) =>
      JObj([Field("translate", JStr(key)), Field("with", JArr(StringsToJson(ss)))])
    case Translate(key, Nested(items)) =>
      JObj([Field("translate", JStr(key)), Field("with", RawtextToDictionary(items))])
    case Container(items) => RawtextToDictionary(items)
  }

  function RawtextToDictionary(items: seq<Component>): Json
    decreases items, 1
  {
    JObj([Field("rawtext", JArr(EncodeItems(items)))])
  }

  /** The list comprehension `[i.toDictionary() for i in self.data]`. */
  function EncodeItems(items: seq<Component>): (r: seq<Json>)
    ensures |r| == |items|
    decreases items, 0
  {
    if items == [] then [] else [ToDictionary(items[0])] + EncodeItems(items[1..])
  }

  lemma {:induction false} EncodeItemsAt(items: seq<Component>, i: nat)
    requires i < |items|
    ensures EncodeItems(items)[i] == ToDictionary(items[i])
  {
    if i > 0 {
      EncodeItemsAt(items[1..], i - 1);
    }
  }

  /** The serialised form of any tree is a valid JSON document: no dict repeats a key. */
  lemma {:induction false} ToDictionaryWellFormed(c: Component)
    ensures WellFormed(ToDictionary(c))
  {
    match c
    case Translate(key, Strs(ss)) =>
      var w := JArr(StringsToJson(ss));
      assert WellFormed(w);
    case Translate(key, Nested(items)) =>
      RawtextWellFormed(items);
    case Container(items) =>
      RawtextWellFormed(items);
    case _ =>
  }

  lemma {:induction false} RawtextWellFormed(items: seq<Component>)
    ensures WellFormed(RawtextToDictionary(items))
  {
    var enc := EncodeItems(items);
    forall i | 0 <= i < |enc| ensures WellFormed(enc[i]) {
      EncodeItemsAt(items, i);
      ToDictionaryWellFormed(items[i]);
    }
    assert WellFormed(JArr(enc));
  }

  // ---------------------------------------------------------------------------
  // The static contentToDictionary helpers

  /** Text.contentToDictionary: a TypeError unless the content is a string. */
  function TextContentToDictionary(content: Value): (r: Result<Json>)
    ensures r.Ok? <==> content.StrVal?
    ensures r.Ok? ==> NewText(content).Ok? && r.value == ToDictionary(NewText(content).value)
    ensures r.Err? ==> r.error == TypeError
  {
    if content.StrVal? then Ok(TextToDictionary(content.s)) else Err(TypeError)
  }

  /** Score.contentToDictionary: a TypeError unless both are strings. */
  function ScoreContentToDictionary(name: Value, objective: Value): (r: Result<Json>)
    ensures r.Ok? <==> name.StrVal? && objective.StrVal?
    ensures r.Ok? ==> NewScore(name, objective).Ok? && r.value == ToDictionary(NewScore(name, objective).value)
    ensures r.Err? ==> r.error == TypeError
  {
    if name.StrVal? && objective.StrVal? then Ok(ScoreToDictionary(name.s, objective.s)) else Err(TypeError)
  }

  /** Selector.contentToDictionary: a TypeError unless the content is a string. */
  function SelectorContentToDictionary(content: Value): (r: Result<Json>)
    ensures r.Ok? <==> content.StrVal?
    ensures r.Ok? ==> NewSelector(content).Ok? && r.value == ToDictionary(NewSelector(content).value)
    ensures r.Err? ==> r.error == TypeError
  {
    if content.StrVal? then Ok(SelectorToDictionary(content.s)) else Err(TypeError)
  }

  /** `isinstance(v, Rawtext)`. */
  predicate IsRawtext(v: Value) {
    match v
    case Comp(Container(_)) => true
    case _ => false
  }

  /**
    Translate.contentToDictionary as written: the condition that should reject
    bad arguments also holds for None (which is not a Rawtext) and for every
    other value (which is not None), so every call raises TypeError.
  */
  function TranslateContentToDictionary(translate: Value, withContent: Value): (r: Result<Json>)
    ensures r == Err(TypeError)
  {
    if !translate.StrVal? then Err(TypeError)
    else if !withContent.NoneVal? || !IsRawtext(withContent) then Err(TypeError)
    else assert false; Err(TypeError)
  }

  /**
    Translate.contentToDictionary as its checks mean it: a string key and the
    argument kinds the Translate constructor accepts give the dictionary of
    the Translate they build; anything else is a TypeError.
  */
  function TranslateContentToDictionaryIntended(translate: Value, withContent: Value): (r: Result<Json>)
    ensures r.Ok? <==> translate.StrVal? && NewTranslate(translate.s, withContent).Ok?
    ensures r.Ok? ==> r.value == ToDictionary(NewTranslate(translate.s, withContent).value)
    ensures r.Err? ==> r.error == TypeError
  {
    if !translate.StrVal? then Err(TypeError)
    else
      match NewTranslate(translate.s, withContent)
      case Ok(t) => Ok(ToDictionary(t))
      case Err(e) => Err(e)
  }

  // ---------------------------------------------------------------------------
  // __str__ of the leaf components

  /** `str(c)` of a Text, Score or Selector. */
  function Str(c: Component): (r: string)
    requires c.Text? || c.Score? || c.Selector?
    ensures c.Text? ==> ToDictionary(c) == JObj([Field("text", JStr(r))])
    ensures c.Selector? ==> ToDictionary(c) == JObj([Field("selector", JStr(r))])
    ensures c.Score? ==> |r| == |c.name| + 4 + |c.objective|
                         && r[..|c.name|] == c.name
                         && r[|c.name|..|c.name| + 4] == " >> "
                         && r[|c.name| + 4..] == c.objective
  {
    match c
    case Text(content) => content
    case Selector(content) => content
    case Score(name, objective) => name + " >> " + objective
  }
}
