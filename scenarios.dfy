/**
  Concrete documents worked through the model: what each decodes to, and, for
  some, that the encoder gives the input back.
*/
module Scenarios {
  import opened Outcomes
  import opened JsonValues
  import opened Components
  import opened Decoder
  import opened DecoderProperties

  function Doc(element: Json): Json {
    JObj([Field("rawtext", JArr([element]))])
  }

  /** `{"rawtext": [e]}` decodes to the single component `e` decodes to. */
  lemma SingleElement(element: Json)
    ensures Process(Doc(element)) ==
            match DecodeElement(element)
            case Ok(c) => Ok([c])
            case Err(e) => Err(e)
  {
    var d := Doc(element).fields;
    assert Lookup(d, "rawtext") == JArr([element]);
    assert Process(Doc(element)) == DecodeList(JArr([element])) == DecodeItems([element]);
    assert [element][1..] == [];
    assert DecodeItems([]) == Ok([]);
    if DecodeElement(element).Ok? {
      var c := DecodeElement(element).value;
      assert [c] + [] == [c];
    }
  }

  lemma HelloText()
    ensures Process(Doc(JObj([Field("text", JStr("Hello"))]))) == Ok([Text("Hello")])
    ensures RawtextToDictionary([Text("Hello")]) == Doc(JObj([Field("text", JStr("Hello"))]))
  {
    SingleElement(JObj([Field("text", JStr("Hello"))]));
    LeafRoundTrip(Text("Hello"));
    assert EncodeItems([Text("Hello")]) == [ToDictionary(Text("Hello"))];
  }

  lemma SteveHealth()
    ensures Process(Doc(ScoreToDictionary("Steve", "health"))) == Ok([Score("Steve", "health")])
    ensures Str(Score("Steve", "health")) == "Steve >> health"
  {
    ScoreDocument("Steve", "health");
  }

  lemma ScoreDocument(name: string, objective: string)
    ensures Process(Doc(ScoreToDictionary(name, objective))) == Ok([Score(name, objective)])
  {
    SingleElement(ScoreToDictionary(name, objective));
    LeafRoundTrip(Score(name, objective));
  }

  lemma StringArguments()
    ensures Process(Doc(JObj([Field("translate", JStr("key.a")), Field("with", JArr([JStr("x"), JStr("y")]))])))
            == Ok([Translate("key.a", Strs(["x", "y"]))])
  {
    TwoStringArguments("key.a", "x", "y");
  }

  lemma TwoStringArguments(key: string, x: string, y: string)
    ensures Process(Doc(JObj([Field("translate", JStr(key)), Field("with", JArr([JStr(x), JStr(y)]))])))
            == Ok([Translate(key, Strs([x, y]))])
  {
    var w := JArr([JStr(x), JStr(y)]);
    SingleElement(JObj([Field("translate", JStr(key)), Field("with", w)]));
    LiteralPair(key, w);
    PairElement([Field("translate", JStr(key)), Field("with", w)]);
    PairToTranslate([Field("translate", JStr(key)), Field("with", w)]);
    var vs := [StrVal(x), StrVal(y)];
    assert ToValues(w.items) == vs;
    assert Strings(vs) == [x, y];
  }

  /** Key order does not matter: "with" may come before "translate". */
  lemma SwappedArguments(key: string, x: string)
    ensures Process(Doc(JObj([Field("with", JArr([JStr(x)])), Field("translate", JStr(key))])))
            == Ok([Translate(key, Strs([x]))])
  {
    var w := JArr([JStr(x)]);
    var d := [Field("with", w), Field("translate", JStr(key))];
    assert Get(d, "translate") == Some(JStr(key)) && Get(d, "with") == Some(w);
    SingleElement(JObj(d));
    PairElement(d);
    PairToTranslate(d);
    assert ToValues(w.items) == [StrVal(x)];
    assert Strings([StrVal(x)]) == [x];
  }

  lemma NestedArguments()
    ensures Process(Doc(JObj([Field("translate", JStr("key.b")),
                              Field("with", Doc(JObj([Field("text", JStr("z"))])))])))
            == Ok([Translate("key.b", Nested([Text("z")]))])
  {
    var z := JObj([Field("text", JStr("z"))]);
    SingleElement(JObj([Field("translate", JStr("key.b")), Field("with", Doc(z))]));
    LiteralPair("key.b", Doc(z));
    TranslateWithObject([Field("translate", JStr("key.b")), Field("with", Doc(z))]);
    SingleElement(z);
    LeafRoundTrip(Text("z"));
    assert RawtextInit(Doc(z)) == Process(Doc(z)) == Ok([Text("z")]);
  }

  lemma TextWinsOverScore()
    ensures Process(Doc(JObj([Field("text", JStr("x")), Field("score", ScoreToDictionary("a", "b").fields[0].value)])))
            == Ok([Text("x")])
  {
    var s := ScoreToDictionary("a", "b").fields[0].value;
    SingleElement(JObj([Field("text", JStr("x")), Field("score", s)]));
    TextBeatsScore("x", s);
  }

  lemma UnknownKeyBesideSelector()
    ensures Process(Doc(JObj([Field("selector", JStr("@p")), Field("unknownKey", JNum(1))]))).Err?
  {
    var d := [Field("selector", JStr("@p")), Field("unknownKey", JNum(1))];
    SingleElement(JObj(d));
    UnknownKeyRejected(d, 1);
  }
}
