/**
  The decoder of src/RawJson/main.py (priority table, arrayProcessing,
  inRawtext, process) together with the two decoders of src/RawJson/classes.py
  that call back into it: Translate.toTranslate and the decoding constructor
  Rawtext(dictionary).  They are mutually recursive, so they share one module;
  the late-bound `Rawtext.process` hook becomes a direct call.

  The functions are the specification.  arrayProcessing and inRawtext, which
  the source writes as loops, are the methods ArrayProcessing and InRawtext,
  proved equal to Collapse and DecodeList.
*/
module Decoder {
  import opened Outcomes
  import opened JsonValues
  import opened Components

  // ---------------------------------------------------------------------------
  // The ambiguity resolver

  /** `priority.get(key, -1)`. */
  function Priority(key: string): int {
    if key == "translate" then 4
    else if key == "text" then 3
    else if key == "score" then 2
    else if key == "selector" then 1
    else -1
  }

  /** `priority[results]`, where the running key starts as None, ranked 0. */
  function RankOf(best: Option<string>): int {
    match best
    case None => 0
    case Some(key) => Priority(key)
  }

  predicate Recognized(key: string) {
    Priority(key) != -1
  }

  predicate AllRecognized(d: seq<Field>) {
    forall i :: 0 <= i < |d| ==> Recognized(d[i].key)
  }

  /** The recognized keys have pairwise distinct priorities, so a tie cannot pick between two keys. */
  lemma PrioritiesDistinct(a: string, b: string)
    requires Recognized(a) && Recognized(b) && Priority(a) == Priority(b)
    ensures a == b
  {
  }

  /** The recognized key of highest priority present in `d`. */
  function Winner(d: seq<Field>): (w: string)
    requires d != [] && AllRecognized(d)
    ensures w in Keys(d)
    ensures forall i :: 0 <= i < |d| ==> Priority(d[i].key) <= Priority(w)
  {
    assert d[0].key == Keys(d)[0];
    if HasKey(d, "translate") then "translate"
    else if HasKey(d, "text") then "text"
    else if HasKey(d, "score") then "score"
    else "selector"
  }

  /** Any present key whose priority bounds every key's is the winner. */
  lemma WinnerUnique(d: seq<Field>, w: string)
    requires d != [] && AllRecognized(d)
    requires w in Keys(d)
    requires forall i :: 0 <= i < |d| ==> Priority(d[i].key) <= Priority(w)
    ensures w == Winner(d)
  {
    var v := Winner(d);
    var i :| 0 <= i < |d| && Keys(d)[i] == w;
    var j :| 0 <= j < |d| && Keys(d)[j] == v;
    assert d[i].key == w && d[j].key == v;
    assert Recognized(w) && Recognized(v);
    assert Priority(v) <= Priority(w) && Priority(w) <= Priority(v);
    PrioritiesDistinct(w, v);
  }

  /**
    What arrayProcessing computes: a "dictionary error" if any key is outside
    the priority table, `{}` for an empty dict, and otherwise the one-entry dict
    holding the winning key and its value.
  */
  function Collapse(d: seq<Field>): Result<seq<Field>> {
    if !AllRecognized(d) then Err(ValueError)
    else if d == [] then Ok([])
    else
      var w := Winner(d);
      Ok([Field(w, Lookup(d, w))])
  }

  /** The collapsed dict is no larger than the original, which bounds the decoder's recursion. */
  lemma CollapseSmaller(d: seq<Field>)
    requires Collapse(d).Ok?
    ensures Size(JObj(Collapse(d).value)) <= Size(JObj(d))
  {
    if d != [] {
      var w := Winner(d);
      assert FieldsSize([Field(w, Lookup(d, w))]) == Size(Lookup(d, w));
    }
  }

  /** arrayProcessing: the loop that keeps the running key of highest priority. */
  method ArrayProcessing(dictionary: seq<Field>) returns (r: Result<seq<Field>>)
    ensures r == Collapse(dictionary)
  {
    var results: Option<string> := None;
    ghost var at: nat := 0;
    for i := 0 to |dictionary|
      invariant forall j :: 0 <= j < i ==> Recognized(dictionary[j].key)
      invariant results.None? <==> i == 0
      invariant results.Some? ==> at < i && dictionary[at].key == results.value
      invariant results.Some? ==>
                  forall j :: 0 <= j < i ==> Priority(dictionary[j].key) <= Priority(results.value)
    {
      var p := Priority(dictionary[i].key);
      if p == -1 {
        return Err(ValueError);
      }
      if p >= RankOf(results) {
        results := Some(dictionary[i].key);
        at := i;
      }
    }
    if results.None? {
      return Ok([]);
    }
    assert Keys(dictionary)[at] == results.value;
    WinnerUnique(dictionary, results.value);
    r := Ok([Field(results.value, Lookup(dictionary, results.value))]);
  }

  // ---------------------------------------------------------------------------
  // Decoding, as mutually recursive functions ordered by the size of the input

  /**
    The Python value a loaded JSON value stands for, as far as
    `isinstance(i, str)` and `isinstance(w, list)` in toTranslate can tell:
    objects, booleans and numbers are all `OtherVal`.
  */
  function ToValue(j: Json): Value {
    match j
    case JNull => NoneVal
    case JStr(s) => StrVal(s)
    case JArr(items) => ListVal(ToValues(items))
    case _ => OtherVal
  }

  function ToValues(items: seq<Json>): (r: seq<Value>)
    ensures |r| == |items|
    ensures forall i :: 0 <= i < |items| ==> r[i] == ToValue(items[i])
  {
    if items == [] then [] else [ToValue(items[0])] + ToValues(items[1..])
  }

  /** inRawtext: a list is decoded element by element, anything else is a "dictionary error". */
  function DecodeList(sequence: Json): Result<seq<Component>>
    decreases Size(sequence), 0
  {
    if !sequence.JArr? then Err(ValueError)
    else DecodeItems(sequence.items)
  }

  /** The elements in order; the first failing element's error is the result. */
  function DecodeItems(items: seq<Json>): Result<seq<Component>>
    decreases ItemsSize(items), 5
  {
    if items == [] then Ok([])
    else
      match DecodeElement(items[0])
      case Err(e) => Err(e)
      case Ok(c) =>
        match DecodeItems(items[1..])
        case Err(e) => Err(e)
        case Ok(cs) => Ok([c] + cs)
  }

  /**
    One list element: a dict with several keys is collapsed by arrayProcessing
    first, unless it holds both "translate" and "with".
  */
  function DecodeElement(sentence: Json): Result<Component>
    decreases Size(sentence), 4
  {
    if !sentence.JObj? then Err(ValueError)
    else
      var d := sentence.fields;
      if |d| > 1 && !(HasKey(d, "translate") && HasKey(d, "with")) then
        match Collapse(d)
        case Err(e) => Err(e)
        case Ok(collapsed) =>
          CollapseSmaller(d);
          Dispatch(collapsed)
      else Dispatch(d)
  }

  /** The dispatch chain: text, score, selector, translate, rawtext, else an error. */
  function Dispatch(d: seq<Field>): Result<Component>
    decreases Size(JObj(d)), 3
  {
    if HasKey(d, "text") then ToText(d)
    else if HasKey(d, "score") then ToScore(d)
    else if HasKey(d, "selector") then ToSelector(d)
    else if HasKey(d, "translate") then ToTranslate(d)
    else if HasKey(d, "rawtext") then
      match RawtextInit(JObj(d))
      case Err(e) => Err(e)
      case Ok(items) => Ok(Container(items))
    else Err(ValueError)
  }

  /**
    Translate.toTranslate: a string under "translate"; with no "with" nothing
    else may be present, with "with" at most two entries; a list of strings is
    kept, a dict is decoded as a nested Rawtext, anything else is an error.
  */
  function ToTranslate(d: seq<Field>): Result<Component>
    decreases Size(JObj(d)), 2
  {
    if !HasKey(d, "translate") then Err(ValueError)
    else if !Lookup(d, "translate").JStr? then Err(ValueError)
    else
      var key := Lookup(d, "translate").s;
      if !HasKey(d, "with") then
        if |d| > 1 then Err(ValueError) else NewTranslate(key, NoneVal)
      else if |d| > 2 then Err(ValueError)
      else
        var withValue := Lookup(d, "with");
        if withValue.JArr? && AllStrings(ToValues(withValue.items)) then
          NewTranslate(key, ToValue(withValue))
        else if withValue.JObj? then
          match RawtextInit(withValue)
          case Err(e) => Err(e)
          case Ok(items) => NewTranslate(key, Comp(Container(items)))
        else Err(ValueError)
  }

  /** Rawtext(dictionary): `{}` gives an empty container without calling process. */
  function RawtextInit(dictionary: Json): Result<seq<Component>>
    decreases Size(dictionary), 1
  {
    if dictionary == JObj([]) then Ok([])
    else Process(dictionary)
  }

  /** process: the value under "rawtext" is decoded; other keys are not looked at. */
  function Process(dictionary: Json): Result<seq<Component>>
    decreases Size(dictionary), 0
  {
    if !dictionary.JObj? || !HasKey(dictionary.fields, "rawtext") then Err(ValueError)
    else DecodeList(Lookup(dictionary.fields, "rawtext"))
  }

  /** inRawtext: the loop that decodes each element and appends it to `results`. */
  method InRawtext(sequence: Json) returns (r: Result<seq<Component>>)
    ensures r == DecodeList(sequence)
  {
    if !sequence.JArr? {
      return Err(ValueError);
    }
    var items := sequence.items;
    var results: seq<Component> := [];
    for i := 0 to |items|
      invariant |results| == i
      invariant forall j :: 0 <= j < i ==> DecodeElement(items[j]) == Ok(results[j])
    {
      var sentence := items[i];
      if !sentence.JObj? {
        DecodeItemsFirstError(items, i);
        return Err(ValueError);
      }
      var d := sentence.fields;
      if |d| > 1 && !(HasKey(d, "translate") && HasKey(d, "with")) {
        var collapsed := ArrayProcessing(d);
        if collapsed.Err? {
          DecodeItemsFirstError(items, i);
          return Err(collapsed.error);
        }
        d := collapsed.value;
      }
      var c := Dispatch(d);
      if c.Err? {
        DecodeItemsFirstError(items, i);
        return Err(c.error);
      }
      results := results + [c.value];
    }
    DecodeItemsAllOk(items, results);
    r := Ok(results);
  }

  // ---------------------------------------------------------------------------
  // Lemmas about the list decoder

  /** The first element that fails decides the error of the whole list. */
  lemma {:induction false} DecodeItemsFirstError(items: seq<Json>, i: nat)
    requires i < |items|
    requires forall j :: 0 <= j < i ==> DecodeElement(items[j]).Ok?
    requires DecodeElement(items[i]).Err?
    ensures DecodeItems(items) == Err(DecodeElement(items[i]).error)
  {
    if i > 0 {
      assert forall j :: 0 <= j < i - 1 ==> items[1..][j] == items[j + 1];
      DecodeItemsFirstError(items[1..], i - 1);
    }
  }

  lemma {:induction false} DecodeItemsAllOk(items: seq<Json>, results: seq<Component>)
    requires |results| == |items|
    requires forall j :: 0 <= j < |items| ==> DecodeElement(items[j]) == Ok(results[j])
    ensures DecodeItems(items) == Ok(results)
  {
    if items != [] {
      assert forall j :: 0 <= j < |items| - 1 ==> items[1..][j] == items[j + 1];
      DecodeItemsAllOk(items[1..], results[1..]);
      assert results == [results[0]] + results[1..];
    }
  }

  /**
    inRawtext rejects anything but a list; on success it yields exactly one
    component per element, the decoding of that element, in input order.
  */
  lemma {:induction false} DecodeItemsInOrder(items: seq<Json>)
    ensures DecodeItems(items).Ok? <==> forall j :: 0 <= j < |items| ==> DecodeElement(items[j]).Ok?
    ensures DecodeItems(items).Ok? ==>
              |DecodeItems(items).value| == |items| &&
              forall j :: 0 <= j < |items| ==> DecodeElement(items[j]) == Ok(DecodeItems(items).value[j])
  {
    if items != [] {
      var t := items[1..];
      DecodeItemsInOrder(t);
      if DecodeElement(items[0]).Ok? {
        var c := DecodeElement(items[0]).value;
        if DecodeItems(t).Err? {
          var j :| 0 <= j < |t| && DecodeElement(t[j]).Err?;
          assert items[j + 1] == t[j];
        } else {
          var cs := DecodeItems(t).value;
          assert DecodeItems(items) == Ok([c] + cs);
          forall j | 0 <= j < |items| ensures DecodeElement(items[j]) == Ok(([c] + cs)[j]) {
            if j > 0 {
              assert items[j] == t[j - 1];
            }
          }
        }
      }
    }
  }

  lemma DecodeListInOrder(sequence: Json)
    ensures !sequence.JArr? ==> DecodeList(sequence) == Err(ValueError)
    ensures DecodeList(sequence).Ok? ==>
              |DecodeList(sequence).value| == |sequence.items| &&
              forall j :: 0 <= j < |sequence.items| ==>
                DecodeElement(sequence.items[j]) == Ok(DecodeList(sequence).value[j])
  {
    if sequence.JArr? {
      DecodeItemsInOrder(sequence.items);
    }
  }
}
