/**
  The mutable side of src/RawJson/classes.py: a Rawtext object, whose `data`
  list `add` appends to in place, and the TranslateBuilder that
  `Rawtext.translate` hands out bound to it.  Arguments are dynamic Python
  values (`Value`), checked at run time as the source checks them.
*/
module Builder {
  import opened Outcomes
  import opened JsonValues
  import opened Components
  import opened Decoder
  import opened DecoderProperties

  /** Every argument is a RawComponent. */
  predicate AllComponents(args: seq<Value>) {
    forall i :: 0 <= i < |args| ==> args[i].Comp?
  }

  /** The components of an argument list that holds only components. */
  function Unwrap(args: seq<Value>): (r: seq<Component>)
    requires AllComponents(args)
    ensures |r| == |args| && forall i :: 0 <= i < |args| ==> args[i] == Comp(r[i])
  {
    if args == [] then [] else [args[0].c] + Unwrap(args[1..])
  }

  /**
    The leading run of components of an argument list: what `add` has
    appended when it stops, at the end or at the first non-component.
  */
  function ComponentsPrefix(args: seq<Value>): (r: seq<Component>)
    ensures |r| <= |args|
    ensures forall i :: 0 <= i < |r| ==> args[i] == Comp(r[i])
    ensures |r| < |args| ==> !args[|r|].Comp?
  {
    if args == [] || !args[0].Comp? then [] else [args[0].c] + ComponentsPrefix(args[1..])
  }

  /** When every argument is a component, `add` appends all of them. */
  lemma AllComponentsPrefix(args: seq<Value>)
    ensures AllComponents(args) <==> |ComponentsPrefix(args)| == |args|
    ensures AllComponents(args) ==> ComponentsPrefix(args) == Unwrap(args)
  {
  }

  /**
    `r.add(*a).add(*b)` leaves `r.data` as `r.add(*(a + b))` does: when the
    first call raises, the second is never made.
  */
  lemma ChainedAdds(a: seq<Value>, b: seq<Value>)
    ensures AllComponents(a + b) <==> AllComponents(a) && AllComponents(b)
    ensures AllComponents(a) ==> ComponentsPrefix(a + b) == Unwrap(a) + ComponentsPrefix(b)
    ensures !AllComponents(a) ==> ComponentsPrefix(a + b) == ComponentsPrefix(a)
  {
    AllComponentsAppend(a, b);
    if AllComponents(a) {
      PrefixAfterComponents(a, b);
    } else {
      PrefixBeforeFailure(a, b);
    }
  }

  lemma {:induction false} PrefixAfterComponents(a: seq<Value>, b: seq<Value>)
    requires AllComponents(a)
    ensures ComponentsPrefix(a + b) == Unwrap(a) + ComponentsPrefix(b)
  {
    if a == [] {
      assert a + b == b;
    } else {
      var t := a[1..];
      assert (a + b)[0] == a[0] && (a + b)[1..] == t + b;
      AllComponentsCons(a);
      PrefixAfterComponents(t, b);
      var h := a[0].c;
      calc {
        ComponentsPrefix(a + b);
        [h] + ComponentsPrefix(t + b);
        [h] + (Unwrap(t) + ComponentsPrefix(b));
        ([h] + Unwrap(t)) + ComponentsPrefix(b);
        { assert Unwrap(a) == [h] + Unwrap(t); }
        Unwrap(a) + ComponentsPrefix(b);
      }
    }
  }

  lemma {:induction false} PrefixBeforeFailure(a: seq<Value>, b: seq<Value>)
    requires !AllComponents(a)
    ensures ComponentsPrefix(a + b) == ComponentsPrefix(a)
  {
    var t := a[1..];
    assert (a + b)[0] == a[0] && (a + b)[1..] == t + b;
    AllComponentsCons(a);
    if a[0].Comp? {
      PrefixBeforeFailure(t, b);
      assert ComponentsPrefix(a + b) == [a[0].c] + ComponentsPrefix(t + b);
      assert ComponentsPrefix(a) == [a[0].c] + ComponentsPrefix(t);
    }
  }

  lemma AllComponentsAppend(a: seq<Value>, b: seq<Value>)
    ensures AllComponents(a + b) <==> AllComponents(a) && AllComponents(b)
  {
    if AllComponents(a) && AllComponents(b) {
      forall i | 0 <= i < |a + b| ensures (a + b)[i].Comp? {
        if i < |a| {
          assert (a + b)[i] == a[i];
        } else {
          assert (a + b)[i] == b[i - |a|];
        }
      }
    }
    if AllComponents(a + b) {
      forall i | 0 <= i < |a| ensures a[i].Comp? {
        assert (a + b)[i] == a[i];
      }
      forall i | 0 <= i < |b| ensures b[i].Comp? {
        assert (a + b)[|a| + i] == b[i];
      }
    }
  }

  lemma AllComponentsCons(x: seq<Value>)
    requires x != []
    ensures AllComponents(x) <==> x[0].Comp? && AllComponents(x[1..])
  {
    if x[0].Comp? && AllComponents(x[1..]) {
      forall i | 0 <= i < |x| ensures x[i].Comp? {
        if i > 0 {
          assert x[i] == x[1..][i - 1];
        }
      }
    }
  }

  class Rawtext {
    var data: seq<Component>

    /** `Rawtext()`: a container with no items. */
    constructor Empty()
      ensures data == []
    {
      data := [];
    }

    /**
      `Rawtext(dictionary)`: `{}` gives no items without calling process;
      anything else goes through process, whose loop is InRawtext.
    */
    static method FromDictionary(dictionary: Json) returns (r: Result<Rawtext>)
      ensures r.Ok? <==> RawtextInit(dictionary).Ok?
      ensures r.Ok? ==> fresh(r.value) && r.value.data == RawtextInit(dictionary).value
      ensures r.Err? ==> r.error == RawtextInit(dictionary).error
    {
      var raw := new Rawtext.Empty();
      if dictionary == JObj([]) {
        return Ok(raw);
      }
      if !dictionary.JObj? || !HasKey(dictionary.fields, "rawtext") {
        return Err(ValueError);
      }
      var items := InRawtext(Lookup(dictionary.fields, "rawtext"));
      if items.Err? {
        return Err(items.error);
      }
      raw.data := items.value;
      return Ok(raw);
    }

    /** toDictionary: `{"rawtext": [...]}`, which the decoding constructor reads back as the same items. */
    function ToDictionary(): (r: Json)
      reads this
      ensures r == RawtextToDictionary(data)
      ensures WellFormed(r)
      ensures RawtextInit(r) == Ok(data)
    {
      RawtextWellFormed(data);
      RawtextRoundTrip(data);
      RawtextToDictionary(data)
    }

    /**
      add: appends the arguments in order and returns this container; at the
      first argument that is not a component it raises TypeError, and the
      arguments before it stay appended.
    */
    method Add(args: seq<Value>) returns (r: Result<Rawtext>)
      modifies this
      ensures data == old(data) + ComponentsPrefix(args)
      ensures r.Ok? <==> AllComponents(args)
      ensures r.Ok? ==> r.value == this
      ensures r.Err? ==> r.error == TypeError
    {
      ghost var prefix := ComponentsPrefix(args);
      for i := 0 to |args|
        invariant forall j :: 0 <= j < i ==> args[j].Comp?
        invariant i <= |prefix|
        invariant data == old(data) + prefix[..i]
      {
        if !args[i].Comp? {
          assert prefix[..i] == prefix;
          return Err(TypeError);
        }
        assert prefix[..i + 1] == prefix[..i] + [args[i].c];
        data := data + [args[i].c];
      }
      assert prefix[..|args|] == prefix;
      return Ok(this);
    }

    /** addAll: `add(*sequence)`. */
    method AddAll(sequence: seq<Value>) returns (r: Result<Rawtext>)
      modifies this
      ensures data == old(data) + ComponentsPrefix(sequence)
      ensures r.Ok? <==> AllComponents(sequence)
      ensures r.Ok? ==> r.value == this
      ensures r.Err? ==> r.error == TypeError
    {
      r := Add(sequence);
    }

    /** translate: a builder bound to this container, for a string key only. */
    method Translate(translate: Value) returns (r: Result<TranslateBuilder>)
      ensures r.Ok? <==> translate.StrVal?
      ensures r.Ok? ==> fresh(r.value) && r.value.raw == this && r.value.key == translate.s
      ensures r.Err? ==> r.error == TypeError
    {
      if !translate.StrVal? {
        return Err(TypeError);
      }
      r := TranslateBuilder.New(this, translate);
    }
  }

  class TranslateBuilder {
    const raw: Rawtext
    const key: string

    constructor Init(raw: Rawtext, key: string)
      ensures this.raw == raw && this.key == key
    {
      this.raw := raw;
      this.key := key;
    }

    /** `TranslateBuilder(raw, translate)`: a TypeError unless the key is a string. */
    static method New(raw: Rawtext, translate: Value) returns (r: Result<TranslateBuilder>)
      ensures r.Ok? <==> translate.StrVal?
      ensures r.Ok? ==> fresh(r.value) && r.value.raw == raw && r.value.key == translate.s
      ensures r.Err? ==> r.error == TypeError
    {
      if !translate.StrVal? {
        return Err(TypeError);
      }
      var b := new TranslateBuilder.Init(raw, translate.s);
      return Ok(b);
    }

    /**
      build: a ValueError, with nothing appended, unless every argument is a
      component; otherwise one Translate is appended whose arguments are a
      fresh Rawtext holding the arguments in order.  The `args == []` guard
      compares a tuple with a list and never holds, so zero arguments take
      the same path and give an empty nested Rawtext.
    */
    method Build(args: seq<Value>) returns (r: Result<Rawtext>)
      modifies raw
      ensures r.Ok? <==> AllComponents(args)
      ensures r.Ok? ==> r.value == raw && raw.data == old(raw.data) + [Translate(key, Nested(Unwrap(args)))]
      ensures r.Err? ==> r.error == ValueError && raw.data == old(raw.data)
    {
      if !AllComponents(args) {
        return Err(ValueError);
      }
      var withraw := new Rawtext.Empty();
      var _ := withraw.AddAll(args);
      AllComponentsPrefix(args);
      assert withraw.data == Unwrap(args);
      var t := NewTranslate(key, Comp(Container(withraw.data)));
      assert t == Ok(Translate(key, Nested(Unwrap(args))));
      r := raw.Add([Comp(t.value)]);
      assert ComponentsPrefix([Comp(t.value)]) == [t.value];
    }

    /**
      strBuild: a non-string argument is a ValueError; otherwise the argument
      tuple reaches the Translate constructor, which accepts lists but not
      tuples and raises TypeError.  The container is never changed.
    */
    method StrBuild(args: seq<Value>) returns (r: Result<Rawtext>)
      ensures r == Err(if AllStrings(args) then TypeError else ValueError)
    {
      if !AllStrings(args) {
        return Err(ValueError);
      }
      var t := NewTranslate(key, TupleVal(args));
      match t
      case Err(e) => return Err(e);
    }

    /** sequenceBuild: `build(*sequence)`. */
    method SequenceBuild(sequence: seq<Value>) returns (r: Result<Rawtext>)
      modifies raw
      ensures r.Ok? <==> AllComponents(sequence)
      ensures r.Ok? ==> r.value == raw && raw.data == old(raw.data) + [Translate(key, Nested(Unwrap(sequence)))]
      ensures r.Err? ==> r.error == ValueError && raw.data == old(raw.data)
    {
      r := Build(sequence);
    }

    /** sequenceStrBuild: `strBuild(*sequence)`. */
    method SequenceStrBuild(sequence: seq<Value>) returns (r: Result<Rawtext>)
      ensures r == Err(if AllStrings(sequence) then TypeError else ValueError)
    {
      r := StrBuild(sequence);
    }

    /**
      build as its zero-argument guard means it: no arguments append a bare
      Translate, which serialises to `{"translate": key}`.
    */
    method BuildIntended(args: seq<Value>) returns (r: Result<Rawtext>)
      modifies raw
      ensures r.Ok? <==> AllComponents(args)
      ensures r.Ok? && args == [] ==> raw.data == old(raw.data) + [Translate(key, NoArgs)]
      ensures r.Ok? && args != [] ==> raw.data == old(raw.data) + [Translate(key, Nested(Unwrap(args)))]
      ensures r.Ok? ==> r.value == raw
      ensures r.Err? ==> r.error == ValueError && raw.data == old(raw.data)
    {
      if args == [] {
        var t := NewTranslate(key, NoneVal);
        r := raw.Add([Comp(t.value)]);
        assert ComponentsPrefix([Comp(t.value)]) == [t.value];
        return;
      }
      r := Build(args);
    }

    /**
      strBuild as intended: no arguments append a bare Translate, strings are
      passed on as a list and appended as the Translate's string arguments.
    */
    method StrBuildIntended(args: seq<Value>) returns (r: Result<Rawtext>)
      modifies raw
      ensures r.Ok? <==> AllStrings(args)
      ensures r.Ok? && args == [] ==> raw.data == old(raw.data) + [Translate(key, NoArgs)]
      ensures r.Ok? && args != [] ==> raw.data == old(raw.data) + [Translate(key, Strs(Strings(args)))]
      ensures r.Ok? ==> r.value == raw
      ensures r.Err? ==> r.error == ValueError && raw.data == old(raw.data)
    {
      var withContent := if args == [] then NoneVal else ListVal(args);
      if !AllStrings(args) {
        return Err(ValueError);
      }
      var t := NewTranslate(key, withContent);
      r := raw.Add([Comp(t.value)]);
      assert ComponentsPrefix([Comp(t.value)]) == [t.value];
    }
  }

  /**
    What build appends for zero arguments is not the bare Translate the guard
    was meant to produce: it serialises with an empty nested Rawtext.
  */
  lemma EmptyBuildIsNotBare(key: string)
    ensures ToDictionary(Translate(key, Nested(Unwrap([])))) ==
            JObj([Field("translate", JStr(key)), Field("with", JObj([Field("rawtext", JArr([]))]))])
    ensures ToDictionary(Translate(key, Nested(Unwrap([])))) != ToDictionary(Translate(key, NoArgs))
  {
    assert Unwrap([]) == [];
    assert EncodeItems([]) == [];
  }

  /**
    strBuild hands the Translate constructor a tuple, which it rejects; the
    same strings as a list are accepted.
  */
  lemma StrBuildTupleRejected(key: string, ss: seq<Value>)
    requires AllStrings(ss)
    ensures NewTranslate(key, TupleVal(ss)) == Err(TypeError)
    ensures NewTranslate(key, ListVal(ss)) == Ok(Translate(key, Strs(Strings(ss))))
  {
  }
}
