# MinecraftBE-RawJson in Dafny

MinecraftBE-RawJson reads and writes Minecraft Bedrock "rawtext" JSON. A
rawtext document is `{"rawtext": [...]}`. Each element of its list is one
component:

- `{"text": s}` is a Text.
- `{"score": {"name": n, "objective": o}}` is a Score.
- `{"selector": s}` is a Selector.
- `{"translate": k}` or `{"translate": k, "with": w}` is a Translate. Here `w`
  is a list of strings or a nested rawtext document.
- `{"rawtext": [...]}` is a nested Rawtext container.

The library has three parts:

- A decoder (`process`, `inRawtext` and `arrayProcessing`) turns a loaded
  JSON value into a tree of component objects.
- An encoder (`toDictionary` on every class) turns the tree back into JSON.
- A fluent builder (`Rawtext.add`, `Rawtext.translate` and
  `TranslateBuilder.build`) appends components to a mutable `Rawtext`.

When a list element has several keys, the decoder first collapses it to its
highest-priority key, unless it holds both `translate` and `with` (whatever
other keys it has). The priorities
are translate 4, text 3, score 2 and selector 1, and any other key is an
error. The decoder then dispatches on text, score, selector, translate and
rawtext, in that order.

The model is split into these files:

- `json.dfy`: the loaded JSON value. An object is an association list in
  insertion order. The file also holds the two error kinds (`TypeError`,
  `ValueError`) and a `Result` type.
- `shapes.dfy`: the shape predicates of `src/RawJson/utils.py`.
- `components.dfy`: the component classes as values. This covers their
  type-checking constructors, the `toX` leaf decoders, `toDictionary`,
  `contentToDictionary` and `__str__`.
- `decoder.dfy`: the decoder.
  - Specification functions (`Collapse`, `DecodeList`, `DecodeElement`,
    `Dispatch`, `ToTranslate`, `RawtextInit`, `Process`) are mutually
    recursive and ordered by the size of the input.
  - The source's two loops are the methods `ArrayProcessing` and
    `InRawtext`, proved equal to those functions.
- `properties.dfy`: what the decoder accepts and rejects, that every decoding
  failure is a ValueError, and the encode/decode round trip.
- `builder.dfy`: the mutable `Rawtext` object and its `TranslateBuilder`, as
  classes whose methods update `data` in place.
- `scenarios.dfy`: concrete documents worked through the model.

Python values handed to constructors and builder methods are the datatype
`Components.Value`, because the source checks their types at run time. A
Rawtext object used as a value is `Comp(Container(items))`.

Three places in the code behave differently from what the code itself
evidently means. The model follows the code as written in each, and
"## Findings" below gives a corrected version of each:

- The guard `args == []` at src/RawJson/classes.py:69 is evidently meant to
  catch `build()` with no arguments and append a bare Translate. But `*args`
  is a tuple, and a tuple never equals a list. So the call appends a
  Translate with an empty nested Rawtext instead.
- `strBuild` (src/RawJson/classes.py:78-85) is evidently meant to attach its
  strings as the Translate's arguments, as the `List[str]` annotation at
  src/RawJson/classes.py:206 suggests. It passes the argument tuple, which
  the constructor rejects, so every `strBuild` call raises.
- The condition at src/RawJson/classes.py:248 in
  `Translate.contentToDictionary` holds for `None` (not a Rawtext) and for
  every other value (not `None`), so every call raises TypeError.

Separately, the `>=` at src/RawJson/main.py:18 would let the later of two
keys with equal priority win. No two recognized keys have equal priority, so
that choice can never be seen and the order of keys never matters
(`DecoderProperties.CollapseOrderIndependent`).

The model's objects are association lists, so they can hold a key twice. A
dict loaded from JSON cannot. Only objects with distinct keys
(`JsonValues.DistinctKeys` at every depth, `JsonValues.WellFormed`) stand
for loaded dicts. On a list that repeats a key, `Get`
finds the first occurrence, whereas `json.load` keeps the last one. So
the decoder's result on such a list says nothing about the Python program.
The lemmas about key order, such as `DecoderProperties.CollapseOrderIndependent`,
require distinct keys. The encoder only produces well-formed values
(`Components.ToDictionaryWellFormed`).

## Model

| member | source | states |
|---|---|---|
| Shapes.IsSingleStringValue | src/RawJson/utils.py:3-20 | true iff the key name is a string, the dict has exactly one entry, and that entry is the key name with a string value; false, never an error, for a non-string key name |
| Shapes.IsSingleDictionaryValue | src/RawJson/utils.py:46-63 | true iff the key name is a string, the dict has exactly one entry, and that entry is the key name with a dict value (the code checks for a dict, whatever the docstring says) |
| Shapes.ListedKeysHaveStrings | src/RawJson/utils.py:37-42 | the loop succeeds iff every listed key is a string present in the dict with a non-null string value |
| Shapes.IsStringValue | src/RawJson/utils.py:23-44 | true iff the dict has as many entries as there are listed keys and every listed key holds a string; false when a key is missing, null or not a string |
| Shapes.IsStringValueExactKeys | src/RawJson/utils.py:23-44 | for a dict and distinct key names: true iff the dict's key set equals the listed set and every value is a string |
| Components.NewText | src/RawJson/classes.py:94-98 | Text(content) succeeds iff the content is a string, and otherwise raises TypeError |
| Components.NewScore | src/RawJson/classes.py:128-134 | Score(name, objective) succeeds iff both are strings, and otherwise raises TypeError |
| Components.NewSelector | src/RawJson/classes.py:171-175 | Selector(content) succeeds iff the content is a string, and otherwise raises TypeError |
| Components.NewTranslate | src/RawJson/classes.py:206-215 | Translate(key, with) succeeds iff `with` is None, a list of strings or a Rawtext; this keeps the argument kind (none, strings, nested items); a tuple or anything else raises TypeError |
| Components.ToText | src/RawJson/classes.py:100-104 | accepts exactly a one-entry dict `{"text": <string>}` and gives that Text; anything else is a ValueError |
| Components.ToSelector | src/RawJson/classes.py:177-181 | accepts exactly `{"selector": <string>}` and gives that Selector; anything else is a ValueError |
| Components.ToScore | src/RawJson/classes.py:136-144 | accepts exactly `{"score": data}`, where data has two entries holding strings under "name" and "objective", and gives Score(name, objective); anything else is a ValueError |
| Components.ToScoreExactKeys | src/RawJson/classes.py:136-144 | for a dict under "score", toScore succeeds iff its key set is exactly {name, objective} with string values, in either order |
| Components.ToDictionary | src/RawJson/classes.py:253-267 | no contract of its own: toDictionary of each class (Text at src/RawJson/classes.py:113-119, Score 152-162, Selector 189-196, Translate here, Rawtext 32-35); its properties are carried by DecoderProperties.ComponentRoundTrip and Components.ToDictionaryWellFormed |
| Components.RawtextToDictionary | src/RawJson/classes.py:32-35 | no contract of its own: `{"rawtext": [...]}` of the items; carried by DecoderProperties.RawtextRoundTrip and Components.ToDictionaryWellFormed |
| Components.EncodeItems | src/RawJson/classes.py:32-35 | the list comprehension has one dict per item (its ensures), the i-th being the i-th item's toDictionary (Components.EncodeItemsAt); decoding it back is DecoderProperties.ItemsRoundTrip |
| Components.ToDictionaryWellFormed | src/RawJson/classes.py:32-35 | the serialised form of any component tree never repeats a key in a dict |
| Components.TextContentToDictionary | src/RawJson/classes.py:106-116 | TypeError unless the content is a string; otherwise equals the toDictionary of Text(content), `{"text": c}` |
| Components.ScoreContentToDictionary | src/RawJson/classes.py:146-162 | TypeError unless both are strings; otherwise equals the toDictionary of Score(name, objective) |
| Components.SelectorContentToDictionary | src/RawJson/classes.py:183-196 | TypeError unless the content is a string; otherwise equals the toDictionary of Selector(content), `{"selector": c}` |
| Components.TranslateContentToDictionary | src/RawJson/classes.py:243-251 | as written: every call raises TypeError |
| Components.TranslateContentToDictionaryIntended | src/RawJson/classes.py:243-267 | corrected: succeeds iff the key is a string and the arguments are ones the Translate constructor accepts, and then equals that Translate's toDictionary |
| Components.Str | src/RawJson/classes.py:121-199 | the three leaf `__str__` methods (Text at lines 121-122, Score at 164-165, Selector at 198-199): the str of a Text or Selector is the content its dict holds; the str of a Score is name, then " >> ", then objective |
| Decoder.Priority | src/RawJson/main.py:5-11 | no contract of its own: the priority table, -1 for any other key; carried by Decoder.PrioritiesDistinct and DecoderProperties.TextBeatsScore |
| Decoder.Collapse | src/RawJson/main.py:13-20 | no contract of its own: arrayProcessing as a function; carried by DecoderProperties.CollapseResult, Decoder.WinnerUnique, DecoderProperties.CollapseOrderIndependent and Decoder.ArrayProcessing |
| Decoder.DecodeList | src/RawJson/main.py:23-44 | no contract of its own: inRawtext as a function; carried by Decoder.DecodeListInOrder, Decoder.InRawtext and DecoderProperties.ListFailsWithValueError |
| Decoder.DecodeItems | src/RawJson/main.py:26-44 | no contract of its own: the loop over the elements; carried by Decoder.DecodeItemsInOrder, Decoder.DecodeItemsFirstError, Decoder.DecodeItemsAllOk and DecoderProperties.ItemsRoundTrip |
| Decoder.DecodeElement | src/RawJson/main.py:27-42 | no contract of its own: one element, collapsed unless it holds translate and with; carried by DecoderProperties.ComponentRoundTrip, DecoderProperties.DroppedValuesIgnored, DecoderProperties.UnknownKeyRejected, DecoderProperties.PairElement and DecoderProperties.ElementFailsWithValueError |
| Decoder.Dispatch | src/RawJson/main.py:31-42 | no contract of its own: the if/elif chain; carried by DecoderProperties.NoDispatchKeyRejected and DecoderProperties.DispatchFailsWithValueError |
| Decoder.ToTranslate | src/RawJson/classes.py:217-241 | no contract of its own: Translate.toTranslate; carried by DecoderProperties.ToTranslateShape, DecoderProperties.PairToTranslate and DecoderProperties.ToTranslateFailsWithValueError |
| Decoder.RawtextInit | src/RawJson/classes.py:29-30 | no contract of its own: Rawtext(dictionary); carried by DecoderProperties.RawtextRoundTrip, DecoderProperties.EmptyWithArguments and DecoderProperties.RawtextInitFailsWithValueError |
| Decoder.Process | src/RawJson/main.py:46-49 | no contract of its own: process; carried by DecoderProperties.ProcessNeedsRawtext, DecoderProperties.ProcessIgnoresExtraKeys and DecoderProperties.RawtextRoundTrip |
| Decoder.PrioritiesDistinct | src/RawJson/main.py:5-11 | two recognized keys with the same priority are the same key |
| Decoder.Winner | src/RawJson/main.py:13-20 | the selected key is present, and its priority is at least that of every key in the dict |
| Decoder.WinnerUnique | src/RawJson/main.py:13-20 | a present key whose priority bounds all others is the selected key, so the `>=` tie-break cannot choose between different keys |
| Decoder.ArrayProcessing | src/RawJson/main.py:13-20 | the loop returns exactly Collapse: "dictionary error" on an unrecognized key, `{}` for `{}`, otherwise `{w: d[w]}` for the winning key w |
| Decoder.InRawtext | src/RawJson/main.py:23-44 | the loop returns exactly DecodeList: a non-list is an error; each element is collapsed if needed, then dispatched; the first failing element's error is the result |
| Decoder.DecodeItemsFirstError | src/RawJson/main.py:27-42 | the first element that fails decides the error of the whole list |
| Decoder.DecodeItemsAllOk | src/RawJson/main.py:26-44 | when every element decodes, the list decodes to those components in order |
| Decoder.DecodeItemsInOrder | src/RawJson/main.py:26-44 | a list decodes iff every element does, and then gives exactly one component per element, in input order |
| Decoder.DecodeListInOrder | src/RawJson/main.py:23-44 | inRawtext rejects a non-list with ValueError; on success the result has one component per element, in order |
| Decoder.CollapseSmaller | src/RawJson/main.py:20 | the collapsed dict is no larger than the original |
| DecoderProperties.CollapseResult | src/RawJson/main.py:13-20 | arrayProcessing fails (ValueError) iff some key is outside {translate, text, score, selector}, so always with "with" or "rawtext"; `{}` gives `{}`; otherwise one entry, present in the input with its value, of maximal priority |
| DecoderProperties.CollapseOrderIndependent | src/RawJson/main.py:13-20 | two dicts with the same entries in any order collapse to the same result |
| DecoderProperties.DroppedValuesIgnored | src/RawJson/main.py:28-32 | changing the value of a key that the collapse drops leaves the element's decoding unchanged |
| DecoderProperties.TextBeatsScore | src/RawJson/main.py:28-32 | `{"text": x, "score": s}` decodes to Text(x) whatever s is |
| DecoderProperties.TranslateWithExtraKeyRejected | src/RawJson/main.py:28-38 | an element holding translate, with and any third key fails with ValueError |
| DecoderProperties.NoDispatchKeyRejected | src/RawJson/main.py:31-42 | an element with none of the five dispatch keys fails with ValueError |
| DecoderProperties.UnknownKeyRejected | src/RawJson/main.py:28-42 | an element holding a key outside {text, score, selector, translate, with, rawtext} fails |
| DecoderProperties.ToTranslateShape | src/RawJson/classes.py:217-241 | toTranslate needs a string under "translate"; without "with" nothing else may be present and there are no arguments; with "with" there are at most two keys, a list gives string arguments equal to the list, a dict gives nested arguments; failures are ValueErrors |
| DecoderProperties.PairElement | src/RawJson/main.py:28-38 | an element whose two keys are translate and with, in either order and whatever their values, is not collapsed and goes to toTranslate |
| DecoderProperties.PairToTranslate | src/RawJson/classes.py:220-241 | for a translate/with pair in either key order: a non-string under translate is a ValueError; otherwise a list of strings gives a Translate over that list, a dict gives the nested Rawtext it decodes to (or its error), anything else is a ValueError |
| DecoderProperties.TranslateWithObject | src/RawJson/classes.py:238-239 | for a pair in either key order with a dict under "with": a non-string translate is a ValueError, otherwise the dict is decoded by Rawtext(dictionary), and its failure is the element's failure |
| DecoderProperties.EmptyWithArguments | src/RawJson/classes.py:30 | `"with": []` gives empty string arguments, and `"with": {}` gives an empty nested Rawtext without calling process |
| DecoderProperties.ProcessIgnoresExtraKeys | src/RawJson/main.py:46-49 | process and Rawtext(dictionary) decode the value under "rawtext", wherever it stands, and keys before or after it are not looked at |
| DecoderProperties.NestedWithIgnoresExtraKeys | src/RawJson/classes.py:238-239 | for a pair in either key order, the dict under "with" is decoded from its "rawtext" value wherever that stands, other keys ignored; a non-string translate is a ValueError |
| DecoderProperties.ProcessNeedsRawtext | src/RawJson/main.py:46-48 | process fails with ValueError unless given a dict with a "rawtext" key |
| DecoderProperties.ElementFailsWithValueError | src/RawJson/main.py:27-42 | every failure to decode a dict element is a ValueError, never a TypeError (a non-dict element is the simplification listed under "## Left out") |
| DecoderProperties.DispatchFailsWithValueError | src/RawJson/main.py:31-42 | every failure of the dispatch chain is a ValueError |
| DecoderProperties.ToTranslateFailsWithValueError | src/RawJson/classes.py:217-241 | every failure of toTranslate is a ValueError; the constructor it calls never raises |
| DecoderProperties.RawtextInitFailsWithValueError | src/RawJson/classes.py:29-30 | every failure of Rawtext(dictionary) is a ValueError |
| DecoderProperties.ListFailsWithValueError | src/RawJson/main.py:23-44 | every failure of inRawtext is a ValueError |
| DecoderProperties.ItemsFailWithValueError | src/RawJson/main.py:27-42 | every failure while decoding a list's elements is a ValueError |
| DecoderProperties.StringsRoundTrip | src/RawJson/classes.py:236-237 | a serialised string argument list is read back as the same strings |
| DecoderProperties.ComponentRoundTrip | src/RawJson/classes.py:254-267 | decoding any component's toDictionary gives the component back, including the kind of a Translate's arguments |
| DecoderProperties.RawtextRoundTrip | src/RawJson/classes.py:29-35 | process and Rawtext(dictionary) applied to a Rawtext's toDictionary give back its items in order |
| DecoderProperties.ItemsRoundTrip | src/RawJson/main.py:26-44 | decoding the encoded item list gives back the items |
| Builder.ComponentsPrefix | src/RawJson/classes.py:37-42 | the leading run of components of the arguments: its items are those arguments, and the argument after it, if any, is not a component |
| Builder.AllComponentsPrefix | src/RawJson/classes.py:37-42 | add appends all of its arguments iff every one is a component |
| Builder.ChainedAdds | src/RawJson/classes.py:37-45 | adding a and then b leaves the same items as adding a + b; when the first add fails, the second never runs |
| Builder.PrefixAfterComponents | src/RawJson/classes.py:37-42 | when a holds only components, add over a + b appends a's components and then b's leading components |
| Builder.PrefixBeforeFailure | src/RawJson/classes.py:39-40 | when a holds a non-component, add over a + b stops inside a |
| Builder.Rawtext.Empty | src/RawJson/classes.py:29-30 | `Rawtext()` has no items |
| Builder.Rawtext.FromDictionary | src/RawJson/classes.py:29-30 | `Rawtext(dictionary)` succeeds iff RawtextInit does, and then holds its items; its errors are RawtextInit's |
| Builder.Rawtext.ToDictionary | src/RawJson/classes.py:32-35 | `{"rawtext": [...]}` of the items; well formed; Rawtext(dictionary) reads it back as the same items |
| Builder.Rawtext.Add | src/RawJson/classes.py:37-42 | appends the arguments in order and returns this container; at the first non-component it raises TypeError, and the earlier arguments stay appended |
| Builder.Rawtext.AddAll | src/RawJson/classes.py:44-45 | behaves exactly as add |
| Builder.Rawtext.Translate | src/RawJson/classes.py:47-51 | a builder bound to this container with the given key; TypeError for a non-string key |
| Builder.TranslateBuilder.New | src/RawJson/classes.py:61-66 | TypeError unless the key is a string; otherwise a builder holding the container and the key |
| Builder.TranslateBuilder.Build | src/RawJson/classes.py:68-76 | ValueError, with nothing appended, unless every argument is a component; otherwise appends exactly one Translate whose nested items are the arguments in order, also with zero arguments |
| Builder.TranslateBuilder.StrBuild | src/RawJson/classes.py:78-85 | never changes the container; ValueError if some argument is not a string, otherwise TypeError |
| Builder.TranslateBuilder.SequenceBuild | src/RawJson/classes.py:87-88 | behaves exactly as build on the unpacked list |
| Builder.TranslateBuilder.SequenceStrBuild | src/RawJson/classes.py:90-91 | behaves exactly as strBuild on the unpacked list |
| Builder.TranslateBuilder.BuildIntended | src/RawJson/classes.py:68-76 | corrected build: zero arguments append a bare Translate; otherwise as build |
| Builder.TranslateBuilder.StrBuildIntended | src/RawJson/classes.py:78-85 | corrected strBuild: zero arguments append a bare Translate; non-strings are a ValueError; otherwise appends one Translate with the strings as its arguments |
| Builder.EmptyBuildIsNotBare | src/RawJson/classes.py:69-70 | what build appends for zero arguments serialises as `{"translate": k, "with": {"rawtext": []}}`, not `{"translate": k}` |
| Builder.StrBuildTupleRejected | src/RawJson/classes.py:85 | the Translate constructor rejects the strings as a tuple and accepts them as a list |
| Scenarios.SingleElement | src/RawJson/main.py:46-49 | `{"rawtext": [e]}` decodes to the one component e decodes to |
| Scenarios.HelloText | src/RawJson/main.py:31-32 | `{"rawtext": [{"text": "Hello"}]}` decodes to Text("Hello") and encodes back to the same document |
| Scenarios.SteveHealth | src/RawJson/classes.py:136-165 | a one-score document decodes to Score("Steve", "health"), whose str is "Steve >> health" |
| Scenarios.StringArguments | src/RawJson/classes.py:235-237 | `"with": ["x", "y"]` decodes to string arguments ["x", "y"] |
| Scenarios.SwappedArguments | src/RawJson/main.py:28 | `{"with": [x], "translate": k}`, with the keys in that order, decodes to Translate(k, [x]) |
| Scenarios.NestedArguments | src/RawJson/classes.py:238-239 | a nested rawtext under "with" decodes to a nested Text("z") |
| Scenarios.TextWinsOverScore | src/RawJson/main.py:28-32 | text beside score decodes to the Text alone |
| Scenarios.UnknownKeyBesideSelector | src/RawJson/main.py:16-17 | a selector beside an unknown key fails |

## Findings

| source | as written | input that shows it | evidently intended | confidence | as-written member | corrected member |
|---|---|---|---|---|---|---|
| src/RawJson/classes.py:69-70 | `args == []` compares the argument tuple with a list and is never true | `builder.build()` appends `Translate(k, Rawtext())`, which serialises as `{"translate": k, "with": {"rawtext": []}}` (Builder.EmptyBuildIsNotBare) | with no arguments, append a bare `Translate(k)` | medium, not executed | Builder.TranslateBuilder.Build | Builder.TranslateBuilder.BuildIntended |
| src/RawJson/classes.py:78-85 | the argument tuple is passed to the Translate constructor, which accepts a list but not a tuple, and the zero-argument guard never holds | `builder.strBuild("x")` raises TypeError (Builder.StrBuildTupleRejected) | append `Translate(k, ["x"])`; with no arguments, a bare `Translate(k)` | high, not executed | Builder.TranslateBuilder.StrBuild | Builder.TranslateBuilder.StrBuildIntended |
| src/RawJson/classes.py:248 | `with_content is not None or not isinstance(with_content, Rawtext) or ...` holds for every value | `Translate.contentToDictionary("k", None)` raises TypeError | raise only for arguments the Translate constructor rejects; otherwise return that Translate's dict | high, not executed | Components.TranslateContentToDictionary | Components.TranslateContentToDictionaryIntended |

`SequenceBuild` and `SequenceStrBuild` call the as-written `Build` and
`StrBuild`, as the source's methods do.

## Left out

- `main()` (src/RawJson/main.py:51-57) reads `testing.json` and pretty-prints the result. File I/O and printing are outside the model.
- src/RawJson/__init__.py: line 2 imports `RawText`, `RawScore`, `RawSelector` and `RawTranslate`, which src/RawJson/classes.py does not define. So importing the package fails before line 8 installs the `Rawtext.process` hook, and `main()` (src/RawJson/main.py:52) cannot run either, because main.py needs the package for its relative imports. Without the hook, `Rawtext(d)` for a non-empty `d` calls `None`. The model assumes the hook (`Rawtext.process = process`) is installed: `RawtextInit` calls `Process` directly.
- The `__str__` and `__repr__` of Rawtext and Translate use `pprint.pformat` for layout. The `__repr__` of Text, Score and Selector (src/RawJson/classes.py:124-125, 167-168, 201-202) are display strings such as `-text::…` and are left out too. `with_id` uses the object's memory address. The abstract base class machinery is not modelled either.
- Python behaviour on list elements that are not dicts is not modelled. For example, `"text" in "context"` is a substring test, and `len(5)` raises TypeError. Every non-object element is a ValueError in the model. The same goes for a non-dict passed to `process` or `Rawtext(...)`.
- Aliasing and cycles are not modelled. A Rawtext added to a container, or used as a Translate's arguments, is modelled as a copy of its items at that moment. Later changes to that object, and adding a Rawtext to itself, are outside the model.
- JSON numbers are integers. Floats and booleans only need to be told apart from strings, lists and objects.
- Components.NewTranslate: its key is a string. The Python constructor does not check the key's type, but the decoder and the builder only ever pass strings.
- Builder.TranslateBuilder.New: does not model the `isinstance(raw, Rawtext)` check, because the type system already guarantees it.
- Builder.Rawtext.AddAll: its argument is a sequence. Unpacking a non-iterable in Python raises TypeError, which is not modelled.
- Error messages are not modelled, only their kinds (TypeError or ValueError).
