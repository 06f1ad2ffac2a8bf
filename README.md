# Random documents from a JSON schema

This project models `src/data_generator.py` and proves properties about the model. The file turns a JSON-schema-like description into one random document that matches it. It has three parts:

- **`generate_value`**, the schema walker. Its precedence is fixed: a `None` node first, then `type` (`string`, `integer`, `boolean`, `array`, `object`), then `enum`, then `anyOf`, then `None`.
- **`generate_string_by_pattern`**, the pattern resolver. It runs `re.match` on the pattern against one fixed reference URL. It returns the matched prefix, or a random 10-character alphanumeric string when the pattern does not match.
- **`generate_random_data`**, the object assembler. It walks `properties` in order and copies a `default` verbatim when the key is present. Otherwise it generates a value from the property schema.

## Files

- `json.dfy` (module `Json`): JSON values, and Python's dict operations `in`, `get` and item assignment on an ordered list of bindings.
- `draws.dfy` (module `Draws`): the random source becomes an oracle `rng: nat -> nat` that every generator reads at a threaded position. A draw among `n` choices is `rng(pos) % n`. This module also holds the 10-character alphanumeric string of `random.choices`.
- `generator.dfy` (module `DataGenerator`):
  - the input predicates on which the Python code does not raise (`WellFormed`, `AssemblerOk`, `PropertiesOk`, `PropertyOk`);
  - the generators as mutually recursive functions;
  - `generate_random_data` as a method whose loop builds the document in place. It is proved equal to the function `Assemble`.
- `conformance.dfy` (module `Conformance`): `Conforms(node, v)` is a description of which values a node admits that never mentions the draws. The lemmas prove that every generated value conforms.
- `precedence.dfy` (module `Precedence`): the dispatch order, stated as "deleting a shadowed key changes nothing".
- `assembly.dfy` (module `Assembly`): the shape of assembled documents. It also proves the other direction of conformance for the primitive nodes (`string` with or without `pattern`, `integer`, `boolean`, `enum`) and for array lengths: every admitted value is produced by some oracle and matcher.
- `frame.dfy` (module `Frame`): draws are consumed in order. With this, a single draw such as the choice of an `anyOf` alternative can be steered.
- `scenarios.dfy` (module `Scenarios`): each scenario of `src/test_data_generator.py` is proved for every oracle and every matcher.

## Model

| member | source | states |
|---|---|---|
| Json.Find | src/data_generator.py:10 | `key in mapping`: the first binding of the key, and no earlier binding has it |
| Json.HasIffKey | src/data_generator.py:10 | `k in d` holds exactly when `k` is one of the keys of `d` |
| Json.Put | src/data_generator.py:54-56 | `generated_data[prop] = v`: afterwards `prop` maps to `v` and every other key keeps its value; a new key is appended at the end |
| Json.PutKeys | src/data_generator.py:54-56 | assignment keeps the key order and adds a new key as the last one |
| Json.Get | src/data_generator.py:20-21 | `d.get(k)`; no contract of its own, see Json.GetSpec |
| Json.GetSpec | src/data_generator.py:20-21 | `d.get(k)` is `None` exactly when `k` is not a key, and otherwise the value of the first binding of `k` |
| Json.Has | src/data_generator.py:10 | `k in d`; no contract of its own, see Json.Find and Json.HasIffKey |
| Json.IsSubstring | src/data_generator.py:10 | `t in s` on strings (a node that is a string); no contract, a definition; used by Precedence.OneCharNodeIsNull |
| Json.Mentions | src/data_generator.py:10-38 | `key in node` for a string or list node (the tests at lines 10, 35 and 38); no contract, a definition; see DataGenerator.WellFormed and Precedence.OneCharNodeIsNull |
| Json.Without | src/data_generator.py:10-42 | deleting a key removes it and leaves every other lookup unchanged (used to state precedence) |
| Draws.Draw | src/data_generator.py:22 | one draw among `n` choices is below `n` |
| Draws.DrawConst | src/data_generator.py:22 | every choice in a range is the outcome of some oracle |
| Draws.AlnumAt | src/data_generator.py:17 | the `i`-th character of `ascii_letters + digits` (a–z, A–Z, 0–9) is alphanumeric |
| Draws.AlnumRoundTrip | src/data_generator.py:17 | AlnumIndex undoes AlnumAt on every position, so the alphabet has 62 distinct characters |
| Draws.AlnumIndex | src/data_generator.py:17 | every character of `ascii_letters + digits` has a position in the 62-character alphabet |
| Draws.Choices | src/data_generator.py:17 | `random.choices(..., k)` gives `k` characters of the alphabet and uses exactly `k` draws |
| Draws.RandomString | src/data_generator.py:17 | a random string has length exactly 10, only alphanumeric characters, and uses 10 draws |
| Draws.ChoicesSpell | src/data_generator.py:17 | an oracle whose draws name the characters of `s` makes `random.choices` return `s` |
| Draws.RandomStringReachable | src/data_generator.py:17 | every alphanumeric string of length 10 is a possible random string |
| Draws.ChoicesFrame | src/data_generator.py:17 | `random.choices` reads only the draws from its start position on |
| DataGenerator.REFERENCE | src/data_generator.py:45 | the reference URL that every pattern is matched against; a definition, no contract |
| DataGenerator.IsType | src/data_generator.py:10-13 | `"type" in d and d["type"] == name`, the test of lines 13, 19, 24, 27 and 32; a definition, no contract |
| DataGenerator.HasKnownType | src/data_generator.py:13-35 | one of the five `type` values of the `if`/`elif` chain, the condition under which the walker does not reach the `enum` test; a definition, no contract; see Precedence.TypeWinsOverEnumAndAnyOf |
| DataGenerator.HasDefault | src/data_generator.py:53 | `"default" in prop_schema` on a mapping; a definition, no contract; see Conformance.PropertyConforms |
| DataGenerator.IntOr | src/data_generator.py:20-21 | `get(key, default)` for a bound, a bool counting as 0 or 1; no contract, a definition |
| DataGenerator.Minimum | src/data_generator.py:20 | `get("minimum", 0)`; no contract; its range is stated by Conformance.ValueConforms and Assembly.IntegerReachable, its default by Scenarios.TestGenerateArray |
| DataGenerator.Maximum | src/data_generator.py:21 | `get("maximum", 100)`; no contract; see Minimum |
| DataGenerator.WellFormed | src/data_generator.py:6-42 | the nodes on which `generate_value` does not raise; no contract, a definition; used as the precondition of every generator lemma |
| DataGenerator.AssemblerOk | src/data_generator.py:50-52 | the schemas on which `generate_random_data` does not raise; no contract, a definition |
| DataGenerator.PropertiesOk | src/data_generator.py:52-56 | a `properties` dict whose every property schema passes PropertyOk; no contract, a definition |
| DataGenerator.PropertyOk | src/data_generator.py:53-56 | a property schema on which `"default" in prop_schema` and what follows do not raise; no contract, a definition |
| DataGenerator.GenerateValue | src/data_generator.py:6-42 | `generate_value`; no contract of its own, see Conformance.ValueConforms, Precedence.*, Frame.ValueFrame and the Assembly.*Reachable lemmas |
| DataGenerator.Assemble | src/data_generator.py:50-58 | the assembler's document as a function; no contract of its own, see DataGenerator.GenerateRandomData, Conformance.DocumentConforms and Assembly.DocumentShape |
| DataGenerator.FieldsFrom | src/data_generator.py:52-56 | the entries for properties `j..`; no contract of its own, see DataGenerator.AssignProperties and Conformance.FieldsConform |
| DataGenerator.PropertyValue | src/data_generator.py:53-56 | the default-or-generate step; no contract of its own, see Conformance.PropertyConforms |
| DataGenerator.StringByPattern | src/data_generator.py:44-48 | a match gives the matched prefix of the reference URL and no draw; no match gives a 10-character alphanumeric string and 10 draws; it always returns a string |
| DataGenerator.GenerateItems | src/data_generator.py:29-30 | the list comprehension yields exactly `array_length` elements |
| DataGenerator.GenerateRandomData | src/data_generator.py:5-58 | the assembler method returns exactly the document and draw position of `Assemble` (empty when there is no `properties`) |
| DataGenerator.AssignProperties | src/data_generator.py:52-56 | the `for` loop over `properties.items()` builds the same document as `FieldsFrom`. Its invariant is that entry `i` is the `i`-th declared property |
| DataGenerator.NewKey | src/data_generator.py:52-54 | in a dict, the key being assigned is not among the keys assigned before it |
| Conformance.Conforms | src/data_generator.py:6-42 | the values a node admits, draw-free, in the walker's precedence; a definition, the reference for Conformance.ValueConforms and the Assembly.*Reachable lemmas |
| Conformance.DocConforms | src/data_generator.py:50-58 | the documents a schema admits; a definition, the reference for Conformance.DocumentConforms |
| Conformance.PropConforms | src/data_generator.py:53-56 | the values a property admits: its `default` verbatim, or a conforming value; a definition |
| Conformance.ValueConforms | src/data_generator.py:6-42 | every value of `generate_value` conforms to its node, whatever the draws and the matcher |
| Conformance.ItemsConform | src/data_generator.py:27-30 | every element of a generated array conforms to `items` |
| Conformance.DocumentConforms | src/data_generator.py:50-58 | every document conforms to its schema: one entry per declared property, in order, each holding its `default` verbatim or a conforming value |
| Conformance.PropertyConforms | src/data_generator.py:53-56 | the value of one property is its `default` verbatim, or it conforms to the property schema |
| Conformance.FieldsConform | src/data_generator.py:52-56 | the entries for properties `j..` have the keys of those properties, in order, with conforming values |
| Conformance.ConsEntries | src/data_generator.py:52-56 | adding the entry of property `j` in front of conforming entries for `j+1..` gives conforming entries for `j..` |
| Precedence.NullNodeYieldsNull | src/data_generator.py:7-8 | a `None` node yields `None` and draws nothing |
| Precedence.TypeWinsOverEnumAndAnyOf | src/data_generator.py:10-36 | with a recognised `type`, deleting `enum` and `anyOf` changes neither the value nor the draws |
| Precedence.SameTypedNode | src/data_generator.py:10-33 | two nodes with the same recognised `type` that differ only in `enum`/`anyOf` generate the same value with the same draws |
| Precedence.UnknownTypeFallsThrough | src/data_generator.py:10-42 | an unrecognised `type` (such as `"null"`) is ignored: the node behaves as if it had no `type` |
| Precedence.EnumWinsOverAnyOf | src/data_generator.py:35-40 | without a recognised `type`, `enum` wins: deleting `anyOf` changes nothing |
| Precedence.NoDispatchKeyYieldsNull | src/data_generator.py:42 | a mapping with none of `type`, `enum` and `anyOf` (a bare `$ref`, or `{}`) yields `None` and draws nothing |
| Precedence.OneCharNodeIsNull | src/data_generator.py:38-42 | a one-character string node, which is what `random.choice` picks from a string `anyOf`, yields `None` |
| Precedence.EmptyItemsAreNulls | src/data_generator.py:28-30 | `[generate_value({}) for _ in range(n)]` gives `n` nulls and uses no draw |
| Assembly.DeclaredProperties | src/data_generator.py:51-52 | the declared properties form a dict, and each property schema is acceptable to the loop body |
| Assembly.DocumentShape | src/data_generator.py:50-58 | the keys of the document are exactly the declared keys, in declaration order, and every property with a `default` key holds that value verbatim |
| Assembly.SameKeysForAnyDraws | src/data_generator.py:50-56 | two generations from one schema have the same keys in the same order |
| Assembly.RequiredIsIgnored | src/data_generator.py:51-56 | deleting `required` changes neither the document nor the draws |
| Assembly.EmptyObjectNode | src/data_generator.py:32-33 | a nested `{"type": "object"}` without `properties` yields `{}` and draws nothing |
| Assembly.IntegerReachable | src/data_generator.py:19-22 | every integer in `[minimum, maximum]` is a possible value |
| Assembly.BooleanReachable | src/data_generator.py:24-25 | both booleans are possible values |
| Assembly.EnumReachable | src/data_generator.py:35-36 | every element of an `enum` list is a possible value |
| Assembly.EnumCharReachable | src/data_generator.py:35-36 | every character of a string `enum` is a possible value |
| Assembly.StringReachable | src/data_generator.py:13-17 | every 10-character alphanumeric string is a possible value of a `string` node without `pattern` |
| Assembly.PatternPrefixReachable | src/data_generator.py:44-47 | with `pattern`, every prefix of the reference URL is produced, by the matcher that reports a match of that length |
| Assembly.PatternFallbackReachable | src/data_generator.py:46-48 | with `pattern`, every 10-character alphanumeric string is produced, by a matcher that never matches |
| Assembly.ArrayLengthReachable | src/data_generator.py:27-29 | every length from 1 to 5 is a possible array length |
| Frame.ValueFrame | src/data_generator.py:6-42 | `generate_value` reads no draw before its start position and never moves backwards |
| Frame.StringFrame | src/data_generator.py:13-17 | the same for a `string` node |
| Frame.ChoiceFrame | src/data_generator.py:35-42 | the same for the `enum`, `anyOf` and final-`None` branches |
| Frame.ArrayFrame | src/data_generator.py:27-30 | the same for an `array` node |
| Frame.ItemsFrame | src/data_generator.py:30 | the same for the list comprehension |
| Frame.AssembleFrame | src/data_generator.py:50-58 | the same for the assembler |
| Frame.FieldsFrame | src/data_generator.py:52-56 | the same for the assembler's loop |
| Frame.AnyOfAlternativeReachable | src/data_generator.py:38-40 | every `anyOf` alternative can be chosen: steering the choosing draw gives exactly what that alternative generates from the next draw on |
| Scenarios.WrapValue | src/test_data_generator.py:8 | `{"properties": {"value": s}}` gives the single entry `value`, generated from `s` |
| Scenarios.TestGenerateInteger | src/test_data_generator.py:6-9 | `minimum` 10 and `maximum` 20 give an integer in `[10, 20]` |
| Scenarios.TestGenerateString | src/test_data_generator.py:11-15 | a `string` node gives a string of length 10 made of letters and digits |
| Scenarios.TestGenerateBoolean | src/test_data_generator.py:17-20 | a `boolean` node gives `True` or `False` |
| Scenarios.TestGenerateEnum | src/test_data_generator.py:22-25 | an `enum` node gives one of its colours |
| Scenarios.TestGenerateArray | src/test_data_generator.py:27-31 | an array of integers has 1 to 5 elements, each an integer in `[0, 100]` |
| Scenarios.PersonPropertiesOk | src/test_data_generator.py:36-39 | the `name`/`age` properties form an acceptable `properties` mapping with keys `name`, `age` |
| Scenarios.PersonDocument | src/test_data_generator.py:33-45 | any schema with those properties gives `name` as a random string and `age` as an integer in `[0, 100]`, in that order |
| Scenarios.TestGenerateObject | src/test_data_generator.py:33-45 | the nested object has keys `name` and `age`, with a string and an integer |
| Scenarios.TestRequiredFields | src/test_data_generator.py:47-58 | with `required: ["name"]` both `name` and `age` are still generated |
| Scenarios.DefaultEmptyList | src/data_generator.py:53-54 | a property with `"default": []` is exactly `[]` and uses no draw |

## Left out

- The module-level demo schema and the `generate_random_data(schema)`/`print` calls (`src/data_generator.py:60-224`). They are example input and console output.
- The regular-expression engine behind `re.match`. The model takes it as a parameter `Matcher` that returns either no match or the length of the matched prefix of the reference URL. A zero-length match counts as a match and returns the empty string, because a match object is true even when it is empty; it does not fall back to a random string.
- Uniformity of `random.choices`, `random.randint` and `random.choice`. The model has only the support of each draw, through the oracle: every outcome is possible, and no other one is.
- Inputs on which the Python code raises. The predicates `WellFormed`, `AssemblerOk` and `PropertiesOk` exclude them, and the model gives no result for them:
  - `minimum > maximum`;
  - an empty `enum` or `anyOf`, or one that is neither a list nor a string;
  - a bound that is neither an int nor a bool;
  - a `pattern` that is not a string;
  - a node that is an int or a bool;
  - a string or list node that mentions a key it is then indexed with;
  - a non-dict `properties`, and a `None` property schema.
- DataGenerator.WellFormed: an `anyOf` node counts as raising when any one of its alternatives would raise. Python raises only when `random.choice` picks such an alternative, so `{"anyOf": [{}, 5]}` returns `None` on some draws and raises on others. The model excludes the whole node and gives no result for the draws that would succeed.
- Python's recursion limit. The code has no depth guard: a schema nested deeply enough raises `RecursionError` (each nested object recurses through lines 33 and 56). The model admits such a schema and gives it a value.
- Cyclic schemas. A Python dict can contain itself; a Dafny datatype value cannot, so such schemas are not represented.
- Invalid regular-expression syntax, on which `re.error` is raised. The matcher is total.
- Floating-point JSON numbers. They are not part of the value datatype, so float bounds, which Python's `randint` rejects, are not represented.
- `$ref`/`$id` resolution. The code does not do it; the only behaviour, `None` for a bare `$ref` node, is `Precedence.NoDispatchKeyYieldsNull`.
- DataGenerator.GenerateValue: for an `array` without `items`, the model builds the list of nulls directly instead of calling itself on `{}`. Termination by schema size does not cover the fresh `{}`. `Precedence.EmptyItemsAreNulls` proves that the two agree.
- Sharing with the schema. Python stores the schema's own `default` object (line 54) and the chosen `enum` element (line 36) in the result, not a copy. A caller that mutates such a value in the result therefore also changes the schema, and so changes what later calls return. The `Json` datatype has value semantics and cannot express this sharing. `Assembly.DocumentShape` and `Scenarios.DefaultEmptyList` ("the default verbatim", "exactly `[]`") hold for a schema that no caller has mutated.
- Lookup in a mapping that binds one key twice takes the first binding. Python dicts cannot hold duplicates. Distinct keys are required only of `properties`, where the loop over `.items()` depends on them.
