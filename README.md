# Heleonix.Execution: ArgsBuilder and ExeResult in Dafny

This project models two parts of Heleonix.Execution.

- `ArgsBuilder` is the fluent builder of command-line argument strings. `By` fixes five separators: key prefix, key/value separator, value separator, path wrapper and argument separator. Each `Add*` call checks its `condition` flag and its inputs. When they pass, it hands one formatted token (or one joined token, or one token per list item) to the private `Append`. `Append` writes the token and then the argument separator into a `StringBuilder`, and it sets `wasModified`. `ToString` returns the buffer; when anything was appended, it first removes the buffer's last UTF-16 code unit, which the model takes to be its last character (see "## Left out").
- `ExeResult` is the result of one run: an exit code, plus standard output and standard error. `ToString` and `Equals` look at the exit code only.

## Layout

| file | module | contents |
|---|---|---|
| `nullable.dfy` | `Nullables` | `Nullable<T>`: a .NET reference that may be null |
| `text.dfy` | `Text` | models of .NET's `string.Join`, the `StringBuilder` buffer (`Terminated`), the `IsNullOrEmpty` filter (`NonEmpty`), LINQ `select` (`Map`), repeated calls (`Each`), `String.Remove(Length - 1, 1)` (`DropLast`) |
| `args_format.dfy` | `ArgsFormat` | the five separators (`Syntax`); one pure function per `Add*` operation that gives the tokens the operation appends; `Render`, the body of `ToString`; lemmas relating the operations |
| `args_builder.dfy` | `ArgsBuilders` | class `ArgsBuilder` |
| `args_builder_examples.dfy` | `ArgsBuilderExamples` | the test suite's scenarios, proved against the class's contracts |
| `exe_result.dfy` | `ExeResults` | datatype `ExeResult`; decimal rendering and parsing; `ToString`, `Equals` |

The `ArgsBuilder` class keeps the source's state:

- `buffer: string` stands for the `StringBuilder`.
- `wasModified: bool` is the source's flag.
- The five separators are one `const syntax: Syntax`.
- A ghost `tokens: seq<string>` records every string passed to `Append`.

`Valid()` ties these together with three facts:

- `buffer == Terminated(tokens, argsSeparator)`, that is, each token followed by the separator.
- `wasModified == (tokens != [])`.
- No token is empty.

Each `Add*` method returns `this`. It states its new `buffer` and `wasModified` outright, and states `tokens == old(tokens) + ArgsFormat.<Op>(syntax, …)`. The two `multipleTimes` branches keep the source's `foreach` over `Append` as a `while` loop with invariants.

C# overloads are renamed:

- `AddPath(key, path)` is `AddKeyedPath`.
- `AddPaths(key, paths, multipleTimes)` is `AddKeyedPaths`.
- The implicit `string` conversion is the static function `AsString`.

Default parameter values (`condition = true`, `multipleTimes = false`, and `By`'s `";"`, `"\""`, `" "`) are kept as Dafny default parameters.

Null is handled as follows:

- A null `string`, or a null `object` value, is modelled as `""`. That is how `string.IsNullOrEmpty`, string interpolation, `StringBuilder.Append` and `string.Join` treat it. So `AddValue(null)` and `AddValue("")` are the same call.
- Object values are modelled by the string their `ToString()` returns.
- A null list is `Nullable.Null`, so the source's `== null` guard stays explicit. `NullListIsEmptyList` proves that no list operation can tell a null list from an empty one.

Two behaviours of the source are kept as written, and lemmas exhibit them:

1. `ToString` removes one character, not one separator (ArgsBuilder.cs:411). "Character" below means a Dafny `char`, a Unicode scalar value.
   - With a one-character separator, the output is the tokens joined by that separator (`OutputIsJoinForOneCharSeparator`).
   - With a longer separator, all but its last character stay at the end of the output (`LongSeparatorLeavesRemnant`, `TwoCharacterSeparator`).
   - With an empty separator, the last token loses its last character (`EmptySeparatorCutsLastToken`, `EmptySeparator`).
2. The `multipleTimes` branches do not skip empty values or paths, while every other form does (ArgsBuilder.cs:260-263, 386-390). The repeated form appends the same tokens as calling the single form for each item exactly when no item is empty (`RepeatedArgumentsAreAddArgumentForEachIff`, `RepeatedKeyedPathsAreAddKeyedPathForEachIff`, `ArgumentsWithEmptyValue`).

The private `Append` is given the precondition `arg != ""`. Every caller in the source meets it: every token has a non-empty key, value or path in it, or is the non-empty result of a join. It is also what keeps `Remove(Length - 1, 1)` in `ToString` in range when the separator is empty.

In the source, `ExeResult` is a class with settable auto-properties. Its construction and use are pure, so it is modelled as a datatype. The exit code is a 32-bit `int32`. `ToString` writes it the way `int.ToString()` does with a `-` sign, the invariant-culture form.

## Model

| member | source | states |
|---|---|---|
| `ArgsBuilders.ArgsBuilder.constructor` | Heleonix.Execution/ArgsBuilder.cs:62-74 | a new builder holds the given separators, an empty buffer, `wasModified` false, no tokens |
| `ArgsBuilders.ArgsBuilder.By` | Heleonix.Execution/ArgsBuilder.cs:92-98 | returns a fresh, valid, empty builder with exactly the five separators given; the defaults are `";"`, `"\""` and `" "` |
| `ArgsBuilders.ArgsBuilder.Append` | Heleonix.Execution/ArgsBuilder.cs:418-425 | the buffer grows by exactly `arg + argsSeparator`; `wasModified` becomes true; the token list grows by `arg`; the builder stays valid |
| `ArgsBuilders.ArgsBuilder.ToString` | Heleonix.Execution/ArgsBuilder.cs:410-411 | `""` when nothing was appended; otherwise the buffer without its last character; with a one-character separator, the appended tokens joined by it; a function of the state, so it changes nothing and repeated reads agree |
| `ArgsBuilders.ArgsBuilder.AsString` | Heleonix.Execution/ArgsBuilder.cs:81 | null exactly for a null builder; `""` for a builder nothing was appended to; otherwise the buffer without its last character; with a one-character separator, the appended tokens joined by it |
| `ArgsBuilders.ArgsBuilder.AddKey` | Heleonix.Execution/ArgsBuilder.cs:113-121 | returns the builder; with `condition` false or an empty key, buffer and `wasModified` are unchanged; otherwise the buffer grows by `keyPrefix + key + argsSeparator` and `wasModified` is true |
| `ArgsBuilders.ArgsBuilder.AddKeys` | Heleonix.Execution/ArgsBuilder.cs:136-148 | returns the builder; appends exactly the tokens of `ArgsFormat.AddKeys`; states buffer and `wasModified` |
| `ArgsBuilders.ArgsBuilder.AddValue` | Heleonix.Execution/ArgsBuilder.cs:163-173 | returns the builder; no change when `condition` is false or the value is empty; otherwise the buffer grows by `value + argsSeparator` |
| `ArgsBuilders.ArgsBuilder.AddValues` | Heleonix.Execution/ArgsBuilder.cs:188-200 | returns the builder; appends exactly the tokens of `ArgsFormat.AddValues`; states buffer and `wasModified` |
| `ArgsBuilders.ArgsBuilder.AddArgument` | Heleonix.Execution/ArgsBuilder.cs:216-226 | returns the builder; no change when `condition` is false or the key or value is empty; otherwise the buffer grows by `keyPrefix + key + keyValueSeparator + value + argsSeparator` |
| `ArgsBuilders.ArgsBuilder.AddArguments` | Heleonix.Execution/ArgsBuilder.cs:247-275 | returns the builder; the loop over the values appends exactly the tokens of `ArgsFormat.AddArguments`; states buffer and `wasModified` |
| `ArgsBuilders.ArgsBuilder.AddPath` | Heleonix.Execution/ArgsBuilder.cs:290-298 | returns the builder; no change when `condition` is false or the path is empty; otherwise the buffer grows by `pathWrapper + path + pathWrapper + argsSeparator` |
| `ArgsBuilders.ArgsBuilder.AddKeyedPath` | Heleonix.Execution/ArgsBuilder.cs:314-323 | returns the builder; no change when `condition` is false or the key or path is empty; otherwise the buffer grows by the key, the separator, the wrapped path and `argsSeparator` |
| `ArgsBuilders.ArgsBuilder.AddPaths` | Heleonix.Execution/ArgsBuilder.cs:338-352 | returns the builder; appends exactly the tokens of `ArgsFormat.AddPaths`; states buffer and `wasModified` |
| `ArgsBuilders.ArgsBuilder.AddKeyedPaths` | Heleonix.Execution/ArgsBuilder.cs:373-404 | returns the builder; the loop over the paths appends exactly the tokens of `ArgsFormat.AddKeyedPaths`; states buffer and `wasModified` |
| `ArgsFormat.AddKey` | Heleonix.Execution/ArgsBuilder.cs:113-121 | the token never is empty, and `AddKey(k)` appends the same as `AddKeys([k])` |
| `ArgsFormat.AddValue` | Heleonix.Execution/ArgsBuilder.cs:163-173 | the token never is empty, and `AddValue(v)` appends the same as `AddValues([v])` |
| `ArgsFormat.AddArgument` | Heleonix.Execution/ArgsBuilder.cs:216-226 | the token never is empty; `AddArgument(k, v)` appends the same as the joined `AddArguments(k, [v])`, and the same as the repeated one when `v` is not empty |
| `ArgsFormat.AddPath` | Heleonix.Execution/ArgsBuilder.cs:290-298 | the token never is empty, and `AddPath(p)` appends the same as `AddPaths([p])` |
| `ArgsFormat.AddKeyedPath` | Heleonix.Execution/ArgsBuilder.cs:314-323 | the token never is empty; `AddPath(k, p)` appends the same as the joined `AddPaths(k, [p])`, and the same as the repeated one when `p` is not empty |
| `ArgsFormat.JoinedToken` | Heleonix.Execution/ArgsBuilder.cs:143-147 | the joined list forms append nothing exactly when no item survives the filter, otherwise one non-empty token: the join |
| `ArgsFormat.AddKeys` | Heleonix.Execution/ArgsBuilder.cs:136-148 | at most one non-empty token; none exactly when `condition` is false, the list is null, or every key is empty |
| `ArgsFormat.AddValues` | Heleonix.Execution/ArgsBuilder.cs:188-200 | at most one non-empty token; none exactly when `condition` is false, the list is null, or every value is empty |
| `ArgsFormat.AddArguments` | Heleonix.Execution/ArgsBuilder.cs:247-275 | no tokens for `condition` false, an empty key or a null list; with `multipleTimes`, one token `keyPrefix+key+keyValueSeparator+v` per value, empty values included; otherwise one token holding the non-empty values joined by the value separator, or none when no value is non-empty |
| `ArgsFormat.AddPaths` | Heleonix.Execution/ArgsBuilder.cs:338-352 | at most one non-empty token; none exactly when `condition` is false, the list is null, or every path is empty |
| `ArgsFormat.AddKeyedPaths` | Heleonix.Execution/ArgsBuilder.cs:373-404 | as `AddArguments`, with every path wrapped in the path wrapper; the repeated form does not skip empty paths |
| `ArgsFormat.KeyedPathToken` | Heleonix.Execution/ArgsBuilder.cs:321-322 | the keyed path token is the argument token whose value is the wrapped path |
| `ArgsFormat.Render` | Heleonix.Execution/ArgsBuilder.cs:411 | the buffer itself when unmodified; otherwise exactly one character shorter, the removed character being the buffer's last |
| `ArgsFormat.OutputIsJoinForOneCharSeparator` | Heleonix.Execution/ArgsBuilder.cs:410-411 | with a one-character separator, the output is `""` for no tokens and otherwise the tokens joined by the separator: no trailing separator |
| `ArgsFormat.LongSeparatorLeavesRemnant` | Heleonix.Execution/ArgsBuilder.cs:411 | with a separator of two or more characters, the output is the join followed by all but the last character of the separator |
| `ArgsFormat.EmptySeparatorCutsLastToken` | Heleonix.Execution/ArgsBuilder.cs:411 | with an empty separator, the output is not the concatenated tokens: the last token loses a character |
| `ArgsFormat.JoinedTokenSameBuffer` | Heleonix.Execution/ArgsBuilder.cs:143-147 | appending the joined token leaves the same buffer as appending its items one by one |
| `ArgsFormat.AddKeysIsAddKeyForEach` | Heleonix.Execution/ArgsBuilder.cs:136-148 | `AddKeys(keys)` leaves the same buffer and the same `wasModified` as `AddKey(k)` for each key in turn |
| `ArgsFormat.AddValuesIsAddValueForEach` | Heleonix.Execution/ArgsBuilder.cs:188-200 | `AddValues(values)` leaves the same buffer and the same `wasModified` as `AddValue(v)` for each value in turn |
| `ArgsFormat.AddPathsIsAddPathForEach` | Heleonix.Execution/ArgsBuilder.cs:338-352 | `AddPaths(paths)` leaves the same buffer and the same `wasModified` as `AddPath(p)` for each path in turn |
| `ArgsFormat.RepeatedArgumentsAreAddArgumentForEachIff` | Heleonix.Execution/ArgsBuilder.cs:258-266 | the repeated form appends the same tokens as `AddArgument(key, v)` for each value if and only if no value is empty |
| `ArgsFormat.RepeatedKeyedPathsAreAddKeyedPathForEachIff` | Heleonix.Execution/ArgsBuilder.cs:384-393 | the repeated form appends the same tokens as `AddPath(key, p)` for each path if and only if no path is empty |
| `ArgsFormat.JoinedArgumentsAreOneArgument` | Heleonix.Execution/ArgsBuilder.cs:268-274 | the joined form of `AddArguments` is one `AddArgument` of the joined non-empty values |
| `ArgsFormat.JoinedKeyedPathsAreOneArgument` | Heleonix.Execution/ArgsBuilder.cs:395-403 | the joined form of keyed `AddPaths` is one `AddArgument` of the joined wrapped paths |
| `ArgsFormat.PathFormsAreWrappedValueForms` | Heleonix.Execution/ArgsBuilder.cs:290-323 | a non-empty path is added as the value, or argument value, `pathWrapper+path+pathWrapper`; an empty path is skipped |
| `ArgsFormat.NullListIsEmptyList` | Heleonix.Execution/ArgsBuilder.cs:138-141 | every list form appends nothing for a null list and for an empty list alike |
| `Text.Join` | Heleonix.Execution/ArgsBuilder.cs:143-145 | `string.Join` gives `""` for no items, and a non-empty string as soon as one item is non-empty; for non-empty items, `""` exactly when there are none |
| `Text.NonEmpty` | Heleonix.Execution/ArgsBuilder.cs:145 | the result has no empty item; an item is in the result exactly when it is in the input and not empty; it is the identity when no item is empty, and strictly shortens the list otherwise |
| `Text.NonEmptyConcat` | Heleonix.Execution/ArgsBuilder.cs:145 | the filter of `a + b` is the filter of `a` followed by that of `b`, so order and repeats are kept |
| `Text.NonEmptySingle` | Heleonix.Execution/ArgsBuilder.cs:145 | a single item survives the filter exactly when it is not empty |
| `Text.Terminated` | Heleonix.Execution/ArgsBuilder.cs:418-425 | the `StringBuilder` after no `Append` is empty, and after appending a non-empty last token it is not |
| `Text.TerminatedIsJoinThenSeparator` | Heleonix.Execution/ArgsBuilder.cs:420 | after at least one `Append`, the buffer is the tokens joined by the separator, followed by one separator |
| `Text.TerminatedConcat` | Heleonix.Execution/ArgsBuilder.cs:420 | appending two runs of tokens one after the other gives the concatenation of their buffers |
| `Text.EachSkippingEmptyIsMapOfNonEmpty` | Heleonix.Execution/ArgsBuilder.cs:143-145 | calling a single-item form that skips empty items once per item yields the formatted non-empty items, in order |
| `Text.DropLast` | Heleonix.Execution/ArgsBuilder.cs:411 | `Remove(Length - 1, 1)` shortens the string by one, and putting back the removed last character restores it |
| `ArgsBuilderExamples.KeysPair` | Heleonix.Execution/ArgsBuilder.cs:136-148 | for any separators, two non-empty keys give the single token `keyPrefix+k1 argsSeparator keyPrefix+k2` |
| `ArgsBuilderExamples.ValuesPair` | Heleonix.Execution/ArgsBuilder.cs:188-200 | for any separators, two non-empty values give the single token `v1+argsSeparator+v2` |
| `ArgsBuilderExamples.PathsPair` | Heleonix.Execution/ArgsBuilder.cs:338-352 | for any separators, two non-empty paths give one token: both wrapped, joined by the argument separator |
| `ArgsBuilderExamples.ArgumentsPair` | Heleonix.Execution/ArgsBuilder.cs:247-275 | for any separators, two non-empty values give one argument with the values joined by the value separator, or two arguments when repeated |
| `ArgsBuilderExamples.ArgumentsSecondEmpty` | Heleonix.Execution/ArgsBuilder.cs:258-274 | for any separators, an empty second value is dropped by the joined form and kept as a token with an empty value by the repeated form |
| `ArgsBuilderExamples.KeyedPathsPair` | Heleonix.Execution/ArgsBuilder.cs:373-404 | for any separators, two non-empty paths under one key give one argument of wrapped paths joined by the value separator, or two keyed path tokens when repeated |
| `ArgsBuilderExamples.PathsThenArgument` | Heleonix.Execution.Tests/ArgsBuilderTests.cs:24-65 | the keyed paths then an argument give `-key1="path1";"path2" -key2=value2`; with `condition` false, `""` |
| `ArgsBuilderExamples.Key` | Heleonix.Execution.Tests/ArgsBuilderTests.cs:72-134 | `AddKey("key1")` gives `-key1` |
| `ArgsBuilderExamples.Keys` | Heleonix.Execution.Tests/ArgsBuilderTests.cs:143-195 | a list of keys gives `-key1 -key2`; a null list gives `""` |
| `ArgsBuilderExamples.SingleValue` | Heleonix.Execution.Tests/ArgsBuilderTests.cs:204-265 | `AddValue(v)` gives `v`, for every value `v`, the empty one included |
| `ArgsBuilderExamples.Values` | Heleonix.Execution.Tests/ArgsBuilderTests.cs:275-326 | `AddValues(["value1", "value2"])` gives `value1 value2` |
| `ArgsBuilderExamples.Argument` | Heleonix.Execution.Tests/ArgsBuilderTests.cs:336-423 | `-key1=value1`; `""` when the key or value is empty |
| `ArgsBuilderExamples.Arguments` | Heleonix.Execution.Tests/ArgsBuilderTests.cs:433-521 | `-key1=value1;value2` joined, `-key1=value1 -key1=value2` repeated |
| `ArgsBuilderExamples.ArgumentsWithEmptyValue` | Heleonix.Execution/ArgsBuilder.cs:258-274 | an empty value is dropped by the joined form and kept, as `-key1=`, by the repeated form |
| `ArgsBuilderExamples.Path` | Heleonix.Execution.Tests/ArgsBuilderTests.cs:531-587 | `AddPath("path1")` gives `"path1"` |
| `ArgsBuilderExamples.KeyedPath` | Heleonix.Execution.Tests/ArgsBuilderTests.cs:597-684 | `AddPath("key1", "path1")` gives `-key1="path1"` |
| `ArgsBuilderExamples.Paths` | Heleonix.Execution.Tests/ArgsBuilderTests.cs:694-740 | `"path1" "path2"` |
| `ArgsBuilderExamples.KeyedPaths` | Heleonix.Execution.Tests/ArgsBuilderTests.cs:750-838 | `-key1="path1";"path2"` joined, `-key1="path1" -key1="path2"` repeated |
| `ArgsBuilderExamples.Reads` | Heleonix.Execution.Tests/ArgsBuilderTests.cs:848-926 | repeated reads agree, before and after `AddValue`; a null builder converts to null |
| `ArgsBuilderExamples.TwoCharacterSeparator` | Heleonix.Execution/ArgsBuilder.cs:411 | with separator `", "`, `-a, -b,`: the trailing comma stays |
| `ArgsBuilderExamples.EmptySeparator` | Heleonix.Execution/ArgsBuilder.cs:411 | with an empty separator, keys `a` and `b` give `-a-`: the last character is lost |
| `ExeResults.ToString` | Heleonix.Execution/ExeResult.cs:36 | `ExitCode: ` followed by a decimal text that parses back to the exit code and is spelled canonically (no leading zero, never `-0`); by `DecimalSpellingIsUnique` that text is exactly `int.ToString()`'s |
| `ExeResults.IntToDecimal` | Heleonix.Execution/ExeResult.cs:36 | digits without a leading zero for a non-negative number; `-` then digits without a leading zero, other than `0`, for a negative one |
| `ExeResults.NatToDecimal` | Heleonix.Execution/ExeResult.cs:36 | a non-empty string of digits without a leading zero; `0` exactly for zero |
| `ExeResults.ParseNatToDecimal` | Heleonix.Execution/ExeResult.cs:36 | parsing the digits gives back the number |
| `ExeResults.IntToDecimalRoundTrip` | Heleonix.Execution/ExeResult.cs:36 | parsing the decimal text gives back the integer, negative or not |
| `ExeResults.DigitsBounds` | Heleonix.Execution/ExeResult.cs:36 | `k` digits have a value below 10^k, and at least 10^(k-1) when the first is not `0` |
| `ExeResults.CanonicalDigitsUnique` | Heleonix.Execution/ExeResult.cs:36 | two digit strings without a leading zero and with the same value are the same string |
| `ExeResults.DecimalSpellingIsUnique` | Heleonix.Execution/ExeResult.cs:36 | any canonically spelled text that parses to `n` is `IntToDecimal(n)`: the spelling is fully determined |
| `ExeResults.ToStringExample` | Heleonix.Execution.Tests/ExeResultTests.cs:23-49 | exit code 123 prints as `ExitCode: 123`, whatever output and error are |
| `ExeResults.Equals` | Heleonix.Execution/ExeResult.cs:45 | `(obj as ExeResult)?.ExitCode == ExitCode` holds exactly when the object is an `ExeResult` with the same exit code |
| `ExeResults.EqualsIsSameExitCode` | Heleonix.Execution/ExeResult.cs:45 | `Equals` is false for null and for any other object, and true for a result with the same exit code whatever its output and error are |
| `ExeResults.EqualsIsEquivalence` | Heleonix.Execution/ExeResult.cs:45 | `Equals` is reflexive, symmetric and transitive on results |
| `ExeResults.ToStringAgreesWithEquals` | Heleonix.Execution/ExeResult.cs:36-45 | two results print the same text exactly when `Equals` holds between them |

## Left out

- `ExeHelper` (both copies) is not part of this model. It starts operating-system processes, reads their pipes and waits with timeouts, which is process I/O.
- `StreamRedirector` is not part of this model. It is a fire-and-forget asynchronous copy loop between a reader and a writer; its point is concurrent draining.
- `ExeResult.GetHashCode` uses the identity hash of the object, which is not a function of any field, so it is not modelled.
- `ExeResult`'s mutable auto-properties are not modelled: the datatype is built once with its three fields.
- `ExeResults.ToString` assumes the `-` negative sign of the invariant culture. The culture-dependent `NumberFormatInfo.NegativeSign` is not modelled.
- Arbitrary `object.ToString()` calls are not modelled: values are given as the strings their `ToString()` returns, and a `ToString()` returning null is treated like an empty string.
- `IEnumerable` arguments are modelled as finished sequences: lazy or repeatedly enumerated sequences, and enumerators with side effects, are not modelled.
- `ArgsFormat.Render`: a Dafny `char` is a Unicode scalar value, while .NET strings count UTF-16 code units. `Remove(Length - 1, 1)` removes one code unit, so when the buffer ends in a character outside the Basic Multilingual Plane (the 16-bit range), .NET leaves its high surrogate behind. The model removes the whole character, because a lone surrogate is not a Dafny `char`. The contract holds as .NET behaves only when the buffer's last character is in the Basic Multilingual Plane.
- `Text.DropLast`: removes one Unicode scalar value where .NET removes one UTF-16 code unit. The two agree only when the string's last character is in the Basic Multilingual Plane; a lone surrogate cannot be a Dafny `char`.
- `ArgsBuilders.ArgsBuilder.ToString`: it inherits the gap of `Render`. With an argument separator ending in a character outside the Basic Multilingual Plane, .NET's output ends in a lone high surrogate that the model does not produce.
- `ArgsBuilders.ArgsBuilder.AsString`: it inherits the gap of `ToString`.
- `ArgsFormat.OutputIsJoinForOneCharSeparator`: "one character" is one Unicode scalar value. A separator of one character outside the Basic Multilingual Plane has .NET `Length` 2, and .NET's output then ends in a lone high surrogate. The lemma matches .NET only for a separator in the Basic Multilingual Plane.
- `ArgsFormat.LongSeparatorLeavesRemnant`: if the separator ends in a character outside the Basic Multilingual Plane, .NET's remnant also keeps that character's high surrogate, which the model drops.
- `ArgsFormat.EmptySeparatorCutsLastToken`: if the last token ends in a character outside the Basic Multilingual Plane, .NET cuts only its low surrogate. The model cuts the whole character. Either way the output differs from the concatenated tokens, which is what the lemma states.
- `StringBuilder` capacity and out-of-memory failures are not modelled. The buffer is an unbounded string.
- The test fixture executable and the path helpers of the test projects are not part of this model.
