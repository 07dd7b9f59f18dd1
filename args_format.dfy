/** The token formats of Heleonix.Execution's ArgsBuilder, as pure functions.

    For each Add* operation, the function named after it returns the tokens that
    the operation hands to the builder's private Append, in order: [] when the
    call is a no-op, one token for the single-token operations and the joined
    list forms, one token per item for the "multipleTimes" forms. The builder
    class in module ArgsBuilders is specified by these functions. */
module ArgsFormat {
  import opened Text
  import opened Nullables

  /** The five separators fixed when the builder is created. */
  datatype Syntax = Syntax(
    keyPrefix: string,
    keyValueSeparator: string,
    valueSeparator: string,
    pathWrapper: string,
    argsSeparator: string)

  /** "{keyPrefix}{key}" */
  function KeyToken(s: Syntax, key: string): string
  {
    s.keyPrefix + key
  }

  /** "{keyPrefix}{key}{keyValueSeparator}{value}" */
  function ArgumentToken(s: Syntax, key: string, value: string): string
  {
    s.keyPrefix + key + s.keyValueSeparator + value
  }

  /** "{pathWrapper}{path}{pathWrapper}" */
  function PathToken(s: Syntax, path: string): string
  {
    s.pathWrapper + path + s.pathWrapper
  }

  /** "{keyPrefix}{key}{keyValueSeparator}{pathWrapper}{path}{pathWrapper}" */
  function KeyedPathToken(s: Syntax, key: string, path: string): (r: string)
    ensures r == ArgumentToken(s, key, PathToken(s, path))
  {
    s.keyPrefix + key + s.keyValueSeparator + s.pathWrapper + path + s.pathWrapper
  }

  /** KeyToken of every key, in order. */
  function KeyTokens(s: Syntax, keys: seq<string>): (r: seq<string>)
    ensures |r| == |keys| && forall i :: 0 <= i < |keys| ==> r[i] == KeyToken(s, keys[i])
  {
    Map(keys, k => KeyToken(s, k))
  }

  /** PathToken of every path, in order. */
  function PathTokens(s: Syntax, paths: seq<string>): (r: seq<string>)
    ensures |r| == |paths| && forall i :: 0 <= i < |paths| ==> r[i] == PathToken(s, paths[i])
  {
    Map(paths, p => PathToken(s, p))
  }

  /** ArgumentToken of key with every value, in order. */
  function ArgumentTokens(s: Syntax, key: string, values: seq<string>): (r: seq<string>)
    ensures |r| == |values| && forall i :: 0 <= i < |values| ==> r[i] == ArgumentToken(s, key, values[i])
  {
    Map(values, v => ArgumentToken(s, key, v))
  }

  /** KeyedPathToken of key with every path, in order. */
  function KeyedPathTokens(s: Syntax, key: string, paths: seq<string>): (r: seq<string>)
    ensures |r| == |paths| && forall i :: 0 <= i < |paths| ==> r[i] == KeyedPathToken(s, key, paths[i])
  {
    Map(paths, p => KeyedPathToken(s, key, p))
  }

  /** The joined list forms: string.Join over the surviving items, appended
      only when the joined string is not empty. */
  function JoinedToken(items: seq<string>, sep: string): (r: seq<string>)
    requires AllNonEmpty(items)
    ensures AllNonEmpty(r)
    ensures r == [] <==> items == []
    ensures r != [] ==> r == [Join(items, sep)]
  {
    var add := Join(items, sep);
    if add == "" then [] else [add]
  }

  /** AddKey(key, condition): the same as AddKeys with the one-key list. */
  function AddKey(s: Syntax, key: string, condition: bool): (r: seq<string>)
    ensures AllNonEmpty(r)
    ensures r == AddKeys(s, Value([key]), condition)
  {
    if !condition || key == "" then [] else [KeyToken(s, key)]
  }

  /** AddKeys(keys, condition) */
  function AddKeys(s: Syntax, keys: Nullable<seq<string>>, condition: bool): (r: seq<string>)
    ensures AllNonEmpty(r)
    ensures r == [] <==> !condition || keys.Null? || NonEmpty(keys.value) == []
    ensures |r| <= 1
  {
    if !condition || keys.Null? then []
    else JoinedToken(KeyTokens(s, NonEmpty(keys.value)), s.argsSeparator)
  }

  /** AddValue(value, condition); value is the value's ToString(), "" for null.
      The same as AddValues with the one-value list. */
  function AddValue(s: Syntax, value: string, condition: bool): (r: seq<string>)
    ensures AllNonEmpty(r)
    ensures r == AddValues(s, Value([value]), condition)
  {
    if !condition || value == "" then [] else [value]
  }

  /** AddValues(values, condition) */
  function AddValues(s: Syntax, values: Nullable<seq<string>>, condition: bool): (r: seq<string>)
    ensures AllNonEmpty(r)
    ensures r == [] <==> !condition || values.Null? || NonEmpty(values.value) == []
    ensures |r| <= 1
  {
    if !condition || values.Null? then []
    else JoinedToken(NonEmpty(values.value), s.argsSeparator)
  }

  /** AddArgument(key, value, condition): the same as the joined AddArguments with
      the one-value list, and as the repeated one when the value is not empty. */
  function AddArgument(s: Syntax, key: string, value: string, condition: bool): (r: seq<string>)
    ensures AllNonEmpty(r)
    ensures r == AddArguments(s, key, Value([value]), false, condition)
    ensures value != "" ==> r == AddArguments(s, key, Value([value]), true, condition)
  {
    if !condition || key == "" || value == "" then [] else [ArgumentToken(s, key, value)]
  }

  /** AddArguments(key, values, multipleTimes, condition).
      The multipleTimes branch appends one token per value, without filtering. */
  function AddArguments(
    s: Syntax, key: string, values: Nullable<seq<string>>, multipleTimes: bool, condition: bool): (r: seq<string>)
    ensures AllNonEmpty(r)
    ensures !condition || key == "" || values.Null? ==> r == []
    ensures condition && key != "" && values.Value? && multipleTimes ==>
      |r| == |values.value| &&
      forall i :: 0 <= i < |r| ==> r[i] == ArgumentToken(s, key, values.value[i])
    ensures condition && key != "" && values.Value? && !multipleTimes ==>
      (r == [] <==> NonEmpty(values.value) == []) &&
      (r != [] ==> r == [ArgumentToken(s, key, Join(NonEmpty(values.value), s.valueSeparator))])
  {
    if !condition || key == "" || values.Null? then []
    else if multipleTimes then ArgumentTokens(s, key, values.value)
    else
      var add := Join(NonEmpty(values.value), s.valueSeparator);
      if add == "" then [] else [ArgumentToken(s, key, add)]
  }

  /** AddPath(path, condition): the same as AddPaths with the one-path list. */
  function AddPath(s: Syntax, path: string, condition: bool): (r: seq<string>)
    ensures AllNonEmpty(r)
    ensures r == AddPaths(s, Value([path]), condition)
  {
    if !condition || path == "" then [] else [PathToken(s, path)]
  }

  /** AddPath(key, path, condition): the same as the joined AddPaths(key, ...) with
      the one-path list, and as the repeated one when the path is not empty. */
  function AddKeyedPath(s: Syntax, key: string, path: string, condition: bool): (r: seq<string>)
    ensures AllNonEmpty(r)
    ensures r == AddKeyedPaths(s, key, Value([path]), false, condition)
    ensures path != "" ==> r == AddKeyedPaths(s, key, Value([path]), true, condition)
  {
    if !condition || key == "" || path == "" then [] else [KeyedPathToken(s, key, path)]
  }

  /** AddPaths(paths, condition) */
  function AddPaths(s: Syntax, paths: Nullable<seq<string>>, condition: bool): (r: seq<string>)
    ensures AllNonEmpty(r)
    ensures r == [] <==> !condition || paths.Null? || NonEmpty(paths.value) == []
    ensures |r| <= 1
  {
    if !condition || paths.Null? then []
    else JoinedToken(PathTokens(s, NonEmpty(paths.value)), s.argsSeparator)
  }

  /** AddPaths(key, paths, multipleTimes, condition).
      The multipleTimes branch appends one token per path, without filtering. */
  function AddKeyedPaths(
    s: Syntax, key: string, paths: Nullable<seq<string>>, multipleTimes: bool, condition: bool): (r: seq<string>)
    ensures AllNonEmpty(r)
    ensures !condition || key == "" || paths.Null? ==> r == []
    ensures condition && key != "" && paths.Value? && multipleTimes ==>
      |r| == |paths.value| &&
      forall i :: 0 <= i < |r| ==> r[i] == KeyedPathToken(s, key, paths.value[i])
    ensures condition && key != "" && paths.Value? && !multipleTimes ==>
      (r == [] <==> NonEmpty(paths.value) == []) &&
      (r != [] ==> r == [ArgumentToken(s, key,
                           Join(PathTokens(s, NonEmpty(paths.value)), s.valueSeparator))])
  {
    if !condition || key == "" || paths.Null? then []
    else if multipleTimes then KeyedPathTokens(s, key, paths.value)
    else
      var add := Join(PathTokens(s, NonEmpty(paths.value)), s.valueSeparator);
      if add == "" then [] else [ArgumentToken(s, key, add)]
  }

  /** ArgsBuilder.ToString over a buffer: drop exactly one character when
      anything was appended, otherwise return the buffer as it is. */
  function Render(buffer: string, wasModified: bool): (r: string)
    requires wasModified ==> buffer != ""
    ensures !wasModified ==> r == buffer
    ensures wasModified ==> |r| == |buffer| - 1 && r + [buffer[|buffer| - 1]] == buffer
  {
    if wasModified then DropLast(buffer) else buffer
  }

  // ---------------------------------------------------------------------------
  // What the builder shows for a run of tokens

  /** With a one-character argument separator, the builder's output is the
      appended tokens joined by that separator, and "" when none was appended. */
  lemma {:induction false} OutputIsJoinForOneCharSeparator(tokens: seq<string>, sep: string)
    requires |sep| == 1
    ensures Render(Terminated(tokens, sep), tokens != []) == Join(tokens, sep)
  {
    if tokens != [] {
      TerminatedIsJoinThenSeparator(tokens, sep);
      var j := Join(tokens, sep);
      assert (j + sep)[..|j + sep| - 1] == j;
    }
  }

  /** ToString removes one character, not one separator: with a separator of
      two or more characters, all but its last character stay at the end. */
  lemma {:induction false} LongSeparatorLeavesRemnant(tokens: seq<string>, sep: string)
    requires |sep| >= 2 && tokens != []
    ensures Render(Terminated(tokens, sep), true) == Join(tokens, sep) + sep[..|sep| - 1]
  {
    TerminatedIsJoinThenSeparator(tokens, sep);
    var j := Join(tokens, sep);
    assert (j + sep)[..|j + sep| - 1] == j + sep[..|sep| - 1];
  }

  /** With an empty separator, ToString cuts the last character off the last token. */
  lemma {:induction false} EmptySeparatorCutsLastToken(tokens: seq<string>)
    requires tokens != [] && tokens[|tokens| - 1] != ""
    ensures Terminated(tokens, "") == Join(tokens, "")
    ensures Render(Terminated(tokens, ""), true) != Join(tokens, "")
  {
    TerminatedIsJoinThenSeparator(tokens, "");
    assert Join(tokens, "") + "" == Join(tokens, "");
  }

  // ---------------------------------------------------------------------------
  // The list forms against the single-item forms

  /** A joined list token leaves the same buffer as appending its items one by one. */
  lemma {:induction false} JoinedTokenSameBuffer(prior: seq<string>, items: seq<string>, sep: string)
    requires AllNonEmpty(items)
    ensures Terminated(prior + JoinedToken(items, sep), sep) == Terminated(prior + items, sep)
  {
    TerminatedConcat(prior, JoinedToken(items, sep), sep);
    TerminatedConcat(prior, items, sep);
    if items != [] {
      TerminatedIsJoinThenSeparator(items, sep);
      assert Terminated([Join(items, sep)], sep) == Terminated([], sep) + Join(items, sep) + sep;
    }
  }

  /** AddKeys(keys) leaves the same buffer and the same modified flag as
      AddKey(k) for each key in turn. */
  lemma AddKeysIsAddKeyForEach(s: Syntax, prior: seq<string>, keys: seq<string>)
    ensures Terminated(prior + AddKeys(s, Value(keys), true), s.argsSeparator)
         == Terminated(prior + Each(keys, k => AddKey(s, k, true)), s.argsSeparator)
    ensures (AddKeys(s, Value(keys), true) == []) == (Each(keys, k => AddKey(s, k, true)) == [])
  {
    var f := k => KeyToken(s, k);
    EachSkippingEmptyIsMapOfNonEmpty(keys, k => AddKey(s, k, true), f);
    JoinedTokenSameBuffer(prior, Map(NonEmpty(keys), f), s.argsSeparator);
  }

  /** AddValues(values) leaves the same buffer and the same modified flag as
      AddValue(v) for each value in turn. */
  lemma AddValuesIsAddValueForEach(s: Syntax, prior: seq<string>, values: seq<string>)
    ensures Terminated(prior + AddValues(s, Value(values), true), s.argsSeparator)
         == Terminated(prior + Each(values, v => AddValue(s, v, true)), s.argsSeparator)
    ensures (AddValues(s, Value(values), true) == []) == (Each(values, v => AddValue(s, v, true)) == [])
  {
    var f := (v: string) => v;
    EachSkippingEmptyIsMapOfNonEmpty(values, v => AddValue(s, v, true), f);
    assert Map(NonEmpty(values), f) == NonEmpty(values);
    JoinedTokenSameBuffer(prior, NonEmpty(values), s.argsSeparator);
  }

  /** AddPaths(paths) leaves the same buffer and the same modified flag as
      AddPath(p) for each path in turn. */
  lemma AddPathsIsAddPathForEach(s: Syntax, prior: seq<string>, paths: seq<string>)
    ensures Terminated(prior + AddPaths(s, Value(paths), true), s.argsSeparator)
         == Terminated(prior + Each(paths, p => AddPath(s, p, true)), s.argsSeparator)
    ensures (AddPaths(s, Value(paths), true) == []) == (Each(paths, p => AddPath(s, p, true)) == [])
  {
    var f := p => PathToken(s, p);
    EachSkippingEmptyIsMapOfNonEmpty(paths, p => AddPath(s, p, true), f);
    JoinedTokenSameBuffer(prior, Map(NonEmpty(paths), f), s.argsSeparator);
  }

  /** AddArguments(key, values, multipleTimes: true) appends the same tokens as
      AddArgument(key, v) for each value in turn exactly when no value is empty:
      the repeated form does not skip empty values. */
  lemma RepeatedArgumentsAreAddArgumentForEachIff(s: Syntax, key: string, values: seq<string>)
    requires key != ""
    ensures AddArguments(s, key, Value(values), true, true) == Each(values, v => AddArgument(s, key, v, true))
        <==> AllNonEmpty(values)
  {
    EachSkippingEmptyIsMapOfNonEmpty(values, v => AddArgument(s, key, v, true), v => ArgumentToken(s, key, v));
  }

  /** AddPaths(key, paths, multipleTimes: true) appends the same tokens as
      AddPath(key, p) for each path in turn exactly when no path is empty. */
  lemma RepeatedKeyedPathsAreAddKeyedPathForEachIff(s: Syntax, key: string, paths: seq<string>)
    requires key != ""
    ensures AddKeyedPaths(s, key, Value(paths), true, true) == Each(paths, p => AddKeyedPath(s, key, p, true))
        <==> AllNonEmpty(paths)
  {
    EachSkippingEmptyIsMapOfNonEmpty(paths, p => AddKeyedPath(s, key, p, true), p => KeyedPathToken(s, key, p));
  }

  /** The joined form of AddArguments is one AddArgument whose value is the
      non-empty values joined by the value separator. */
  lemma JoinedArgumentsAreOneArgument(s: Syntax, key: string, values: seq<string>, condition: bool)
    ensures AddArguments(s, key, Value(values), false, condition)
         == AddArgument(s, key, Join(NonEmpty(values), s.valueSeparator), condition)
  {
  }

  /** The joined form of AddPaths(key, ...) is one AddArgument whose value is the
      wrapped non-empty paths joined by the value separator. */
  lemma JoinedKeyedPathsAreOneArgument(s: Syntax, key: string, paths: seq<string>, condition: bool)
    ensures AddKeyedPaths(s, key, Value(paths), false, condition)
         == AddArgument(s, key, Join(PathTokens(s, NonEmpty(paths)), s.valueSeparator), condition)
  {
    var w := PathTokens(s, NonEmpty(paths));
    assert Join(w, s.valueSeparator) == "" <==> NonEmpty(paths) == [];
  }

  /** A non-empty path is added as the value or argument value pathWrapper+path+pathWrapper;
      an empty one is skipped even though its wrapped form need not be empty. */
  lemma PathFormsAreWrappedValueForms(s: Syntax, key: string, path: string, condition: bool)
    ensures path != "" ==> AddPath(s, path, condition) == AddValue(s, PathToken(s, path), condition)
    ensures path != "" ==> AddKeyedPath(s, key, path, condition) == AddArgument(s, key, PathToken(s, path), condition)
    ensures path == "" ==> AddPath(s, path, condition) == [] && AddKeyedPath(s, key, path, condition) == []
  {
  }

  /** A null list and an empty list are indistinguishable to every list form. */
  lemma NullListIsEmptyList(s: Syntax, key: string, multipleTimes: bool, condition: bool)
    ensures AddKeys(s, Null, condition) == AddKeys(s, Value([]), condition) == []
    ensures AddValues(s, Null, condition) == AddValues(s, Value([]), condition) == []
    ensures AddPaths(s, Null, condition) == AddPaths(s, Value([]), condition) == []
    ensures AddArguments(s, key, Null, multipleTimes, condition)
         == AddArguments(s, key, Value([]), multipleTimes, condition) == []
    ensures AddKeyedPaths(s, key, Null, multipleTimes, condition)
         == AddKeyedPaths(s, key, Value([]), multipleTimes, condition) == []
  {
  }
}
