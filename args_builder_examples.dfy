/** Client code for ArgsBuilder: the usage scenarios of the repository's
    ArgsBuilder test suite. The pair lemmas compute, for any syntax, the tokens
    each call appends for two items; the output lemmas fix the syntax to
    By("-", "=") and give the string ToString returns; the methods drive a real
    builder and state, as postconditions, the strings the tests expect. */
module ArgsBuilderExamples {
  import opened Text
  import opened Nullables
  import opened ArgsFormat
  import opened ArgsBuilders

  /** The separators of ArgsBuilder.By("-", "="). */
  const Dash: Syntax := Syntax("-", "=", ";", "\"", " ")

  /** string.Join over two items. */
  lemma JoinPair(a: string, b: string, sep: string)
    ensures Join([a, b], sep) == a + sep + b
  {
    assert [a, b][..1] == [a];
  }

  /** Two non-empty items both survive the filter, in order. */
  lemma NonEmptyPair(a: string, b: string)
    requires a != "" && b != ""
    ensures NonEmpty([a, b]) == [a, b]
  {
    assert [a, b][..1] == [a];
  }

  // ---------------------------------------------------------------------------
  // Two items, any syntax

  lemma KeysPair(s: Syntax, k1: string, k2: string)
    requires k1 != "" && k2 != ""
    ensures AddKeys(s, Value([k1, k2]), true) == [KeyToken(s, k1) + s.argsSeparator + KeyToken(s, k2)]
  {
    NonEmptyPair(k1, k2);
    var kt := KeyTokens(s, [k1, k2]);
    assert kt == [KeyToken(s, k1), KeyToken(s, k2)];
    JoinPair(KeyToken(s, k1), KeyToken(s, k2), s.argsSeparator);
  }

  lemma ValuesPair(s: Syntax, v1: string, v2: string)
    requires v1 != "" && v2 != ""
    ensures AddValues(s, Value([v1, v2]), true) == [v1 + s.argsSeparator + v2]
  {
    NonEmptyPair(v1, v2);
    JoinPair(v1, v2, s.argsSeparator);
  }

  lemma PathsPair(s: Syntax, p1: string, p2: string)
    requires p1 != "" && p2 != ""
    ensures AddPaths(s, Value([p1, p2]), true) == [PathToken(s, p1) + s.argsSeparator + PathToken(s, p2)]
  {
    NonEmptyPair(p1, p2);
    var pt := PathTokens(s, [p1, p2]);
    assert pt == [PathToken(s, p1), PathToken(s, p2)];
    JoinPair(PathToken(s, p1), PathToken(s, p2), s.argsSeparator);
  }

  lemma ArgumentsPair(s: Syntax, key: string, v1: string, v2: string)
    requires key != "" && v1 != "" && v2 != ""
    ensures AddArguments(s, key, Value([v1, v2]), false, true) == [ArgumentToken(s, key, v1 + s.valueSeparator + v2)]
    ensures AddArguments(s, key, Value([v1, v2]), true, true) == [ArgumentToken(s, key, v1), ArgumentToken(s, key, v2)]
  {
    NonEmptyPair(v1, v2);
    JoinPair(v1, v2, s.valueSeparator);
    var at := ArgumentTokens(s, key, [v1, v2]);
    assert at == [ArgumentToken(s, key, v1), ArgumentToken(s, key, v2)];
  }

  /** The joined form drops an empty second value; the repeated form keeps it. */
  lemma ArgumentsSecondEmpty(s: Syntax, key: string, v1: string)
    requires key != "" && v1 != ""
    ensures AddArguments(s, key, Value([v1, ""]), false, true) == [ArgumentToken(s, key, v1)]
    ensures AddArguments(s, key, Value([v1, ""]), true, true) == [ArgumentToken(s, key, v1), ArgumentToken(s, key, "")]
  {
    assert [v1, ""][..1] == [v1];
    assert NonEmpty([v1, ""]) == [v1];
    var at := ArgumentTokens(s, key, [v1, ""]);
    assert at == [ArgumentToken(s, key, v1), ArgumentToken(s, key, "")];
  }

  lemma KeyedPathsPair(s: Syntax, key: string, p1: string, p2: string)
    requires key != "" && p1 != "" && p2 != ""
    ensures AddKeyedPaths(s, key, Value([p1, p2]), false, true)
         == [ArgumentToken(s, key, PathToken(s, p1) + s.valueSeparator + PathToken(s, p2))]
    ensures AddKeyedPaths(s, key, Value([p1, p2]), true, true)
         == [KeyedPathToken(s, key, p1), KeyedPathToken(s, key, p2)]
  {
    NonEmptyPair(p1, p2);
    var pt := PathTokens(s, [p1, p2]);
    assert pt == [PathToken(s, p1), PathToken(s, p2)];
    JoinPair(PathToken(s, p1), PathToken(s, p2), s.valueSeparator);
    var kt := KeyedPathTokens(s, key, [p1, p2]);
    assert kt == [KeyedPathToken(s, key, p1), KeyedPathToken(s, key, p2)];
  }

  // ---------------------------------------------------------------------------
  // The strings of the test suite, under By("-", "=")
  //
  // The literals enter these lemmas as parameters pinned by requires (s == Dash,
  // key == "key1", ...), never as call arguments: a function applied to literals
  // only is unfolded by the verifier without bound. The ...Text lemmas compare
  // plain strings; the ...Output lemmas connect them to the token functions.

  lemma KeyOutput(s: Syntax, key: string)
    requires s == Dash && key == "key1"
    ensures Join(AddKey(s, key, true), " ") == "-key1"
  {
  }

  lemma KeysOutput(s: Syntax, k1: string, k2: string)
    requires s == Dash && k1 == "key1" && k2 == "key2"
    ensures Join(AddKeys(s, Value([k1, k2]), true), " ") == "-key1 -key2"
  {
    KeysPair(s, k1, k2);
  }

  lemma ValuesOutput(s: Syntax, v1: string, v2: string)
    requires s == Dash && v1 == "value1" && v2 == "value2"
    ensures Join(AddValues(s, Value([v1, v2]), true), " ") == "value1 value2"
  {
    ValuesPair(s, v1, v2);
  }

  lemma PathOutput(s: Syntax, path: string)
    requires s == Dash && path == "path1"
    ensures Join(AddPath(s, path, true), " ") == "\"path1\""
  {
  }

  lemma KeyedPathOutput(s: Syntax, key: string, path: string)
    requires s == Dash && key == "key1" && path == "path1"
    ensures Join(AddKeyedPath(s, key, path, true), " ") == "-key1=\"path1\""
  {
    assert KeyedPathToken(s, key, path) == "-key1=\"path1\"";
  }

  lemma PathsOutput(s: Syntax, p1: string, p2: string)
    requires s == Dash && p1 == "path1" && p2 == "path2"
    ensures Join(AddPaths(s, Value([p1, p2]), true), " ") == "\"path1\" \"path2\""
  {
    PathsPair(s, p1, p2);
  }

  lemma ArgumentsJoinedOutput(s: Syntax, key: string, v1: string, v2: string)
    requires s == Dash && key == "key1" && v1 == "value1" && v2 == "value2"
    ensures Join(AddArguments(s, key, Value([v1, v2]), false, true), " ") == "-key1=value1;value2"
  {
    ArgumentsPair(s, key, v1, v2);
  }

  /** The repeated arguments, as ToString joins them, for any syntax. */
  lemma ArgumentsRepeatedJoin(s: Syntax, key: string, v1: string, v2: string)
    requires key != "" && v1 != "" && v2 != ""
    ensures Join(AddArguments(s, key, Value([v1, v2]), true, true), s.argsSeparator)
         == ArgumentToken(s, key, v1) + s.argsSeparator + ArgumentToken(s, key, v2)
  {
    ArgumentsPair(s, key, v1, v2);
    JoinPair(ArgumentToken(s, key, v1), ArgumentToken(s, key, v2), s.argsSeparator);
  }

  lemma ArgumentsRepeatedText(kp: string, kvs: string, sep: string, key: string, v1: string, v2: string)
    requires kp == "-" && kvs == "=" && sep == " " && key == "key1" && v1 == "value1" && v2 == "value2"
    ensures kp + key + kvs + v1 + sep + (kp + key + kvs + v2) == "-key1=value1 -key1=value2"
  {
  }

  lemma ArgumentsRepeatedOutput(s: Syntax, key: string, v1: string, v2: string)
    requires s == Dash && key == "key1" && v1 == "value1" && v2 == "value2"
    ensures Join(AddArguments(s, key, Value([v1, v2]), true, true), " ") == "-key1=value1 -key1=value2"
  {
    ArgumentsRepeatedJoin(s, key, v1, v2);
    ArgumentsRepeatedText(s.keyPrefix, s.keyValueSeparator, s.argsSeparator, key, v1, v2);
  }

  lemma ArgumentsWithEmptyValueOutput(s: Syntax, key: string, v1: string)
    requires s == Dash && key == "key1" && v1 == "value1"
    ensures Join(AddArguments(s, key, Value([v1, ""]), false, true), " ") == "-key1=value1"
    ensures Join(AddArguments(s, key, Value([v1, ""]), true, true), " ") == "-key1=value1 -key1="
  {
    ArgumentsSecondEmpty(s, key, v1);
    var t1, t2 := ArgumentToken(s, key, v1), ArgumentToken(s, key, "");
    assert t1 == "-key1=value1" && t2 == "-key1=";
    JoinPair(t1, t2, " ");
  }

  /** The keyed paths joined under one key, for any syntax. */
  lemma KeyedPathsJoinedJoin(s: Syntax, key: string, p1: string, p2: string)
    requires key != "" && p1 != "" && p2 != ""
    ensures Join(AddKeyedPaths(s, key, Value([p1, p2]), false, true), s.argsSeparator)
         == ArgumentToken(s, key, PathToken(s, p1) + s.valueSeparator + PathToken(s, p2))
  {
    KeyedPathsPair(s, key, p1, p2);
  }

  lemma KeyedPathsJoinedText(kp: string, kvs: string, w: string, vs: string, key: string, p1: string, p2: string)
    requires kp == "-" && kvs == "=" && w == "\"" && vs == ";" && key == "key1" && p1 == "path1" && p2 == "path2"
    ensures kp + key + kvs + (w + p1 + w + vs + (w + p2 + w)) == "-key1=\"path1\";\"path2\""
  {
  }

  lemma KeyedPathsJoinedOutput(s: Syntax, key: string, p1: string, p2: string)
    requires s == Dash && key == "key1" && p1 == "path1" && p2 == "path2"
    ensures Join(AddKeyedPaths(s, key, Value([p1, p2]), false, true), " ") == "-key1=\"path1\";\"path2\""
  {
    KeyedPathsJoinedJoin(s, key, p1, p2);
    KeyedPathsJoinedText(s.keyPrefix, s.keyValueSeparator, s.pathWrapper, s.valueSeparator, key, p1, p2);
  }

  /** The repeated keyed paths, as ToString joins them, for any syntax. */
  lemma KeyedPathsRepeatedJoin(s: Syntax, key: string, p1: string, p2: string)
    requires key != "" && p1 != "" && p2 != ""
    ensures Join(AddKeyedPaths(s, key, Value([p1, p2]), true, true), s.argsSeparator)
         == KeyedPathToken(s, key, p1) + s.argsSeparator + KeyedPathToken(s, key, p2)
  {
    KeyedPathsPair(s, key, p1, p2);
    JoinPair(KeyedPathToken(s, key, p1), KeyedPathToken(s, key, p2), s.argsSeparator);
  }

  lemma KeyedPathsRepeatedText(kp: string, kvs: string, w: string, sep: string, key: string, p1: string, p2: string)
    requires kp == "-" && kvs == "=" && w == "\"" && sep == " " && key == "key1" && p1 == "path1" && p2 == "path2"
    ensures kp + key + kvs + w + p1 + w + sep + (kp + key + kvs + w + p2 + w) == "-key1=\"path1\" -key1=\"path2\""
  {
  }

  lemma KeyedPathsRepeatedOutput(s: Syntax, key: string, p1: string, p2: string)
    requires s == Dash && key == "key1" && p1 == "path1" && p2 == "path2"
    ensures Join(AddKeyedPaths(s, key, Value([p1, p2]), true, true), " ") == "-key1=\"path1\" -key1=\"path2\""
  {
    KeyedPathsRepeatedJoin(s, key, p1, p2);
    KeyedPathsRepeatedText(s.keyPrefix, s.keyValueSeparator, s.pathWrapper, s.argsSeparator, key, p1, p2);
  }

  /** Keyed paths joined under one key, then an argument, for any syntax. */
  lemma PathsThenArgumentJoin(s: Syntax, k1: string, p1: string, p2: string, k2: string, v: string)
    requires k1 != "" && p1 != "" && p2 != "" && k2 != "" && v != ""
    ensures Join(AddKeyedPaths(s, k1, Value([p1, p2]), false, true) + AddArgument(s, k2, v, true), s.argsSeparator)
         == ArgumentToken(s, k1, PathToken(s, p1) + s.valueSeparator + PathToken(s, p2))
            + s.argsSeparator + ArgumentToken(s, k2, v)
  {
    KeyedPathsPair(s, k1, p1, p2);
    var t1 := ArgumentToken(s, k1, PathToken(s, p1) + s.valueSeparator + PathToken(s, p2));
    var t2 := ArgumentToken(s, k2, v);
    assert AddKeyedPaths(s, k1, Value([p1, p2]), false, true) + AddArgument(s, k2, v, true) == [t1, t2];
    JoinPair(t1, t2, s.argsSeparator);
  }

  lemma PathsThenArgumentText(t1: string, sep: string, kp: string, kvs: string, k2: string, v: string)
    requires t1 == "-key1=\"path1\";\"path2\"" && sep == " " && kp == "-" && kvs == "=" && k2 == "key2" && v == "value2"
    ensures t1 + sep + (kp + k2 + kvs + v) == "-key1=\"path1\";\"path2\" -key2=value2"
  {
  }

  lemma PathsThenArgumentOutput(s: Syntax, k1: string, p1: string, p2: string, k2: string, v: string, condition: bool)
    requires s == Dash && k1 == "key1" && p1 == "path1" && p2 == "path2" && k2 == "key2" && v == "value2"
    ensures Join(AddKeyedPaths(s, k1, Value([p1, p2]), false, condition) + AddArgument(s, k2, v, condition), " ")
         == if condition then "-key1=\"path1\";\"path2\" -key2=value2" else ""
  {
    if condition {
      PathsThenArgumentJoin(s, k1, p1, p2, k2, v);
      KeyedPathsJoinedText(s.keyPrefix, s.keyValueSeparator, s.pathWrapper, s.valueSeparator, k1, p1, p2);
      var t1 := ArgumentToken(s, k1, PathToken(s, p1) + s.valueSeparator + PathToken(s, p2));
      PathsThenArgumentText(t1, s.argsSeparator, s.keyPrefix, s.keyValueSeparator, k2, v);
    }
  }

  // ---------------------------------------------------------------------------
  // Builders

  /** By("-", "=", ";", "\"", " ").AddPaths("key1", ["path1", "path2"], false, condition)
      .AddArgument("key2", "value2", condition). */
  method PathsThenArgument(condition: bool) returns (s: string)
    ensures condition ==> s == "-key1=\"path1\";\"path2\" -key2=value2"
    ensures !condition ==> s == ""
  {
    var b := ArgsBuilder.By("-", "=", ";", "\"", " ");
    var b1 := b.AddKeyedPaths("key1", Value(["path1", "path2"]), false, condition);
    var b2 := b1.AddArgument("key2", "value2", condition);
    assert b2.tokens == AddKeyedPaths(b.syntax, "key1", Value(["path1", "path2"]), false, condition)
                        + AddArgument(b.syntax, "key2", "value2", condition);
    PathsThenArgumentOutput(b.syntax, "key1", "path1", "path2", "key2", "value2", condition);
    s := b2.ToString();
  }

  /** AddKey("key1") on By("-", "="). */
  method Key() returns (s: string)
    ensures s == "-key1"
  {
    var b := ArgsBuilder.By("-", "=");
    var b1 := b.AddKey("key1");
    assert b1.tokens == AddKey(b.syntax, "key1", true);
    KeyOutput(b.syntax, "key1");
    s := b1.ToString();
  }

  /** AddKeys(["key1", "key2"]) or AddKeys(null) on By("-", "="). */
  method Keys(keysGiven: bool) returns (s: string)
    ensures keysGiven ==> s == "-key1 -key2"
    ensures !keysGiven ==> s == ""
  {
    var b := ArgsBuilder.By("-", "=");
    var b1 := b.AddKeys(if keysGiven then Value(["key1", "key2"]) else Null);
    if keysGiven {
      assert b1.tokens == AddKeys(b.syntax, Value(["key1", "key2"]), true);
      KeysOutput(b.syntax, "key1", "key2");
    }
    s := b1.ToString();
  }

  /** AddValue(value) on By("-", "="). */
  method SingleValue(value: string) returns (s: string)
    ensures s == value
  {
    var b := ArgsBuilder.By("-", "=");
    var b1 := b.AddValue(value);
    s := b1.ToString();
  }

  /** AddValues(["value1", "value2"]) on By("-", "="). */
  method Values() returns (s: string)
    ensures s == "value1 value2"
  {
    var b := ArgsBuilder.By("-", "=");
    var b1 := b.AddValues(Value(["value1", "value2"]));
    assert b1.tokens == AddValues(b.syntax, Value(["value1", "value2"]), true);
    ValuesOutput(b.syntax, "value1", "value2");
    s := b1.ToString();
  }

  /** AddArgument(key, value) on By("-", "="): nothing unless both are non-empty. */
  method Argument(key: string, value: string) returns (s: string)
    ensures key == "key1" && value == "value1" ==> s == "-key1=value1"
    ensures key == "" || value == "" ==> s == ""
  {
    var b := ArgsBuilder.By("-", "=");
    var b1 := b.AddArgument(key, value);
    s := b1.ToString();
  }

  /** AddArguments("key1", ["value1", "value2"], multipleTimes) on By("-", "="). */
  method Arguments(multipleTimes: bool) returns (s: string)
    ensures !multipleTimes ==> s == "-key1=value1;value2"
    ensures multipleTimes ==> s == "-key1=value1 -key1=value2"
  {
    var b := ArgsBuilder.By("-", "=");
    var b1 := b.AddArguments("key1", Value(["value1", "value2"]), multipleTimes);
    assert b1.tokens == AddArguments(b.syntax, "key1", Value(["value1", "value2"]), multipleTimes, true);
    ArgumentsJoinedOutput(b.syntax, "key1", "value1", "value2");
    ArgumentsRepeatedOutput(b.syntax, "key1", "value1", "value2");
    s := b1.ToString();
  }

  /** AddArguments("key1", ["value1", ""], multipleTimes) on By("-", "="). */
  method ArgumentsWithEmptyValue(multipleTimes: bool) returns (s: string)
    ensures !multipleTimes ==> s == "-key1=value1"
    ensures multipleTimes ==> s == "-key1=value1 -key1="
  {
    var b := ArgsBuilder.By("-", "=");
    var b1 := b.AddArguments("key1", Value(["value1", ""]), multipleTimes);
    assert b1.tokens == AddArguments(b.syntax, "key1", Value(["value1", ""]), multipleTimes, true);
    ArgumentsWithEmptyValueOutput(b.syntax, "key1", "value1");
    s := b1.ToString();
  }

  /** AddPath("path1") on By("-", "="). */
  method Path() returns (s: string)
    ensures s == "\"path1\""
  {
    var b := ArgsBuilder.By("-", "=");
    var b1 := b.AddPath("path1");
    assert b1.tokens == AddPath(b.syntax, "path1", true);
    PathOutput(b.syntax, "path1");
    s := b1.ToString();
  }

  /** AddPath("key1", "path1") on By("-", "="). */
  method KeyedPath() returns (s: string)
    ensures s == "-key1=\"path1\""
  {
    var b := ArgsBuilder.By("-", "=");
    var b1 := b.AddKeyedPath("key1", "path1");
    assert b1.tokens == AddKeyedPath(b.syntax, "key1", "path1", true);
    KeyedPathOutput(b.syntax, "key1", "path1");
    s := b1.ToString();
  }

  /** AddPaths(["path1", "path2"]) on By("-", "="). */
  method Paths() returns (s: string)
    ensures s == "\"path1\" \"path2\""
  {
    var b := ArgsBuilder.By("-", "=");
    var b1 := b.AddPaths(Value(["path1", "path2"]));
    assert b1.tokens == AddPaths(b.syntax, Value(["path1", "path2"]), true);
    PathsOutput(b.syntax, "path1", "path2");
    s := b1.ToString();
  }

  /** AddPaths("key1", ["path1", "path2"], multipleTimes) on By("-", "="). */
  method KeyedPaths(multipleTimes: bool) returns (s: string)
    ensures !multipleTimes ==> s == "-key1=\"path1\";\"path2\""
    ensures multipleTimes ==> s == "-key1=\"path1\" -key1=\"path2\""
  {
    var b := ArgsBuilder.By("-", "=");
    var b1 := b.AddKeyedPaths("key1", Value(["path1", "path2"]), multipleTimes);
    assert b1.tokens == AddKeyedPaths(b.syntax, "key1", Value(["path1", "path2"]), multipleTimes, true);
    KeyedPathsJoinedOutput(b.syntax, "key1", "path1", "path2");
    KeyedPathsRepeatedOutput(b.syntax, "key1", "path1", "path2");
    s := b1.ToString();
  }

  /** Reading the builder three times, before and after AddValue("value1"), and
      converting a null and a non-null builder to string. */
  method Reads() returns (before: seq<string>, after: seq<string>, none: Nullable<string>, some: Nullable<string>)
    ensures before == ["", "", ""] && after == ["value1", "value1", "value1"]
    ensures none == Null && some == Value("value1")
  {
    var b := ArgsBuilder.By("-", "=");
    before := [b.ToString(), b.ToString(), b.ToString()];
    b := b.AddValue("value1");
    after := [b.ToString(), b.ToString(), b.ToString()];
    none := ArgsBuilder.AsString(null);
    some := ArgsBuilder.AsString(b);
  }

  /** With the two-character separator ", " the output keeps a trailing ','. */
  method TwoCharacterSeparator() returns (s: string)
    ensures s == "-a, -b,"
  {
    var b := ArgsBuilder.By("-", "=", argsSeparator := ", ");
    var b1 := b.AddKey("a");
    var b2 := b1.AddKey("b");
    s := b2.ToString();
  }

  /** With an empty separator the last token loses its last character. */
  method EmptySeparator() returns (s: string)
    ensures s == "-a-"
  {
    var b := ArgsBuilder.By("-", "=", argsSeparator := "");
    var b1 := b.AddKey("a");
    var b2 := b1.AddKey("b");
    s := b2.ToString();
  }
}
