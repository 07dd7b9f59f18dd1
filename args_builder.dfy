/** Heleonix.Execution.ArgsBuilder: a fluent builder of command-line argument
    strings. The StringBuilder becomes the string field buffer, reassigned by
    Append; the ghost field tokens records every string handed to Append, and
    Valid() ties buffer and wasModified to it. Every Add* method returns the
    builder itself and appends exactly the tokens that the function of the same
    name in ArgsFormat gives for its arguments. A null object argument is
    modelled by the empty string it prints as, and a null list by Null. */
module ArgsBuilders {
  import opened Text
  import opened Nullables
  import opened ArgsFormat

  class ArgsBuilder {
    /** keyPrefix, keyValueSeparator, valueSeparator, pathWrapper, argsSeparator. */
    const syntax: Syntax
    /** The StringBuilder's content. */
    var buffer: string
    /** Set by the first Append, never cleared. */
    var wasModified: bool
    /** Every argument string appended so far, in order. */
    ghost var tokens: seq<string>

    ghost predicate Valid()
      reads this
    {
      buffer == Terminated(tokens, syntax.argsSeparator) &&
      wasModified == (tokens != []) &&
      AllNonEmpty(tokens)
    }

    /** The private constructor: nothing appended yet. */
    constructor (syntax: Syntax)
      ensures Valid()
      ensures this.syntax == syntax && buffer == "" && !wasModified && tokens == []
    {
      this.syntax := syntax;
      buffer := "";
      wasModified := false;
      tokens := [];
    }

    /** ArgsBuilder.By, with the source's defaults for the last three separators. */
    static method By(
      keyPrefix: string,
      keyValueSeparator: string,
      valueSeparator: string := ";",
      pathWrapper: string := "\"",
      argsSeparator: string := " ")
      returns (b: ArgsBuilder)
      ensures fresh(b) && b.Valid()
      ensures b.syntax == Syntax(keyPrefix, keyValueSeparator, valueSeparator, pathWrapper, argsSeparator)
      ensures b.buffer == "" && !b.wasModified && b.tokens == []
    {
      b := new ArgsBuilder(Syntax(keyPrefix, keyValueSeparator, valueSeparator, pathWrapper, argsSeparator));
    }

    /** ToString: "" when nothing was appended, otherwise the buffer without its
        last character, which with a one-character separator is the tokens
        joined by that separator. Reading never changes the builder. */
    function ToString(): (r: string)
      reads this
      requires Valid()
      ensures !wasModified ==> r == ""
      ensures wasModified ==> |r| == |buffer| - 1 && r == buffer[..|buffer| - 1]
      ensures |syntax.argsSeparator| == 1 ==> r == Join(tokens, syntax.argsSeparator)
    {
      var r := Render(buffer, wasModified);
      assert |syntax.argsSeparator| == 1 ==> r == Join(tokens, syntax.argsSeparator) by {
        if |syntax.argsSeparator| == 1 {
          OutputIsJoinForOneCharSeparator(tokens, syntax.argsSeparator);
        }
      }
      r
    }

    /** The implicit conversion to string: null for a null builder; otherwise
        "" for a fresh one, and the appended tokens joined by a one-character
        argument separator. */
    static function AsString(b: ArgsBuilder?): (r: Nullable<string>)
      reads b
      requires b != null ==> b.Valid()
      ensures r.Null? <==> b == null
      ensures b != null && !b.wasModified ==> r == Value("")
      ensures b != null && b.wasModified ==> r == Value(b.buffer[..|b.buffer| - 1])
      ensures b != null && |b.syntax.argsSeparator| == 1 ==> r == Value(Join(b.tokens, b.syntax.argsSeparator))
    {
      if b == null then Null else Value(b.ToString())
    }

    /** The private Append: the buffer grows by arg and the argument separator. */
    method Append(arg: string)
      requires Valid() && arg != ""
      modifies this
      ensures Valid()
      ensures buffer == old(buffer) + arg + syntax.argsSeparator
      ensures wasModified
      ensures tokens == old(tokens) + [arg]
    {
      buffer := buffer + arg + syntax.argsSeparator;
      wasModified := true;
      tokens := tokens + [arg];
    }

    method AddKey(key: string, condition: bool := true) returns (r: ArgsBuilder)
      requires Valid()
      modifies this
      ensures r == this && Valid()
      ensures !condition || key == "" ==> buffer == old(buffer) && wasModified == old(wasModified)
      ensures condition && key != "" ==>
        buffer == old(buffer) + syntax.keyPrefix + key + syntax.argsSeparator && wasModified
      ensures tokens == old(tokens) + ArgsFormat.AddKey(syntax, key, condition)
    {
      r := this;
      if !condition || key == "" {
        return;
      }
      Append(KeyToken(syntax, key));
    }

    method AddKeys(keys: Nullable<seq<string>>, condition: bool := true) returns (r: ArgsBuilder)
      requires Valid()
      modifies this
      ensures r == this && Valid()
      ensures tokens == old(tokens) + ArgsFormat.AddKeys(syntax, keys, condition)
      ensures buffer == old(buffer) + Terminated(ArgsFormat.AddKeys(syntax, keys, condition), syntax.argsSeparator)
      ensures wasModified == (old(wasModified) || ArgsFormat.AddKeys(syntax, keys, condition) != [])
    {
      r := this;
      if !condition || keys.Null? {
        return;
      }
      var add := Join(KeyTokens(syntax, NonEmpty(keys.value)), syntax.argsSeparator);
      if add != "" {
        Append(add);
      }
    }

    method AddValue(value: string, condition: bool := true) returns (r: ArgsBuilder)
      requires Valid()
      modifies this
      ensures r == this && Valid()
      ensures !condition || value == "" ==> buffer == old(buffer) && wasModified == old(wasModified)
      ensures condition && value != "" ==> buffer == old(buffer) + value + syntax.argsSeparator && wasModified
      ensures tokens == old(tokens) + ArgsFormat.AddValue(syntax, value, condition)
    {
      r := this;
      if !condition || value == "" {
        return;
      }
      Append(value);
    }

    method AddValues(values: Nullable<seq<string>>, condition: bool := true) returns (r: ArgsBuilder)
      requires Valid()
      modifies this
      ensures r == this && Valid()
      ensures tokens == old(tokens) + ArgsFormat.AddValues(syntax, values, condition)
      ensures buffer == old(buffer) + Terminated(ArgsFormat.AddValues(syntax, values, condition), syntax.argsSeparator)
      ensures wasModified == (old(wasModified) || ArgsFormat.AddValues(syntax, values, condition) != [])
    {
      r := this;
      if !condition || values.Null? {
        return;
      }
      var add := Join(NonEmpty(values.value), syntax.argsSeparator);
      if add != "" {
        Append(add);
      }
    }

    method AddArgument(key: string, value: string, condition: bool := true) returns (r: ArgsBuilder)
      requires Valid()
      modifies this
      ensures r == this && Valid()
      ensures !condition || key == "" || value == "" ==> buffer == old(buffer) && wasModified == old(wasModified)
      ensures condition && key != "" && value != "" ==>
        buffer == old(buffer) + syntax.keyPrefix + key + syntax.keyValueSeparator + value + syntax.argsSeparator &&
        wasModified
      ensures tokens == old(tokens) + ArgsFormat.AddArgument(syntax, key, value, condition)
    {
      r := this;
      if !condition || key == "" || value == "" {
        return;
      }
      Append(ArgumentToken(syntax, key, value));
    }

    /** AddArguments(key, values, multipleTimes, condition): the multipleTimes branch
        is the source's foreach over Append. */
    method AddArguments(
      key: string, values: Nullable<seq<string>>, multipleTimes: bool := false, condition: bool := true)
      returns (r: ArgsBuilder)
      requires Valid()
      modifies this
      ensures r == this && Valid()
      ensures tokens == old(tokens) + ArgsFormat.AddArguments(syntax, key, values, multipleTimes, condition)
      ensures buffer == old(buffer) +
        Terminated(ArgsFormat.AddArguments(syntax, key, values, multipleTimes, condition), syntax.argsSeparator)
      ensures wasModified ==
        (old(wasModified) || ArgsFormat.AddArguments(syntax, key, values, multipleTimes, condition) != [])
    {
      r := this;
      ghost var added := ArgsFormat.AddArguments(syntax, key, values, multipleTimes, condition);
      if !condition || key == "" || values.Null? {
        assert added == [];
        assert tokens == old(tokens) + added;
      } else if multipleTimes {
        var vs := values.value;
        assert added == ArgumentTokens(syntax, key, vs);
        var i := 0;
        while i < |vs|
          invariant 0 <= i <= |vs|
          invariant Valid()
          invariant tokens == old(tokens) + added[..i]
        {
          Append(ArgumentToken(syntax, key, vs[i]));
          ExtendPrefix(old(tokens), added, i);
          i := i + 1;
        }
        assert added[..i] == added;
      } else {
        var add := Join(NonEmpty(values.value), syntax.valueSeparator);
        assert added == if add == "" then [] else [ArgumentToken(syntax, key, add)];
        if add != "" {
          Append(ArgumentToken(syntax, key, add));
        }
      }
      TerminatedConcat(old(tokens), added, syntax.argsSeparator);
    }

    method AddPath(path: string, condition: bool := true) returns (r: ArgsBuilder)
      requires Valid()
      modifies this
      ensures r == this && Valid()
      ensures !condition || path == "" ==> buffer == old(buffer) && wasModified == old(wasModified)
      ensures condition && path != "" ==>
        buffer == old(buffer) + syntax.pathWrapper + path + syntax.pathWrapper + syntax.argsSeparator && wasModified
      ensures tokens == old(tokens) + ArgsFormat.AddPath(syntax, path, condition)
    {
      r := this;
      if !condition || path == "" {
        return;
      }
      Append(PathToken(syntax, path));
    }

    /** AddPath(key, path, condition). */
    method AddKeyedPath(key: string, path: string, condition: bool := true) returns (r: ArgsBuilder)
      requires Valid()
      modifies this
      ensures r == this && Valid()
      ensures !condition || key == "" || path == "" ==> buffer == old(buffer) && wasModified == old(wasModified)
      ensures condition && key != "" && path != "" ==>
        buffer == old(buffer) + syntax.keyPrefix + key + syntax.keyValueSeparator
                  + syntax.pathWrapper + path + syntax.pathWrapper + syntax.argsSeparator &&
        wasModified
      ensures tokens == old(tokens) + ArgsFormat.AddKeyedPath(syntax, key, path, condition)
    {
      r := this;
      if !condition || key == "" || path == "" {
        return;
      }
      Append(KeyedPathToken(syntax, key, path));
    }

    method AddPaths(paths: Nullable<seq<string>>, condition: bool := true) returns (r: ArgsBuilder)
      requires Valid()
      modifies this
      ensures r == this && Valid()
      ensures tokens == old(tokens) + ArgsFormat.AddPaths(syntax, paths, condition)
      ensures buffer == old(buffer) + Terminated(ArgsFormat.AddPaths(syntax, paths, condition), syntax.argsSeparator)
      ensures wasModified == (old(wasModified) || ArgsFormat.AddPaths(syntax, paths, condition) != [])
    {
      r := this;
      if !condition || paths.Null? {
        return;
      }
      var add := Join(PathTokens(syntax, NonEmpty(paths.value)), syntax.argsSeparator);
      if add != "" {
        Append(add);
      }
    }

    /** AddPaths(key, paths, multipleTimes, condition): the multipleTimes branch
        is the source's foreach over Append. */
    method AddKeyedPaths(
      key: string, paths: Nullable<seq<string>>, multipleTimes: bool := false, condition: bool := true)
      returns (r: ArgsBuilder)
      requires Valid()
      modifies this
      ensures r == this && Valid()
      ensures tokens == old(tokens) + ArgsFormat.AddKeyedPaths(syntax, key, paths, multipleTimes, condition)
      ensures buffer == old(buffer) +
        Terminated(ArgsFormat.AddKeyedPaths(syntax, key, paths, multipleTimes, condition), syntax.argsSeparator)
      ensures wasModified ==
        (old(wasModified) || ArgsFormat.AddKeyedPaths(syntax, key, paths, multipleTimes, condition) != [])
    {
      r := this;
      ghost var added := ArgsFormat.AddKeyedPaths(syntax, key, paths, multipleTimes, condition);
      if !condition || key == "" || paths.Null? {
        assert added == [];
        assert tokens == old(tokens) + added;
      } else if multipleTimes {
        var ps := paths.value;
        assert added == KeyedPathTokens(syntax, key, ps);
        var i := 0;
        while i < |ps|
          invariant 0 <= i <= |ps|
          invariant Valid()
          invariant tokens == old(tokens) + added[..i]
        {
          Append(KeyedPathToken(syntax, key, ps[i]));
          ExtendPrefix(old(tokens), added, i);
          i := i + 1;
        }
        assert added[..i] == added;
      } else {
        var add := Join(PathTokens(syntax, NonEmpty(paths.value)), syntax.valueSeparator);
        assert added == if add == "" then [] else [ArgumentToken(syntax, key, add)];
        if add != "" {
          Append(ArgumentToken(syntax, key, add));
        }
      }
      TerminatedConcat(old(tokens), added, syntax.argsSeparator);
    }
  }
}
