/** String helpers shared by the argument builder model: .NET's string.Join,
    the content of a StringBuilder after a run of Append(token).Append(separator),
    the "where !string.IsNullOrEmpty(x)" filter, and the one-token-per-item
    expansion that a foreach loop over Append produces.

    Strings are seq<char>; a .NET null string is modelled as "", which is how
    string.IsNullOrEmpty, string interpolation, StringBuilder.Append and
    string.Join all treat it. */
module Text {

  /** True when no item is the empty string. */
  predicate AllNonEmpty(items: seq<string>)
  {
    forall i :: 0 <= i < |items| ==> items[i] != ""
  }

  /** string.Join(sep, items): the items in order with sep between neighbours. */
  function Join(items: seq<string>, sep: string): (r: string)
    ensures items == [] ==> r == ""
    ensures (exists i :: 0 <= i < |items| && items[i] != "") ==> r != ""
    ensures AllNonEmpty(items) ==> (r == "" <==> items == [])
  {
    if |items| == 0 then ""
    else if |items| == 1 then items[0]
    else Join(items[..|items| - 1], sep) + sep + items[|items| - 1]
  }

  /** What a StringBuilder holds after Append(t).Append(sep) for each t of items, in order. */
  function Terminated(items: seq<string>, sep: string): (r: string)
    ensures items == [] ==> r == ""
    ensures items != [] && items[|items| - 1] != "" ==> r != ""
  {
    if items == [] then ""
    else Terminated(items[..|items| - 1], sep) + items[|items| - 1] + sep
  }

  /** The items that survive "where !string.IsNullOrEmpty(x)", in their original order. */
  function NonEmpty(items: seq<string>): (r: seq<string>)
    ensures AllNonEmpty(r)
    ensures forall x :: x in r <==> x in items && x != ""
    ensures |r| <= |items|
    ensures AllNonEmpty(items) ==> r == items
    ensures (exists i :: 0 <= i < |items| && items[i] == "") ==> |r| < |items|
  {
    if items == [] then []
    else
      var last := items[|items| - 1];
      NonEmpty(items[..|items| - 1]) + (if last == "" then [] else [last])
  }

  /** LINQ "select f(x)": f applied to every item, in order. */
  function Map(items: seq<string>, f: string -> string): (r: seq<string>)
    ensures |r| == |items|
    ensures forall i :: 0 <= i < |items| ==> r[i] == f(items[i])
  {
    seq(|items|, i requires 0 <= i < |items| => f(items[i]))
  }

  /** The tokens a foreach loop appends when each item contributes f(item), in order. */
  function Each(items: seq<string>, f: string -> seq<string>): (r: seq<string>)
    ensures items == [] ==> r == []
  {
    if items == [] then []
    else Each(items[..|items| - 1], f) + f(items[|items| - 1])
  }

  /** Removing the final character, as String.Remove(Length - 1, 1) does. A char
      here is a Unicode scalar value, where .NET removes one UTF-16 code unit. */
  function DropLast(s: string): (r: string)
    requires s != ""
    ensures |r| == |s| - 1
    ensures r + [s[|s| - 1]] == s
  {
    s[..|s| - 1]
  }

  /** Filtering distributes over concatenation: the survivors of a + b are those
      of a followed by those of b, so order and repeats are kept. */
  lemma {:induction false} NonEmptyConcat(a: seq<string>, b: seq<string>)
    ensures NonEmpty(a + b) == NonEmpty(a) + NonEmpty(b)
  {
    if b == [] {
      assert a + b == a;
    } else {
      var init, last := b[..|b| - 1], b[|b| - 1];
      var tail := if last == "" then [] else [last];
      assert (a + b)[..|a + b| - 1] == a + init;
      assert (a + b)[|a + b| - 1] == last;
      NonEmptyConcat(a, init);
      assert NonEmpty(a + b) == NonEmpty(a + init) + tail;
      assert NonEmpty(b) == NonEmpty(init) + tail;
    }
  }

  /** One item survives the filter exactly when it is not empty. */
  lemma NonEmptySingle(x: string)
    ensures NonEmpty([x]) == (if x == "" then [] else [x])
  {
    assert [x][..0] == [];
  }

  /** One more item of a taken from the front. */
  lemma ExtendPrefix(prefix: seq<string>, a: seq<string>, i: nat)
    requires i < |a|
    ensures prefix + a[..i] + [a[i]] == prefix + a[..i + 1]
  {
    assert a[..i + 1] == a[..i] + [a[i]];
  }

  /** A buffer of separator-terminated tokens is their join followed by one separator. */
  lemma {:induction false} TerminatedIsJoinThenSeparator(items: seq<string>, sep: string)
    requires items != []
    ensures Terminated(items, sep) == Join(items, sep) + sep
  {
    if |items| > 1 {
      var init := items[..|items| - 1];
      TerminatedIsJoinThenSeparator(init, sep);
    }
  }

  /** Appending two runs of tokens one after the other concatenates their buffers. */
  lemma {:induction false} TerminatedConcat(a: seq<string>, b: seq<string>, sep: string)
    ensures Terminated(a + b, sep) == Terminated(a, sep) + Terminated(b, sep)
  {
    if b == [] {
      assert a + b == a;
    } else {
      var init := b[..|b| - 1];
      assert (a + b)[..|a + b| - 1] == a + init;
      TerminatedConcat(a, init, sep);
    }
  }

  /** A foreach that appends one f(x) for each non-empty x and nothing for an empty one
      yields exactly f mapped over the non-empty items. */
  lemma {:induction false} EachSkippingEmptyIsMapOfNonEmpty(
    items: seq<string>, g: string -> seq<string>, f: string -> string)
    requires forall x :: g(x) == (if x == "" then [] else [f(x)])
    ensures Each(items, g) == Map(NonEmpty(items), f)
  {
    if items != [] {
      var init := items[..|items| - 1];
      var last := items[|items| - 1];
      EachSkippingEmptyIsMapOfNonEmpty(init, g, f);
      assert Map(NonEmpty(items), f) == Map(NonEmpty(init), f) + (if last == "" then [] else [f(last)]);
    }
  }
}
