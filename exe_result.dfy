/** Heleonix.Execution.ExeResult: the exit code, standard output and standard
    error of one run. Output and Error are null when the run did not capture
    them. ToString and Equals look at the exit code only. */
module ExeResults {
  import opened Nullables

  /** A C# int. */
  newtype int32 = x: int | -0x8000_0000 <= x < 0x8000_0000

  datatype ExeResult = ExeResult(exitCode: int32, output: Nullable<string>, error: Nullable<string>)

  /** What the object reference handed to Equals points at. */
  datatype Object = NullReference | OtherObject | AnExeResult(result: ExeResult)

  // ---------------------------------------------------------------------------
  // Decimal text of an integer, as int.ToString() writes it

  predicate IsDigit(c: char)
  {
    '0' <= c <= '9'
  }

  predicate AllDigits(s: string)
  {
    forall i :: 0 <= i < |s| ==> IsDigit(s[i])
  }

  function DigitChar(d: nat): (c: char)
    requires d < 10
    ensures IsDigit(c) && DigitValue(c) == d
  {
    ('0' as int + d) as char
  }

  function DigitValue(c: char): (d: nat)
    requires IsDigit(c)
    ensures d < 10
  {
    c as int - '0' as int
  }

  /** A non-empty run of digits without a leading zero: the only spelling
      int.ToString() gives the magnitude of a number. */
  predicate CanonicalDigits(s: string)
  {
    s != "" && AllDigits(s) && (|s| > 1 ==> s[0] != '0')
  }

  /** The digits of n, most significant first, without leading zeros. */
  function NatToDecimal(n: nat): (r: string)
    ensures CanonicalDigits(r)
    ensures r == "0" <==> n == 0
  {
    if n < 10 then [DigitChar(n)] else NatToDecimal(n / 10) + [DigitChar(n % 10)]
  }

  /** The spellings int.ToString() can give: canonical digits, or a '-'
      before canonical digits other than "0". */
  predicate CanonicalDecimal(s: string)
  {
    CanonicalDigits(s) || (|s| >= 2 && s[0] == '-' && CanonicalDigits(s[1..]) && s[1..] != "0")
  }

  /** int.ToString(): a '-' before the digits of a negative number; never a
      leading zero and never "-0". */
  function IntToDecimal(n: int): (r: string)
    ensures CanonicalDecimal(r)
    ensures n >= 0 ==> CanonicalDigits(r)
    ensures n < 0 ==> |r| >= 2 && r[0] == '-' && CanonicalDigits(r[1..]) && r[1..] != "0"
  {
    if n < 0 then "-" + NatToDecimal(-n) else NatToDecimal(n)
  }

  /** The value of a non-empty string of digits. */
  function ParseDigits(s: string): nat
    requires s != "" && AllDigits(s)
  {
    if |s| == 1 then DigitValue(s[0])
    else ParseDigits(s[..|s| - 1]) * 10 + DigitValue(s[|s| - 1])
  }

  /** Reads back what IntToDecimal writes: an optional '-' and then digits. */
  function ParseDecimal(s: string): Nullable<int>
  {
    if s != "" && AllDigits(s) then Value(ParseDigits(s))
    else if |s| >= 2 && s[0] == '-' && AllDigits(s[1..]) then Value(-(ParseDigits(s[1..]) as int))
    else Null
  }

  lemma {:induction false} ParseNatToDecimal(n: nat)
    ensures ParseDigits(NatToDecimal(n)) == n
  {
    if n >= 10 {
      var r := NatToDecimal(n);
      ParseNatToDecimal(n / 10);
      assert r[..|r| - 1] == NatToDecimal(n / 10);
    }
  }

  /** Decimal text is a faithful encoding of the integer. */
  lemma IntToDecimalRoundTrip(n: int)
    ensures ParseDecimal(IntToDecimal(n)) == Value(n)
  {
    var s := IntToDecimal(n);
    if n < 0 {
      var d := NatToDecimal(-n);
      ParseNatToDecimal(-n);
      assert s == "-" + d;
      assert s[1..] == d;
      assert !IsDigit(s[0]) && !AllDigits(s);
    } else {
      ParseNatToDecimal(n);
    }
  }

  function Pow10(k: nat): (p: nat)
    ensures p >= 1
  {
    if k == 0 then 1 else 10 * Pow10(k - 1)
  }

  lemma {:induction false} Pow10Monotonic(j: nat, k: nat)
    requires j <= k
    ensures Pow10(j) <= Pow10(k)
  {
    if j < k {
      Pow10Monotonic(j, k - 1);
    }
  }

  /** A run of k digits is below 10^k, and at least 10^(k-1) when it does not start with '0'. */
  lemma {:induction false} DigitsBounds(s: string)
    requires s != "" && AllDigits(s)
    ensures ParseDigits(s) < Pow10(|s|)
    ensures s[0] != '0' ==> Pow10(|s| - 1) <= ParseDigits(s)
  {
    if |s| > 1 {
      var init := s[..|s| - 1];
      assert init[0] == s[0];
      DigitsBounds(init);
    }
  }

  /** Two canonical digit runs with the same value are the same text. */
  lemma {:induction false} CanonicalDigitsUnique(a: string, b: string)
    requires CanonicalDigits(a) && CanonicalDigits(b) && ParseDigits(a) == ParseDigits(b)
    ensures a == b
  {
    if |a| != |b| {
      var short, long := if |a| < |b| then a else b, if |a| < |b| then b else a;
      DigitsBounds(short);
      DigitsBounds(long);
      Pow10Monotonic(|short|, |long| - 1);
      assert false;
    } else if |a| > 1 {
      var ia, ib := a[..|a| - 1], b[..|b| - 1];
      assert ia[0] == a[0] && ib[0] == b[0];
      CanonicalDigitsUnique(ia, ib);
      assert a == ia + [a[|a| - 1]] && b == ib + [b[|b| - 1]];
    }
  }

  /** What IntToDecimal writes is the only canonical spelling of its number:
      canonical text that reads back as n is IntToDecimal(n). */
  lemma DecimalSpellingIsUnique(n: int, s: string)
    requires CanonicalDecimal(s) && ParseDecimal(s) == Value(n)
    ensures s == IntToDecimal(n)
  {
    if CanonicalDigits(s) {
      ParseNatToDecimal(n);
      CanonicalDigitsUnique(s, NatToDecimal(n));
    } else {
      var d := s[1..];
      assert !IsDigit(s[0]) && !AllDigits(s);
      DigitsBounds(d);
      assert ParseDigits(d) > 0;
      ParseNatToDecimal(-n);
      CanonicalDigitsUnique(d, NatToDecimal(-n));
      assert s == "-" + d;
    }
  }

  // ---------------------------------------------------------------------------
  // ToString and Equals

  /** The label ToString puts before the exit code. */
  const Label: string := "ExitCode: "

  /** "ExitCode: " + this.ExitCode, the exit code spelled as int.ToString() does. */
  function ToString(r: ExeResult): (s: string)
    ensures |s| > |Label| && s[..|Label|] == Label
    ensures ParseDecimal(s[|Label|..]) == Value(r.exitCode as int)
    ensures CanonicalDecimal(s[|Label|..])
  {
    IntToDecimalRoundTrip(r.exitCode as int);
    var s := Label + IntToDecimal(r.exitCode as int);
    assert s[|Label|..] == IntToDecimal(r.exitCode as int);
    s
  }

  /** obj as ExeResult: the object itself when it is an ExeResult, null otherwise. */
  function AsExeResult(obj: Object): Nullable<ExeResult>
  {
    match obj
    case AnExeResult(e) => Value(e)
    case _ => Null
  }

  /** The null-conditional member access x?.ExitCode, of type int?. */
  function ExitCodeOf(x: Nullable<ExeResult>): Nullable<int32>
  {
    match x
    case Null => Null
    case Value(e) => Value(e.exitCode)
  }

  /** C#'s lifted == between an int? and an int: false when the int? is null. */
  function LiftedEquals(a: Nullable<int32>, b: int32): bool
  {
    match a
    case Null => false
    case Value(v) => v == b
  }

  /** (obj as ExeResult)?.ExitCode == this.ExitCode: true exactly for another
      ExeResult with the same exit code. */
  function Equals(r: ExeResult, obj: Object): (eq: bool)
    ensures eq <==> obj.AnExeResult? && obj.result.exitCode == r.exitCode
  {
    LiftedEquals(ExitCodeOf(AsExeResult(obj)), r.exitCode)
  }

  /** Equals is false for null and for any other kind of object, and true for
      a result with the same exit code whatever its output and error are. */
  lemma EqualsIsSameExitCode(r: ExeResult)
    ensures Equals(r, NullReference) == false && Equals(r, OtherObject) == false
    ensures forall o, e :: Equals(r, AnExeResult(ExeResult(r.exitCode, o, e)))
  {
  }

  /** Equals is an equivalence on ExeResult values. */
  lemma EqualsIsEquivalence(a: ExeResult, b: ExeResult, c: ExeResult)
    ensures Equals(a, AnExeResult(a))
    ensures Equals(a, AnExeResult(b)) == Equals(b, AnExeResult(a))
    ensures Equals(a, AnExeResult(b)) && Equals(b, AnExeResult(c)) ==> Equals(a, AnExeResult(c))
  {
  }

  /** Two results print the same exactly when Equals holds between them. */
  lemma ToStringAgreesWithEquals(a: ExeResult, b: ExeResult)
    ensures ToString(a) == ToString(b) <==> Equals(a, AnExeResult(b))
  {
    if ToString(a) == ToString(b) {
      assert ParseDecimal(ToString(a)[|Label|..]) == ParseDecimal(ToString(b)[|Label|..]);
    }
  }

  /** The repository's example: exit code 123 prints as "ExitCode: 123". */
  lemma ToStringExample(output: Nullable<string>, error: Nullable<string>)
    ensures ToString(ExeResult(123, output, error)) == "ExitCode: 123"
  {
    assert NatToDecimal(1) == "1";
    assert NatToDecimal(12) == "12";
    assert NatToDecimal(123) == "123";
  }
}
