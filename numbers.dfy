/**
 * The numeric coercion the mappers apply to a field: `parseFloat(field) || 0`.
 * `parseFloat` skips leading white space and reads the longest prefix shaped
 * like a signed decimal literal; when there is none the result is NaN, which
 * `|| 0` (like a parsed zero) turns into 0. Numbers are exact reals here.
 */
module Numbers {
  import opened Options
  import opened Text

  predicate IsDigit(c: char) {
    '0' <= c <= '9'
  }

  predicate AllDigits(s: string) {
    forall i :: 0 <= i < |s| ==> IsDigit(s[i])
  }

  /** The length of the run of digits at the start of `s`. */
  function DigitRun(s: string): (n: nat)
    ensures n <= |s| && AllDigits(s[..n])
    ensures n == |s| || !IsDigit(s[n])
  {
    if s != [] && IsDigit(s[0]) then
      var n := DigitRun(s[1..]);
      assert s[..1 + n] == [s[0]] + s[1..][..n];
      1 + n
    else 0
  }

  /** The value of a string of decimal digits, most significant first. */
  function DigitsValue(d: string): nat
    requires AllDigits(d)
  {
    if d == [] then 0 else DigitsValue(d[..|d| - 1]) * 10 + (d[|d| - 1] as int - '0' as int)
  }

  function Pow10(n: nat): (r: nat)
    ensures r >= 1
  {
    if n == 0 then 1 else 10 * Pow10(n - 1)
  }

  /** The digits after a leading decimal point, if `rest` starts with one. */
  function FractionDigits(rest: string): (f: string)
    ensures AllDigits(f)
  {
    if |rest| > 0 && rest[0] == '.' then rest[1..][..DigitRun(rest[1..])] else []
  }

  /** An unsigned decimal literal at the start of `s`: digits with an optional fraction, at least one digit in all. */
  function ParseUnsigned(s: string): (r: Option<real>)
    ensures r.Some? ==> r.value >= 0.0
  {
    var n := DigitRun(s);
    var fraction := FractionDigits(s[n..]);
    if n == 0 && fraction == [] then None
    else Some(DigitsValue(s[..n]) as real + FractionValue(fraction))
  }

  /** The value of the digits after a decimal point. */
  function FractionValue(f: string): (r: real)
    requires AllDigits(f)
    ensures f == [] ==> r == 0.0
  {
    DigitsValue(f) as real / Pow10(|f|) as real
  }

  /**
   * `parseFloat`: optional white space, an optional sign, then an unsigned
   * decimal literal. Whatever follows the literal is ignored.
   */
  function ParseFloat(s: string): (r: Option<real>)
  {
    var t := TrimStart(s);
    if |t| > 0 && t[0] == '-' then
      match ParseUnsigned(t[1..])
      case Some(v) => Some(-v)
      case None => None
    else if |t| > 0 && t[0] == '+' then ParseUnsigned(t[1..])
    else ParseUnsigned(t)
  }

  /** `parseFloat(s) || 0`: the parsed number, or 0 when there is none. */
  function NumberOrZero(s: string): real {
    ParseFloat(s).GetOr(0.0)
  }

  /** A string with no digit in it never parses, so it coerces to 0. */
  lemma {:induction false} NoDigitIsZero(s: string)
    requires forall i :: 0 <= i < |s| ==> !IsDigit(s[i])
    ensures ParseFloat(s) == None && NumberOrZero(s) == 0.0
  {
    var t := TrimStart(s);
    var k := |s| - |t|;
    NoDigitSuffix(s, k);
    NoDigitUnsigned(t);
    if |t| > 0 {
      NoDigitSuffix(s, k + 1);
      assert t[1..] == s[k + 1..];
      NoDigitUnsigned(t[1..]);
    }
  }

  lemma NoDigitSuffix(s: string, k: nat)
    requires forall i :: 0 <= i < |s| ==> !IsDigit(s[i])
    requires k <= |s|
    ensures forall i :: 0 <= i < |s| - k ==> !IsDigit(s[k..][i])
  {
  }

  lemma {:induction false} NoDigitUnsigned(u: string)
    requires forall i :: 0 <= i < |u| ==> !IsDigit(u[i])
    ensures ParseUnsigned(u) == None
  {
    assert DigitRun(u) == 0;
    assert u[0..] == u;
    if |u| > 0 && u[0] == '.' {
      assert |u| == 1 || !IsDigit(u[1..][0]);
      assert DigitRun(u[1..]) == 0;
    }
  }

  /**
   * Digits followed by anything that cannot continue a number parse to the
   * digits' value: only the leading number counts.
   */
  lemma {:induction false} LeadingDigitsParse(d: string, tail: string)
    requires d != [] && AllDigits(d)
    requires tail == [] || (!IsDigit(tail[0]) && tail[0] != '.')
    ensures ParseFloat(d + tail) == Some(DigitsValue(d) as real)
  {
    var s := d + tail;
    StartsWithDigit(s);
    UnsignedDigits(d, tail);
  }

  /** A string that starts with a digit has no white space or sign to skip. */
  lemma {:induction false} StartsWithDigit(s: string)
    requires s != [] && IsDigit(s[0])
    ensures ParseFloat(s) == ParseUnsigned(s)
  {
    assert !IsSpace(s[0]);
    assert TrimStart(s) == s;
  }

  lemma {:induction false} UnsignedDigits(d: string, tail: string)
    requires AllDigits(d)
    requires tail == [] || (!IsDigit(tail[0]) && tail[0] != '.')
    ensures ParseUnsigned(d + tail) == if d == [] then None else Some(DigitsValue(d) as real)
  {
    var s := d + tail;
    DigitRunOf(d, tail);
    assert s[..|d|] == d;
    assert s[|d|..] == tail;
    assert FractionDigits(tail) == [];
  }

  lemma {:induction false} DigitRunOf(d: string, tail: string)
    requires AllDigits(d)
    requires tail == [] || !IsDigit(tail[0])
    ensures DigitRun(d + tail) == |d|
  {
    if d != [] {
      assert (d + tail)[1..] == d[1..] + tail;
      DigitRunOf(d[1..], tail);
    } else {
      assert d + tail == tail;
    }
  }

  /** A non-empty run of digits parses to its decimal value. */
  lemma {:induction false} DigitsParse(d: string)
    requires d != [] && AllDigits(d)
    ensures ParseFloat(d) == Some(DigitsValue(d) as real)
    ensures NumberOrZero(d) == DigitsValue(d) as real
  {
    LeadingDigitsParse(d, []);
    assert d + [] == d;
  }

  /** A minus sign in front of a run of digits negates the value: prices may be negative. */
  lemma {:induction false} NegativeDigitsParse(d: string)
    requires d != [] && AllDigits(d)
    ensures ParseFloat("-" + d) == Some(-(DigitsValue(d) as real))
  {
    var s := "-" + d;
    assert ParseUnsigned(d) == Some(DigitsValue(d) as real) by {
      UnsignedDigits(d, []);
      assert d + [] == d;
    }
    assert TrimStart(s) == s by {
      assert s[0] == '-';
    }
    assert s[1..] == d;
  }

  /** A thousands separator ends the number: "1,500" parses to 1. */
  lemma {:induction false} ThousandsSeparatorStops(d: string, rest: string)
    requires d != [] && AllDigits(d)
    ensures ParseFloat(d + ("," + rest)) == Some(DigitsValue(d) as real)
  {
    LeadingDigitsParse(d, "," + rest);
  }

  /** "1500" coerces to 1500. */
  lemma {:induction false} PriceExample()
    ensures NumberOrZero("1500") == 1500.0
  {
    var d := "1500";
    assert DigitsValue(d[..1]) == 1 by {
      assert d[..1][..0] == [];
    }
    assert DigitsValue(d[..2]) == 15 by {
      assert d[..2][..1] == d[..1];
    }
    assert DigitsValue(d[..3]) == 150 by {
      assert d[..3][..2] == d[..2];
    }
    assert DigitsValue(d) == 1500 by {
      assert d[..3] == d[..|d| - 1];
    }
    assert NumberOrZero(d) == 1500.0 by {
      DigitsParse(d);
    }
  }

  /** Text that is not a number, and the empty string, coerce to 0. */
  lemma {:induction false} NotANumberExample()
    ensures NumberOrZero("abc") == 0.0
    ensures NumberOrZero("") == 0.0
  {
    NoDigitIsZero("abc");
    NoDigitIsZero("");
  }
}
