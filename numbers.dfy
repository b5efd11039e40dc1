/**
 * `Number(s)` as `isNaN` judges it: the text is numeric exactly when it is a
 * `StringNumericLiteral` of ECMA-262 (section 7.1.4.1), which is how
 * `searchCategory` decides that a search key is a number.
 */
module Numbers {
  import opened Text
  import opened DecimalText

  /** `s` with its trailing `\s` characters removed. */
  function TrimEndSpace(s: string): (t: string)
    ensures |t| <= |s| && t == s[..|t|]
    ensures |t| == 0 || !IsSpace(t[|t| - 1])
  {
    if |s| > 0 && IsSpace(s[|s| - 1]) then TrimEndSpace(s[..|s| - 1]) else s
  }

  /** `s.trim()`: white space removed at both ends. */
  function TrimSpace(s: string): (t: string)
    ensures |t| <= |s|
    ensures |t| == 0 || (!IsSpace(t[0]) && !IsSpace(t[|t| - 1]))
  {
    TrimEndSpace(TrimStartSpace(s))
  }

  predicate IsHexDigit(c: char) { IsDigit(c) || 'a' <= c <= 'f' || 'A' <= c <= 'F' }

  predicate IsOctalDigit(c: char) { '0' <= c <= '7' }

  predicate IsBinaryDigit(c: char) { c == '0' || c == '1' }

  /** A non-empty run of characters that `digit` accepts. */
  predicate DigitsOf(s: string, digit: char -> bool)
  {
    |s| > 0 && forall i :: 0 <= i < |s| ==> digit(s[i])
  }

  /** The index of the first character that `p` accepts, or `|s|` when there is none. */
  function IndexWhere(s: string, p: char -> bool): (i: nat)
    ensures i <= |s|
    ensures i < |s| ==> p(s[i])
    ensures forall j :: 0 <= j < i ==> !p(s[j])
  {
    if |s| == 0 || p(s[0]) then 0 else 1 + IndexWhere(s[1..], p)
  }

  predicate IsPoint(c: char) { c == '.' }

  predicate IsExponentMark(c: char) { c == 'e' || c == 'E' }

  /** `DecimalDigits . DecimalDigits?`, `. DecimalDigits` or `DecimalDigits`. */
  predicate IsMantissa(m: string)
  {
    var d := IndexWhere(m, IsPoint);
    var whole := m[..d];
    var fraction := if d < |m| then m[d + 1..] else "";
    && (whole == "" || DigitsOf(whole, IsDigit))
    && (fraction == "" || DigitsOf(fraction, IsDigit))
    && (whole != "" || fraction != "")
  }

  /** An optionally signed run of decimal digits, as after the `e` of an exponent. */
  predicate IsSignedDigits(s: string)
  {
    DigitsOf(s, IsDigit) || (|s| > 0 && (s[0] == '+' || s[0] == '-') && DigitsOf(s[1..], IsDigit))
  }

  /** `StrUnsignedDecimalLiteral`: `Infinity`, or a mantissa with an optional exponent. */
  predicate IsUnsignedDecimal(s: string)
  {
    || s == "Infinity"
    || var e := IndexWhere(s, IsExponentMark);
       IsMantissa(s[..e]) && (e == |s| || IsSignedDigits(s[e + 1..]))
  }

  /** `NonDecimalIntegerLiteral`: `0x`, `0o` or `0b` and digits of that base, no sign. */
  predicate IsNonDecimalInteger(s: string)
  {
    && |s| > 2 && s[0] == '0'
    && (|| ((s[1] == 'x' || s[1] == 'X') && DigitsOf(s[2..], IsHexDigit))
        || ((s[1] == 'o' || s[1] == 'O') && DigitsOf(s[2..], IsOctalDigit))
        || ((s[1] == 'b' || s[1] == 'B') && DigitsOf(s[2..], IsBinaryDigit)))
  }

  /**
   * `!isNaN(Number(s))`: after trimming, `s` is empty (which converts to 0), a
   * non-decimal integer literal, or an optionally signed decimal literal.
   */
  predicate IsNumericText(s: string)
  {
    var t := TrimSpace(s);
    || t == ""
    || IsNonDecimalInteger(t)
    || IsUnsignedDecimal(t)
    || (|t| > 0 && (t[0] == '+' || t[0] == '-') && IsUnsignedDecimal(t[1..]))
  }

  lemma TrimEndNonSpace(s: string)
    requires |s| > 0 && !IsSpace(s[|s| - 1])
    ensures TrimEndSpace(s) == s
  {
  }

  /** A run of digits reads as a decimal literal. */
  lemma DigitsAreDecimal(s: string)
    requires DigitsOf(s, IsDigit)
    ensures IsUnsignedDecimal(s)
  {
    var e := IndexWhere(s, IsExponentMark);
    assert e == |s|;
    var d := IndexWhere(s, IsPoint);
    assert d == |s|;
    assert s[..e] == s;
    assert s[..d] == s;
  }

  /** The decimal text of every integer is numeric, so `Number` of it is not `NaN`. */
  lemma IntTextIsNumeric(n: int)
    ensures IsNumericText(IntText(n))
  {
    var s := IntText(n);
    var digits := NatText(if n < 0 then -n else n);
    assert IsDigit(s[|s| - 1]);
    assert !IsSpace(s[0]) by {
      if n < 0 { assert s[0] == '-'; } else { assert IsDigit(s[0]); }
    }
    TrimStartNonSpace(s);
    TrimEndNonSpace(s);
    DigitsAreDecimal(digits);
    if n < 0 {
      assert s[1..] == digits;
    }
  }

  /** Text that neither starts nor ends with white space is its own trim. */
  lemma TrimmedAlready(s: string)
    requires |s| > 0 && !IsSpace(s[0]) && !IsSpace(s[|s| - 1])
    ensures TrimSpace(s) == s
  {
    TrimStartNonSpace(s);
    TrimEndNonSpace(s);
  }

  /**
   * Text whose trimmed form starts with an ASCII letter is not numeric, unless it
   * is exactly `Infinity`: a search key such as a category name is searched for.
   */
  lemma LetterStartIsNotNumeric(s: string)
    requires var t := TrimSpace(s); |t| > 0 && (IsAsciiUpper(t[0]) || IsAsciiLower(t[0])) && t != "Infinity"
    ensures !IsNumericText(s)
  {
    var t := TrimSpace(s);
    var e := IndexWhere(t, IsExponentMark);
    if e > 0 {
      var m := t[..e];
      var d := IndexWhere(m, IsPoint);
      assert d > 0 && m[..d][0] == t[0];
    }
  }

  lemma MiceIsNotDecimal()
    ensures !IsUnsignedDecimal("mice")
  {
    assert IndexWhere("mice", IsExponentMark) == 3;
    assert "mice"[..3] == "mic";
    assert IndexWhere("mic", IsPoint) == 3;
    assert "mic"[..3] == "mic";
    assert !IsDigit("mic"[0]);
  }

  /** A plain word is not numeric. */
  lemma WordIsNotNumeric()
    ensures !IsNumericText("mice")
  {
    TrimmedAlready("mice");
    MiceIsNotDecimal();
  }

  /** Blank text, the empty text included, converts to 0, so it is numeric. */
  lemma {:induction false} BlankIsNumeric(s: string)
    requires forall i :: 0 <= i < |s| ==> IsSpace(s[i])
    ensures IsNumericText(s)
    decreases |s|
  {
    if |s| > 0 {
      BlankIsNumeric(s[1..]);
    }
  }

  /** A hexadecimal literal, `0x` or `0X` and a run of hexadecimal digits, is numeric. */
  lemma HexIsNumeric(x: char, d: string)
    requires x == 'x' || x == 'X'
    requires DigitsOf(d, IsHexDigit)
    ensures IsNumericText("0" + [x] + d)
  {
    var s := "0" + [x] + d;
    assert s[2..] == d;
    assert IsHexDigit(s[|s| - 1]);
    TrimmedAlready(s);
  }

  /** A run of digits, an exponent mark and a run of digits make a numeric literal. */
  lemma ExponentIsNumeric(a: string, e: char, b: string)
    requires DigitsOf(a, IsDigit) && IsExponentMark(e) && DigitsOf(b, IsDigit)
    ensures IsNumericText(a + [e] + b)
  {
    var s := a + [e] + b;
    assert s[|a|] == e && s[..|a|] == a && s[|a| + 1..] == b;
    assert IndexWhere(s, IsExponentMark) == |a|;
    assert IsMantissa(a) by {
      assert IndexWhere(a, IsPoint) == |a|;
      assert a[..|a|] == a;
    }
    assert IsDigit(s[|s| - 1]);
    TrimmedAlready(s);
  }
}
