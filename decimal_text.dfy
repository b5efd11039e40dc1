/**
 * Reading back decimal text: `parseInt(s, 10)` of the text `${n}` of an integer
 * gives that integer, as the query parsing of the category service relies on.
 */
module DecimalText {
  import opened Wrappers
  import opened Text

  lemma {:induction false} DigitsValueOfNatText(n: nat)
    ensures DigitsValue(NatText(n)) == n
  {
    var s := NatText(n);
    if n >= 10 {
      DigitsValueOfNatText(n / 10);
      assert s[..|s| - 1] == NatText(n / 10);
    }
  }

  lemma LeadingDigitsOfDigits(s: string)
    requires forall i :: 0 <= i < |s| ==> IsDigit(s[i])
    ensures LeadingDigits(s) == s
  {
  }

  lemma TrimStartNonSpace(s: string)
    requires |s| > 0 && !IsSpace(s[0])
    ensures TrimStartSpace(s) == s
  {
  }

  /** The digits of a run of digits are all of it. */
  lemma ReadAllDigits(digits: string)
    requires |digits| >= 1 && forall i :: 0 <= i < |digits| ==> IsDigit(digits[i])
    ensures ReadDigits(digits) == Some(DigitsValue(digits) as int)
  {
    LeadingDigitsOfDigits(digits);
  }

  /** Without a leading sign `parseInt` reads the digits the text starts with. */
  lemma ParseIntUnsigned(s: string)
    requires |s| > 0 && IsDigit(s[0])
    ensures ParseInt(s) == ReadDigits(s)
  {
    TrimStartNonSpace(s);
  }

  /** After a leading minus sign `parseInt` reads digits and negates them. */
  lemma ParseIntMinus(rest: string)
    ensures ParseInt("-" + rest) == Negated(ReadDigits(rest))
  {
    var s := "-" + rest;
    assert s[0] == '-' && s[1..] == rest;
    TrimStartNonSpace(s);
  }

  /** Reading back the decimal text of any integer gives that integer. */
  lemma ParseIntText(n: int)
    ensures ParseInt(IntText(n)) == Some(n)
  {
    var digits := NatText(if n < 0 then -n else n);
    DigitsValueOfNatText(if n < 0 then -n else n);
    ReadAllDigits(digits);
    if n < 0 {
      ParseIntMinus(digits);
      assert IntText(n) == "-" + digits;
    } else {
      ParseIntUnsigned(digits);
      assert IntText(n) == digits;
    }
  }
}
