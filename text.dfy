/**
 * The string operations of the JavaScript runtime that the category service
 * relies on: `Array.prototype.join`, `String.prototype.split` with a one-character
 * separator, the `\s` character class, ASCII case mapping, the decimal text of an
 * integer (`${n}`) and `parseInt(s, 10)` restricted to what an integer can show.
 */
module Text {
  import opened Wrappers

  /** `parts.join(sep)`. */
  function Join(parts: seq<string>, sep: string): string
  {
    if |parts| == 0 then ""
    else if |parts| == 1 then parts[0]
    else parts[0] + sep + Join(parts[1..], sep)
  }

  /** `s.split(sep)` for a one-character separator: the pieces between separators. */
  function Split(s: string, sep: char): (parts: seq<string>)
    ensures |parts| >= 1
    ensures forall i :: 0 <= i < |parts| ==> sep !in parts[i]
    decreases |s|
  {
    if |s| == 0 then [""]
    else
      var rest := Split(s[1..], sep);
      if s[0] == sep then [""] + rest
      else [[s[0]] + rest[0]] + rest[1..]
  }

  lemma JoinCons(x: string, rest: seq<string>, sep: string)
    requires |rest| >= 1
    ensures Join([x] + rest, sep) == x + sep + Join(rest, sep)
  {
    assert ([x] + rest)[1..] == rest;
  }

  /** Putting a character in front of the first piece puts it in front of the joined text. */
  lemma JoinExtendHead(c: char, parts: seq<string>, sep: string)
    requires |parts| >= 1
    ensures Join([[c] + parts[0]] + parts[1..], sep) == [c] + Join(parts, sep)
  {
    if |parts| > 1 {
      JoinCons([c] + parts[0], parts[1..], sep);
      JoinCons(parts[0], parts[1..], sep);
      assert parts == [parts[0]] + parts[1..];
    }
  }

  /** Splitting and joining again with the same separator gives the text back. */
  lemma {:induction false} JoinSplit(s: string, sep: char)
    ensures Join(Split(s, sep), [sep]) == s
    decreases |s|
  {
    if |s| > 0 {
      var rest := Split(s[1..], sep);
      JoinSplit(s[1..], sep);
      assert s == [s[0]] + s[1..];
      if s[0] == sep {
        JoinCons("", rest, [sep]);
      } else {
        JoinExtendHead(s[0], rest, [sep]);
      }
    }
  }

  /** Splitting the text made by joining separator-free pieces gives the pieces back. */
  lemma {:induction false} SplitJoin(parts: seq<string>, sep: char)
    requires |parts| >= 1
    requires forall i :: 0 <= i < |parts| ==> sep !in parts[i]
    ensures Split(Join(parts, [sep]), sep) == parts
    decreases |parts|, |parts[0]|
  {
    var p := parts[0];
    var t := Join(parts, [sep]);
    if |p| == 0 {
      if |parts| > 1 {
        SplitJoin(parts[1..], sep);
        JoinCons(p, parts[1..], [sep]);
        assert parts == [p] + parts[1..];
        assert t == [sep] + Join(parts[1..], [sep]);
        assert t[1..] == Join(parts[1..], [sep]);
      }
    } else {
      var shorter := [p[1..]] + parts[1..];
      assert p[0] != sep by { assert p[0] in p; }
      forall i | 0 <= i < |shorter| ensures sep !in shorter[i] {
        if i == 0 {
          assert forall c :: c in p[1..] ==> c in p;
        } else {
          assert shorter[i] == parts[i];
        }
      }
      SplitJoin(shorter, sep);
      JoinExtendHead(p[0], shorter, [sep]);
      assert p == [p[0]] + p[1..];
      assert [[p[0]] + shorter[0]] + shorter[1..] == parts;
      assert t == [p[0]] + Join(shorter, [sep]);
      assert t[1..] == Join(shorter, [sep]);
    }
  }

  /**
   * The characters of the regular-expression class `\s` (ECMA-262 WhiteSpace and
   * LineTerminator), which are also what `parseInt` skips at the start.
   */
  predicate IsSpace(c: char)
  {
    c == '\t' || c == '\n' || c == '\U{B}' || c == '\U{C}' || c == '\r' || c == ' '
    || c == '\U{A0}' || c == '\U{1680}' || ('\U{2000}' <= c <= '\U{200A}')
    || c == '\U{2028}' || c == '\U{2029}' || c == '\U{202F}' || c == '\U{205F}'
    || c == '\U{3000}' || c == '\U{FEFF}'
  }

  predicate IsAsciiUpper(c: char) { 'A' <= c <= 'Z' }

  predicate IsAsciiLower(c: char) { 'a' <= c <= 'z' }

  /** `toUpperCase` of one character, for the ASCII letters. */
  function ToUpper(c: char): (u: char)
    ensures !IsAsciiLower(u)
    ensures IsAsciiLower(c) || u == c
    ensures IsAsciiLower(c) ==> IsAsciiUpper(u) && u as int - 'A' as int == c as int - 'a' as int
  {
    if IsAsciiLower(c) then (c as int - 32) as char else c
  }

  /** `toLowerCase` of one character, for the ASCII letters. */
  function ToLower(c: char): (l: char)
    ensures !IsAsciiUpper(l)
    ensures IsAsciiUpper(c) || l == c
    ensures IsAsciiUpper(c) ==> IsAsciiLower(l) && l as int - 'a' as int == c as int - 'A' as int
  {
    if IsAsciiUpper(c) then (c as int + 32) as char else c
  }

  /** Each ASCII letter and its counterpart in the other case map to each other. */
  lemma CaseRoundTrip(c: char)
    ensures IsAsciiLower(c) ==> ToLower(ToUpper(c)) == c
    ensures IsAsciiUpper(c) ==> ToUpper(ToLower(c)) == c
  {
  }

  /** `toLowerCase` of a string. */
  function LowerAll(s: string): (r: string)
    ensures |r| == |s|
    ensures forall i :: 0 <= i < |s| ==> r[i] == ToLower(s[i])
  {
    seq(|s|, i requires 0 <= i < |s| => ToLower(s[i]))
  }

  predicate IsDigit(c: char) { '0' <= c <= '9' }

  function DigitChar(d: nat): (c: char)
    requires d < 10
    ensures IsDigit(c)
  {
    ('0' as int + d) as char
  }

  function DigitValue(c: char): (d: nat)
    requires IsDigit(c)
    ensures d < 10 && DigitChar(d) == c
  {
    c as int - '0' as int
  }

  /** The decimal digits of a natural number, most significant first, without leading zeros. */
  function NatText(n: nat): (s: string)
    ensures |s| >= 1
    ensures forall i :: 0 <= i < |s| ==> IsDigit(s[i])
    ensures (s[0] == '0') == (n == 0)
  {
    if n < 10 then [DigitChar(n)] else NatText(n / 10) + [DigitChar(n % 10)]
  }

  /** The text JavaScript gives an integer-valued number, as in the template `${n}`. */
  function IntText(n: int): (s: string)
    ensures |s| >= 1
  {
    if n < 0 then "-" + NatText(-n) else NatText(n)
  }

  /** The value of a non-empty run of decimal digits. */
  function DigitsValue(s: string): nat
    requires forall i :: 0 <= i < |s| ==> IsDigit(s[i])
  {
    if |s| == 0 then 0 else 10 * DigitsValue(s[..|s| - 1]) + DigitValue(s[|s| - 1])
  }

  /** The longest prefix of `s` made of decimal digits. */
  function LeadingDigits(s: string): (d: string)
    ensures |d| <= |s|
    ensures forall i :: 0 <= i < |d| ==> d[i] == s[i] && IsDigit(d[i])
    ensures |d| == |s| || !IsDigit(s[|d|])
  {
    if |s| == 0 || !IsDigit(s[0]) then "" else [s[0]] + LeadingDigits(s[1..])
  }

  /** `s` with its leading `\s` characters removed. */
  function TrimStartSpace(s: string): (t: string)
    ensures |t| <= |s|
    ensures |t| == 0 || !IsSpace(t[0])
  {
    if |s| > 0 && IsSpace(s[0]) then TrimStartSpace(s[1..]) else s
  }

  /** The value of the longest run of decimal digits that starts `s`; `None` when there is none. */
  function ReadDigits(s: string): Option<int>
  {
    var digits := LeadingDigits(s);
    if |digits| == 0 then None else Some(DigitsValue(digits))
  }

  function Negated(r: Option<int>): Option<int>
  {
    if r.Some? then Some(-r.value) else None
  }

  /**
   * `parseInt(s, 10)` as far as integers go: leading white space is skipped, one
   * optional sign is read, then the longest run of decimal digits; no digits gives
   * `NaN`, modelled as `None`.
   */
  function ParseInt(s: string): (r: Option<int>)
    ensures var t := TrimStartSpace(s);
            var signed := |t| > 0 && (t[0] == '-' || t[0] == '+');
            var u := if signed then t[1..] else t;
            && (r.Some? <==> |u| > 0 && IsDigit(u[0]))
            && (r.Some? && t[0] == '-' ==> r.value <= 0)
            && (r.Some? && t[0] != '-' ==> r.value >= 0)
  {
    var t := TrimStartSpace(s);
    if |t| > 0 && t[0] == '-' then Negated(ReadDigits(t[1..]))
    else if |t| > 0 && t[0] == '+' then ReadDigits(t[1..])
    else ReadDigits(t)
  }
}
