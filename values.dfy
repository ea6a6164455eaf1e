/** The JavaScript values a form field can hold, and the parts of JavaScript's
    string conversion, truthiness and `trim` that the employee form depends on. */
module Values {

  datatype Option<+T> = None | Some(value: T)

  /** A field value as the form and the server's JSON produce it: text, an
      integral number, or null. */
  datatype Value = Str(s: string) | Num(n: int) | Null

  /** The characters that `String.prototype.trim` removes: ECMAScript's
      WhiteSpace (tab, vertical tab, form feed, the byte-order mark and every
      space separator) and LineTerminator code points. */
  predicate IsJsSpace(c: char)
  {
    c == '\t' || c == '\n' || c == '\U{B}' || c == '\U{C}' || c == '\r' ||
    c == ' ' || c == '\U{A0}' || c == '\U{1680}' ||
    ('\U{2000}' <= c <= '\U{200A}') ||
    c == '\U{2028}' || c == '\U{2029}' || c == '\U{202F}' || c == '\U{205F}' ||
    c == '\U{3000}' || c == '\U{FEFF}'
  }

  predicate AllSpace(s: string)
  {
    forall i :: 0 <= i < |s| ==> IsJsSpace(s[i])
  }

  predicate IsDigit(c: char)
  {
    '0' <= c <= '9'
  }

  function DigitChar(d: nat): (c: char)
    requires d < 10
    ensures IsDigit(c)
  {
    ('0' as int + d) as char
  }

  function DigitValue(c: char): nat
    requires IsDigit(c)
  {
    c as int - '0' as int
  }

  /** The decimal numeral of a non-negative integer, as JavaScript's
      Number-to-String conversion writes it. */
  function NatToString(n: nat): string
    decreases n
  {
    if n < 10 then [DigitChar(n)] else NatToString(n / 10) + [DigitChar(n % 10)]
  }

  predicate AllDigits(s: string)
  {
    forall i :: 0 <= i < |s| ==> IsDigit(s[i])
  }

  /** A numeral as JavaScript writes it has no leading zero: `0` itself is
      the only numeral that starts with one. */
  predicate NoLeadingZero(s: string)
  {
    |s| <= 1 || s[0] != '0'
  }

  /** Reads back a string of decimal digits. */
  function ParseDigits(s: string): nat
    requires AllDigits(s)
  {
    if s == [] then 0 else 10 * ParseDigits(s[..|s| - 1]) + DigitValue(s[|s| - 1])
  }

  /** The numeral of every natural number is a non-empty string of digits,
      with no leading zero, that reads back as that number. */
  lemma {:induction false} NatToStringRoundTrip(n: nat)
    ensures |NatToString(n)| > 0
    ensures AllDigits(NatToString(n))
    ensures NoLeadingZero(NatToString(n))
    ensures ParseDigits(NatToString(n)) == n
    decreases n
  {
    var s := NatToString(n);
    if n >= 10 {
      NatToStringRoundTrip(n / 10);
      assert s[..|s| - 1] == NatToString(n / 10);
      assert s[0] == NatToString(n / 10)[0];
    }
  }

  function IntToString(i: int): string
  {
    if i < 0 then "-" + NatToString(-i) else NatToString(i)
  }

  /** `r` is how JavaScript writes the integer `n`: a minus sign exactly when
      `n` is negative, then a non-empty run of digits, with no leading zero,
      that reads back as the magnitude of `n`. */
  predicate IsNumeral(r: string, n: int)
  {
    |r| > 0 && (r[0] == '-' <==> n < 0) &&
    var digits := if n < 0 then r[1..] else r;
    |digits| > 0 && AllDigits(digits) && NoLeadingZero(digits) &&
    ParseDigits(digits) == (if n < 0 then -n else n)
  }

  /** `String(v)`, which both `v.toString()` and a template literal `${v}` use:
      a number becomes its decimal numeral. */
  function Text(v: Value): (r: string)
    ensures v.Num? ==> IsNumeral(r, v.n)
  {
    match v
    case Str(s) => s
    case Num(n) =>
      var m: nat := if n < 0 then -n else n;
      NatToStringRoundTrip(m);
      assert n < 0 ==> IntToString(n)[1..] == NatToString(m);
      IntToString(n)
    case Null => "null"
  }

  /** `!v` in JavaScript: the empty string, the number 0 and null are falsy. */
  predicate Falsy(v: Value)
    ensures Falsy(v) <==> v == Str("") || v == Num(0) || v == Null
  {
    match v
    case Str(s) => s == ""
    case Num(n) => n == 0
    case Null => true
  }

  function TrimStart(s: string): (r: string)
    ensures |r| <= |s|
  {
    if s != [] && IsJsSpace(s[0]) then TrimStart(s[1..]) else s
  }

  function TrimEnd(s: string): (r: string)
    ensures |r| <= |s|
  {
    if s != [] && IsJsSpace(s[|s| - 1]) then TrimEnd(s[..|s| - 1]) else s
  }

  /** TrimStart removes exactly the leading run of white space. */
  lemma {:induction false} TrimStartRemovesLeadingSpace(s: string)
    ensures var r := TrimStart(s);
      |r| <= |s| && r == s[|s| - |r|..] &&
      AllSpace(s[..|s| - |r|]) &&
      (r != [] ==> !IsJsSpace(r[0]))
  {
    if s != [] && IsJsSpace(s[0]) {
      TrimStartRemovesLeadingSpace(s[1..]);
      var r := TrimStart(s);
      assert s[..|s| - |r|] == [s[0]] + s[1..][..|s| - 1 - |r|];
    }
  }

  /** TrimEnd removes exactly the trailing run of white space. */
  lemma {:induction false} TrimEndRemovesTrailingSpace(s: string)
    ensures var r := TrimEnd(s);
      |r| <= |s| && r == s[..|r|] &&
      AllSpace(s[|r|..]) &&
      (r != [] ==> !IsJsSpace(r[|r| - 1]))
  {
    if s != [] && IsJsSpace(s[|s| - 1]) {
      var t := s[..|s| - 1];
      TrimEndRemovesTrailingSpace(t);
      var r := TrimEnd(s);
      assert s[|r|..] == t[|r|..] + [s[|s| - 1]];
    }
  }

  /** `s.trim()`: what is left of `s` once its leading and trailing runs of
      white space are cut off. It is empty exactly when `s` is all white space,
      and otherwise begins and ends with a character that is not. */
  function Trim(s: string): (r: string)
    ensures var k := |s| - |TrimStart(s)|;
      k + |r| <= |s| && r == s[k..k + |r|] &&
      AllSpace(s[..k]) && AllSpace(s[k + |r|..])
    ensures r == "" <==> AllSpace(s)
    ensures r != "" ==> !IsJsSpace(r[0]) && !IsJsSpace(r[|r| - 1])
  {
    var t := TrimStart(s);
    TrimStartRemovesLeadingSpace(s);
    TrimEndRemovesTrailingSpace(t);
    var r := TrimEnd(t);
    var k := |s| - |t|;
    assert s[k + |r|..] == t[|r|..];
    assert t != "" ==> !IsJsSpace(s[k]);
    r
  }

  /** The test `!v || v.toString().trim() === ''` that rejects a form field:
      it holds exactly for null, the number 0, and a string made only of white
      space (the empty string included). */
  predicate Blank(v: Value)
    ensures Blank(v) <==>
      v.Null? || (v.Num? && v.n == 0) || (v.Str? && AllSpace(v.s))
  {
    Falsy(v) || Trim(Text(v)) == ""
  }
}
