/**
 The string operations the game applies to item ids and headers: decimal
 rendering of indices (template literals such as `seed_${n}`), JavaScript's
 `parseInt`, `split('_')[1]`, `startsWith` and ASCII `toLowerCase`.
 */
module Text {
  import opened Common

  predicate IsDigit(c: char) {
    '0' <= c <= '9'
  }

  predicate AllDigits(s: string) {
    forall i :: 0 <= i < |s| ==> IsDigit(s[i])
  }

  function DigitValue(c: char): (d: nat)
    requires IsDigit(c)
    ensures d < 10
  {
    (c as int) - ('0' as int)
  }

  function DigitChar(d: nat): (c: char)
    requires d < 10
    ensures IsDigit(c) && DigitValue(c) == d
  {
    (('0' as int) + d) as char
  }

  /** `${n}` for a natural number n: its shortest decimal rendering. */
  function DecimalString(n: nat): (s: string)
    ensures 1 <= |s| && AllDigits(s)
    ensures n < 10 <==> |s| == 1
    decreases n
  {
    if n < 10 then [DigitChar(n)] else DecimalString(n / 10) + [DigitChar(n % 10)]
  }

  /** The number a string of decimal digits denotes. */
  function DigitsValue(s: string): nat
    requires AllDigits(s)
    decreases |s|
  {
    if |s| == 0 then 0 else DigitsValue(s[..|s| - 1]) * 10 + DigitValue(s[|s| - 1])
  }

  /** Reading back a rendered number gives the number: the rendering is injective. */
  lemma {:induction false} DecimalStringValue(n: nat)
    ensures DigitsValue(DecimalString(n)) == n
    decreases n
  {
    if n >= 10 {
      var s := DecimalString(n);
      assert s[..|s| - 1] == DecimalString(n / 10);
      DecimalStringValue(n / 10);
    }
  }

  lemma DecimalStringInjective(m: nat, n: nat)
    requires DecimalString(m) == DecimalString(n)
    ensures m == n
  {
    DecimalStringValue(m);
    DecimalStringValue(n);
  }

  /** The longest prefix of `s` made of decimal digits. */
  function LeadingDigits(s: string): (d: string)
    ensures |d| <= |s| && d == s[..|d|] && AllDigits(d)
    ensures |d| < |s| ==> !IsDigit(s[|d|])
  {
    if |s| == 0 || !IsDigit(s[0]) then "" else [s[0]] + LeadingDigits(s[1..])
  }

  /**
   `parseInt(s)` with the default radix: an optional sign followed by the
   longest run of decimal digits; None stands for NaN (no digit follows).
   */
  function ParseInt(s: string): (r: Option<int>)
    ensures var body := if 0 < |s| && (s[0] == '+' || s[0] == '-') then s[1..] else s;
            var digits := LeadingDigits(body);
            && (r.Some? <==> |digits| > 0)
            && (r.Some? ==> r.value == (if 0 < |s| && s[0] == '-' then -(DigitsValue(digits) as int) else DigitsValue(digits) as int))
  {
    var negative := 0 < |s| && s[0] == '-';
    var body := if 0 < |s| && (s[0] == '+' || s[0] == '-') then s[1..] else s;
    var digits := LeadingDigits(body);
    if |digits| == 0 then None
    else if negative then Some(-(DigitsValue(digits) as int))
    else Some(DigitsValue(digits))
  }

  lemma ParseIntDecimal(n: nat)
    ensures ParseInt(DecimalString(n)) == Some(n)
  {
    var s := DecimalString(n);
    assert LeadingDigits(s) == s by {
      LeadingDigitsOfDigits(s);
    }
    DecimalStringValue(n);
  }

  lemma {:induction false} LeadingDigitsOfDigits(s: string)
    requires AllDigits(s)
    ensures LeadingDigits(s) == s
    decreases |s|
  {
    if |s| > 0 {
      LeadingDigitsOfDigits(s[1..]);
    }
  }

  /** Index of the first occurrence of `c` in `s`. */
  function IndexOf(s: string, c: char): (r: Option<nat>)
    ensures r.Some? ==> r.value < |s| && s[r.value] == c
    ensures r.Some? ==> forall i :: 0 <= i < r.value ==> s[i] != c
    ensures r.None? ==> forall i :: 0 <= i < |s| ==> s[i] != c
  {
    if |s| == 0 then None
    else if s[0] == c then Some(0)
    else match IndexOf(s[1..], c)
      case None => None
      case Some(i) => Some(i + 1)
  }

  /** `s.split('_')[1]`: the text between the first and the second `_`; None (undefined) when there is no `_`. */
  function SecondField(s: string): Option<string> {
    match IndexOf(s, '_')
    case None => None
    case Some(i) =>
      var rest := s[i + 1..];
      match IndexOf(rest, '_')
      case None => Some(rest)
      case Some(j) => Some(rest[..j])
  }

  /** Splitting `head + "_" + tail` when neither part holds `_` returns the tail as second field. */
  lemma SecondFieldOfJoin(head: string, tail: string)
    requires forall i :: 0 <= i < |head| ==> head[i] != '_'
    requires forall i :: 0 <= i < |tail| ==> tail[i] != '_'
    ensures SecondField(head + "_" + tail) == Some(tail)
  {
    var s := head + "_" + tail;
    assert s[|head|] == '_';
    assert forall i :: 0 <= i < |head| ==> s[i] == head[i];
    assert IndexOf(s, '_') == Some(|head|);
    assert s[|head| + 1..] == tail;
  }

  predicate StartsWith(s: string, prefix: string) {
    |prefix| <= |s| && s[..|prefix|] == prefix
  }

  /** `toLowerCase` restricted to ASCII letters. */
  function LowerChar(c: char): char {
    if 'A' <= c <= 'Z' then ((c as int) + 32) as char else c
  }

  function ToLower(s: string): (r: string)
    ensures |r| == |s|
    ensures forall i :: 0 <= i < |s| ==> r[i] == LowerChar(s[i])
  {
    seq(|s|, i requires 0 <= i < |s| => LowerChar(s[i]))
  }

  /** Lower-casing is idempotent: a normalised string is its own normal form. */
  lemma ToLowerIdempotent(s: string)
    ensures ToLower(ToLower(s)) == ToLower(s)
  {
  }
}
