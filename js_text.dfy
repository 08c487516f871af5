/**
 * How JavaScript turns the application's numbers into text, and the small
 * sequence and string helpers the rest of the model shares.
 */
module JsText {
  import opened Wrappers

  predicate IsDigit(c: char) {
    '0' <= c <= '9'
  }

  predicate AllDigits(s: string) {
    forall i :: 0 <= i < |s| ==> IsDigit(s[i])
  }

  function DigitValue(c: char): (d: nat)
    requires IsDigit(c)
    ensures d < 10
  {
    c as int - '0' as int
  }

  function DigitChar(d: nat): (c: char)
    requires d < 10
    ensures IsDigit(c) && DigitValue(c) == d
  {
    ('0' as int + d) as char
  }

  /** The number a string of decimal digits denotes. */
  function DigitsValue(s: string): nat
    requires AllDigits(s)
  {
    if s == [] then 0 else DigitsValue(s[..|s| - 1]) * 10 + DigitValue(s[|s| - 1])
  }

  /**
   * `String(n)` for a non-negative safe integer: its decimal numeral, with no
   * leading zero except for the numeral of 0 itself.
   */
  function NatToString(n: nat): (s: string)
    ensures |s| >= 1 && AllDigits(s)
    ensures s[0] == '0' <==> n == 0
    ensures n == 0 ==> s == "0"
    decreases n
  {
    if n < 10 then [DigitChar(n)] else NatToString(n / 10) + [DigitChar(n % 10)]
  }

  lemma {:induction false} NatToStringRoundTrip(n: nat)
    ensures DigitsValue(NatToString(n)) == n
    decreases n
  {
    if n >= 10 {
      NatToStringRoundTrip(n / 10);
      var s := NatToString(n);
      assert s[..|s| - 1] == NatToString(n / 10);
    }
  }

  /**
   * The text JavaScript prints for `parseFloat(x.toFixed(2))` when `x.toFixed(2)`
   * denotes h hundredths: trailing zeros of the fraction are dropped, and so is the
   * point when the fraction is zero ("4.88", "2.5", "2", "0").
   */
  function HundredthsText(h: nat): (s: string)
    ensures forall i :: 0 <= i < |s| ==> IsDigit(s[i]) || s[i] == '.'
    ensures '.' in s <==> h % 100 != 0
    ensures h % 100 != 0 ==> s[|s| - 1] != '0'
    ensures |s| >= 1 && (s[0] == '0' && |s| > 1 ==> s[1] == '.')
  {
    var whole := NatToString(h / 100);
    var cents := h % 100;
    if cents == 0 then whole
    else if cents % 10 == 0 then whole + "." + [DigitChar(cents / 10)]
    else whole + "." + [DigitChar(cents / 10), DigitChar(cents % 10)]
  }

  /** Two KB print as "2" and 2.5 KB as "2.5": no trailing zero and no trailing point. */
  lemma WholeAndHalfText()
    ensures HundredthsText(200) == "2"
    ensures HundredthsText(250) == "2.5"
  {
    assert NatToString(2) == "2";
    assert DigitChar(5) == '5';
  }

  /** 195.31 KB prints with both decimals. */
  lemma TwoDecimalsText()
    ensures HundredthsText(19531) == "195.31"
  {
    Numeral195();
    assert DigitChar(3) == '3' && DigitChar(1) == '1';
    assert HundredthsText(19531) == NatToString(195) + "." + [DigitChar(3), DigitChar(1)];
  }

  lemma Numeral195()
    ensures NatToString(195) == "195"
  {
    assert NatToString(1) == "1";
    assert NatToString(19) == "1" + [DigitChar(9)];
    assert NatToString(195) == NatToString(19) + [DigitChar(5)];
    assert DigitChar(9) == '9' && DigitChar(5) == '5';
  }

  /** Index of the first occurrence of c in s, or |s| when c does not occur. */
  function IndexOf<T(==)>(s: seq<T>, c: T): (i: nat)
    ensures i <= |s|
    ensures i < |s| ==> s[i] == c
    ensures forall k :: 0 <= k < i ==> s[k] != c
  {
    if s == [] then 0 else if s[0] == c then 0 else 1 + IndexOf(s[1..], c)
  }

  /** Reads a numeral of the form HundredthsText prints back as hundredths. */
  function ReadHundredths(s: string): Option<nat> {
    var point := IndexOf(s, '.');
    var whole := s[..point];
    if whole == [] || !AllDigits(whole) then None
    else if point == |s| then Some(DigitsValue(whole) * 100)
    else
      var fraction := s[point + 1..];
      if |fraction| == 1 && IsDigit(fraction[0]) then
        Some(DigitsValue(whole) * 100 + DigitValue(fraction[0]) * 10)
      else if |fraction| == 2 && AllDigits(fraction) then
        Some(DigitsValue(whole) * 100 + DigitValue(fraction[0]) * 10 + DigitValue(fraction[1]))
      else None
  }

  /** The printed amount of hundredths reads back as the same amount. */
  lemma HundredthsTextRoundTrip(h: nat)
    ensures ReadHundredths(HundredthsText(h)) == Some(h)
  {
    var whole := NatToString(h / 100);
    var cents := h % 100;
    NatToStringRoundTrip(h / 100);
    if cents == 0 {
      ReadWhole(whole);
    } else if cents % 10 == 0 {
      ReadOneDecimal(whole, cents / 10);
    } else {
      ReadTwoDecimals(whole, cents / 10, cents % 10);
    }
  }

  /** In digits followed by a point, the first point is right after the digits. */
  lemma PointAfterDigits(whole: string, tail: string)
    requires AllDigits(whole) && tail != [] && tail[0] == '.'
    ensures IndexOf(whole + tail, '.') == |whole|
    ensures (whole + tail)[..|whole|] == whole && (whole + tail)[|whole| + 1..] == tail[1..]
  {
    var s := whole + tail;
    assert forall k :: 0 <= k < |whole| ==> s[k] == whole[k] && s[k] != '.';
    assert s[|whole|] == '.';
  }

  lemma ReadWhole(whole: string)
    requires whole != [] && AllDigits(whole)
    ensures ReadHundredths(whole) == Some(DigitsValue(whole) * 100)
  {
    assert IndexOf(whole, '.') == |whole| by {
      assert forall k :: 0 <= k < |whole| ==> whole[k] != '.';
    }
    assert whole[..|whole|] == whole;
  }

  lemma ReadOneDecimal(whole: string, d: nat)
    requires whole != [] && AllDigits(whole) && d < 10
    ensures ReadHundredths(whole + "." + [DigitChar(d)]) == Some(DigitsValue(whole) * 100 + d * 10)
  {
    assert whole + "." + [DigitChar(d)] == whole + ("." + [DigitChar(d)]);
    PointAfterDigits(whole, "." + [DigitChar(d)]);
  }

  lemma ReadTwoDecimals(whole: string, d: nat, e: nat)
    requires whole != [] && AllDigits(whole) && d < 10 && e < 10
    ensures ReadHundredths(whole + "." + [DigitChar(d), DigitChar(e)]) == Some(DigitsValue(whole) * 100 + d * 10 + e)
  {
    assert whole + "." + [DigitChar(d), DigitChar(e)] == whole + ("." + [DigitChar(d), DigitChar(e)]);
    PointAfterDigits(whole, "." + [DigitChar(d), DigitChar(e)]);
  }

  predicate StartsWith(s: string, prefix: string) {
    |prefix| <= |s| && s[..|prefix|] == prefix
  }
}
