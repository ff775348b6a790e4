/**
 * JavaScript values as the widget sees them: an issue number that is absent,
 * a page attribute or an API number; their truthiness; and the text a
 * template literal `${v}` makes of them.
 */
module Values {
  import opened Wrappers

  /** An issue number as the script holds it: absent, a page attribute (a string) or an API number. */
  datatype Value = Undefined | Str(s: string) | Num(n: int)

  /** JavaScript truthiness of such a value. */
  predicate Truthy(v: Value)
  {
    match v
    case Undefined => false
    case Str(s) => s != ""
    case Num(n) => n != 0
  }

  /** An optional page attribute is truthy when it is present and not empty. */
  predicate Present(a: Option<string>)
  {
    a.Some? && a.value != ""
  }

  predicate IsDigit(c: char)
  {
    '0' <= c <= '9'
  }

  predicate AllDigits(s: string)
  {
    forall i :: 0 <= i < |s| ==> IsDigit(s[i])
  }

  /** Decimal digits of a natural number, most significant first, without leading zeros. */
  function Decimal(n: nat): (s: string)
    ensures |s| >= 1 && AllDigits(s)
    ensures s[0] == '0' ==> n == 0
  {
    var last := ['0' + (n % 10) as char];
    if n < 10 then last
    else
      var init := Decimal(n / 10);
      assert forall i :: 0 <= i < |init + last| ==>
        (init + last)[i] == if i < |init| then init[i] else last[i - |init|];
      init + last
  }

  /** The number a string of digits denotes. */
  function DigitsValue(s: string): nat
    requires AllDigits(s)
  {
    if s == [] then 0
    else DigitsValue(s[..|s| - 1]) * 10 + (s[|s| - 1] - '0') as nat
  }

  /** Reading back the decimal form of `n` gives `n`. */
  lemma {:induction false} DecimalRoundTrip(n: nat)
    ensures DigitsValue(Decimal(n)) == n
  {
    var s := Decimal(n);
    if n >= 10 {
      DecimalRoundTrip(n / 10);
      assert s[..|s| - 1] == Decimal(n / 10);
    }
  }

  /** The text `${v}` produces for a value: "undefined", the string itself, or the number in decimal. */
  function Text(v: Value): string
  {
    match v
    case Undefined => "undefined"
    case Str(s) => s
    case Num(n) => if n < 0 then "-" + Decimal(-n) else Decimal(n)
  }

  /** The number a URL segment denotes, when it is an optionally signed run of digits. */
  function ParseNumber(seg: string): Option<int>
  {
    if seg != [] && seg[0] == '-' then
      if |seg| > 1 && AllDigits(seg[1..]) then Some(0 - DigitsValue(seg[1..]) as int) else None
    else if seg != [] && AllDigits(seg) then Some(DigitsValue(seg))
    else None
  }

  /** A number's text parses back to that number. */
  lemma NumberTextRoundTrip(n: int)
    ensures ParseNumber(Text(Num(n))) == Some(n)
  {
    var t := Text(Num(n));
    if n < 0 {
      var d := Decimal(-n);
      DecimalRoundTrip(-n);
      assert t == "-" + d;
      assert t[0] == '-' && t[1..] == d;
    } else {
      DecimalRoundTrip(n);
      assert IsDigit(t[0]);
    }
  }
}
