/** The filter token a committed price range becomes: the template string
    `${low}-${high}`, and a parser for it that undoes the encoding. */
module PriceToken {
  import opened Common
  import opened PriceSlider

  predicate IsDigit(c: char) {
    '0' <= c <= '9'
  }

  predicate AllDigits(s: string) {
    forall i :: 0 <= i < |s| ==> IsDigit(s[i])
  }

  function DigitChar(d: nat): (c: char)
    requires d < 10
    ensures IsDigit(c)
  {
    ('0' as int + d) as char
  }

  function DigitValue(c: char): (d: nat)
    requires IsDigit(c)
    ensures d < 10 && DigitChar(d) == c
  {
    c as int - '0' as int
  }

  /** The decimal numeral of a non-negative integer, without leading zeros,
      as JavaScript prints it. */
  function NatToDecimal(n: nat): (s: string)
    ensures |s| > 0 && AllDigits(s)
    ensures |s| > 1 ==> s[0] != '0'
    decreases n
  {
    if n < 10 then [DigitChar(n)]
    else
      var prefix := NatToDecimal(n / 10);
      prefix + [DigitChar(n % 10)]
  }

  /** JavaScript's `${n}` for an integer: a minus sign before a negative one. */
  function IntToDecimal(n: int): (s: string)
    ensures |s| > 0
    ensures s[0] == '-' <==> n < 0
    ensures n >= 0 ==> AllDigits(s)
  {
    if n < 0 then "-" + NatToDecimal(-n) else NatToDecimal(n)
  }

  /** The value of a digit string. */
  function DecimalValue(s: string): nat
    requires AllDigits(s)
  {
    if s == [] then 0
    else DecimalValue(s[..|s| - 1]) * 10 + DigitValue(s[|s| - 1])
  }

  lemma {:induction false} DecimalRoundTrip(n: nat)
    ensures DecimalValue(NatToDecimal(n)) == n
    decreases n
  {
    var s := NatToDecimal(n);
    if n >= 10 {
      assert s[..|s| - 1] == NatToDecimal(n / 10);
      DecimalRoundTrip(n / 10);
    }
  }

  /** The `priceRange` filter token of a committed value: `${low}-${high}`. */
  function Encode(r: Range): (token: string)
    ensures |token| == |IntToDecimal(r.low)| + 1 + |IntToDecimal(r.high)|
    ensures r.low >= 0 ==> FirstIndex(token, '-') == Some(|IntToDecimal(r.low)|)
  {
    var lo, hi := IntToDecimal(r.low), IntToDecimal(r.high);
    assert r.low >= 0 ==> FirstIndex(lo + "-" + hi, '-') == Some(|lo|) by {
      if r.low >= 0 {
        FirstIndexAfter(lo, '-', hi);
      }
    }
    lo + "-" + hi
  }

  /** Reads a token of two non-negative decimals around the first '-'. */
  function Parse(token: string): (r: Option<Range>)
    ensures r.Some? ==> r.value.low >= 0 && r.value.high >= 0
  {
    match FirstIndex(token, '-')
    case None => None
    case Some(i) =>
      var lo, hi := token[..i], token[i + 1..];
      if |lo| > 0 && |hi| > 0 && AllDigits(lo) && AllDigits(hi)
      then Some(Range(DecimalValue(lo), DecimalValue(hi)))
      else None
  }

  /** Every price range with non-negative ends is read back from its token. */
  lemma {:induction false} ParseEncode(r: Range)
    requires r.low >= 0 && r.high >= 0
    ensures Parse(Encode(r)) == Some(r)
  {
    var lo, hi := NatToDecimal(r.low), NatToDecimal(r.high);
    assert Encode(r) == lo + ['-'] + hi;
    FirstIndexAfter(lo, '-', hi);
    var token := Encode(r);
    assert token[..|lo|] == lo;
    assert token[|lo| + 1..] == hi;
    DecimalRoundTrip(r.low);
    DecimalRoundTrip(r.high);
  }

  /** Distinct price ranges (with non-negative ends) give distinct tokens. */
  lemma EncodeInjective(r: Range, r': Range)
    requires r.low >= 0 && r.high >= 0 && r'.low >= 0 && r'.high >= 0
    requires Encode(r) == Encode(r')
    ensures r == r'
  {
    ParseEncode(r);
    ParseEncode(r');
  }
}
