// Decimal rendering and parsing of integers: Python's `str(n)` and `int(s)`.
module Text {
  import opened Outcomes

  predicate IsDigit(c: char) { '0' <= c <= '9' }

  function DigitChar(d: nat): (c: char)
    requires d < 10
    ensures IsDigit(c)
  {
    ['0', '1', '2', '3', '4', '5', '6', '7', '8', '9'][d]
  }

  function DigitValue(c: char): (d: nat)
    requires IsDigit(c)
    ensures d < 10
  {
    (c as int - '0' as int) as nat
  }

  lemma DigitRoundTrip(d: nat)
    requires d < 10
    ensures DigitValue(DigitChar(d)) == d
  {
  }

  /** `str(n)` for a natural number: its decimal digits, without leading zeros. */
  function NatStr(n: nat): (s: string)
    ensures |s| > 0
    ensures forall i :: 0 <= i < |s| ==> IsDigit(s[i])
    decreases n
  {
    if n < 10 then [DigitChar(n)] else NatStr(n / 10) + [DigitChar(n % 10)]
  }

  /** `str(i)`: a minus sign before the digits of a negative number. */
  function IntStr(i: int): (s: string)
    ensures |s| > 0
  {
    if i < 0 then "-" + NatStr(-i) else NatStr(i)
  }

  predicate AllDigits(s: string) { forall i :: 0 <= i < |s| ==> IsDigit(s[i]) }

  /** The value of a string of decimal digits. */
  function DigitsValue(s: string): nat
    requires AllDigits(s)
    decreases |s|
  {
    if |s| == 0 then 0 else DigitsValue(s[..|s| - 1]) * 10 + DigitValue(s[|s| - 1])
  }

  /** `int(s)` on an optional sign followed by decimal digits; anything else raises `ValueError`. */
  function ParseInt(s: string): (r: Result<int>)
    ensures r.Ok? ==> |s| > 0
  {
    if |s| > 0 && (s[0] == '-' || s[0] == '+') then
      var body := s[1..];
      if |body| > 0 && AllDigits(body) then
        var v: int := DigitsValue(body);
        Ok(if s[0] == '-' then -v else v)
      else Err(ValueError)
    else if |s| > 0 && AllDigits(s) then Ok(DigitsValue(s))
    else Err(ValueError)
  }

  lemma {:induction false} NatStrValue(n: nat)
    ensures DigitsValue(NatStr(n)) == n
    decreases n
  {
    var s := NatStr(n);
    if n < 10 {
      DigitRoundTrip(n);
      assert s[..|s| - 1] == [];
    } else {
      NatStrValue(n / 10);
      assert s[..|s| - 1] == NatStr(n / 10);
      DigitRoundTrip(n % 10);
    }
  }

  lemma ParseNatStr(n: nat)
    ensures ParseInt(NatStr(n)) == Ok(n)
  {
    var s := NatStr(n);
    assert IsDigit(s[0]) && AllDigits(s);
    NatStrValue(n);
  }

  lemma ParseNegStr(n: nat)
    ensures ParseInt("-" + NatStr(n)) == Ok(-(n as int))
  {
    var body := NatStr(n);
    var s := "-" + body;
    assert s[0] == '-' && s[1..] == body;
    assert AllDigits(body);
    NatStrValue(n);
  }

  /** `int(str(i)) == i`. */
  lemma ParseIntStr(i: int)
    ensures ParseInt(IntStr(i)) == Ok(i)
  {
    if i < 0 {
      ParseNegStr(-i);
      assert IntStr(i) == "-" + NatStr(-i);
    } else {
      ParseNatStr(i);
      assert IntStr(i) == NatStr(i);
    }
  }

  /** Rendered integers contain neither separators of the rate syntax. */
  lemma IntStrNoSeparators(i: int, c: char)
    requires c == ',' || c == ':' || c == ';' || c == '.'
    ensures forall k :: 0 <= k < |IntStr(i)| ==> IntStr(i)[k] != c
  {
    if i < 0 {
      var s := IntStr(i);
      forall k | 0 <= k < |s| ensures s[k] != c {
        if k > 0 { assert s[k] == NatStr(-i)[k - 1]; }
      }
    }
  }
}
