/** Decimal numerals, and the monitoring store's itoa. */
module Decimal {

  /** Go's int on a 64-bit platform. */
  type int64 = x: int | -0x8000_0000_0000_0000 <= x < 0x8000_0000_0000_0000

  type digit = d: nat | d < 10

  function DigitChar(d: digit): char {
    '0' + d as char
  }

  predicate IsDigit(c: char) {
    '0' <= c <= '9'
  }

  function DigitValue(c: char): digit
    requires IsDigit(c)
  {
    (c - '0') as int
  }

  predicate AllDigits(s: string) {
    forall i :: 0 <= i < |s| ==> IsDigit(s[i])
  }

  /** The usual decimal numeral. */
  function Digits(n: nat): (s: string)
    ensures |s| > 0 && AllDigits(s)
  {
    if n < 10 then [DigitChar(n)] else Digits(n / 10) + [DigitChar(n % 10)]
  }

  /** The number a string of digits denotes. */
  function Parse(s: string): nat
    requires AllDigits(s)
  {
    if s == [] then 0 else Parse(s[..|s| - 1]) * 10 + DigitValue(s[|s| - 1])
  }

  /** A numeral as people write it: no leading zero, except for zero itself. */
  predicate Canonical(s: string) {
    s != [] && AllDigits(s) && (s[0] == '0' ==> |s| == 1)
  }

  lemma DigitRoundTrip(d: digit)
    ensures IsDigit(DigitChar(d)) && DigitValue(DigitChar(d)) == d
    ensures DigitChar(d) == '0' <==> d == 0
  {
  }

  lemma {:induction false} ParseDigits(n: nat)
    ensures Parse(Digits(n)) == n
  {
    DigitRoundTrip(n % 10);
    if n < 10 {
      assert Digits(n)[..0] == [];
    } else {
      ParseDigits(n / 10);
      assert Digits(n)[..|Digits(n)| - 1] == Digits(n / 10);
    }
  }

  lemma {:induction false} DigitsCanonical(n: nat)
    ensures Canonical(Digits(n))
    ensures Digits(n)[0] == '0' ==> n == 0
  {
    DigitRoundTrip(n % 10);
    if n >= 10 {
      DigitsCanonical(n / 10);
    }
  }

  /** Printing is a bijection between the numbers and the canonical numerals. */
  lemma {:induction false} DigitsOfParse(s: string)
    requires Canonical(s)
    ensures Digits(Parse(s)) == s
  {
    var last := |s| - 1;
    var init := s[..last];
    CharRoundTrip(s[last]);
    assert s == init + [s[last]];
    if init != [] {
      assert init[0] == s[0];
      DigitsOfParse(init);
      Positive(init);
      AppendDigit(Parse(init), DigitValue(s[last]));
    }
  }

  lemma CharRoundTrip(c: char)
    requires IsDigit(c)
    ensures DigitChar(DigitValue(c)) == c
  {
  }

  /** Writing a digit after a positive number's numeral is multiplying by ten and adding it. */
  lemma AppendDigit(n: nat, d: digit)
    requires n > 0
    ensures Digits(n * 10 + d) == Digits(n) + [DigitChar(d)]
  {
    assert (n * 10 + d) / 10 == n && (n * 10 + d) % 10 == d;
  }

  lemma {:induction false} Positive(s: string)
    requires s != [] && AllDigits(s) && s[0] != '0'
    ensures Parse(s) > 0
  {
    if |s| == 1 {
      assert s[..0] == [];
      assert DigitChar(DigitValue(s[0])) == s[0];
      DigitRoundTrip(DigitValue(s[0]));
    } else {
      Positive(s[..|s| - 1]);
    }
  }

  lemma DigitsInjective(m: nat, n: nat)
    requires Digits(m) == Digits(n)
    ensures m == n
  {
    ParseDigits(m);
    ParseDigits(n);
  }

  function Pow10(k: nat): (p: nat)
    ensures p > 0
  {
    if k == 0 then 1 else 10 * Pow10(k - 1)
  }

  lemma {:induction false} Pow10Add(a: nat, b: nat)
    ensures Pow10(a + b) == Pow10(a) * Pow10(b)
  {
    if a > 0 {
      Pow10Add(a - 1, b);
    }
  }

  lemma Int64Fits()
    ensures Pow10(19) > 0x7fff_ffff_ffff_ffff
  {
    assert Pow10(4) == 10000;
    Pow10Add(4, 4);
    Pow10Add(8, 8);
    assert Pow10(3) == 1000;
    Pow10Add(16, 3);
  }

  /** Moving the last digit of a positive number in front of those already written. */
  lemma PeelDigit(n: nat, done: string, k: nat)
    requires 0 < n < Pow10(k)
    ensures k > 0 && n / 10 < Pow10(k - 1)
    ensures Digits(n) + done == (if n / 10 > 0 then Digits(n / 10) else "") + ([DigitChar(n % 10)] + done)
  {
    if n >= 10 {
      assert Digits(n) == Digits(n / 10) + [DigitChar(n % 10)];
    }
  }

  /**
   itoa fills a 20-byte buffer from the end; no int makes it run out. A
   negative argument skips the loop and gives the empty string.
   */
  method Itoa(i: int64) returns (s: string)
    ensures i >= 0 ==> s == Digits(i)
    ensures i < 0 ==> s == ""
    ensures |s| <= 19
  {
    if i == 0 {
      return "0";
    }
    var buf := new char[20];
    var pos := 20;
    var n := i;
    Int64Fits();
    while n > 0
      invariant 1 <= pos <= 20
      invariant n < Pow10(pos - 1)
      invariant i < 0 ==> n == i && pos == 20
      invariant i >= 0 ==> n >= 0 && (if n > 0 then Digits(n) + buf[pos..] == Digits(i) else buf[pos..] == Digits(i))
    {
      ghost var done := buf[pos..];
      PeelDigit(n, done, pos - 1);
      pos := pos - 1;
      buf[pos] := DigitChar(n % 10);
      assert buf[pos..] == [DigitChar(n % 10)] + done;
      n := n / 10;
    }
    s := buf[pos..];
  }
}
