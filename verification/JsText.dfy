/** The JavaScript string and number operations the cron preview uses. */
module JsText {
  import opened Decimal

  /** A Number that is NaN or an integer. */
  datatype Num = NaN | Int(value: int)

  predicate IsSpace(c: char) {
    c == ' ' || c == '\t' || c == '\n' || c == '\r'
  }

  function TrimLeft(s: string): (t: string)
    ensures |t| <= |s|
    ensures forall c :: c in t ==> c in s
    ensures t != [] ==> !IsSpace(t[0])
  {
    if s != [] && IsSpace(s[0]) then TrimLeft(s[1..]) else s
  }

  function TrimRight(s: string): (t: string)
    ensures |t| <= |s|
    ensures forall c :: c in t ==> c in s
  {
    if s != [] && IsSpace(s[|s| - 1]) then TrimRight(s[..|s| - 1]) else s
  }

  function Trim(s: string): (t: string)
    ensures |t| <= |s|
    ensures forall c :: c in t ==> c in s
  {
    TrimRight(TrimLeft(s))
  }

  lemma TrimNothing(s: string)
    requires forall c :: c in s ==> !IsSpace(c)
    ensures Trim(s) == s
  {
  }

  function IndexOf(s: string, c: char): (k: nat)
    requires c in s
    ensures k < |s| && s[k] == c && c !in s[..k]
  {
    if s[0] == c then 0 else 1 + IndexOf(s[1..], c)
  }

  lemma {:induction false} IndexOfIs(s: string, c: char, k: nat)
    requires k < |s| && s[k] == c && c !in s[..k]
    ensures c in s && IndexOf(s, c) == k
  {
    if k > 0 {
      assert s[0] in s[..k];
      assert s[1..][..k - 1] == s[..k][1..];
      IndexOfIs(s[1..], c, k - 1);
    }
  }

  /** s.split(c): at least one piece, none of which holds the separator. */
  function Split(s: string, c: char): (pieces: seq<string>)
    ensures |pieces| >= 1
    ensures forall i :: 0 <= i < |pieces| ==> c !in pieces[i]
    ensures c in s ==> |pieces| >= 2 && forall i :: 0 <= i < |pieces| ==> |pieces[i]| < |s|
    ensures c !in s ==> pieces == [s]
    decreases |s|
  {
    if c !in s then [s]
    else
      var k := IndexOf(s, c);
      [s[..k]] + Split(s[k + 1..], c)
  }

  function Join(pieces: seq<string>, c: char): string
    requires pieces != []
  {
    if |pieces| == 1 then pieces[0] else pieces[0] + [c] + Join(pieces[1..], c)
  }

  lemma SplitHead(head: string, rest: string, c: char)
    requires c !in head
    ensures Split(head + [c] + rest, c) == [head] + Split(rest, c)
  {
    var s := head + [c] + rest;
    var k := |head|;
    assert s[k] == c && s[..k] == head && s[k + 1..] == rest;
    IndexOfIs(s, c, k);
  }

  lemma {:induction false} SplitJoin(pieces: seq<string>, c: char)
    requires pieces != [] && forall i :: 0 <= i < |pieces| ==> c !in pieces[i]
    ensures Split(Join(pieces, c), c) == pieces
    decreases |pieces|
  {
    if |pieces| > 1 {
      var tail := pieces[1..];
      SplitJoin(tail, c);
      SplitHead(pieces[0], Join(tail, c), c);
      assert [pieces[0]] + tail == pieces;
    }
  }

  /** The digits a string starts with. */
  function DigitPrefix(s: string): (p: string)
    ensures AllDigits(p) && p <= s
  {
    if s == [] || !IsDigit(s[0]) then [] else [s[0]] + DigitPrefix(s[1..])
  }

  lemma {:induction false} PrefixOfNumeral(digits: string, rest: string)
    requires AllDigits(digits) && (rest == [] || !IsDigit(rest[0]))
    ensures DigitPrefix(digits + rest) == digits
  {
    if digits == [] {
      assert digits + rest == rest;
    } else {
      PrefixOfNumeral(digits[1..], rest);
      assert (digits + rest)[1..] == digits[1..] + rest;
    }
  }

  /** parseInt for decimal strings. */
  function ParseInt(s: string): Num {
    var t := TrimLeft(s);
    var negative := t != [] && t[0] == '-';
    var body := if t != [] && (t[0] == '-' || t[0] == '+') then t[1..] else t;
    var p := DigitPrefix(body);
    var magnitude: int := Parse(p);
    if p == [] then NaN else Int(if negative then -magnitude else magnitude)
  }

  /** Number(s) for strings of digits; the empty string is 0. */
  function ToNumber(s: string): Num {
    var t := Trim(s);
    if t == [] then Int(0) else if AllDigits(t) then Int(Parse(t)) else NaN
  }

  lemma NumeralChars(s: string)
    requires AllDigits(s)
    ensures forall c :: c in s ==> IsDigit(c) && !IsSpace(c)
    ensures forall c :: !IsDigit(c) ==> c !in s
  {
  }

  lemma ParseIntOfNumeral(n: nat, rest: string)
    requires rest == [] || !IsDigit(rest[0])
    ensures ParseInt(Digits(n) + rest) == Int(n)
  {
    ParseDigits(n);
    PrefixOfNumeral(Digits(n), rest);
    var s := Digits(n) + rest;
    assert IsDigit(s[0]);
    assert TrimLeft(s) == s;
  }

  lemma ToNumberOfNumeral(n: nat)
    ensures ToNumber(Digits(n)) == Int(n)
  {
    ParseDigits(n);
    NumeralChars(Digits(n));
    TrimNothing(Digits(n));
  }

  /** `value % step === 0`; false for NaN and for a zero step. */
  predicate Divides(step: Num, value: int) {
    step.Int? && step.value != 0 && value % step.value == 0
  }
}
