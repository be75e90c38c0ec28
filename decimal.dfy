/** Decimal text: the parts of Go's `fmt.Sprintf("%0<w>d", v)` and `strconv.Atoi`
    that the directive engine relies on, with the one being the inverse of the other. */
module Decimal {
  import opened Outcomes

  predicate IsDigit(c: char) { '0' <= c <= '9' }

  predicate AllDigits(s: string) { forall k :: 0 <= k < |s| ==> IsDigit(s[k]) }

  function DigitChar(d: nat): (c: char)
    requires d < 10
    ensures IsDigit(c) && c as int - '0' as int == d
  {
    ('0' as int + d) as char
  }

  function DigitValue(c: char): nat
    requires IsDigit(c)
  {
    c as int - '0' as int
  }

  /** The number a digit string denotes, most significant digit first; "" denotes 0. */
  function DigitsValue(s: string): nat
    requires AllDigits(s)
  {
    if s == [] then 0 else 10 * DigitsValue(s[..|s| - 1]) + DigitValue(s[|s| - 1])
  }

  /** The shortest decimal text of n: no leading zero except for "0" itself. */
  function Digits(n: nat): (r: string)
    ensures |r| >= 1 && AllDigits(r)
    ensures DigitsValue(r) == n
    ensures r[0] == '0' ==> r == "0"
    decreases n
  {
    if n < 10 then [DigitChar(n)]
    else
      var init := Digits(n / 10);
      var r := init + [DigitChar(n % 10)];
      assert r[..|r| - 1] == init;
      r
  }

  function Zeros(k: nat): (r: string)
    ensures |r| == k && forall i :: 0 <= i < k ==> r[i] == '0'
  {
    seq(k, _ => '0')
  }

  /** Go's `fmt.Sprintf("%0<width>d", v)`, and `fmt.Sprintf("%d", v)` for width 0:
      an optional '-', then zeros, then the digits of |v|; the sign counts towards
      the width and the zeros go after it. */
  function ZeroPad(v: int, width: nat): (r: string)
    ensures |r| >= width
    ensures |r| >= 1
    ensures v >= 0 ==> AllDigits(r) && DigitsValue(r) == v
    ensures v >= 0 && |r| > width ==> (r[0] == '0' ==> r == "0")
    ensures v < 0 ==> |r| >= 2 && r[0] == '-' && AllDigits(r[1..]) && DigitsValue(r[1..]) == -v
    ensures v < 0 && |r| > width ==> r[1] != '0'
  {
    var digits := Digits(if v < 0 then -v else v);
    var sign := if v < 0 then 1 else 0;
    var fill := width - sign - |digits|;
    var zeros := Zeros(if fill > 0 then fill else 0);
    LeadingZeros(zeros, digits);
    var body := zeros + digits;
    assert fill <= 0 ==> body == digits;
    if v < 0 then
      var r := "-" + body;
      assert r[1..] == body;
      r
    else body
  }

  /** Leading zeros do not change the value of a digit string. */
  lemma {:induction false} LeadingZeros(zeros: string, s: string)
    requires AllDigits(s)
    requires forall i :: 0 <= i < |zeros| ==> zeros[i] == '0'
    ensures AllDigits(zeros + s) && DigitsValue(zeros + s) == DigitsValue(s)
    decreases |s|, |zeros|
  {
    var z := zeros + s;
    if s == [] {
      assert z == zeros;
      if zeros != [] {
        LeadingZeros(zeros[..|zeros| - 1], []);
        assert z[..|z| - 1] == zeros[..|zeros| - 1] + [];
      }
    } else {
      LeadingZeros(zeros, s[..|s| - 1]);
      assert z[..|z| - 1] == zeros + s[..|s| - 1];
    }
  }

  /** Go's `strconv.Atoi`: an optional sign and at least one digit; anything else is a
      syntax error, and then the value returned is 0. */
  function Atoi(s: string): (r: (int, Option<Error>))
  {
    if |s| == 0 then (0, Some(AtoiSyntax(s)))
    else
      var body := if s[0] == '-' || s[0] == '+' then s[1..] else s;
      if |body| == 0 || !AllDigits(body) then (0, Some(AtoiSyntax(s)))
      else (if s[0] == '-' then -(DigitsValue(body) as int) else DigitsValue(body), None)
  }

  /** Atoi accepts exactly the optionally signed non-empty digit strings, and it gives 0
      whenever it fails. */
  lemma AtoiAccepts(s: string)
    ensures Atoi(s).1.None? <==>
      (|s| > 0 && AllDigits(s)) ||
      (|s| > 1 && (s[0] == '-' || s[0] == '+') && AllDigits(s[1..]))
    ensures Atoi(s).1.Some? ==> Atoi(s) == (0, Some(AtoiSyntax(s)))
    ensures |s| > 0 && AllDigits(s) ==> Atoi(s).0 == DigitsValue(s)
  {
  }

  /** The length of "%0<width>d": the width, or the sign and the digits when they are
      longer. */
  lemma ZeroPadLength(v: int, width: nat)
    ensures var len := |Digits(if v < 0 then -v else v)| + (if v < 0 then 1 else 0);
      |ZeroPad(v, width)| == if width > len then width else len
  {
    var digits := Digits(if v < 0 then -v else v);
    var sign := if v < 0 then 1 else 0;
    var fill := width - sign - |digits|;
    assert |ZeroPad(v, width)| == sign + (if fill > 0 then fill else 0) + |digits|;
  }

  /** Atoi reads a digit string as its value, and a '-' before one as its negation. */
  lemma AtoiDigits(r: string)
    requires |r| > 0 && AllDigits(r)
    ensures Atoi(r) == (DigitsValue(r), None)
    ensures Atoi("-" + r) == (-(DigitsValue(r) as int), None)
  {
    var m := "-" + r;
    assert !(r[0] == '-' || r[0] == '+');
    assert m[0] == '-' && m[1..] == r;
  }

  /** Parsing what the formatter printed gives back the number, whatever the width. */
  lemma AtoiZeroPad(v: int, width: nat)
    ensures Atoi(ZeroPad(v, width)) == (v, None)
  {
    var r := ZeroPad(v, width);
    if v < 0 {
      AtoiDigits(r[1..]);
      assert r == "-" + r[1..];
    } else {
      AtoiDigits(r);
    }
  }

  function Pow10(k: nat): (r: nat)
    ensures r >= 1
  {
    if k == 0 then 1 else 10 * Pow10(k - 1)
  }

  /** A number below 10^k has at most k digits. */
  lemma {:induction false} DigitsLength(n: nat, k: nat)
    requires 1 <= k && n < Pow10(k)
    ensures |Digits(n)| <= k
    decreases k
  {
    if n >= 10 {
      assert k > 1;
      DigitsLength(n / 10, k - 1);
    }
  }

  /** Padding to width w a number with at most w digits gives exactly w digits. */
  lemma ZeroPadWidth(v: nat, width: nat)
    requires 1 <= width && v < Pow10(width)
    ensures |ZeroPad(v, width)| == width
  {
    DigitsLength(v, width);
  }

  /** Exactly the numbers below 10 have a one-digit text. */
  lemma SingleDigit(n: nat)
    ensures |Digits(n)| == 1 <==> n < 10
  {
    if n >= 10 {
      assert |Digits(n)| == |Digits(n / 10)| + 1;
    }
  }

  /** "%02d" of a number below 100, digit by digit. */
  lemma ZeroPadTwoDigits(v: nat)
    requires v < 100
    ensures ZeroPad(v, 2) == [DigitChar(v / 10), DigitChar(v % 10)]
  {
    if v < 10 {
      assert Digits(v) == [DigitChar(v)];
      assert Zeros(1) == [DigitChar(0)];
    } else {
      assert Digits(v / 10) == [DigitChar(v / 10)];
      assert Zeros(0) == [];
    }
  }

  /** Go's `a % 100` on int: the remainder truncated towards zero, so it takes the
      sign of `a` (Dafny's own `%` never gives a negative remainder). */
  function GoRem100(a: int): (r: int)
    ensures -100 < r < 100
    ensures (a - r) % 100 == 0
    ensures a >= 0 ==> 0 <= r
    ensures a <= 0 ==> r <= 0
  {
    if a >= 0 then a % 100 else -((-a) % 100)
  }
}
