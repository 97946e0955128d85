/**
 * Decimal digit strings and the integers they denote: the `/^[0-9]{10}$/`
 * phone rule, Mongoose's cast of such a string to a `Number`, and
 * `Number.prototype.toString` used to turn the drawn OTP into text.
 */
module Decimal {

  predicate IsDigit(c: char) {
    '0' <= c <= '9'
  }

  predicate AllDigits(s: string) {
    forall i | 0 <= i < |s| :: IsDigit(s[i])
  }

  function DigitValue(c: char): (d: nat)
    requires IsDigit(c)
    ensures d < 10
  {
    c as int - '0' as int
  }

  function DigitChar(d: nat): (c: char)
    requires d < 10
    ensures IsDigit(c) && DigitValue(c) == d
  {
    ('0' as int + d) as char
  }

  function Pow10(n: nat): (p: nat)
    ensures p >= 1
  {
    if n == 0 then 1 else 10 * Pow10(n - 1)
  }

  lemma {:induction false} Pow10Monotone(m: nat, n: nat)
    requires m <= n
    ensures Pow10(m) <= Pow10(n)
  {
    if m < n {
      Pow10Monotone(m, n - 1);
    }
  }

  /** The integer a digit string denotes, read most significant digit first. */
  function Value(s: string): (v: nat)
    requires AllDigits(s)
    ensures v < Pow10(|s|)
  {
    if s == [] then 0 else Value(s[..|s| - 1]) * 10 + DigitValue(s[|s| - 1])
  }

  /** `n.toString()` for the integers the program prints: six-digit codes and ten-digit
      phone numbers, well below 1e21, where JavaScript switches to exponent notation. On
      those it is the shortest digit string denoting `n`. */
  function Render(n: nat): (s: string)
    ensures |s| >= 1 && AllDigits(s) && Value(s) == n
    ensures n < Pow10(|s|)
    ensures |s| > 1 ==> s[0] != '0' && Pow10(|s| - 1) <= n
  {
    if n < 10 then [DigitChar(n)]
    else
      var prefix := Render(n / 10);
      var s := prefix + [DigitChar(n % 10)];
      assert s[..|s| - 1] == prefix;
      s
  }

  /** The arithmetic step of `ValueOfFirst`: moving one digit from the back of the tail to the back of the whole. */
  lemma Regroup(d: int, p: int, v: int, last: int, whole: int, init: int, tail: int)
    requires init == d * p + v && tail == v * 10 + last && whole == init * 10 + last
    ensures whole == d * (10 * p) + tail
  {
  }

  /** Reading a digit string from the front: the first digit weighs `10^(|s|-1)`. */
  lemma {:induction false} ValueOfFirst(s: string)
    requires |s| >= 1 && AllDigits(s)
    ensures Value(s) == DigitValue(s[0]) * Pow10(|s| - 1) + Value(s[1..])
  {
    if |s| > 1 {
      var n := |s| - 1;
      var init, tail := s[..n], s[1..];
      var middle := init[1..];
      assert tail[..n - 1] == middle;
      assert tail[n - 1] == s[n];
      ValueOfFirst(init);
      var last := DigitValue(s[n]);
      assert Value(s) == Value(init) * 10 + last;
      assert Value(tail) == Value(middle) * 10 + last;
      assert Pow10(n) == 10 * Pow10(n - 1);
      Regroup(DigitValue(s[0]), Pow10(n - 1), Value(middle), last, Value(s), Value(init), Value(tail));
    } else {
      assert s[1..] == [];
    }
  }

  /** A digit string has a leading zero exactly when it denotes a number with fewer digits. */
  lemma LeadingZeroIffShort(s: string)
    requires |s| >= 1 && AllDigits(s)
    ensures s[0] == '0' <==> Value(s) < Pow10(|s| - 1)
  {
    ValueOfFirst(s);
    var tail := s[1..];
    assert |tail| == |s| - 1;
    FirstDigitWeight(DigitValue(s[0]), Pow10(|s| - 1), Value(tail));
  }

  /** With a remainder below the weight, the first digit is zero exactly when the total is below the weight. */
  lemma FirstDigitWeight(d: nat, p: nat, rest: nat)
    requires rest < p
    ensures d == 0 <==> d * p + rest < p
  {
    if d >= 1 {
      MulAtLeast(d, p);
    }
  }

  lemma MulAtLeast(d: nat, p: nat)
    requires d >= 1
    ensures d * p >= p
  {
  }

  /** A number and its last decimal digit determine each other's split: `10a + x == 10b + y` with digits `x, y` forces `a == b`, `x == y`. */
  lemma LastDigitSplit(a: nat, x: nat, b: nat, y: nat)
    requires x < 10 && y < 10 && a * 10 + x == b * 10 + y
    ensures a == b && x == y
  {
  }

  /** Two digit strings of the same length that denote the same number are equal. */
  lemma {:induction false} ValueInjective(a: string, b: string)
    requires AllDigits(a) && AllDigits(b) && |a| == |b|
    requires Value(a) == Value(b)
    ensures a == b
  {
    if |a| > 0 {
      var n := |a| - 1;
      var a', b' := a[..n], b[..n];
      assert Value(a) == Value(a') * 10 + DigitValue(a[n]);
      assert Value(b) == Value(b') * 10 + DigitValue(b[n]);
      LastDigitSplit(Value(a'), DigitValue(a[n]), Value(b'), DigitValue(b[n]));
      ValueInjective(a', b');
      LastDigitSplits(a);
      LastDigitSplits(b);
    }
  }

  /** Printing a number of two or more digits prints its leading part, then its last digit. */
  lemma RenderStep(a: nat, x: nat)
    requires a >= 1 && x < 10
    ensures Render(a * 10 + x) == Render(a) + [DigitChar(x)]
  {
    var n := a * 10 + x;
    assert n / 10 == a && n % 10 == x;
  }

  /** A digit string is its front followed by the character of its last digit's value. */
  lemma LastDigitSplits(s: string)
    requires |s| >= 1 && AllDigits(s)
    ensures s == s[..|s| - 1] + [DigitChar(DigitValue(s[|s| - 1]))]
  {
    var c := s[|s| - 1];
    assert DigitChar(DigitValue(c)) == c;
  }

  /** A single digit reads and prints back as itself. */
  lemma RenderOneDigit(s: string)
    requires |s| == 1 && AllDigits(s)
    ensures Render(Value(s)) == s
  {
    var d := DigitValue(s[0]);
    assert Value(s) == Value(s[..0]) * 10 + d;
    assert s == [DigitChar(d)];
  }

  /** Reading a digit string without a leading zero and printing the number gives the string back. */
  lemma {:induction false} RenderOfValue(s: string)
    requires |s| >= 1 && AllDigits(s) && (|s| == 1 || s[0] != '0')
    ensures Render(Value(s)) == s
  {
    var n := |s| - 1;
    var init, d := s[..n], DigitValue(s[n]);
    if n == 0 {
      RenderOneDigit(s);
    } else {
      assert init[0] == s[0];
      LeadingZeroIffShort(init);
      RenderOfValue(init);
      assert Value(s) == Value(init) * 10 + d;
      RenderStep(Value(init), d);
      LastDigitSplits(s);
    }
  }

  /** Rendering is the inverse of reading, for strings without a leading zero. */
  lemma RenderValueRoundTrip(s: string)
    requires |s| >= 1 && AllDigits(s)
    ensures Render(Value(s)) == s <==> (|s| == 1 || s[0] != '0')
  {
    if |s| == 1 || s[0] != '0' {
      RenderOfValue(s);
    }
  }
}
