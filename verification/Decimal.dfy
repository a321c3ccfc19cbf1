// Decimal texts of numbers, as printf-style formatting produces them, and their values.
module Decimal {

  function Pow10(k: nat): (r: nat)
    ensures r >= 1
  {
    if k == 0 then 1 else 10 * Pow10(k - 1)
  }

  function Digit(d: nat): char
    requires d < 10
  {
    "0123456789"[d]
  }

  predicate IsDigit(c: char) { '0' <= c <= '9' }

  function DigitValue(c: char): nat {
    if IsDigit(c) then c as int - '0' as int else 0
  }

  /** The shortest text of n. */
  function Digits(n: nat): (s: string)
    ensures s != ""
  {
    if n < 10 then [Digit(n)] else Digits(n / 10) + [Digit(n % 10)]
  }

  /** The last w digits of n, with leading zeros. */
  function FixedDigits(n: nat, w: nat): (s: string)
    ensures |s| == w
  {
    if w == 0 then "" else FixedDigits(n / 10, w - 1) + [Digit(n % 10)]
  }

  function Zeros(k: nat): (s: string)
    ensures |s| == k
  {
    if k == 0 then "" else "0" + Zeros(k - 1)
  }

  /** %d */
  function IntText(i: int): string {
    if i < 0 then "-" + Digits(-i) else Digits(i)
  }

  /** %0wd: zeros between the sign and the digits up to a total width of w. */
  function Padded(i: int, w: nat): string {
    var digits := Digits(if i < 0 then -i else i);
    var sign := if i < 0 then "-" else "";
    sign + (if |sign| + |digits| < w then Zeros(w - |sign| - |digits|) else "") + digits
  }

  function ValueOf(s: string): nat {
    if s == "" then 0 else 10 * ValueOf(s[..|s| - 1]) + DigitValue(s[|s| - 1])
  }

  lemma ValueOfAppend(s: string, c: char)
    ensures ValueOf(s + [c]) == 10 * ValueOf(s) + DigitValue(c)
  {
    assert (s + [c])[..|s|] == s;
  }

  lemma DigitValueOfDigit(d: nat)
    requires d < 10
    ensures IsDigit(Digit(d)) && DigitValue(Digit(d)) == d
  {
  }

  /** Reading the text back gives the number. */
  lemma {:induction false} DigitsRoundTrip(n: nat)
    ensures ValueOf(Digits(n)) == n
    ensures forall c <- Digits(n) :: IsDigit(c)
  {
    DigitValueOfDigit(n % 10);
    if n >= 10 {
      DigitsRoundTrip(n / 10);
      ValueOfAppend(Digits(n / 10), Digit(n % 10));
    } else {
      ValueOfAppend("", Digit(n));
      assert "" + [Digit(n)] == [Digit(n)];
    }
  }

  lemma FixedDigitsStep(n: nat, w: nat)
    requires w > 0
    ensures FixedDigits(n, w) == FixedDigits(n / 10, w - 1) + [Digit(n % 10)]
    ensures n < Pow10(w) ==> n / 10 < Pow10(w - 1)
  {
  }

  lemma NoDigits(n: nat)
    ensures FixedDigits(n, 0) == "" && (n < Pow10(0) ==> n == 0)
  {
  }

  lemma {:induction false} FixedDigitsRoundTrip(n: nat, w: nat)
    ensures n < Pow10(w) ==> ValueOf(FixedDigits(n, w)) == n
    ensures forall c <- FixedDigits(n, w) :: IsDigit(c)
  {
    hide FixedDigits, Pow10, Digit, DigitValue, IsDigit;
    if w == 0 {
      NoDigits(n);
    } else {
      FixedDigitsStep(n, w);
      FixedDigitsRoundTrip(n / 10, w - 1);
      DigitValueOfDigit(n % 10);
      ValueOfAppend(FixedDigits(n / 10, w - 1), Digit(n % 10));
    }
  }

  /** A sign exactly for negative numbers, and then the digits, the first of which is a zero only for zero. */
  lemma IntTextMeans(i: int)
    ensures var text, m := IntText(i), if i < 0 then -i else i;
            var digits := if i < 0 then text[1..] else text;
            && (text[0] == '-' <==> i < 0) && ValueOf(digits) == m && (forall c <- digits :: '0' <= c <= '9')
            && digits != "" && (digits[0] == '0' <==> i == 0)
  {
    var m: nat := if i < 0 then -i else i;
    DigitsRoundTrip(m);
    FirstDigit(m);
    assert Digits(m)[0] in Digits(m);
    hide Digits, ValueOf;
    assert i < 0 ==> IntText(i)[1..] == Digits(m);
  }

  lemma {:induction false} FirstDigit(n: nat)
    ensures Digits(n)[0] == '0' <==> n == 0
  {
    if n >= 10 { FirstDigit(n / 10); }
  }

  /** The sign comes before the zeros that fill the width, and the value is kept. */
  lemma PaddedMeans(i: int, w: nat)
    ensures var text, m := Padded(i, w), if i < 0 then -i else i;
            && text != "" && (text[0] == '-' <==> i < 0) && ValueOf(if i < 0 then text[1..] else text) == m
  {
    hide Zeros, Digits, ValueOf;
    var m: nat := if i < 0 then -i else i;
    var k := w - (if i < 0 then 1 else 0) - |Digits(m)|;
    var n: nat := if k > 0 then k else 0;
    NoZeros();
    var rest := Zeros(n) + Digits(m);
    DigitsRoundTrip(m);
    ZerosBefore(n, Digits(m));
    NoSign(n, m);
    assert Padded(i, w) == (if i < 0 then "-" else "") + rest;
    assert Padded(i, w) == if i < 0 then "-" + rest else rest;
    assert i < 0 ==> Padded(i, w)[1..] == rest;
  }

  lemma NoZeros()
    ensures Zeros(0) == ""
  {
  }

  lemma NoSign(k: nat, n: nat)
    ensures (Zeros(k) + Digits(n))[0] != '-'
  {
    DigitsRoundTrip(n);
    assert Digits(n)[0] in Digits(n);
    hide Digits;
  }

  lemma {:induction false} ZerosBefore(k: nat, s: string)
    ensures ValueOf(Zeros(k) + s) == ValueOf(s)
    decreases |s|
  {
    hide Zeros;
    if s == "" {
      assert Zeros(k) + "" == Zeros(k);
      OnlyZeros(k);
    } else {
      ZerosBefore(k, s[..|s| - 1]);
      assert Zeros(k) + s == Zeros(k) + s[..|s| - 1] + [s[|s| - 1]];
      ValueOfAppend(Zeros(k) + s[..|s| - 1], s[|s| - 1]);
    }
  }

  lemma {:induction false} OnlyZeros(k: nat)
    ensures ValueOf(Zeros(k)) == 0
  {
    if k > 0 {
      OnlyZeros(k - 1);
      ZerosAppend(k - 1);
      ValueOfAppend(Zeros(k - 1), '0');
    }
  }

  /** A number has at most k digits exactly when it is below 10 to the k. */
  lemma {:induction false} DigitsLength(n: nat, k: nat)
    requires k > 0
    ensures |Digits(n)| <= k <==> n < Pow10(k)
  {
    if k == 1 {
      assert Pow10(1) == 10 * Pow10(0);
    } else if n >= 10 {
      DigitsLength(n / 10, k - 1);
    } else {
      assert Pow10(k) == 10 * Pow10(k - 1);
    }
  }

  lemma {:induction false} DigitsAreFixed(n: nat)
    ensures Digits(n) == FixedDigits(n, |Digits(n)|)
  {
    if n >= 10 {
      DigitsAreFixed(n / 10);
    } else {
      assert FixedDigits(n, 1) == FixedDigits(n / 10, 0) + [Digit(n % 10)];
    }
  }

  lemma {:induction false} FixedZeros(w: nat)
    ensures FixedDigits(0, w) == Zeros(w)
  {
    if w > 0 {
      FixedZeros(w - 1);
      ZerosAppend(w - 1);
    }
  }

  lemma {:induction false} ZerosAppend(k: nat)
    ensures Zeros(k + 1) == Zeros(k) + "0"
  {
    if k > 0 { ZerosAppend(k - 1); }
  }

  lemma {:induction false} FixedDigitsPad(n: nat, w: nat, k: nat)
    requires n < Pow10(w)
    ensures FixedDigits(n, k + w) == Zeros(k) + FixedDigits(n, w)
  {
    hide FixedDigits, Pow10, Digit, Zeros;
    if w == 0 {
      NoDigits(n);
      FixedZeros(k);
      assert Zeros(k) + "" == Zeros(k);
    } else {
      FixedDigitsStep(n, w);
      FixedDigitsStep(n, k + w);
      FixedDigitsPad(n / 10, w - 1, k);
      assert Zeros(k) + (FixedDigits(n / 10, w - 1) + [Digit(n % 10)]) == Zeros(k) + FixedDigits(n / 10, w - 1) + [Digit(n % 10)];
    }
  }

  /** %0wd of a number that needs no more than w digits is its w-digit text. */
  lemma PaddedIsFixed(n: nat, w: nat)
    requires w > 0 && n < Pow10(w)
    ensures Padded(n, w) == FixedDigits(n, w)
  {
    hide FixedDigits, Digits, Pow10, Zeros;
    DigitsLength(n, w);
    DigitsAreFixed(n);
    var d := |Digits(n)|;
    DigitsLength(n, d);
    FixedDigitsPad(n, d, w - d);
    assert Padded(n, w) == Zeros(w - d) + Digits(n);
  }

  /** The padded text is longer than w exactly when the number does not fit in w places. */
  lemma PaddedLength(i: int, w: nat)
    requires w > 1
    ensures |Padded(i, w)| >= w
    ensures |Padded(i, w)| == w <==> -(Pow10(w - 1) as int) < i < Pow10(w)
  {
    var digits := Digits(if i < 0 then -i else i);
    if i < 0 {
      DigitsLength(-i, w - 1);
    } else {
      DigitsLength(i, w);
    }
  }

  // ---- order

  /** The usual order on texts. */
  predicate LexLess(a: string, b: string) {
    b != "" && (a == "" || a[0] < b[0] || (a[0] == b[0] && LexLess(a[1..], b[1..])))
  }

  lemma {:induction false} LexConcat(a: string, b: string, x: string, y: string)
    requires |a| == |b|
    ensures LexLess(a + x, b + y) <==> LexLess(a, b) || (a == b && LexLess(x, y))
  {
    if a == "" {
      assert a + x == x && b + y == y;
    } else {
      assert (a + x)[1..] == a[1..] + x && (b + y)[1..] == b[1..] + y;
      LexConcat(a[1..], b[1..], x, y);
      assert a == [a[0]] + a[1..] && b == [b[0]] + b[1..];
    }
  }

  lemma DigitOrder(c: nat, d: nat)
    requires c < 10 && d < 10
    ensures LexLess([Digit(c)], [Digit(d)]) <==> c < d
    ensures Digit(c) == Digit(d) <==> c == d
  {
    DigitValueOfDigit(c);
    DigitValueOfDigit(d);
  }

  /** Texts of equal width are ordered and told apart as the numbers are. */
  lemma {:induction false} FixedDigitsOrder(m: nat, n: nat, w: nat)
    requires m < Pow10(w) && n < Pow10(w)
    ensures LexLess(FixedDigits(m, w), FixedDigits(n, w)) <==> m < n
    ensures FixedDigits(m, w) == FixedDigits(n, w) <==> m == n
  {
    if w > 0 {
      FixedDigitsOrder(m / 10, n / 10, w - 1);
      LexConcat(FixedDigits(m / 10, w - 1), FixedDigits(n / 10, w - 1), [Digit(m % 10)], [Digit(n % 10)]);
      DigitOrder(m % 10, n % 10);
      assert FixedDigits(m, w)[..w - 1] == FixedDigits(m / 10, w - 1);
      assert FixedDigits(n, w)[..w - 1] == FixedDigits(n / 10, w - 1);
    }
  }
}
