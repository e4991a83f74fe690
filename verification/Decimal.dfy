/** Decimal rendering of integers, as Go's %d verb prints them. */
module Decimal {

  function Digit(d: nat): char
    requires d < 10
  {
    ['0', '1', '2', '3', '4', '5', '6', '7', '8', '9'][d]
  }

  function Digits(n: nat): (s: string)
    ensures s != []
  {
    if n < 10 then [Digit(n)] else Digits(n / 10) + [Digit(n % 10)]
  }

  function Render(n: int): (s: string)
    ensures s != []
  {
    if n < 0 then ['-'] + Digits(-n) else Digits(n)
  }

  predicate NumberChar(c: char)
  {
    '0' <= c <= '9' || c == '-'
  }

  lemma DigitRange(d: nat)
    requires d < 10
    ensures '0' <= Digit(d) <= '9'
  {
  }

  lemma DigitInjective(a: nat, b: nat)
    requires a < 10 && b < 10 && Digit(a) == Digit(b)
    ensures a == b
  {
  }

  lemma {:induction false} DigitsOnlyDigits(n: nat)
    ensures forall i :: 0 <= i < |Digits(n)| ==> '0' <= Digits(n)[i] <= '9'
  {
    if n < 10 {
      DigitRange(n);
    } else {
      DigitsOnlyDigits(n / 10);
      DigitRange(n % 10);
    }
  }

  lemma {:induction false} DigitsInjective(a: nat, b: nat)
    requires Digits(a) == Digits(b)
    ensures a == b
  {
    var s := Digits(a);
    if a < 10 && b < 10 {
      assert Digit(a) == s[0] == Digit(b);
      DigitInjective(a, b);
    } else if a >= 10 && b >= 10 {
      assert s[..|s| - 1] == Digits(a / 10) && s[|s| - 1] == Digit(a % 10);
      assert s[..|s| - 1] == Digits(b / 10) && s[|s| - 1] == Digit(b % 10);
      DigitInjective(a % 10, b % 10);
      DigitsInjective(a / 10, b / 10);
    }
  }

  /** Only a negative number starts with '-', and nothing but digits follows. */
  lemma RenderChars(n: int)
    ensures forall i :: 0 <= i < |Render(n)| ==> NumberChar(Render(n)[i])
    ensures Render(n)[0] == '-' <==> n < 0
  {
    DigitsOnlyDigits(if n < 0 then -n else n);
  }

  lemma RenderInjective(a: int, b: int)
    requires Render(a) == Render(b)
    ensures a == b
  {
    RenderChars(a);
    RenderChars(b);
    if a < 0 {
      assert Digits(-a) == Render(a)[1..] == Render(b)[1..] == Digits(-b);
      DigitsInjective(-a, -b);
    } else {
      DigitsInjective(a, b);
    }
  }

  /** Fixed-width rendering, as time.Format writes an hour key. */
  function Padded(n: nat, width: nat): (s: string)
    ensures |s| == width
  {
    if width == 0 then "" else Padded(n / 10, width - 1) + [Digit(n % 10)]
  }

  // ------------------------------------------------------------ reading back

  /** The number a string of decimal digits spells. */
  function Value(s: string): int
  {
    if s == [] then 0 else Value(s[..|s| - 1]) * 10 + (s[|s| - 1] as int - '0' as int)
  }

  lemma ValueSnoc(s: string, d: nat)
    requires d < 10
    ensures Value(s + [Digit(d)]) == 10 * Value(s) + d
  {
    assert (s + [Digit(d)])[..|s|] == s;
  }

  lemma {:induction false} DigitsValue(n: nat)
    ensures Value(Digits(n)) == n && (n > 0 ==> Digits(n)[0] != '0')
  {
    if n < 10 {
      ValueSnoc([], n);
      assert [] + [Digit(n)] == Digits(n);
    } else {
      DigitsValue(n / 10);
      ValueSnoc(Digits(n / 10), n % 10);
    }
  }

  /** A rendered number reads back as itself, without leading zeros. */
  lemma RenderReadsBack(n: int)
    ensures n >= 0 ==> Value(Render(n)) == n
    ensures n < 0 ==> Render(n)[0] == '-' && Value(Render(n)[1..]) == -n
    ensures n > 0 ==> Render(n)[0] != '0'
    ensures n >= 0 ==> forall i :: 0 <= i < |Render(n)| ==> '0' <= Render(n)[i] <= '9'
  {
    DigitsValue(if n < 0 then -n else n);
    DigitsOnlyDigits(if n < 0 then -n else n);
    if n < 0 { assert Render(n)[1..] == Digits(-n); }
  }

  /** So does a padded one that fits its width. */
  lemma {:induction false} PaddedReadsBack(n: nat, width: nat)
    requires n < Pow10(width)
    ensures Value(Padded(n, width)) == n
    ensures forall i :: 0 <= i < width ==> '0' <= Padded(n, width)[i] <= '9'
  {
    if width > 0 {
      PaddedReadsBack(n / 10, width - 1);
      ValueSnoc(Padded(n / 10, width - 1), n % 10);
      DigitRange(n % 10);
    }
  }

  /** String comparison, byte by byte, as sort.Strings uses it. */
  predicate LexLess(a: string, b: string)
  {
    if b == [] then false
    else if a == [] then true
    else a[0] < b[0] || (a[0] == b[0] && LexLess(a[1..], b[1..]))
  }

  function Pow10(k: nat): nat
  {
    if k == 0 then 1 else 10 * Pow10(k - 1)
  }

  lemma {:induction false} LexLessSnoc(a: string, b: string, x: char, y: char)
    requires |a| == |b|
    ensures LexLess(a + [x], b + [y]) <==> LexLess(a, b) || (a == b && x < y)
  {
    if a == [] {
      assert ([x])[1..] == [] && ([y])[1..] == [];
    } else {
      assert (a + [x])[1..] == a[1..] + [x] && (b + [y])[1..] == b[1..] + [y];
      LexLessSnoc(a[1..], b[1..], x, y);
      assert a == [a[0]] + a[1..] && b == [b[0]] + b[1..];
    }
  }

  /** On numbers of at most `width` digits, string order of the padded forms is numeric order. */
  lemma {:induction false} PaddedOrder(m: nat, n: nat, width: nat)
    requires m < Pow10(width) && n < Pow10(width)
    ensures LexLess(Padded(m, width), Padded(n, width)) <==> m < n
    ensures Padded(m, width) == Padded(n, width) ==> m == n
  {
    if width > 0 {
      PaddedOrder(m / 10, n / 10, width - 1);
      LexLessSnoc(Padded(m / 10, width - 1), Padded(n / 10, width - 1), Digit(m % 10), Digit(n % 10));
      assert Padded(m, width)[..width - 1] == Padded(m / 10, width - 1);
      assert Padded(n, width)[..width - 1] == Padded(n / 10, width - 1);
      DigitOrder(m % 10, n % 10);
      if Padded(m, width) == Padded(n, width) {
        assert Padded(m, width)[width - 1] == Padded(n, width)[width - 1];
      }
    }
  }

  lemma DigitOrder(a: nat, b: nat)
    requires a < 10 && b < 10
    ensures Digit(a) < Digit(b) <==> a < b
    ensures Digit(a) == Digit(b) ==> a == b
  {
  }
}
