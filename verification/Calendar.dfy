/** Calendar days and the directory names time.Format("2006-01-02") gives them. */
module Calendar {
  import opened Decimal

  datatype Date = Date(year: int, month: nat, day: nat)

  predicate Leap(year: int)
  {
    (year % 4 == 0 && year % 100 != 0) || year % 400 == 0
  }

  function DaysIn(year: int, month: nat): nat
  {
    if month == 2 then (if Leap(year) then 29 else 28)
    else if month == 4 || month == 6 || month == 9 || month == 11 then 30
    else 31
  }

  predicate Proper(d: Date)
  {
    1 <= d.month <= 12 && 1 <= d.day <= DaysIn(d.year, d.month)
  }

  function Next(d: Date): Date
  {
    if d.day < DaysIn(d.year, d.month) then d.(day := d.day + 1)
    else if d.month < 12 then Date(d.year, d.month + 1, 1)
    else Date(d.year + 1, 1, 1)
  }

  function Prev(d: Date): (p: Date)
    requires Proper(d)
    ensures Proper(p) && Next(p) == d
  {
    if d.day > 1 then d.(day := d.day - 1)
    else if d.month > 1 then Date(d.year, d.month - 1, DaysIn(d.year, d.month - 1))
    else Date(d.year - 1, 12, 31)
  }

  /** The date of a day number; day 0 is 1 January 1970. */
  function DateOf(n: int): (d: Date)
    ensures Proper(d)
    decreases if n < 0 then -n else n
  {
    if n == 0 then Date(1970, 1, 1) else if n > 0 then Next(DateOf(n - 1)) else Prev(DateOf(n + 1))
  }

  predicate Before(a: Date, b: Date)
  {
    a.year < b.year || (a.year == b.year && (a.month < b.month || (a.month == b.month && a.day < b.day)))
  }

  lemma {:induction false} DaysInOrder(m: int, n: int)
    requires m < n
    ensures Before(DateOf(m), DateOf(n))
    decreases n - m
  {
    assert DateOf(m + 1) == Next(DateOf(m));
    if m + 1 < n { DaysInOrder(m + 1, n); }
  }

  /** Twelve months make 365 days, or 366 in a leap year; 2000 and 2024 are leap years, 1900 and 2023 are not. */
  lemma YearLength(y: int)
    ensures DaysIn(y, 1) + DaysIn(y, 2) + DaysIn(y, 3) + DaysIn(y, 4) + DaysIn(y, 5) + DaysIn(y, 6) + DaysIn(y, 7)
            + DaysIn(y, 8) + DaysIn(y, 9) + DaysIn(y, 10) + DaysIn(y, 11) + DaysIn(y, 12) == if Leap(y) then 366 else 365
    ensures Leap(2000) && Leap(2024) && !Leap(1900) && !Leap(2023)
  {
  }

  // ------------------------------------------------------------ names

  /** A year as time.Format writes it: a sign when negative, then at least four digits. */
  function YearText(year: int): string
  {
    var size := if year < 0 then -year else year;
    (if year < 0 then "-" else "") + (if size < 10000 then Padded(size, 4) else Digits(size))
  }

  function DateText(d: Date): string
  {
    YearText(d.year) + ("-" + Padded(d.month, 2) + ("-" + Padded(d.day, 2)))
  }

  function DayName(n: int): string
  {
    DateText(DateOf(n))
  }

  predicate FourDigitYear(n: int)
  {
    0 <= DateOf(n).year <= 9999
  }

  lemma {:induction false} LexLessConcat(p: string, q: string, p': string, q': string)
    requires |p| == |p'|
    ensures LexLess(p + q, p' + q') <==> LexLess(p, p') || (p == p' && LexLess(q, q'))
  {
    if p == [] {
      assert p + q == q && p' + q' == q';
    } else {
      assert (p + q)[1..] == p[1..] + q && (p' + q')[1..] == p'[1..] + q';
      LexLessConcat(p[1..], q, p'[1..], q');
      assert p == [p[0]] + p[1..] && p' == [p'[0]] + p'[1..];
    }
  }

  lemma DashOrder(a: nat, b: nat)
    requires a < 100 && b < 100
    ensures LexLess("-" + Padded(a, 2), "-" + Padded(b, 2)) <==> a < b
    ensures "-" + Padded(a, 2) == "-" + Padded(b, 2) <==> a == b
  {
    assert Pow10(2) == 100;
    PaddedOrder(a, b, 2);
    LexLessConcat("-", Padded(a, 2), "-", Padded(b, 2));
    assert ("-" + Padded(a, 2))[1..] == Padded(a, 2) && ("-" + Padded(b, 2))[1..] == Padded(b, 2);
  }

  /** The name spells year, month and day, four, two and two digits, with dashes between them. */
  lemma DateTextReadsBack(d: Date)
    requires Proper(d) && 0 <= d.year <= 9999
    ensures |DateText(d)| == 10 && DateText(d)[4] == '-' && DateText(d)[7] == '-'
    ensures Value(DateText(d)[..4]) == d.year && Value(DateText(d)[5..7]) == d.month && Value(DateText(d)[8..]) == d.day
  {
    assert Pow10(4) == 10000 && Pow10(2) == 100;
    PaddedReadsBack(d.year, 4);
    PaddedReadsBack(d.month, 2);
    PaddedReadsBack(d.day, 2);
    SplitText(Padded(d.year, 4), Padded(d.month, 2), Padded(d.day, 2));
    assert YearText(d.year) == Padded(d.year, 4);
  }

  lemma SplitText(y: string, m: string, d: string)
    requires |y| == 4 && |m| == 2 && |d| == 2
    ensures var text := y + ("-" + m + ("-" + d));
            && |text| == 10 && text[4] == '-' && text[7] == '-' && text[..4] == y && text[5..7] == m && text[8..] == d
  {
  }

  /** Names of years 0 to 9999 compare as the dates do. */
  lemma TextOrder(a: Date, b: Date)
    requires Proper(a) && Proper(b) && 0 <= a.year <= 9999 && 0 <= b.year <= 9999
    ensures |DateText(a)| == 10
    ensures LexLess(DateText(a), DateText(b)) <==> Before(a, b)
  {
    assert Pow10(4) == 10000;
    assert YearText(a.year) == Padded(a.year, 4) && YearText(b.year) == Padded(b.year, 4);
    PaddedOrder(a.year, b.year, 4);
    DashOrder(a.month, b.month);
    DashOrder(a.day, b.day);
    LexLessConcat(YearText(a.year), "-" + Padded(a.month, 2) + ("-" + Padded(a.day, 2)),
                  YearText(b.year), "-" + Padded(b.month, 2) + ("-" + Padded(b.day, 2)));
    LexLessConcat("-" + Padded(a.month, 2), "-" + Padded(a.day, 2), "-" + Padded(b.month, 2), "-" + Padded(b.day, 2));
  }

  lemma TenCharacters(n: int)
    ensures |DayName(n)| == 10 <==> FourDigitYear(n)
  {
    var y := DateOf(n).year;
    var size := if y < 0 then -y else y;
    if size >= 10000 { FiveDigits(size); }
  }

  lemma FiveDigits(n: nat)
    requires n >= 10000
    ensures |Digits(n)| >= 5
  {
    assert |Digits(n / 10 / 10 / 10 / 10)| >= 1;
    assert |Digits(n / 10 / 10 / 10)| >= 2;
    assert |Digits(n / 10 / 10)| >= 3;
  }

  /** The test of Cleanup on a directory name. */
  predicate Expired(name: string, cutoff: string)
  {
    |name| == 10 && LexLess(name, cutoff)
  }

  /**
   * Directory names compare as their days do: Cleanup's test never takes a day at or after
   * the cutoff, and in the years 0 to 9999 it takes exactly the days before it.
   */
  lemma ExpiredMeansEarlier(day: int, cutoff: int)
    ensures Expired(DayName(day), DayName(cutoff)) ==> day < cutoff
    ensures FourDigitYear(day) && FourDigitYear(cutoff) ==> (Expired(DayName(day), DayName(cutoff)) <==> day < cutoff)
  {
    TenCharacters(day);
    if FourDigitYear(day) {
      if cutoff < day { DaysInOrder(cutoff, day); }
      if day < cutoff { DaysInOrder(day, cutoff); }
      if FourDigitYear(cutoff) {
        TextOrder(DateOf(day), DateOf(cutoff));
      } else if DateOf(cutoff).year < 0 {
        DigitBeforeDash(DateOf(day), DateOf(cutoff));
      }
    }
  }

  lemma DigitBeforeDash(a: Date, b: Date)
    requires 0 <= a.year <= 9999 && b.year < 0
    ensures !LexLess(DateText(a), DateText(b))
  {
    DigitsOnly(a.year, 4);
    assert DateText(a)[0] == Padded(a.year, 4)[0];
    assert DateText(b)[0] == '-';
  }

  lemma {:induction false} DigitsOnly(n: nat, width: nat)
    ensures forall i :: 0 <= i < width ==> '0' <= Padded(n, width)[i] <= '9'
  {
    if width > 0 { DigitsOnly(n / 10, width - 1); }
  }

  /** Different days have different directories. */
  lemma DayNamesDiffer(m: int, n: int)
    requires FourDigitYear(m) && FourDigitYear(n)
    ensures DayName(m) == DayName(n) <==> m == n
  {
    ExpiredMeansEarlier(m, n);
    ExpiredMeansEarlier(n, m);
    TenCharacters(m);
    LexIrreflexive(DayName(m));
  }

  lemma {:induction false} LexIrreflexive(s: string)
    ensures !LexLess(s, s)
  {
    if s != [] { LexIrreflexive(s[1..]); }
  }
}
