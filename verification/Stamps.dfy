/** The time in an archive's name: fixed-width UTC stamps sort as the times they say
    (backup.py lines 112-127). */
module Stamps {
  import opened Calendar

  // ---- the calendar ----

  datatype Time = Time(year: nat, month: nat, day: nat, hour: nat, minute: nat, second: nat)

  /** What a datetime accepts. */
  predicate Real(t: Time) {
    && 1 <= t.year <= 9999 && 1 <= t.month <= 12 && 1 <= t.day <= DaysIn(t.year, t.month)
    && t.hour < 24 && t.minute < 60 && t.second < 60
  }

  /** The days of a year before a month. */
  function DaysToMonth(year: nat, month: nat): nat {
    if month <= 1 then 0 else DaysToMonth(year, month - 1) + DaysIn(year, month - 1)
  }

  function DaysToYear(year: nat): nat {
    if year <= 1 then 0 else DaysToYear(year - 1) + DaysToMonth(year - 1, 13)
  }

  /** Seconds since the first day of year 1. */
  function Seconds(t: Time): int {
    (((DaysToYear(t.year) + DaysToMonth(t.year, t.month) + t.day) * 24 + t.hour) * 60 + t.minute) * 60 + t.second
  }

  /** The Gregorian count: 365 days a year, and one more every fourth but three in four centuries. */
  lemma {:induction false} YearsExactly(year: nat)
    requires year >= 1
    ensures var past := year - 1;
      DaysToYear(year) == 365 * past + past / 4 - past / 100 + past / 400
  {
    hide DaysToMonth, Leap;
    if year > 1 {
      var n := year - 1;
      YearsExactly(n);
      YearLength(n);
      DivStep(n, 4);
      DivStep(n, 100);
      DivStep(n, 400);
      LeapIs(n);
    }
  }

  lemma DivStep(n: nat, k: nat)
    requires n > 0 && k > 1
    ensures n / k == (n - 1) / k + if n % k == 0 then 1 else 0
  {
    var q, r := n / k, n % k;
    assert n == q * k + r;
    if r == 0 {
      assert n - 1 == (q - 1) * k + (k - 1);
      DivIs(n - 1, k, q - 1, k - 1);
    } else {
      DivIs(n - 1, k, q, r - 1);
    }
  }

  lemma DivIs(a: int, k: nat, q: int, r: nat)
    requires r < k && a == q * k + r
    ensures a / k == q
  {
    var p := a / k;
    assert a == p * k + a % k;
    assert (p - q) * k == p * k - q * k;
    if p != q {
      WholeMultiple(p - q, k);
    }
  }

  lemma WholeMultiple(x: int, k: int)
    requires x != 0 && k > 0
    ensures x * k >= k || x * k <= -k
  {}

  lemma LeapIs(n: nat)
    ensures (if Leap(n) then 1 else 0)
      == (if n % 4 == 0 then 1 else 0) - (if n % 100 == 0 then 1 else 0) + (if n % 400 == 0 then 1 else 0)
  {
    Divides(n, 25, 4);
    Divides(n, 4, 100);
  }

  lemma Divides(n: nat, k: nat, d: nat)
    requires d > 0 && k > 0
    ensures n % (k * d) == 0 ==> n % d == 0
  {
    if n % (k * d) == 0 {
      var q := n / (k * d);
      assert n == q * (k * d) == (q * k) * d;
      MultipleOf(q * k, d);
    }
  }

  lemma MultipleOf(q: nat, d: nat)
    requires d > 0
    ensures (q * d) % d == 0
  {
    DivIs(q * d, d, q, 0);
  }

  lemma YearLength(year: nat)
    ensures DaysToMonth(year, 13) == if Leap(year) then 366 else 365
  {
    assert DaysToMonth(year, 2) == 31;
    assert DaysToMonth(year, 3) == 31 + DaysIn(year, 2);
    assert DaysToMonth(year, 5) == DaysToMonth(year, 3) + 61;
    assert DaysToMonth(year, 7) == DaysToMonth(year, 5) + 61;
    assert DaysToMonth(year, 9) == DaysToMonth(year, 7) + 62;
    assert DaysToMonth(year, 11) == DaysToMonth(year, 9) + 61;
  }

  // ---- digits ----

  predicate AllDigits(text: string) {
    forall i :: 0 <= i < |text| ==> '0' <= text[i] <= '9'
  }

  function Num(text: string): nat
    requires AllDigits(text)
  {
    if text == "" then 0 else 10 * Num(text[..|text| - 1]) + (text[|text| - 1] - '0') as nat
  }

  /** A number in so many digits. */
  function Padded(n: nat, width: nat): (text: string)
    ensures |text| == width && AllDigits(text)
  {
    if width == 0 then "" else Padded(n / 10, width - 1) + [('0' as int + n % 10) as char]
  }

  function Power(n: nat): nat {
    if n == 0 then 1 else 10 * Power(n - 1)
  }

  lemma {:induction false} NumPadded(n: nat, width: nat)
    requires n < Power(width)
    ensures Num(Padded(n, width)) == n
  {
    if width > 0 {
      NumPadded(n / 10, width - 1);
      var text := Padded(n, width);
      assert text[..width - 1] == Padded(n / 10, width - 1);
    }
  }

  // ---- stamps ----

  const WIDTH := 15

  /** `\d{8}-\d{6}`. */
  predicate IsStamp(text: string) {
    |text| == WIDTH && AllDigits(text[..8]) && text[8] == '-' && AllDigits(text[9..])
  }

  /** What `%Y%m%d-%H%M%S` reads. */
  function Read(stamp: string): Time
    requires IsStamp(stamp)
  {
    Time(Num(stamp[..8][..4]), Num(stamp[..8][4..6]), Num(stamp[..8][6..]),
         Num(stamp[9..][..2]), Num(stamp[9..][2..4]), Num(stamp[9..][4..]))
  }

  function Print(t: Time): string {
    Padded(t.year, 4) + Padded(t.month, 2) + Padded(t.day, 2) + "-" + Padded(t.hour, 2) + Padded(t.minute,
      2) + Padded(t.second, 2)
  }

  lemma PaddedBack(n: nat, width: nat)
    requires (width == 4 && n < 10_000) || (width == 2 && n < 100)
    ensures Num(Padded(n, width)) == n
  {
    assert Power(4) == 10_000 && Power(2) == 100;
    NumPadded(n, width);
  }

  lemma DateBack(a: string, b: string, c: string)
    requires |a| == 4 && |b| == 2 && |c| == 2
    ensures (a + b + c)[..4] == a && (a + b + c)[4..6] == b && (a + b + c)[6..] == c
  {}

  lemma ClockBack(a: string, b: string, c: string)
    requires |a| == 2 && |b| == 2 && |c| == 2
    ensures (a + b + c)[..2] == a && (a + b + c)[2..4] == b && (a + b + c)[4..] == c
  {}

  /** A printed time reads back. */
  lemma {:induction false} ReadPrint(t: Time)
    requires Real(t)
    ensures IsStamp(Print(t)) && Read(Print(t)) == t
  {
    hide Num, Power, Padded;
    PaddedBack(t.year, 4);
    PaddedBack(t.month, 2);
    PaddedBack(t.day, 2);
    PaddedBack(t.hour, 2);
    PaddedBack(t.minute, 2);
    PaddedBack(t.second, 2);
    PaddedSizes(t);
    var date := Padded(t.year, 4) + Padded(t.month, 2) + Padded(t.day, 2);
    var clock := Padded(t.hour, 2) + Padded(t.minute, 2) + Padded(t.second, 2);
    DateBack(Padded(t.year, 4), Padded(t.month, 2), Padded(t.day, 2));
    ClockBack(Padded(t.hour, 2), Padded(t.minute, 2), Padded(t.second, 2));
    var stamp := Print(t);
    assert stamp == date + "-" + clock;
    assert stamp[..8] == date && stamp[9..] == clock && stamp[8] == '-';
  }

  lemma PaddedSizes(t: Time)
    ensures |Padded(t.year, 4)| == 4 && AllDigits(Padded(t.year, 4))
    ensures |Padded(t.month, 2)| == 2 && AllDigits(Padded(t.month, 2)) && |Padded(t.day, 2)| == 2
      && AllDigits(Padded(t.day, 2))
    ensures |Padded(t.hour, 2)| == 2 && AllDigits(Padded(t.hour, 2)) && |Padded(t.minute, 2)| == 2
      && AllDigits(Padded(t.minute, 2))
    ensures |Padded(t.second, 2)| == 2 && AllDigits(Padded(t.second, 2))
  {}

  // ---- order ----

  /** Python's order on strings. */
  predicate Less(a: string, b: string) {
    if b == "" then false
    else if a == "" then true
    else a[0] < b[0] || (a[0] == b[0] && Less(a[1..], b[1..]))
  }

  lemma {:induction false} LessConcat(a: string, b: string, x: string, y: string)
    requires |a| == |b|
    ensures Less(a + x, b + y) <==> Less(a, b) || (a == b && Less(x, y))
  {
    if a == "" {
      assert a + x == x && b + y == y;
    } else {
      assert (a + x)[1..] == a[1..] + x && (b + y)[1..] == b[1..] + y;
      LessConcat(a[1..], b[1..], x, y);
    }
  }

  lemma {:induction false} LessTotal(a: string, b: string)
    ensures Less(a, b) || Less(b, a) || a == b
    ensures !(Less(a, b) && Less(b, a)) && !Less(a, a)
  {
    if a != "" && b != "" {
      LessTotal(a[1..], b[1..]);
      if a[0] == b[0] && a[1..] == b[1..] {
        assert a == [a[0]] + a[1..] && b == [b[0]] + b[1..];
      }
    }
    if a != "" {
      LessTotal(a[1..], a[1..]);
    }
  }

  lemma {:induction false} LessTransitive(a: string, b: string, c: string)
    requires Less(a, b) && Less(b, c)
    ensures Less(a, c)
  {
    if a != "" && a[0] == b[0] && b[0] == c[0] {
      LessTransitive(a[1..], b[1..], c[1..]);
    }
  }

  lemma {:induction false} LessNum(a: string, b: string)
    requires AllDigits(a) && AllDigits(b) && |a| == |b|
    ensures Less(a, b) <==> Num(a) < Num(b)
    ensures a == b <==> Num(a) == Num(b)
  {
    hide Less;
    if a != "" {
      var n := |a| - 1;
      LessNum(a[..n], b[..n]);
      assert a == a[..n] + [a[n]] && b == b[..n] + [b[n]];
      LessConcat(a[..n], b[..n], [a[n]], [b[n]]);
      LessOne(a[n], b[n]);
    } else {
      LessTotal(a, b);
    }
  }

  lemma LessOne(a: char, b: char)
    ensures Less([a], [b]) <==> a < b
  {}

  // ---- the order of times ----

  /** The fields, the greater first. */
  predicate Before(a: Time, b: Time) {
    || a.year < b.year
    || (a.year == b.year && (a.month < b.month
    || (a.month == b.month && (a.day < b.day
    || (a.day == b.day && (a.hour < b.hour
    || (a.hour == b.hour && (a.minute < b.minute
    || (a.minute == b.minute && a.second < b.second)))))))))
  }

  lemma {:induction false} MonthsGrow(year: nat, a: nat, b: nat)
    requires 1 <= a <= b
    ensures DaysToMonth(year, a) <= DaysToMonth(year, b)
    ensures a < b ==> DaysToMonth(year, a) + DaysIn(year, a) <= DaysToMonth(year, b)
  {
    if a < b {
      MonthsGrow(year, a, b - 1);
    }
  }

  lemma {:induction false} YearsGrow(a: nat, b: nat)
    requires 1 <= a <= b
    ensures DaysToYear(a) <= DaysToYear(b)
    ensures a < b ==> DaysToYear(a) + DaysToMonth(a, 13) <= DaysToYear(b)
  {
    if a < b {
      YearsGrow(a, b - 1);
    }
  }

  function Days(t: Time): nat {
    DaysToYear(t.year) + DaysToMonth(t.year, t.month) + t.day
  }

  lemma DaysGrow(a: Time, b: Time)
    requires Real(a) && Real(b)
    requires a.year < b.year || (a.year == b.year && (a.month < b.month || (a.month == b.month && a.day < b.day)))
    ensures Days(a) < Days(b)
  {
    hide DaysIn;
    MonthsGrow(a.year, a.month, 13);
    if a.year < b.year {
      YearsGrow(a.year, b.year);
    } else if a.month < b.month {
      MonthsGrow(a.year, a.month, b.month);
    }
  }

  /** Of two real times the earlier has fewer seconds. */
  lemma SecondsGrow(a: Time, b: Time)
    requires Real(a) && Real(b) && Before(a, b)
    ensures Seconds(a) < Seconds(b)
  {
    assert Seconds(a) == ((Days(a) * 24 + a.hour) * 60 + a.minute) * 60 + a.second;
    assert Seconds(b) == ((Days(b) * 24 + b.hour) * 60 + b.minute) * 60 + b.second;
    if !(a.year == b.year && a.month == b.month && a.day == b.day) {
      DaysGrow(a, b);
    }
  }

  lemma BeforeTotal(a: Time, b: Time)
    ensures Before(a, b) || Before(b, a) || a == b
    ensures !(Before(a, b) && Before(b, a))
  {}

  /** Two stamps sort as their fields do. */
  lemma StampsByField(a: string, b: string)
    requires IsStamp(a) && IsStamp(b)
    ensures Less(a, b) <==> Before(Read(a), Read(b))
  {
    var x, y := a[..8], b[..8];
    var u, v := a[9..], b[9..];
    assert a == x + ("-" + u) && b == y + ("-" + v);
    LessConcat(x, y, "-" + u, "-" + v);
    LessConcat("-", "-", u, v);
    FieldsOf(x, y);
    FieldsOf2(u, v);
    LessOne('-', '-');
  }

  lemma FieldsOf(x: string, y: string)
    requires |x| == 8 && |y| == 8 && AllDigits(x) && AllDigits(y)
    ensures Less(x, y) <==>
      Num(x[..4]) < Num(y[..4])
      || (Num(x[..4]) == Num(y[..4]) && (Num(x[4..6]) < Num(y[4..6])
      || (Num(x[4..6]) == Num(y[4..6]) && Num(x[6..]) < Num(y[6..]))))
    ensures x == y <==> Num(x[..4]) == Num(y[..4]) && Num(x[4..6]) == Num(y[4..6]) && Num(x[6..]) == Num(y[6..])
  {
    hide Num, Less;
    assert x == x[..4] + (x[4..6] + x[6..]) && y == y[..4] + (y[4..6] + y[6..]);
    LessConcat(x[..4], y[..4], x[4..6] + x[6..], y[4..6] + y[6..]);
    LessConcat(x[4..6], y[4..6], x[6..], y[6..]);
    LessNum(x[..4], y[..4]);
    LessNum(x[4..6], y[4..6]);
    LessNum(x[6..], y[6..]);
  }

  lemma FieldsOf2(x: string, y: string)
    requires |x| == 6 && |y| == 6 && AllDigits(x) && AllDigits(y)
    ensures Less(x, y) <==>
      Num(x[..2]) < Num(y[..2])
      || (Num(x[..2]) == Num(y[..2]) && (Num(x[2..4]) < Num(y[2..4])
      || (Num(x[2..4]) == Num(y[2..4]) && Num(x[4..]) < Num(y[4..]))))
  {
    hide Num, Less;
    assert x == x[..2] + (x[2..4] + x[4..]) && y == y[..2] + (y[2..4] + y[4..]);
    LessConcat(x[..2], y[..2], x[2..4] + x[4..], y[2..4] + y[4..]);
    LessConcat(x[2..4], y[2..4], x[4..], y[4..]);
    LessNum(x[..2], y[..2]);
    LessNum(x[2..4], y[2..4]);
    LessNum(x[4..], y[4..]);
  }

  /** Names sort as times do. */
  lemma {:induction false} StampsByTime(a: string, b: string)
    requires IsStamp(a) && IsStamp(b) && Real(Read(a)) && Real(Read(b))
    ensures Less(a, b) <==> Seconds(Read(a)) < Seconds(Read(b))
    ensures a == b <==> Seconds(Read(a)) == Seconds(Read(b))
  {
    hide Seconds, Before, Less, Real;
    StampsByField(a, b);
    StampsByField(b, a);
    LessTotal(a, b);
    BeforeTotal(Read(a), Read(b));
    if Before(Read(a), Read(b)) { SecondsGrow(Read(a), Read(b)); }
    if Before(Read(b), Read(a)) { SecondsGrow(Read(b), Read(a)); }
  }
}
