/** The patterns of serials.py (lines 10-26), as a collector would write them down: what the
    digits of each look like. */
module SerialForms {
  import opened Common
  import opened Calendar
  import opened Serials

  const UP: seq<nat> := [0, 1, 2, 3, 4, 5, 6, 7, 8, 9]
  const DOWN: seq<nat> := [9, 8, 7, 6, 5, 4, 3, 2, 1, 0]

  function Same(x: nat, n: nat): (d: seq<nat>)
    ensures |d| == n
  {
    seq(n, _ => x)
  }

  /** Two blocks of a digit. */
  ghost predicate Quads(d: seq<nat>, a: nat, b: nat) {
    a != b && d == Same(a, 4) + Same(b, 4)
  }

  /** A digit around another one repeated. */
  ghost predicate Around(d: seq<nat>, a: nat, b: nat) {
    a != b && |d| >= 4 && d == [a] + Same(b, |d| - 2) + [a]
  }

  /** Two digits in turn. */
  ghost predicate InTurn(d: seq<nat>, a: nat, b: nat) {
    a != b && |d| >= 4 && |d| % 2 == 0 && d == Repeated([a, b], |d| / 2)
  }

  ghost predicate Twice(d: seq<nat>, half: seq<nat>) {
    |d| >= 4 && d == half + half
  }

  /** Part of the ten digits, at least four, up or down. */
  ghost predicate Rung(d: seq<nat>, k: nat) {
    4 <= |d| && k + |d| <= 10 && (d == UP[k..k + |d|] || d == DOWN[k..k + |d|])
  }

  ghost predicate Among2(d: seq<nat>, a: nat, b: nat) {
    a in d && b in d && a < b && forall x :: x in d ==> x == a || x == b
  }

  ghost predicate Among3(d: seq<nat>, a: nat, b: nat, c: nat) {
    a in d && b in d && c in d && a < b < c && forall x :: x in d ==> x == a || x == b || x == c
  }

  /** A day of these four, two and two digits. */
  ghost predicate DayOf(y: seq<nat>, m: seq<nat>, d: seq<nat>)
    requires |y| == 4 && |m| == 2 && |d| == 2
  {
    var year, month, day := 1000 * y[0] + 100 * y[1] + 10 * y[2] + y[3], 10 * m[0] + m[1], 10 * d[0] + d[1];
    1700 <= year < 2100 && 1 <= month <= 12 && 1 <= day <= DaysIn(year, month)
  }

  ghost predicate Form(t: Trait, d: seq<nat>, star: bool) {
    match t
    case Solid => |d| >= 4 && d == Same(d[0], |d|)
    case Ladder => exists k: nat :: Rung(d, k)
    case Radar => |d| >= 4 && d == Reversed(d) && d != Same(d[0], |d|) && !exists a, b :: Around(d, a, b)
    case SuperRadar => exists a, b :: Around(d, a, b)
    case Repeater =>
      d != [] && d != Same(d[0], |d|) && (exists half :: Twice(d, half)) && !exists a, b :: InTurn(d, a, b)
    case SuperRepeater => exists a, b :: InTurn(d, a, b)
    case Binary => |d| >= 6 && exists a, b :: Among2(d, a, b)
    case Trinary => |d| == 8 && exists a, b, c :: Among3(d, a, b, c)
    case Low =>
      && |d| >= 6 && d[..|d| - 3] == Same(0, |d| - 3)
      && 1 <= 100 * d[|d| - 3] + 10 * d[|d| - 2] + d[|d| - 1] <= 100
    case High => |d| == 8 && d[..6] == Same(9, 6)
    case DoubleQuad => exists a, b :: Quads(d, a, b)
    case Dated => |d| == 8 && (DayOf(d[4..], d[..2], d[2..4]) || DayOf(d[..4], d[4..6], d[6..]))
    case Star => star
  }

  lemma SameIs(d: seq<nat>, x: nat)
    requires d != []
    ensures d == Same(x, |d|) <==> AllSame(d) && d[0] == x
  {}

  // ---- turned around, cut in two ----

  lemma SuperRadarExactly(d: seq<nat>, star: bool)
    ensures Has(SuperRadar, d, star) <==> Form(SuperRadar, d, star)
  {
    var n := |d|;
    if Has(SuperRadar, d, star) {
      var inner := d[1..n - 1];
      assert d[0] == d[n - 1 - 0];
      assert forall i :: 1 <= i < n - 1 ==> d[i] == inner[i - 1] == inner[0];
      assert d == [d[0]] + Same(d[1], n - 2) + [d[0]];
      assert d[0] == d[1] ==> AllSame(d);
      assert Around(d, d[0], d[1]);
    }
    forall a, b | Around(d, a, b) ensures Has(SuperRadar, d, star) {
      assert d[0] == a && d[n - 1] == a;
      assert d[1] == b && forall i :: 1 <= i < n - 1 ==> d[i] == b;
      var inner := d[1..n - 1];
      assert forall i :: 0 <= i < |inner| ==> inner[i] == b;
    }
  }

  lemma RadarExactly(d: seq<nat>, star: bool)
    ensures Has(Radar, d, star) <==> Form(Radar, d, star)
  {
    ReadsBackwards(d);
    SuperRadarExactly(d, star);
    if |d| >= 4 {
      SameIs(d, d[0]);
      SolidInside(d);
    }
  }

  lemma SuperRepeaterExactly(d: seq<nat>, star: bool)
    ensures Has(SuperRepeater, d, star) <==> Form(SuperRepeater, d, star)
  {
    var n := |d|;
    if n >= 4 && n % 2 == 0 {
      RepeatsExactly(d, 2, n / 2);
      assert d[..2] == [d[0], d[1]];
      if Has(SuperRepeater, d, star) {
        if d[0] == d[1] {
          forall i | 0 <= i < n ensures d[i] == d[0] { Alternates(d, i); }
        }
        assert InTurn(d, d[0], d[1]);
      }
      forall a, b | InTurn(d, a, b) ensures Has(SuperRepeater, d, star) {
        assert Repeated([a, b], n / 2) == [a, b] + Repeated([a, b], n / 2 - 1);
        assert d[0] == a && d[1] == b;
      }
    }
  }

  lemma RepeaterExactly(d: seq<nat>, star: bool)
    ensures Has(Repeater, d, star) <==> Form(Repeater, d, star)
  {
    var n := |d|;
    SuperRepeaterExactly(d, star);
    if n >= 4 {
      SameIs(d, d[0]);
      SolidInside(d);
      if n % 2 == 0 {
        RepeatsExactly(d, n / 2, 2);
        TwiceIs(d);
      }
      forall half | Twice(d, half) ensures n % 2 == 0 && half == d[..n / 2] {
        assert d[..|half|] == half;
      }
    }
  }

  lemma TwiceIs(d: seq<nat>)
    requires |d| >= 4 && |d| % 2 == 0
    ensures Repeated(d[..|d| / 2], 2) == d <==> Twice(d, d[..|d| / 2])
  {
    var half := d[..|d| / 2];
    assert Repeated(half, 2) == half + Repeated(half, 1);
    assert Repeated(half, 1) == half + [];
  }

  // ---- ladders ----

  lemma LadderExactly(d: Digits, star: bool)
    ensures Has(Ladder, d, star) <==> Form(Ladder, d, star)
  {
    hide Steps;
    if Has(Ladder, d, star) {
      LadderRungs(d);
    }
    forall k: nat | Rung(d, k) ensures Has(Ladder, d, star) {
      RungSteps(d, k);
    }
  }

  lemma LadderRungs(d: Digits)
    requires |d| >= 4 && (Steps(d, 1) || Steps(d, -1))
    ensures exists k: nat :: Rung(d, k)
  {
    hide Rung;
    var n := |d|;
    if Steps(d, 1) {
      forall i | 0 <= i < n ensures d[i] == d[0] + i { StepsFromFirst(d, 1, i); }
      RungUp(d);
    } else {
      forall i | 0 <= i < n ensures d[i] == d[0] - i { StepsFromFirst(d, -1, i); }
      RungDown(d);
    }
  }

  lemma RungSteps(d: Digits, k: nat)
    requires Rung(d, k)
    ensures Steps(d, 1) || Steps(d, -1)
  {
    TenDigits();
    var n := |d|;
    if d == UP[k..k + n] {
      forall i | 0 <= i < n - 1 ensures d[i + 1] == d[i] + 1 { assert d[i] == UP[k + i] && d[i + 1] == UP[k + i + 1]; }
    } else {
      forall i | 0 <= i < n - 1 ensures d[i + 1] == d[i] - 1 {
        assert d[i] == DOWN[k + i] && d[i + 1] == DOWN[k + i + 1];
      }
    }
  }

  lemma TenDigits()
    ensures forall i :: 0 <= i < 10 ==> UP[i] == i && DOWN[i] == 9 - i
  {}

  lemma RungUp(d: Digits)
    requires |d| >= 4 && forall i :: 0 <= i < |d| ==> d[i] == d[0] + i
    ensures Rung(d, d[0])
  {
    TenDigits();
    assert d[|d| - 1] < 10;
    assert d == UP[d[0]..d[0] + |d|];
  }

  lemma RungDown(d: Digits)
    requires |d| >= 4 && forall i :: 0 <= i < |d| ==> d[i] == d[0] - i
    ensures Rung(d, 9 - d[0])
  {
    TenDigits();
    assert d[|d| - 1] >= 0 && d[0] < 10;
    assert d == DOWN[9 - d[0]..9 - d[0] + |d|];
  }

  // ---- how many different digits ----

  lemma BinaryExactly(d: seq<nat>, star: bool)
    ensures Has(Binary, d, star) <==> Form(Binary, d, star)
  {
    var all := Distinct(d);
    if |all| == 2 {
      var a := Least(all);
      var b := Least(all - {a});
      AllOf(all - {a} - {b});
      forall x: nat | x in d ensures x == a || x == b { assert x in all; }
      assert Among2(d, a, b);
    }
    forall a: nat, b: nat | Among2(d, a, b) ensures |all| == 2 {
      assert all == {a, b};
    }
  }

  lemma AllOf(left: set<nat>)
    requires |left| == 0
    ensures forall x :: x !in left
  {}

  lemma TrinaryExactly(d: seq<nat>, star: bool)
    ensures Has(Trinary, d, star) <==> Form(Trinary, d, star)
  {
    var all := Distinct(d);
    if |all| == 3 {
      var a := Least(all);
      var b := Least(all - {a});
      assert |all - {a} - {b}| == 1;
      var c := Least(all - {a} - {b});
      AllOf(all - {a} - {b} - {c});
      forall x: nat | x in d ensures x == a || x == b || x == c { assert x in all; }
      assert Among3(d, a, b, c);
    }
    forall a: nat, b: nat, c: nat | Among3(d, a, b, c) ensures |all| == 3 {
      assert all == {a, b, c};
    }
  }

  lemma {:induction false} Least(s: set<nat>) returns (x: nat)
    requires |s| > 0
    ensures x in s && forall y :: y in s ==> x <= y
    decreases |s|
  {
    x :| x in s;
    if |s| > 1 {
      var y := Least(s - {x});
      assert forall z :: z in s ==> z == x || z in s - {x};
      if y < x {
        x := y;
      }
    } else {
      AllOf(s - {x});
    }
  }

  // ---- numbers and dates ----

  lemma {:induction false} ZerosValue(d: seq<nat>)
    ensures Value(d) == 0 <==> forall i :: 0 <= i < |d| ==> d[i] == 0
  {
    if d != [] {
      ZerosValue(d[..|d| - 1]);
      assert forall i :: 0 <= i < |d| - 1 ==> d[..|d| - 1][i] == d[i];
    }
  }

  lemma LastThree(d: seq<nat>)
    requires |d| >= 3
    ensures Value(d) == 1000 * Value(d[..|d| - 3]) + 100 * d[|d| - 3] + 10 * d[|d| - 2] + d[|d| - 1]
  {
    var n := |d|;
    assert d[..n - 1][..n - 2] == d[..n - 2] && d[..n - 2][..n - 3] == d[..n - 3];
    assert Value(d[..n - 2]) == 10 * Value(d[..n - 3]) + d[n - 3];
    assert Value(d[..n - 1]) == 10 * Value(d[..n - 2]) + d[n - 2];
  }

  lemma LowExactly(d: seq<nat>, star: bool)
    ensures Has(Low, d, star) <==> Form(Low, d, star)
  {
    if |d| >= 6 {
      LastThree(d);
      ZerosValue(d[..|d| - 3]);
      var front := d[..|d| - 3];
      assert front == Same(0, |d| - 3) <==> forall i :: 0 <= i < |front| ==> front[i] == 0;
    }
  }

  lemma {:induction false} NinesValue(d: Digits, n: nat)
    requires |d| == n && n <= 6
    ensures var top := [0, 9, 99, 999, 9999, 99999, 999999][n];
      Value(d) <= top && (Value(d) == top <==> forall i :: 0 <= i < n ==> d[i] == 9)
  {
    if n > 0 {
      NinesValue(d[..n - 1], n - 1);
      assert forall i :: 0 <= i < n - 1 ==> d[..n - 1][i] == d[i];
    }
  }

  lemma HighExactly(d: Digits, star: bool)
    ensures Has(High, d, star) <==> Form(High, d, star)
  {
    if |d| == 8 {
      NinesValue(d[..6], 6);
      assert d[..7][..6] == d[..6];
      assert Value(d[..7]) == 10 * Value(d[..6]) + d[6];
      assert Value(d) == 100 * Value(d[..6]) + 10 * d[6] + d[7];
      var front := d[..6];
      assert front == Same(9, 6) <==> forall i :: 0 <= i < 6 ==> front[i] == 9;
    }
  }

  lemma DoubleQuadExactly(d: seq<nat>, star: bool)
    ensures Has(DoubleQuad, d, star) <==> Form(DoubleQuad, d, star)
  {
    if |d| == 8 {
      SameIs(d[..4], d[0]);
      SameIs(d[4..], d[4]);
      assert d == d[..4] + d[4..];
      if Has(DoubleQuad, d, star) {
        if d[0] == d[4] {
          forall i | 0 <= i < 8 ensures d[i] == d[0] {
            if i < 4 { assert d[i] == d[..4][i]; } else { assert d[i] == d[4..][i - 4]; }
          }
        }
        assert Quads(d, d[0], d[4]);
      }
    }
    forall a, b | Quads(d, a, b) ensures Has(DoubleQuad, d, star) {
      assert d[..4] == Same(a, 4) && d[4..] == Same(b, 4) && d[0] == a && d[4] == b;
    }
  }

  lemma ValueOfTwo(d: seq<nat>)
    requires |d| == 2
    ensures Value(d) == 10 * d[0] + d[1]
  {
    assert d[..1][..0] == [] && Value([]) == 0;
    assert d[..1] == [d[0]] && Value(d[..1]) == d[0];
  }

  lemma DatedExactly(d: seq<nat>, star: bool)
    ensures Has(Dated, d, star) <==> Form(Dated, d, star)
  {
    if |d| == 8 {
      ValueOfFour(d[4..]);
      ValueOfFour(d[..4]);
      ValueOfTwo(d[..2]);
      ValueOfTwo(d[2..4]);
      ValueOfTwo(d[4..6]);
      ValueOfTwo(d[6..]);
    }
  }

  /** Each pattern is what its digits look like. */
  lemma {:induction false} FormsExactly(t: Trait, d: Digits, star: bool)
    ensures Has(t, d, star) <==> Form(t, d, star)
  {
    match t
    case Solid => if d != [] { SameIs(d, d[0]); }
    case Ladder => LadderExactly(d, star);
    case Radar => RadarExactly(d, star);
    case SuperRadar => SuperRadarExactly(d, star);
    case Repeater => RepeaterExactly(d, star);
    case SuperRepeater => SuperRepeaterExactly(d, star);
    case Binary => BinaryExactly(d, star);
    case Trinary => TrinaryExactly(d, star);
    case Low => LowExactly(d, star);
    case High => HighExactly(d, star);
    case DoubleQuad => DoubleQuadExactly(d, star);
    case Dated => DatedExactly(d, star);
    case Star =>
  }

  // ---- from the serial to the list ----

  /** The digits are read character by character, whatever else the serial holds. */
  lemma {:induction false} DigitsJoin(a: string, b: string)
    ensures DigitsOf(a + b) == DigitsOf(a) + DigitsOf(b)
  {
    if a == "" {
      assert a + b == b;
    } else {
      assert (a + b)[1..] == a[1..] + b;
      DigitsJoin(a[1..], b);
    }
  }

  lemma DigitIs(c: char)
    ensures DigitsOf([c]) == if '0' <= c <= '9' then [c as nat - '0' as nat] else []
  {
    assert [c][1..] == [] && DigitsOf([]) == [];
  }

  /** One trait comes before the other in a list. */
  ghost predicate Precedes(order: seq<Trait>, a: Trait, b: Trait) {
    exists p, q :: 0 <= p < q < |order| && order[p] == a && order[q] == b
  }

  lemma {:induction false} ListedInOrder(order: seq<Trait>, found: set<Trait>, i: nat, j: nat)
    requires i < j < |Listed(order, found)|
    ensures Precedes(order, Listed(order, found)[i], Listed(order, found)[j])
  {
    var rest := order[1..];
    if order[0] in found {
      var a, b := Listed(order, found)[i], Listed(order, found)[j];
      if i > 0 {
        ListedInOrder(rest, found, i - 1, j - 1);
        var p, q :| 0 <= p < q < |rest| && rest[p] == a && rest[q] == b;
        assert order[p + 1] == a && order[q + 1] == b;
      } else {
        ListedHas(rest, found, b);
        assert b in Listed(rest, found);
        var q :| 0 <= q < |rest| && rest[q] == b;
        assert order[0] == a && order[q + 1] == b;
      }
    } else {
      ListedInOrder(rest, found, i, j);
      var a, b := Listed(order, found)[i], Listed(order, found)[j];
      var p, q :| 0 <= p < q < |rest| && rest[p] == a && rest[q] == b;
      assert order[p + 1] == a && order[q + 1] == b;
    }
  }

  /** The traits of a serial are exactly the forms its digits have, each once, in the order of the table. */
  lemma {:induction false} TraitsExactly(serial: Option<string>, replacement: bool, t: Trait)
    ensures var text, traits := if serial.Some? then serial.value else "", TraitsOf(serial, replacement);
      && (t in traits <==> Form(t, DigitsOf(text), replacement || '*' in text || '\U{2605}' in text))
      && (forall i, j :: 0 <= i < j < |traits| ==> Precedes(ALL, traits[i], traits[j]))
  {
    hide Has, Form, Precedes;
    var text := if serial.Some? then serial.value else "";
    var found := Found(DigitsOf(text), Starred(text, replacement));
    EveryTrait();
    ListedHas(ALL, found, t);
    FormsExactly(t, DigitsOf(text), Starred(text, replacement));
    forall i, j | 0 <= i < j < |Listed(ALL, found)|
      ensures Precedes(ALL, Listed(ALL, found)[i], Listed(ALL, found)[j])
    {
      ListedInOrder(ALL, found, i, j);
    }
  }
}
