/** Which code the checksum of archive_keys.py (lines 50-61) is: BIP 173, section "Checksum
    design". Symbols are elements of GF(32), a sequence of them is a polynomial, its highest
    power first, and the register is a remainder. */
module Polynomials {
  import opened Checksum

  // ---- GF(32) ----

  /** Times a, reduced by a^5 + a^3 + 1. */
  function Doubled(p: Word): Word {
    if p.v & 16 != 0 then Word((p.v << 1) ^ 0x29) else Word(p.v << 1)
  }

  /** p times a^n. */
  function Power(p: Word, n: nat): Word {
    if n == 0 then p else Doubled(Power(p, n - 1))
  }

  predicate Bit(q: Word, n: nat)
    requires n < 5
  {
    match n
    case 0 => q.v & 1 != 0
    case 1 => q.v & 2 != 0
    case 2 => q.v & 4 != 0
    case 3 => q.v & 8 != 0
    case _ => q.v & 16 != 0
  }

  function Term(p: Word, q: Word, n: nat): Word
    requires n < 5
  {
    if Bit(q, n) then Power(p, n) else ZERO
  }

  /** The product by the low n bits of q. */
  function Partly(p: Word, q: Word, n: nat): Word
    requires n <= 5
  {
    if n == 0 then ZERO else Xor(Partly(p, q, n - 1), Term(p, q, n - 1))
  }

  function Times(p: Word, q: Word): Word {
    Partly(p, q, 5)
  }

  // ---- the generator ----

  /** x^6 + 29x^5 + 22x^4 + 20x^3 + 21x^2 + 29x + 18. */
  const GENERATOR: seq<Word> := [Word(1)] + LOWER

  const LOWER: seq<Word> := [Word(29), Word(22), Word(20), Word(21), Word(29), Word(18)]

  /** A polynomial times a constant. */
  function Scaled(p: seq<Word>, q: Word): (r: seq<Word>)
    ensures |r| == |p|
  {
    seq(|p|, i requires 0 <= i < |p| => Times(p[i], q))
  }

  // ---- the feedback constants are the generator's multiples ----

  /** The symbol of a register at the power 5 - k. */
  function Symbol(c: Word, k: nat): Word
    requires k < 6
  {
    match k
    case 0 => Word(c.v >> 25)
    case 1 => Word((c.v >> 20) & 31)
    case 2 => Word((c.v >> 15) & 31)
    case 3 => Word((c.v >> 10) & 31)
    case 4 => Word((c.v >> 5) & 31)
    case _ => Word(c.v & 31)
  }

  lemma UnpackIs(c: Word, k: nat)
    requires k < 6
    ensures Unpack(c, 6)[k] == Symbol(c, k)
  {
    var c1, c2, c3, c4, c5 := Rest(c), Rest(Rest(c)), Rest(Rest(Rest(c))), Rest(Rest(Rest(Rest(c)))),
      Rest(Rest(Rest(Rest(Rest(c)))));
    UnpackSix(c, c1, c2, c3, c4, c5);
    match k
    case 0 => Shifted5(c);
    case 1 => Shifted4(c);
    case 2 => Shifted3(c);
    case 3 => Shifted2(c);
    case _ =>
  }

  lemma UnpackSix(c: Word, c1: Word, c2: Word, c3: Word, c4: Word, c5: Word)
    requires c1 == Rest(c) && c2 == Rest(c1) && c3 == Rest(c2) && c4 == Rest(c3) && c5 == Rest(c4)
    ensures Unpack(c, 6) == [Last(c5), Last(c4), Last(c3), Last(c2), Last(c1), Last(c)]
  {
    hide Rest, Last;
    assert Unpack(c5, 0) == [];
    assert Unpack(c4, 2) == Unpack(c5, 1) + [Last(c4)];
    assert Unpack(c2, 4) == Unpack(c3, 3) + [Last(c2)];
  }

  lemma Shifted2(c: Word)
    ensures Last(Rest(Rest(c))) == Word((c.v >> 10) & 31)
  {}

  lemma Shifted3(c: Word)
    ensures Last(Rest(Rest(Rest(c)))) == Word((c.v >> 15) & 31)
  {}

  lemma Shifted4(c: Word)
    ensures Last(Rest(Rest(Rest(Rest(c))))) == Word((c.v >> 20) & 31)
  {}

  lemma Shifted5(c: Word)
    ensures Last(Rest(Rest(Rest(Rest(Rest(c)))))) == Word(c.v >> 25)
  {}

  lemma TopXor(a: Word, b: Word)
    ensures Symbol(Xor(a, b), 0) == Xor(Symbol(a, 0), Symbol(b, 0))
  {}

  lemma SecondXor(a: Word, b: Word)
    ensures Symbol(Xor(a, b), 1) == Xor(Symbol(a, 1), Symbol(b, 1))
  {}

  lemma ThirdXor(a: Word, b: Word)
    ensures Symbol(Xor(a, b), 2) == Xor(Symbol(a, 2), Symbol(b, 2))
  {}

  lemma FourthXor(a: Word, b: Word)
    ensures Symbol(Xor(a, b), 3) == Xor(Symbol(a, 3), Symbol(b, 3))
  {}

  lemma FifthXor(a: Word, b: Word)
    ensures Symbol(Xor(a, b), 4) == Xor(Symbol(a, 4), Symbol(b, 4))
  {}

  lemma LastXor(a: Word, b: Word)
    ensures Symbol(Xor(a, b), 5) == Xor(Symbol(a, 5), Symbol(b, 5))
  {}

  lemma SymbolXor(a: Word, b: Word, k: nat)
    requires k < 6
    ensures Symbol(Xor(a, b), k) == Xor(Symbol(a, k), Symbol(b, k))
  {
    hide Symbol, Xor;
    match k
    case 0 => TopXor(a, b);
    case 1 => SecondXor(a, b);
    case 2 => ThirdXor(a, b);
    case 3 => FourthXor(a, b);
    case 4 => FifthXor(a, b);
    case _ => LastXor(a, b);
  }

  lemma SymbolZero(k: nat)
    requires k < 6
    ensures Symbol(ZERO, k) == ZERO
  {}

  lemma Feedback0(k: nat)
    requires k < 6
    ensures Symbol(Generator(0), k) == Power(LOWER[k], 0)
  {}

  lemma Feedback1(k: nat)
    requires k < 6
    ensures Symbol(Generator(1), k) == Power(LOWER[k], 1)
  {}

  lemma Feedback2(k: nat)
    requires k < 6
    ensures Symbol(Generator(2), k) == Power(LOWER[k], 2)
  {}

  lemma Feedback3(k: nat)
    requires k < 6
    ensures Symbol(Generator(3), k) == Power(LOWER[k], 3)
  {}

  lemma Feedback4(k: nat)
    requires k < 6
    ensures Symbol(Generator(4), k) == Power(LOWER[k], 4)
  {}

  /** The constant for bit i is a^i times the generator's lower part. */
  lemma FeedbackIs(i: nat, k: nat)
    requires i < 5 && k < 6
    ensures Symbol(Generator(i), k) == Power(LOWER[k], i)
  {
    hide Symbol, Generator, Power;
    match i
    case 0 => Feedback0(k);
    case 1 => Feedback1(k);
    case 2 => Feedback2(k);
    case 3 => Feedback3(k);
    case _ => Feedback4(k);
  }

  lemma TopSymbol(c: Word, i: nat)
    requires i < 5
    ensures Bit(Symbol(c, 0), i) <==> TopBit(c, i)
  {}

  lemma {:induction false} SymbolTaps(start: Word, c: Word, n: nat, k: nat)
    requires n <= 5 && k < 6
    ensures Symbol(Taps(start, c, n), k) == Xor(Symbol(start, k), Partly(LOWER[k], Symbol(c, 0), n))
  {
    hide Symbol, Xor, Generator, Power, TopBit, Bit;
    if n == 0 {
      XorZero(Symbol(start, k));
    } else {
      var before, top := Taps(start, c, n - 1), Symbol(c, 0);
      SymbolTaps(start, c, n - 1, k);
      SymbolXor(before, Tap(c, n - 1), k);
      TopSymbol(c, n - 1);
      FeedbackIs(n - 1, k);
      SymbolZero(k);
      XorAssociates(Symbol(start, k), Partly(LOWER[k], top, n - 1), Term(LOWER[k], top, n - 1));
    }
  }

  lemma SymbolShift(c: Word, v: Word, k: nat)
    requires k < 6
    ensures Symbol(Shift(c, v), k) == Xor(if k < 5 then Symbol(c, k + 1) else ZERO, Symbol(v, k))
  {
    hide Symbol;
    ShiftApart(c, v);
    hide Xor, Shift;
    SymbolXor(Shift(c, ZERO), v, k);
    if k < 3 {
      HighSymbolShift(c, k);
    } else {
      LowSymbolShift(c, k);
    }
  }

  lemma ShiftApart(c: Word, v: Word)
    ensures Shift(c, v) == Xor(Shift(c, ZERO), v)
  {}

  lemma HighSymbolShift(c: Word, k: nat)
    requires k < 3
    ensures Symbol(Shift(c, ZERO), k) == Symbol(c, k + 1)
  {}

  lemma LowSymbolShift(c: Word, k: nat)
    requires 3 <= k < 6
    ensures Symbol(Shift(c, ZERO), k) == if k < 5 then Symbol(c, k + 1) else ZERO
  {}

  /** One step: the register times x, plus the value, less the generator its top symbol times. */
  lemma {:induction false} StepReduces(c: Word, v: Word)
    ensures var symbols := Unpack(c, 6);
      Unpack(Step(c, v), 6) == XorAll(XorAll(symbols[1..] + [ZERO], Unpack(v, 6)), Scaled(LOWER, symbols[0]))
  {
    hide Symbol, Xor, Taps, Shift, Times, Unpack;
    UnpackIs(c, 0);
    forall k | 0 <= k < 6
      ensures Unpack(Step(c, v), 6)[k] == Xor(
        Xor((Unpack(c, 6)[1..] + [ZERO])[k], Unpack(v, 6)[k]), Times(LOWER[k], Unpack(c, 6)[0]))
    {
      UnpackIs(Step(c, v), k);
      UnpackIs(v, k);
      if k < 5 {
        UnpackIs(c, k + 1);
      }
      SymbolShift(c, v, k);
      SymbolTaps(Shift(c, v), c, 5, k);
      TimesIs(LOWER[k], Symbol(c, 0));
    }
  }

  lemma TimesIs(p: Word, q: Word)
    ensures Times(p, q) == Partly(p, q, 5)
  {}

  // ---- a run is a remainder ----

  /** A polynomial times the generator. */
  function Multiple(q: seq<Word>): (r: seq<Word>)
    ensures |r| == |q| + 6
  {
    if q == [] then Zeros(6)
    else
      var n := |q| - 1;
      XorAll(Multiple(q[..n]) + [ZERO], Zeros(n) + Scaled(GENERATOR, q[n]))
  }

  /** x^n and the values below it, each at the power of its place from the end. A value of more
      than five bits reaches into the powers above. */
  function Polynomial(values: seq<Word>): (p: seq<Word>)
    ensures |p| == |values| + 6
  {
    if values == [] then Unpack(ONE, 6)
    else
      var n := |values| - 1;
      XorAll(Polynomial(values[..n]) + [ZERO], Zeros(n + 1) + Unpack(values[n], 6))
  }

  /** The symbols that left the register. */
  function Quotient(values: seq<Word>): (q: seq<Word>)
    ensures |q| == |values|
  {
    if values == [] then []
    else
      var n := |values| - 1;
      Quotient(values[..n]) + [Unpack(Run(ONE, values[..n]), 6)[0]]
  }

  /** p is q times the generator and r left over. */
  ghost predicate Divides(p: seq<Word>, q: seq<Word>, r: seq<Word>) {
    && |p| == |q| + 6 && |r| == 6 && AllSmall(q)
    && p == XorAll(Multiple(q), Zeros(|q|) + r)
  }

  lemma TimesOne(q: Word)
    requires q.v < 32
    ensures Times(Word(1), q) == q
  {
    var p := Word(1);
    PowersOfOne();
    assert Partly(p, q, 1) == Xor(ZERO, Term(p, q, 0));
    assert Partly(p, q, 2) == Xor(Partly(p, q, 1), Term(p, q, 1));
    assert Partly(p, q, 3) == Xor(Partly(p, q, 2), Term(p, q, 2));
    assert Partly(p, q, 4) == Xor(Partly(p, q, 3), Term(p, q, 3));
  }

  lemma PowersOfOne()
    ensures Power(Word(1), 0) == Word(1) && Power(Word(1), 1) == Word(2) && Power(Word(1), 2) == Word(4)
    ensures Power(Word(1), 3) == Word(8) && Power(Word(1), 4) == Word(16)
  {}

  lemma XorFour(a: Word, b: Word, c: Word, d: Word)
    ensures Xor(Xor(a, b), c) == Xor(Xor(a, d), Xor(Xor(b, c), d))
  {
    XorSwap(a, d, Xor(b, c), d);
    XorSelf(d);
    XorZero(Xor(a, Xor(b, c)));
    XorAssociates(a, b, c);
  }

  /** The symbol that leaves the register goes into the quotient. */
  lemma OneMoreValue(p: seq<Word>, q: seq<Word>, c: Word, v: Word)
    requires Divides(p, q, Unpack(c, 6))
    ensures Divides(XorAll(p + [ZERO], Zeros(|q| + 1) + Unpack(v, 6)), q + [Unpack(c, 6)[0]], Unpack(Step(c, v), 6))
  {
    hide Xor, Step, Unpack, Times, Divides;
    var n, r, top := |q|, Unpack(c, 6), Unpack(c, 6)[0];
    DividesMeans(p, q, r);
    UnpackSmall(c, 6);
    StepReduces(c, v);
    var more := q + [top];
    assert more[..n] == q;
    var raised := Multiple(q) + [ZERO];
    var scaled := Zeros(n) + Scaled(GENERATOR, top);
    assert Multiple(more) == XorAll(raised, scaled);
    var p' := XorAll(p + [ZERO], Zeros(n + 1) + Unpack(v, 6));
    var r' := Unpack(Step(c, v), 6);
    var kept := Zeros(n + 1) + r';
    forall j | 0 <= j < n + 7
      ensures p'[j] == Xor(Multiple(more)[j], kept[j])
    {
      if j < n {
        assert (p + [ZERO])[j] == Xor(Multiple(q)[j], ZERO);
      } else if j == n {
        assert scaled[n] == Times(Word(1), top);
        TimesOne(top);
        assert (p + [ZERO])[j] == Xor(raised[n], top) by {
          assert (p + [ZERO])[j] == if n < n + 6 then p[n] else ZERO;
        }
      } else {
        var k := j - n - 1;
        assert scaled[j] == Times(LOWER[k], top);
        assert r'[k] == Xor(Xor((r[1..] + [ZERO])[k], Unpack(v, 6)[k]), Times(LOWER[k], top));
        assert (p + [ZERO])[j] == Xor(raised[j], (r[1..] + [ZERO])[k]) by { XorZero(ZERO); }
        XorFour(raised[j], (r[1..] + [ZERO])[k], Unpack(v, 6)[k], Times(LOWER[k], top));
      }
    }
    assert p' == XorAll(Multiple(more), kept);
    DividesMeans(p', more, r');
  }

  lemma DividesMeans(p: seq<Word>, q: seq<Word>, r: seq<Word>)
    ensures Divides(p, q, r) <==>
      |p| == |q| + 6 && |r| == 6 && AllSmall(q) && p == XorAll(Multiple(q), Zeros(|q|) + r)
  {}

  /** What `_polymod` leaves is a remainder. */
  lemma {:induction false} RunDivides(values: seq<Word>)
    ensures Divides(Polynomial(values), Quotient(values), Unpack(Run(ONE, values), 6))
  {
    hide Divides, Step, Unpack;
    if values == [] {
      NothingDivides();
    } else {
      var n := |values| - 1;
      RunDivides(values[..n]);
      OneMoreValue(Polynomial(values[..n]), Quotient(values[..n]), Run(ONE, values[..n]), values[n]);
    }
  }

  lemma NothingDivides()
    ensures Divides(Unpack(ONE, 6), [], Unpack(ONE, 6))
  {
    hide Xor;
    forall k | 0 <= k < 6 ensures Xor(ZERO, Unpack(ONE, 6)[k]) == Unpack(ONE, 6)[k] {
      ZeroXor(Unpack(ONE, 6)[k]);
    }
    assert XorAll(Multiple([]), Zeros(0) + Unpack(ONE, 6)) == Unpack(ONE, 6);
  }

  // ---- the only one ----

  /** The generator is monic, so a multiple starts as its quotient does. */
  lemma {:induction false} MultipleStarts(q: seq<Word>, i: nat)
    requires AllSmall(q) && i < |q| && forall j :: 0 <= j < i ==> q[j] == ZERO
    ensures Multiple(q)[i] == q[i]
  {
    hide Xor, Times;
    var n := |q| - 1;
    if i < n {
      MultipleStarts(q[..n], i);
      XorZero(q[i]);
    } else {
      assert q[..n] == Zeros(n);
      MultipleOfZeros(n);
      TimesOne(q[n]);
      ZeroXor(q[n]);
    }
  }

  lemma {:induction false} MultipleOfZeros(n: nat)
    ensures Multiple(Zeros(n)) == Zeros(n + 6)
  {
    hide Xor, Times;
    if n > 0 {
      assert Zeros(n)[..n - 1] == Zeros(n - 1);
      MultipleOfZeros(n - 1);
      XorZero(ZERO);
      forall k | 0 <= k < 7 ensures Times(GENERATOR[k], ZERO) == ZERO {
        TimesZero(GENERATOR[k]);
      }
    }
  }

  lemma TimesZero(p: Word)
    ensures Times(p, ZERO) == ZERO
  {
    assert !Bit(ZERO, 0) && !Bit(ZERO, 1) && !Bit(ZERO, 2) && !Bit(ZERO, 3) && !Bit(ZERO, 4);
    hide Bit, Power;
    XorZero(ZERO);
    assert Partly(p, ZERO, 1) == ZERO;
    assert Partly(p, ZERO, 2) == ZERO;
    assert Partly(p, ZERO, 3) == ZERO;
    assert Partly(p, ZERO, 4) == ZERO;
  }

  lemma LowBitXor(p: Word, q: Word, n: nat)
    requires n < 2
    ensures Bit(Xor(p, q), n) <==> Bit(p, n) != Bit(q, n)
  {}

  lemma HighBitXor(p: Word, q: Word, n: nat)
    requires 2 <= n < 5
    ensures Bit(Xor(p, q), n) <==> Bit(p, n) != Bit(q, n)
  {}

  lemma BitXor(p: Word, q: Word, n: nat)
    requires n < 5
    ensures Bit(Xor(p, q), n) <==> Bit(p, n) != Bit(q, n)
  {
    hide Bit, Xor;
    if n < 2 {
      LowBitXor(p, q, n);
    } else {
      HighBitXor(p, q, n);
    }
  }

  lemma {:induction false} PartlyLinear(p: Word, a: Word, b: Word, n: nat)
    requires n <= 5
    ensures Partly(p, Xor(a, b), n) == Xor(Partly(p, a, n), Partly(p, b, n))
  {
    hide Xor, Bit, Power;
    if n == 0 {
      XorZero(ZERO);
    } else {
      PartlyLinear(p, a, b, n - 1);
      BitXor(a, b, n - 1);
      XorSelf(Power(p, n - 1));
      XorZero(Power(p, n - 1));
      ZeroXor(Power(p, n - 1));
      XorZero(ZERO);
      XorSwap(Partly(p, a, n - 1), Partly(p, b, n - 1), Term(p, a, n - 1), Term(p, b, n - 1));
    }
  }

  lemma {:induction false} MultipleLinear(p: seq<Word>, q: seq<Word>)
    requires |p| == |q|
    ensures Multiple(XorAll(p, q)) == XorAll(Multiple(p), Multiple(q))
  {
    hide Xor, Times;
    if p == [] {
      XorZero(ZERO);
      assert XorAll(p, q) == [];
    } else {
      var n := |p| - 1;
      MultipleLinear(p[..n], q[..n]);
      assert XorAll(p, q)[..n] == XorAll(p[..n], q[..n]);
      var a, b := Zeros(n) + Scaled(GENERATOR, p[n]), Zeros(n) + Scaled(GENERATOR, q[n]);
      forall j | 0 <= j < n + 7
        ensures Multiple(XorAll(p, q))[j] == Xor(Multiple(p)[j], Multiple(q)[j])
      {
        XorZero(ZERO);
        if j >= n {
          PartlyLinear(GENERATOR[j - n], p[n], q[n], 5);
          TimesIs(GENERATOR[j - n], p[n]);
          TimesIs(GENERATOR[j - n], q[n]);
          TimesIs(GENERATOR[j - n], Xor(p[n], q[n]));
        }
        XorSwap((Multiple(p[..n]) + [ZERO])[j], (Multiple(q[..n]) + [ZERO])[j], a[j], b[j]);
      }
    }
  }

  lemma XorCancels(a: Word, b: Word, c: Word)
    requires Xor(a, b) == Xor(a, c)
    ensures b == c
  {
    XorAssociates(a, a, b);
    XorAssociates(a, a, c);
    XorSelf(a);
    ZeroXor(b);
    ZeroXor(c);
  }

  lemma DividesAt(p: seq<Word>, q: seq<Word>, r: seq<Word>)
    requires Divides(p, q, r)
    ensures forall j :: 0 <= j < |q| ==> p[j] == Multiple(q)[j]
    ensures forall k :: 0 <= k < 6 ==> p[|q| + k] == Xor(Multiple(q)[|q| + k], r[k])
  {
    hide Xor, Multiple;
    forall j | 0 <= j < |q| ensures p[j] == Multiple(q)[j] {
      XorZero(Multiple(q)[j]);
    }
    assert forall k :: 0 <= k < 6 ==> (Zeros(|q|) + r)[|q| + k] == r[k];
  }

  /** One quotient and one remainder. */
  lemma DividesOnce(p: seq<Word>, q: seq<Word>, r: seq<Word>, q': seq<Word>, r': seq<Word>)
    requires Divides(p, q, r) && Divides(p, q', r')
    ensures q == q' && r == r'
  {
    DividesAt(p, q, r);
    DividesAt(p, q', r');
    hide Xor, Multiple;
    var n := |q|;
    SameStart(q, q', n);
    assert q == q[..n] && q' == q'[..n];
    forall k | 0 <= k < 6 ensures r[k] == r'[k] {
      XorCancels(Multiple(q)[n + k], r[k], r'[k]);
    }
  }

  /** Quotients whose multiples start alike are the same. */
  lemma {:induction false} SameStart(q: seq<Word>, q': seq<Word>, n: nat)
    requires |q| == |q'| && AllSmall(q) && AllSmall(q') && n <= |q|
    requires forall j :: 0 <= j < n ==> Multiple(q)[j] == Multiple(q')[j]
    ensures q[..n] == q'[..n]
  {
    hide Xor, Multiple;
    if n > 0 {
      var i := n - 1;
      SameStart(q, q', i);
      var d := XorAll(q, q');
      MultipleLinear(q, q');
      forall j | 0 <= j < |d| ensures d[j].v < 32 {
        XorSmall(q[j], q'[j]);
      }
      forall j | 0 <= j < i ensures d[j] == ZERO {
        assert q[j] == q[..i][j] && q'[j] == q'[..i][j];
        XorSelf(q[j]);
      }
      MultipleStarts(d, i);
      XorSelf(Multiple(q)[i]);
      XorDistinguishes(q[i], q'[i]);
      assert q[..n] == q[..i] + [q[i]] && q'[..n] == q'[..i] + [q'[i]];
    }
  }

  ghost predicate HasRemainder(p: seq<Word>, r: seq<Word>) {
    exists q :: Divides(p, q, r)
  }

  /** The register is the remainder of the values by the generator, and nothing else is. */
  lemma {:induction false} RunIsRemainder(values: seq<Word>, r: seq<Word>)
    ensures HasRemainder(Polynomial(values), r) <==> r == Unpack(Run(ONE, values), 6)
  {
    hide Divides, Polynomial, Unpack;
    RunDivides(values);
    forall q | Divides(Polynomial(values), q, r) ensures r == Unpack(Run(ONE, values), 6) {
      DividesOnce(Polynomial(values), q, r, Quotient(values), Unpack(Run(ONE, values), 6));
    }
  }

  /** x^n and below it values of five bits: the coefficients as they stand. */
  lemma {:induction false} SmallPolynomial(values: seq<Word>)
    requires AllSmall(values)
    ensures Polynomial(values) == Zeros(5) + [ONE] + values
  {
    hide Xor;
    if values == [] {
      UnpackSymbol(ONE);
    } else {
      hide Unpack, Polynomial;
      var n := |values| - 1;
      SmallPolynomial(values[..n]);
      OneMoreSmall(values);
      assert values == values[..n] + [values[n]];
    }
  }

  /** A small value comes in as the lowest coefficient. */
  lemma {:induction false} OneMoreSmall(values: seq<Word>)
    requires values != [] && values[|values| - 1].v < 32
    ensures Polynomial(values) == Polynomial(values[..|values| - 1]) + [values[|values| - 1]]
  {
    hide Xor, Unpack, XorAll, Zeros;
    var n := |values| - 1;
    var before, c := Polynomial(values[..n]), values[n];
    UnpackSymbol(c);
    ZerosAppend(n + 1, 5);
    assert Zeros(n + 1) + (Zeros(5) + [c]) == Zeros(n + 1) + Zeros(5) + [c];
    assert Polynomial(values) == XorAll(before + [ZERO], Zeros(|before|) + [c]);
    AddLast(before, c);
  }

  lemma ZerosAppend(m: nat, n: nat)
    ensures Zeros(m) + Zeros(n) == Zeros(m + n)
  {}

  lemma AddLast(p: seq<Word>, c: Word)
    ensures XorAll(p + [ZERO], Zeros(|p|) + [c]) == p + [c]
  {
    hide Xor;
    forall j | 0 <= j <= |p|
      ensures Xor((p + [ZERO])[j], (Zeros(|p|) + [c])[j]) == (p + [c])[j]
    {
      XorZero((p + [ZERO])[j]);
      ZeroXor(c);
    }
  }

  lemma UnpackSymbol(c: Word)
    requires c.v < 32
    ensures Unpack(c, 6) == Zeros(5) + [c]
  {
    assert Rest(c) == ZERO && Last(c) == c && Rest(ZERO) == ZERO && Last(ZERO) == ZERO;
    hide Rest, Last;
    UnpackSix(c, ZERO, ZERO, ZERO, ZERO, ZERO);
    assert Zeros(5) == [ZERO, ZERO, ZERO, ZERO, ZERO];
  }
}
