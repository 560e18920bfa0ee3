/** The Bech32 checksum register of archive_keys.py (`_polymod`, lines 51-61):
    a 30-bit shift register with feedback, read one value at a time.

    A register value is wrapped in a one-field datatype so that proofs about
    whole runs treat it as a unit and only the small lemmas below look at bits. */
module Checksum {

  datatype Word = Word(v: bv30)

  const ZERO := Word(0)
  const ONE := Word(1)

  function Xor(p: Word, q: Word): Word {
    Word(p.v ^ q.v)
  }

  /** `_GEN`, the five feedback constants. */
  function Generator(i: nat): Word
    requires i < 5
  {
    match i
    case 0 => Word(0x3B6A57B2)
    case 1 => Word(0x26508E6D)
    case 2 => Word(0x1EA119FA)
    case 3 => Word(0x3D4233DD)
    case _ => Word(0x2A1462B3)
  }

  /** Bit i of `chk >> 25`. */
  predicate TopBit(chk: Word, i: nat)
    requires i < 5
  {
    match i
    case 0 => chk.v & 0x2000000 != 0
    case 1 => chk.v & 0x4000000 != 0
    case 2 => chk.v & 0x8000000 != 0
    case 3 => chk.v & 0x10000000 != 0
    case _ => chk.v & 0x20000000 != 0
  }

  function Tap(chk: Word, i: nat): Word
    requires i < 5
  {
    if TopBit(chk, i) then Generator(i) else ZERO
  }

  /** The first n feedback constants selected by the top bits of `top`, added to `chk`. */
  function Taps(chk: Word, top: Word, n: nat): Word
    requires n <= 5
  {
    if n == 0 then chk else Xor(Taps(chk, top, n - 1), Tap(top, n - 1))
  }

  function Shift(chk: Word, value: Word): Word {
    Word(((chk.v & 0x1FFFFFF) << 5) ^ value.v)
  }

  /** The register after one more value. */
  function Step(chk: Word, value: Word): Word {
    Taps(Shift(chk, value), chk, 5)
  }

  function Run(chk: Word, values: seq<Word>): Word {
    if values == [] then chk
    else Step(Run(chk, values[..|values| - 1]), values[|values| - 1])
  }

  /** `_polymod`: the register after all the values, from 1. */
  method Polymod(values: seq<Word>) returns (chk: Word)
    ensures chk == Run(ONE, values)
  {
    chk := ONE;
    for k := 0 to |values|
      invariant chk == Run(ONE, values[..k])
    {
      var top := chk;
      chk := Shift(chk, values[k]);
      for i := 0 to 5
        invariant chk == Taps(Shift(top, values[k]), top, i)
      {
        chk := Xor(chk, if TopBit(top, i) then Generator(i) else ZERO);
      }
      assert values[..k + 1][..k] == values[..k];
    }
    assert values[..|values|] == values;
  }

  // ---- exclusive or ----

  lemma XorSelf(p: Word)
    ensures Xor(p, p) == ZERO
  {}

  lemma XorZero(p: Word)
    ensures Xor(p, ZERO) == p
  {}

  lemma ZeroXor(p: Word)
    ensures Xor(ZERO, p) == p
  {}

  lemma XorCommutes(p: Word, q: Word)
    ensures Xor(p, q) == Xor(q, p)
  {}

  lemma XorAssociates(p: Word, q: Word, r: Word)
    ensures Xor(p, Xor(q, r)) == Xor(Xor(p, q), r)
  {}

  lemma XorDistinguishes(p: Word, q: Word)
    ensures Xor(p, q) == ZERO <==> p == q
  {}

  lemma XorSwap(p: Word, q: Word, r: Word, s: Word)
    ensures Xor(Xor(p, q), Xor(r, s)) == Xor(Xor(p, r), Xor(q, s))
  {
    XorAssociates(Xor(p, q), r, s);
    XorAssociates(p, q, r);
    XorCommutes(q, r);
    XorAssociates(p, r, q);
    XorAssociates(Xor(p, r), q, s);
  }

  // ---- the step is linear ----

  lemma TopBitLinear(a: Word, b: Word, i: nat)
    requires i < 5
    ensures TopBit(Xor(a, b), i) <==> TopBit(a, i) != TopBit(b, i)
  {}

  lemma TapLinear(a: Word, b: Word, i: nat)
    requires i < 5
    ensures Tap(Xor(a, b), i) == Xor(Tap(a, i), Tap(b, i))
  {
    TopBitLinear(a, b, i);
    XorSelf(Generator(i));
    XorZero(Generator(i));
    ZeroXor(Generator(i));
    XorZero(ZERO);
  }

  lemma {:induction false} TapsLinear(c: Word, d: Word, a: Word, b: Word, n: nat)
    requires n <= 5
    ensures Taps(Xor(c, d), Xor(a, b), n) == Xor(Taps(c, a, n), Taps(d, b, n))
  {
    if n > 0 {
      TapsLinear(c, d, a, b, n - 1);
      TapLinear(a, b, n - 1);
      XorSwap(Taps(c, a, n - 1), Taps(d, b, n - 1), Tap(a, n - 1), Tap(b, n - 1));
    }
  }

  lemma ShiftLinear(a: Word, b: Word, x: Word, y: Word)
    ensures Shift(Xor(a, b), Xor(x, y)) == Xor(Shift(a, x), Shift(b, y))
  {}

  /** One step over GF(2): the register of a sum is the sum of the registers. */
  lemma {:induction false} StepLinear(a: Word, b: Word, x: Word, y: Word)
    ensures Step(Xor(a, b), Xor(x, y)) == Xor(Step(a, x), Step(b, y))
  {
    ShiftLinear(a, b, x, y);
    TapsLinear(Shift(a, x), Shift(b, y), a, b, 5);
  }

  // ---- the step loses nothing ----

  lemma TapsFive(c: Word, p: Word)
    ensures Taps(c, p, 5)
         == Xor(Xor(Xor(Xor(Xor(c, Tap(p, 0)), Tap(p, 1)), Tap(p, 2)), Tap(p, 3)), Tap(p, 4))
  {
    assert Taps(c, p, 1) == Xor(c, Tap(p, 0));
    assert Taps(c, p, 2) == Xor(Taps(c, p, 1), Tap(p, 1));
    assert Taps(c, p, 3) == Xor(Taps(c, p, 2), Tap(p, 2));
    assert Taps(c, p, 4) == Xor(Taps(c, p, 3), Tap(p, 3));
  }

  /** The low five bits of the feedback constants are independent. */
  lemma FeedbackIndependent(b0: bool, b1: bool, b2: bool, b3: bool, b4: bool)
    requires (if b0 then 0x12 else 0 as bv5) ^ (if b1 then 0x0D else 0) ^ (if b2 then 0x1A else 0)
          ^ (if b3 then 0x1D else 0) ^ (if b4 then 0x13 else 0) == 0
    ensures !b0 && !b1 && !b2 && !b3 && !b4
  {}

  function Low(p: Word): bv5 {
    (p.v & 31) as bv5
  }

  lemma LowXor(p: Word, q: Word)
    ensures Low(Xor(p, q)) == Low(p) ^ Low(q)
  {}

  lemma LowShift(p: Word)
    ensures Low(Shift(p, ZERO)) == 0
  {}

  lemma LowTap(a: Word)
    ensures Low(Tap(a, 0)) == (if TopBit(a, 0) then 0x12 else 0)
    ensures Low(Tap(a, 1)) == (if TopBit(a, 1) then 0x0D else 0)
    ensures Low(Tap(a, 2)) == (if TopBit(a, 2) then 0x1A else 0)
    ensures Low(Tap(a, 3)) == (if TopBit(a, 3) then 0x1D else 0)
    ensures Low(Tap(a, 4)) == (if TopBit(a, 4) then 0x13 else 0)
  {}

  lemma NoTopBits(a: Word)
    requires !TopBit(a, 0) && !TopBit(a, 1) && !TopBit(a, 2) && !TopBit(a, 3) && !TopBit(a, 4)
    ensures a.v < 0x2000000
  {}

  lemma ShiftKeepsNonZero(a: Word)
    requires a.v < 0x2000000
    requires Shift(a, ZERO) == ZERO
    ensures a == ZERO
  {}

  lemma LowTaps(s: Word, t0: Word, t1: Word, t2: Word, t3: Word, t4: Word)
    ensures Low(Xor(Xor(Xor(Xor(Xor(s, t0), t1), t2), t3), t4))
         == Low(s) ^ Low(t0) ^ Low(t1) ^ Low(t2) ^ Low(t3) ^ Low(t4)
  {
    LowXor(s, t0);
    LowXor(Xor(s, t0), t1);
    LowXor(Xor(Xor(s, t0), t1), t2);
    LowXor(Xor(Xor(Xor(s, t0), t1), t2), t3);
    LowXor(Xor(Xor(Xor(Xor(s, t0), t1), t2), t3), t4);
  }

  lemma FeedbackVisible(a: Word)
    requires Step(a, ZERO) == ZERO
    ensures a.v < 0x2000000
  {
    TapsFive(Shift(a, ZERO), a);
    LowShift(a);
    LowTap(a);
    LowTaps(Shift(a, ZERO), Tap(a, 0), Tap(a, 1), Tap(a, 2), Tap(a, 3), Tap(a, 4));
    assert Low(ZERO) == 0;
    FeedbackIndependent(TopBit(a, 0), TopBit(a, 1), TopBit(a, 2), TopBit(a, 3), TopBit(a, 4));
    NoTopBits(a);
  }

  /** A register that is not zero never becomes zero on a zero value. */
  lemma {:induction false} StepKeepsNonZero(a: Word)
    requires Step(a, ZERO) == ZERO
    ensures a == ZERO
  {
    FeedbackVisible(a);
    SmallStep(a, ZERO);
    ShiftKeepsNonZero(a);
  }

  lemma ZeroSteps()
    ensures Step(ZERO, ZERO) == ZERO
  {
    SmallStep(ZERO, ZERO);
  }

  lemma SmallTap(a: Word, i: nat)
    requires a.v < 0x2000000 && i < 5
    ensures Tap(a, i) == ZERO
  {}

  /** While the top five bits are clear a step only shifts. */
  lemma SmallStep(a: Word, x: Word)
    requires a.v < 0x2000000
    ensures Step(a, x) == Shift(a, x)
  {
    TapsFive(Shift(a, x), a);
    SmallTap(a, 0); SmallTap(a, 1); SmallTap(a, 2); SmallTap(a, 3); SmallTap(a, 4);
    XorZero(Shift(a, x));
  }

  // ---- whole runs ----

  lemma {:induction false} RunAppend(chk: Word, xs: seq<Word>, ys: seq<Word>)
    ensures Run(chk, xs + ys) == Run(Run(chk, xs), ys)
  {
    if ys == [] {
      assert xs + ys == xs;
    } else {
      var n := |ys| - 1;
      assert (xs + ys)[..|xs + ys| - 1] == xs + ys[..n];
      RunAppend(chk, xs, ys[..n]);
    }
  }

  function XorAll(xs: seq<Word>, ys: seq<Word>): (zs: seq<Word>)
    requires |xs| == |ys|
    ensures |zs| == |xs|
  {
    seq(|xs|, i requires 0 <= i < |xs| => Xor(xs[i], ys[i]))
  }

  /** The checksum of a sum is the sum of the checksums, at every length. */
  lemma {:induction false} RunLinear(a: Word, b: Word, xs: seq<Word>, ys: seq<Word>)
    requires |xs| == |ys|
    ensures Run(Xor(a, b), XorAll(xs, ys)) == Xor(Run(a, xs), Run(b, ys))
  {
    if xs != [] {
      var n := |xs| - 1;
      RunLinear(a, b, xs[..n], ys[..n]);
      assert XorAll(xs, ys)[..n] == XorAll(xs[..n], ys[..n]);
      StepLinear(Run(a, xs[..n]), Run(b, ys[..n]), xs[n], ys[n]);
    }
  }

  function Zeros(n: nat): (zs: seq<Word>)
    ensures |zs| == n
  {
    seq(n, _ => ZERO)
  }

  lemma {:induction false} RunZeros(n: nat)
    ensures Run(ZERO, Zeros(n)) == ZERO
  {
    if n > 0 {
      assert Zeros(n)[..n - 1] == Zeros(n - 1);
      RunZeros(n - 1);
      ZeroSteps();
    }
  }

  lemma {:induction false} RunKeepsNonZero(a: Word, n: nat)
    requires a != ZERO
    ensures Run(a, Zeros(n)) != ZERO
  {
    if n > 0 {
      assert Zeros(n)[..n - 1] == Zeros(n - 1);
      RunKeepsNonZero(a, n - 1);
      if Step(Run(a, Zeros(n - 1)), ZERO) == ZERO {
        StepKeepsNonZero(Run(a, Zeros(n - 1)));
      }
    }
  }

  // ---- six symbols fill the register exactly ----

  /** Five-bit values, the only ones the data and checksum part ever holds. */
  ghost predicate AllSmall(xs: seq<Word>) {
    forall i :: 0 <= i < |xs| ==> xs[i].v < 32
  }

  /** The last n symbols of a register, as line 88 takes them for n = 6. */
  function Unpack(c: Word, n: nat): (xs: seq<Word>)
    ensures |xs| == n
    decreases n
  {
    if n == 0 then [] else Unpack(Rest(c), n - 1) + [Last(c)]
  }

  function Rest(c: Word): Word {
    Word(c.v >> 5)
  }

  function Last(c: Word): Word {
    Word(c.v & 31)
  }

  lemma {:induction false} UnpackSmall(c: Word, n: nat)
    ensures AllSmall(Unpack(c, n))
    decreases n
  {
    if n > 0 {
      UnpackSmall(Rest(c), n - 1);
      LastIsSmall(c);
    }
  }

  lemma LastIsSmall(c: Word)
    ensures Last(c).v < 32
  {}

  lemma UndoShift(a: Word, x: Word)
    requires a.v < 0x2000000 && x.v < 32
    ensures Rest(Shift(a, x)) == a && Last(Shift(a, x)) == x
  {}

  lemma RedoShift(c: Word)
    ensures Rest(c).v < 0x2000000
    ensures Shift(Rest(c), Last(c)) == c
  {}

  /** How many bits n symbols fill. */
  function Room(n: nat): bv30
    requires n <= 5
  {
    match n
    case 0 => 1
    case 1 => 0x20
    case 2 => 0x400
    case 3 => 0x8000
    case 4 => 0x100000
    case _ => 0x2000000
  }

  lemma ShiftGrows(a: Word, x: Word, n: nat)
    requires n < 5 && a.v < Room(n) && x.v < 32
    ensures Shift(a, x).v < Room(n + 1)
  {}

  lemma {:induction false} RunFillsRoom(xs: seq<Word>)
    requires |xs| <= 5 && AllSmall(xs)
    ensures Run(ZERO, xs).v < Room(|xs|) && Run(ZERO, xs).v < 0x2000000
  {
    if xs != [] {
      var n := |xs| - 1;
      RunFillsRoom(xs[..n]);
      SmallStep(Run(ZERO, xs[..n]), xs[n]);
      ShiftGrows(Run(ZERO, xs[..n]), xs[n], n);
    }
  }

  lemma UnpackShift(a: Word, x: Word, n: nat)
    requires a.v < 0x2000000 && x.v < 32
    ensures Unpack(Shift(a, x), n + 1) == Unpack(a, n) + [x]
  {
    UndoShift(a, x);
  }

  /** Reading at most six symbols into an empty register and unpacking it gives them back. */
  lemma {:induction false} UnpackRun(xs: seq<Word>)
    requires |xs| <= 6 && AllSmall(xs)
    ensures Unpack(Run(ZERO, xs), |xs|) == xs
  {
    if xs != [] {
      hide Shift, Step, Room, Unpack;
      var n := |xs| - 1;
      var before := Run(ZERO, xs[..n]);
      RunFillsRoom(xs[..n]);
      SmallStep(before, xs[n]);
      UnpackShift(before, xs[n], n);
      UnpackRun(xs[..n]);
      assert xs == xs[..n] + [xs[n]];
    }
  }

  lemma RestShrinks(c: Word, n: nat)
    requires n < 5 && c.v < Room(n + 1)
    ensures Rest(c).v < Room(n)
  {}

  lemma {:induction false} RunUnpackShort(c: Word, n: nat)
    requires n <= 5 && c.v < Room(n)
    ensures Run(ZERO, Unpack(c, n)) == c
    decreases n
  {
    if n > 0 {
      RestShrinks(c, n - 1);
      RunUnpackShort(Rest(c), n - 1);
      UnpackLast(c, n);
      RedoShift(c);
      SmallStep(Rest(c), Last(c));
    }
  }

  lemma UnpackLast(c: Word, n: nat)
    requires n > 0
    ensures Unpack(c, n)[..n - 1] == Unpack(Rest(c), n - 1)
    ensures Unpack(c, n)[n - 1] == Last(c)
  {}

  /** Unpacking six symbols and reading them into an empty register gives the register back. */
  lemma RunUnpack(c: Word)
    ensures Run(ZERO, Unpack(c, 6)) == c
  {
    RedoShift(c);
    RunUnpackShort(Rest(c), 5);
    UnpackLast(c, 6);
    SmallStep(Rest(c), Last(c));
  }

  // ---- the checksum ----

  /** The six symbols `bech32_encode` appends after a run that left `chk` (lines 87-88). */
  function CheckSymbols(chk: Word): (xs: seq<Word>)
    ensures |xs| == 6
  {
    Unpack(Xor(Run(chk, Zeros(6)), ONE), 6)
  }

  lemma {:induction false} XorAllZeros(xs: seq<Word>)
    ensures XorAll(Zeros(|xs|), xs) == xs
  {
    forall i | 0 <= i < |xs|
      ensures XorAll(Zeros(|xs|), xs)[i] == xs[i]
    {
      ZeroXor(xs[i]);
    }
  }

  lemma {:induction false} RunSplits(chk: Word, xs: seq<Word>)
    ensures Run(chk, xs) == Xor(Run(chk, Zeros(|xs|)), Run(ZERO, xs))
  {
    XorAllZeros(xs);
    XorZero(chk);
    RunLinear(chk, ZERO, Zeros(|xs|), xs);
  }

  /** Appending the check symbols always completes the checksum to 1. */
  lemma {:induction false} CheckSymbolsComplete(chk: Word)
    ensures Run(chk, CheckSymbols(chk)) == ONE
  {
    var left := Run(chk, Zeros(6));
    RunSplits(chk, CheckSymbols(chk));
    RunUnpack(Xor(left, ONE));
    XorAssociates(left, left, ONE);
    XorSelf(left);
    ZeroXor(ONE);
  }

  /** No other six symbols complete it. */
  lemma {:induction false} CheckSymbolsUnique(chk: Word, xs: seq<Word>)
    requires |xs| == 6 && AllSmall(xs)
    requires Run(chk, xs) == ONE
    ensures xs == CheckSymbols(chk)
  {
    var left := Run(chk, Zeros(6));
    RunSplits(chk, xs);
    XorAssociates(left, left, Run(ZERO, xs));
    XorSelf(left);
    ZeroXor(Run(ZERO, xs));
    assert Xor(left, ONE) == Run(ZERO, xs);
    UnpackRun(xs);
  }

  // ---- bursts ----

  lemma XorSmall(p: Word, q: Word)
    requires p.v < 32 && q.v < 32
    ensures Xor(p, q).v < 32
  {}

  /** A non-zero stretch of at most six symbols leaves a non-zero register. */
  lemma {:induction false} StretchNonZero(xs: seq<Word>)
    requires |xs| <= 6 && AllSmall(xs) && xs != Zeros(|xs|)
    ensures Run(ZERO, xs) != ZERO
  {
    UnpackRun(xs);
    if Run(ZERO, xs) == ZERO {
      RunZeros(|xs|);
      UnpackRun(Zeros(|xs|));
    }
  }

  ghost predicate DifferWithin(u: seq<Word>, v: seq<Word>, lo: nat, hi: nat) {
    && |u| == |v| && lo <= hi <= |u| && AllSmall(u) && AllSmall(v)
    && u[..lo] == v[..lo] && u[hi..] == v[hi..] && u != v
  }

  /** Their difference is zero but for the stretch. */
  lemma {:induction false} DifferenceIs(u: seq<Word>, v: seq<Word>, lo: nat, hi: nat)
    requires DifferWithin(u, v, lo, hi)
    ensures XorAll(u, v) == Zeros(lo) + XorAll(u[lo..hi], v[lo..hi]) + Zeros(|u| - hi)
  {
    hide Xor, AllSmall;
    var e := XorAll(u, v);
    forall i | 0 <= i < |e| && !(lo <= i < hi)
      ensures e[i] == ZERO
    {
      assert u[i] == if i < lo then u[..lo][i] else u[hi..][i - hi];
      assert v[i] == if i < lo then v[..lo][i] else v[hi..][i - hi];
      XorSelf(u[i]);
    }
    assert e == Zeros(lo) + XorAll(u[lo..hi], v[lo..hi]) + Zeros(|u| - hi);
  }

  /** And in the stretch it is small and not zero. */
  lemma {:induction false} StretchDiffers(u: seq<Word>, v: seq<Word>, lo: nat, hi: nat)
    requires DifferWithin(u, v, lo, hi)
    ensures var middle := XorAll(u[lo..hi], v[lo..hi]);
      AllSmall(middle) && middle != Zeros(hi - lo)
  {
    hide Xor;
    forall j | 0 <= j < lo ensures u[j] == v[j] {
      assert u[j] == u[..lo][j] && v[j] == v[..lo][j];
    }
    forall j | hi <= j < |u| ensures u[j] == v[j] {
      assert u[j] == u[hi..][j - hi] && v[j] == v[hi..][j - hi];
    }
    var i :| 0 <= i < |u| && u[i] != v[i];
    XorDistinguishes(u[i], v[i]);
    var middle := XorAll(u[lo..hi], v[lo..hi]);
    assert middle[i - lo] == Xor(u[i], v[i]) && middle[i - lo] != Zeros(hi - lo)[i - lo];
    forall j | lo <= j < hi ensures Xor(u[j], v[j]).v < 32 {
      XorSmall(u[j], v[j]);
    }
  }

  /** Two runs that differ only inside a stretch of six symbols end differently. */
  lemma {:induction false} BurstChangesRun(chk: Word, u: seq<Word>, v: seq<Word>, lo: nat, hi: nat)
    requires |u| == |v| && lo <= hi <= |u| && hi - lo <= 6
    requires AllSmall(u) && AllSmall(v)
    requires u[..lo] == v[..lo] && u[hi..] == v[hi..] && u != v
    ensures Run(chk, u) != Run(chk, v)
  {
    DifferenceIs(u, v, lo, hi);
    StretchDiffers(u, v, lo, hi);
    hide Xor, Run, XorAll;
    var middle := XorAll(u[lo..hi], v[lo..hi]);
    RunAppend(ZERO, Zeros(lo) + middle, Zeros(|u| - hi));
    RunAppend(ZERO, Zeros(lo), middle);
    RunZeros(lo);
    StretchNonZero(middle);
    RunKeepsNonZero(Run(ZERO, middle), |u| - hi);
    RunLinear(chk, chk, u, v);
    XorSelf(chk);
    XorDistinguishes(Run(chk, u), Run(chk, v));
  }
}
