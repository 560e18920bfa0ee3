/** `_convert` of archive_keys.py (lines 68-82): the same bits cut into groups
    of another width, through one accumulator that is never cut short. */
module Regroup {
  import opened Common

  datatype PaddingError = InvalidPadding

  // ---- shifts and masks of unbounded numbers ----

  function Pow2(n: nat): (p: nat)
    ensures p > 0
  {
    if n == 0 then 1 else 2 * Pow2(n - 1)
  }

  /** `a << n`. */
  function Shl(a: nat, n: nat): nat {
    if n == 0 then a else 2 * Shl(a, n - 1)
  }

  /** `a >> n`. */
  function Shr(a: nat, n: nat): nat
    decreases n
  {
    if n == 0 then a else Shr(a / 2, n - 1)
  }

  /** `a & ((1 << n) - 1)`. */
  function Mask(a: nat, n: nat): nat
    decreases n
  {
    if n == 0 then 0 else 2 * Mask(a / 2, n - 1) + a % 2
  }

  lemma {:induction false} ShlSum(a: nat, m: nat, n: nat)
    ensures Shl(Shl(a, m), n) == Shl(a, m + n)
  {
    if n > 0 {
      ShlSum(a, m, n - 1);
    }
  }

  lemma {:induction false} ShlPlus(a: nat, b: nat, n: nat)
    ensures Shl(a + b, n) == Shl(a, n) + Shl(b, n)
  {
    if n > 0 {
      ShlPlus(a, b, n - 1);
    }
  }

  lemma {:induction false} ShlZero(a: nat, n: nat)
    ensures Shl(a, n) == 0 <==> a == 0
  {
    if n > 0 {
      ShlZero(a, n - 1);
    }
  }

  lemma {:induction false} ShrSum(a: nat, m: nat, n: nat)
    ensures Shr(Shr(a, m), n) == Shr(a, m + n)
    decreases m
  {
    if m > 0 {
      ShrSum(a / 2, m - 1, n);
    }
  }

  /** A number is its high part and its low bits. */
  lemma {:induction false} HighAndLow(a: nat, n: nat)
    ensures a == Shl(Shr(a, n), n) + Mask(a, n) && Mask(a, n) < Pow2(n)
    decreases n
  {
    if n > 0 {
      HighAndLow(a / 2, n - 1);
    }
  }

  /** They are the only pair that adds up. */
  lemma {:induction false} HighAndLowUnique(a: nat, n: nat, q: nat, r: nat)
    requires r < Pow2(n) && a == Shl(q, n) + r
    ensures Shr(a, n) == q && Mask(a, n) == r
    decreases n
  {
    if n > 0 {
      HighAndLowUnique(a / 2, n - 1, q, r / 2);
    }
  }

  lemma {:induction false} ShlBelow(a: nat, m: nat, n: nat)
    requires a < Pow2(m)
    ensures Shl(a, n) + Pow2(n) <= Pow2(m + n)
  {
    if n > 0 {
      ShlBelow(a, m, n - 1);
    }
  }

  lemma {:induction false} ShrBelow(a: nat, m: nat, n: nat)
    requires a < Pow2(m + n)
    ensures Shr(a, n) < Pow2(m)
    decreases n
  {
    if n > 0 {
      ShrBelow(a / 2, m, n - 1);
    }
  }

  // ---- groups of a width as one number ----

  ghost predicate AllBelow(data: seq<nat>, width: nat) {
    forall i :: 0 <= i < |data| ==> data[i] < Pow2(width)
  }

  /** The number whose base-2^width digits are the data, most significant first. */
  function Value(data: seq<nat>, width: nat): nat {
    if data == [] then 0
    else Shl(Value(data[..|data| - 1], width), width) + data[|data| - 1]
  }

  /** The n digits of v in base 2^width. */
  function Digits(v: nat, n: nat, width: nat): (ds: seq<nat>)
    ensures |ds| == n
    decreases n
  {
    if n == 0 then [] else Digits(Shr(v, width), n - 1, width) + [Mask(v, width)]
  }

  lemma {:induction false} DigitsBelow(v: nat, n: nat, width: nat)
    ensures AllBelow(Digits(v, n, width), width)
    decreases n
  {
    if n > 0 {
      DigitsBelow(Shr(v, width), n - 1, width);
      HighAndLow(v, width);
    }
  }

  /** A group of digits is determined by its value and its length. */
  lemma {:induction false} DigitsOfValue(data: seq<nat>, width: nat)
    requires AllBelow(data, width)
    ensures Digits(Value(data, width), |data|, width) == data
  {
    if data != [] {
      var n := |data| - 1;
      DigitsOfValue(data[..n], width);
      HighAndLowUnique(Value(data, width), width, Value(data[..n], width), data[n]);
    }
  }

  lemma {:induction false} ValueOfDigits(v: nat, n: nat, width: nat)
    requires v < Pow2(n * width)
    ensures Value(Digits(v, n, width), width) == v
    decreases n
  {
    if n > 0 {
      assert n * width == (n - 1) * width + width;
      ShrBelow(v, (n - 1) * width, width);
      ValueOfDigits(Shr(v, width), n - 1, width);
      assert Digits(v, n, width)[..n - 1] == Digits(Shr(v, width), n - 1, width);
      HighAndLow(v, width);
    } else {
      assert v < Pow2(0);
    }
  }

  lemma {:induction false} ValueBound(data: seq<nat>, width: nat)
    requires AllBelow(data, width)
    ensures Value(data, width) < Pow2(|data| * width)
  {
    if data != [] {
      var n := |data| - 1;
      ValueBound(data[..n], width);
      assert |data| * width == n * width + width;
      ShlBelow(Value(data[..n], width), n * width, width);
    }
  }

  lemma {:induction false} ValueBelow(data: seq<nat>, width: nat, total: nat)
    requires AllBelow(data, width) && total == |data| * width
    ensures Value(data, width) < Pow2(total)
  {
    ValueBound(data, width);
  }

  // ---- what the conversion returns ----

  /** The least number of groups of b that hold a. */
  function Groups(a: nat, b: nat): nat
    requires b > 0
  {
    (a + b - 1) / b
  }

  /** The bits of the data, read as one number, cut into groups of `tobits`: padded
      with zero bits on the right, or refused when the bits left over could be
      another whole value or are not all zero. */
  function Regrouped(data: seq<nat>, frombits: nat, tobits: nat, pad: bool): Result<seq<nat>, PaddingError>
    requires tobits > 0
  {
    var total := |data| * frombits;
    var v := Value(data, frombits);
    if pad then
      var n := Groups(total, tobits);
      GroupsBounds(total, tobits);
      Ok(Digits(Shl(v, n * tobits - total), n, tobits))
    else
      var left := total % tobits;
      if left >= frombits || Mask(v, left) != 0 then Err(InvalidPadding)
      else Ok(Digits(Shr(v, left), total / tobits, tobits))
  }

  lemma MulMonotone(a: nat, b: nat, c: nat)
    requires a <= b
    ensures a * c <= b * c
  {}

  lemma QuotientUnique(a: nat, b: nat, q: nat, r: nat)
    requires r < b && a == q * b + r
    ensures a / b == q && a % b == r
  {
    var s := a / b;
    assert a == s * b + a % b;
    assert (s + 1) * b == s * b + b && (q + 1) * b == q * b + b;
    if s < q {
      MulMonotone(s + 1, q, b);
    } else if q < s {
      MulMonotone(q + 1, s, b);
    }
  }

  lemma GroupsBounds(a: nat, b: nat)
    requires b > 0
    ensures a <= Groups(a, b) * b < a + b
  {}

  lemma GroupsUnique(a: nat, b: nat, n: nat)
    requires b > 0 && a <= n * b < a + b
    ensures Groups(a, b) == n
  {
    QuotientUnique(a + b - 1, b, n, a + b - 1 - n * b);
  }

  // ---- the loop ----

  /** One more value under the accumulator leaves the groups already cut as they were. */
  lemma AppendUnder(acc: nat, value: nat, frombits: nat, bits: nat)
    requires value < Pow2(frombits)
    ensures Shr(Shl(acc, frombits) + value, bits + frombits) == Shr(acc, bits)
  {
    HighAndLowUnique(Shl(acc, frombits) + value, frombits, acc, value);
    ShrSum(Shl(acc, frombits) + value, frombits, bits);
  }

  /** Cutting one more group moves its bits from under the accumulator. */
  lemma CutGroup(acc: nat, bits: nat, tobits: nat)
    ensures Shr(acc, bits) == Shl(Shr(acc, bits + tobits), tobits) + Mask(Shr(acc, bits), tobits)
    ensures Mask(Shr(acc, bits), tobits) < Pow2(tobits)
  {
    ShrSum(acc, bits, tobits);
    HighAndLow(Shr(acc, bits), tobits);
  }

  /** The bits left over, moved up to fill a group. */
  lemma PadGroup(acc: nat, bits: nat, tobits: nat)
    requires bits <= tobits
    ensures Shr(Shl(acc, tobits - bits), tobits) == Shr(acc, bits)
    ensures Mask(Shl(acc, tobits - bits), tobits) == Shl(Mask(acc, bits), tobits - bits)
    ensures Mask(Shl(acc, tobits - bits), tobits) < Pow2(tobits)
    ensures Mask(Shl(acc, tobits - bits), tobits) == 0 <==> Mask(acc, bits) == 0
  {
    var up := tobits - bits;
    HighAndLow(acc, bits);
    ShlSum(Shr(acc, bits), bits, up);
    ShlPlus(Shl(Shr(acc, bits), bits), Mask(acc, bits), up);
    ShlBelow(Mask(acc, bits), bits, up);
    HighAndLowUnique(Shl(acc, up), tobits, Shr(acc, bits), Shl(Mask(acc, bits), up));
    ShlZero(Mask(acc, bits), up);
  }

  lemma ValuePush(out: seq<nat>, d: nat, width: nat)
    ensures Value(out + [d], width) == Shl(Value(out, width), width) + d
  {
    assert (out + [d])[..|out|] == out;
  }

  lemma MulSucc(a: nat, b: nat)
    ensures (a + 1) * b == a * b + b
  {}

  lemma GroupLengths(groups: nat, tobits: nat, bits: nat, total: nat)
    requires bits < tobits && groups * tobits + bits == total
    ensures total / tobits == groups && total % tobits == bits
    ensures Groups(total, tobits) == if bits > 0 then groups + 1 else groups
    ensures bits > 0 ==> (groups + 1) * tobits - total == tobits - bits
  {
    QuotientUnique(total, tobits, groups, bits);
    MulSucc(groups, tobits);
    GroupsUnique(total, tobits, if bits > 0 then groups + 1 else groups);
  }

  /** The groups cut by the loop, with what is left over added or refused, are the result. */
  lemma {:induction false} LoopResult(data: seq<nat>, frombits: nat, tobits: nat, pad: bool, out: seq<nat>, bits: nat)
    requires AllBelow(out, tobits) && bits < tobits
    requires |out| * tobits + bits == |data| * frombits
    requires Value(out, tobits) == Shr(Value(data, frombits), bits)
    ensures Regrouped(data, frombits, tobits, pad) ==
      var last := Mask(Shl(Value(data, frombits), tobits - bits), tobits);
      if pad then Ok(if bits > 0 then out + [last] else out)
      else if bits >= frombits || last != 0 then Err(InvalidPadding)
      else Ok(out)
  {
    var v, total := Value(data, frombits), |data| * frombits;
    GroupLengths(|out|, tobits, bits, total);
    PadGroup(v, bits, tobits);
    DigitsOfValue(out, tobits);
    if pad && bits > 0 {
      assert Digits(Shl(v, tobits - bits), |out| + 1, tobits)
          == Digits(Shr(v, bits), |out|, tobits) + [Mask(Shl(v, tobits - bits), tobits)];
    }
  }

  /** `_convert`. The `|` of line 73 is a sum, as the value is below 2^frombits. */
  method Convert(data: seq<nat>, frombits: nat, tobits: nat, pad: bool)
    returns (r: Result<seq<nat>, PaddingError>)
    requires tobits > 0 && AllBelow(data, frombits)
    ensures r == Regrouped(data, frombits, tobits, pad)
  {
    var acc: nat, bits: nat := 0, 0;
    var out: seq<nat> := [];
    for i := 0 to |data|
      invariant acc == Value(data[..i], frombits)
      invariant bits < tobits && |out| * tobits + bits == i * frombits
      invariant AllBelow(out, tobits) && Value(out, tobits) == Shr(acc, bits)
    {
      AppendUnder(acc, data[i], frombits, bits);
      assert data[..i + 1][..i] == data[..i];
      acc := Shl(acc, frombits) + data[i];
      bits := bits + frombits;
      MulSucc(i, frombits);
      while bits >= tobits
        invariant |out| * tobits + bits == (i + 1) * frombits
        invariant AllBelow(out, tobits) && Value(out, tobits) == Shr(acc, bits)
      {
        bits := bits - tobits;
        var d := Mask(Shr(acc, bits), tobits);
        CutGroup(acc, bits, tobits);
        ValuePush(out, d, tobits);
        MulSucc(|out|, tobits);
        out := out + [d];
      }
    }
    assert data[..|data|] == data;
    LoopResult(data, frombits, tobits, pad, out, bits);
    if pad && bits > 0 {
      out := out + [Mask(Shl(acc, tobits - bits), tobits)];
    } else if !pad && (bits >= frombits || Mask(Shl(acc, tobits - bits), tobits) != 0) {
      return Err(InvalidPadding);
    }
    r := Ok(out);
  }

  // ---- bytes to symbols and back ----

  /** Cutting bytes into padded symbols and the symbols back into bytes returns the bytes. */
  lemma {:induction false} BytesToSymbolsAndBack(payload: seq<nat>)
    requires AllBelow(payload, 8)
    ensures Regrouped(payload, 8, 5, true).Ok?
    ensures AllBelow(Regrouped(payload, 8, 5, true).value, 5)
    ensures Regrouped(Regrouped(payload, 8, 5, true).value, 5, 8, false) == Ok(payload)
  {
    var total := |payload| * 8;
    var v := Value(payload, 8);
    GroupsBounds(total, 5);
    var n := Groups(total, 5);
    var k := n * 5 - total;
    DigitsBelow(Shl(v, k), n, 5);
    ValueBound(payload, 8);
    ShlBelow(v, total, k);
    ValueOfDigits(Shl(v, k), n, 5);
    QuotientUnique(n * 5, 8, |payload|, k);
    HighAndLowUnique(Shl(v, k), k, v, 0);
    DigitsOfValue(payload, 8);
  }

  /** The number of bytes read back and the bits left over. */
  lemma SymbolCounts(symbols: nat)
    requires symbols * 5 % 8 < 5
    ensures symbols * 5 == symbols * 5 / 8 * 8 + symbols * 5 % 8
    ensures Groups(symbols * 5 / 8 * 8, 5) == symbols
  {
    GroupsUnique(symbols * 5 / 8 * 8, 5, symbols);
  }

  lemma DropZeroBits(v: nat, n: nat, left: nat, total: nat)
    requires Mask(v, left) == 0 && v < Pow2(total) && total == n * 8 + left
    ensures Shl(Value(Digits(Shr(v, left), n, 8), 8), left) == v
  {
    HighAndLow(v, left);
    ShrBelow(v, n * 8, left);
    ValueOfDigits(Shr(v, left), n, 8);
  }

  lemma PaddedForm(payload: seq<nat>, n: nat, left: nat)
    requires Groups(|payload| * 8, 5) == n && |payload| * 8 + left == n * 5
    ensures Regrouped(payload, 8, 5, true) == Ok(Digits(Shl(Value(payload, 8), left), n, 5))
  {
    GroupsBounds(|payload| * 8, 5);
  }

  /** Symbols that are accepted as bytes are exactly the padded symbols of those bytes. */
  lemma {:induction false} SymbolsToBytesAndBack(data: seq<nat>, payload: seq<nat>)
    requires AllBelow(data, 5)
    requires Regrouped(data, 5, 8, false) == Ok(payload)
    ensures AllBelow(payload, 8)
    ensures Regrouped(payload, 8, 5, true) == Ok(data)
  {
    var total := |data| * 5;
    var n, left := total / 8, total % 8;
    var v := Value(data, 5);
    DigitsBelow(Shr(v, left), n, 8);
    ValueBelow(data, 5, total);
    DropZeroBits(v, n, left, total);
    SymbolCounts(|data|);
    PaddedForm(payload, |data|, left);
    DigitsOfValue(data, 5);
  }
}
