/** Result types, decimal numerals and parts of strings shared by the modules, and a fact
    about sets. */
module Common {
  datatype Option<+T> = None | Some(value: T)

  datatype Result<+T, +E> = Ok(value: T) | Err(error: E)

  lemma {:induction false} SubsetSize<T>(a: set<T>, b: set<T>)
    requires a <= b
    ensures |a| <= |b|
  {
    if a != {} {
      var x :| x in a;
      SubsetSize(a - {x}, b - {x});
    }
  }

  predicate PartAt(text: string, k: nat, part: string) {
    k + |part| <= |text| && text[k..k + |part|] == part
  }

  /** `part in text`. */
  predicate Contains(text: string, part: string) {
    exists k :: 0 <= k <= |text| && PartAt(text, k, part)
  }

  function Digit(n: nat): char
    requires n < 10
  {
    '0' + n as char
  }

  /** `str` of a number. */
  function Decimal(n: nat): string {
    if n < 10 then [Digit(n)] else Decimal(n / 10) + [Digit(n % 10)]
  }

  lemma {:induction false} DecimalInjective(a: nat, b: nat)
    requires Decimal(a) == Decimal(b)
    ensures a == b
  {
    var s, t := Decimal(a), Decimal(b);
    assert s[|s| - 1] == t[|t| - 1];
    if a >= 10 && b >= 10 {
      assert s[..|s| - 1] == Decimal(a / 10) && t[..|t| - 1] == Decimal(b / 10);
      DecimalInjective(a / 10, b / 10);
    } else if a >= 10 {
      NotEmpty(a / 10);
    } else if b >= 10 {
      NotEmpty(b / 10);
    }
  }

  lemma NotEmpty(n: nat)
    ensures |Decimal(n)| > 0
  {}
}
