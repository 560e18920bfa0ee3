/** Fancy serial numbers (serials.py): the patterns of a serial's digits, and the stored
    text the item list filters with LIKE. */
module Serials {
  import opened Common
  import opened Calendar

  datatype Trait =
    | Solid | Ladder | Radar | SuperRadar | Repeater | SuperRepeater | Binary | Trinary
    | Low | High | DoubleQuad | Dated | Star

  /** In the order they are reported. */
  const ALL: seq<Trait> := [
    Solid, Ladder, Radar, SuperRadar, Repeater, SuperRepeater, Binary, Trinary, Low, High, DoubleQuad, Dated, Star]

  const MIN_DIGITS := 4

  // ---- the patterns ----

  type Digits = d: seq<nat> | forall i :: 0 <= i < |d| ==> d[i] < 10

  predicate AllSame(d: seq<nat>) {
    forall i :: 0 <= i < |d| ==> d[i] == d[0]
  }

  predicate Steps(d: seq<nat>, step: int) {
    forall i :: 0 <= i < |d| - 1 ==> d[i + 1] == d[i] + step
  }

  predicate Palindrome(d: seq<nat>) {
    forall i :: 0 <= i < |d| ==> d[i] == d[|d| - 1 - i]
  }

  predicate Periodic(d: seq<nat>, p: nat) {
    forall i :: 0 <= i < |d| - p ==> d[i] == d[i + p]
  }

  function Distinct(d: seq<nat>): set<nat> {
    set x | x in d
  }

  function Value(d: seq<nat>): nat {
    if d == [] then 0 else 10 * Value(d[..|d| - 1]) + d[|d| - 1]
  }

  predicate IsDay(year: nat, month: nat, day: nat) {
    1700 <= year <= 2099 && 1 <= month <= 12 && 1 <= day <= DaysIn(year, month)
  }

  /** MMDDYYYY or YYYYMMDD. */
  predicate ReadsAsDate(d: seq<nat>)
    requires |d| == 8
  {
    || IsDay(Value(d[4..]), Value(d[..2]), Value(d[2..4]))
    || IsDay(Value(d[..4]), Value(d[4..6]), Value(d[6..]))
  }

  predicate Has(t: Trait, d: seq<nat>, star: bool) {
    var n := |d|;
    if t.Star? then star
    else n >= MIN_DIGITS && match t
      case Solid => AllSame(d)
      case Ladder => Steps(d, 1) || Steps(d, -1)
      case Radar => Palindrome(d) && !AllSame(d[1..n - 1])
      case SuperRadar => Palindrome(d) && AllSame(d[1..n - 1]) && !AllSame(d)
      case Repeater => n % 2 == 0 && Periodic(d, n / 2) && !Periodic(d, 2)
      case SuperRepeater => n % 2 == 0 && Periodic(d, 2) && !AllSame(d)
      case Binary => n >= 6 && |Distinct(d)| == 2
      case Trinary => n == 8 && |Distinct(d)| == 3
      case Low => n >= 6 && 1 <= Value(d) <= 100
      case High => n == 8 && Value(d) >= 99999900
      case DoubleQuad => n == 8 && AllSame(d[..4]) && AllSame(d[4..]) && !AllSame(d)
      case Dated => n == 8 && ReadsAsDate(d)
      case Star => star
  }

  function Found(d: seq<nat>, star: bool): set<Trait> {
    set t | t in ALL && Has(t, d, star)
  }

  function Listed(order: seq<Trait>, found: set<Trait>): seq<Trait> {
    if order == [] then []
    else if order[0] in found then [order[0]] + Listed(order[1..], found)
    else Listed(order[1..], found)
  }

  function DigitsOf(text: string): (d: Digits) {
    if text == [] then []
    else if '0' <= text[0] <= '9' then [(text[0] - '0') as nat] + DigitsOf(text[1..])
    else DigitsOf(text[1..])
  }

  predicate Starred(text: string, replacement: bool) {
    replacement || '*' in text || '\U{2605}' in text
  }

  function TraitsOf(serial: Option<string>, replacement: bool): seq<Trait> {
    var text := if serial.Some? then serial.value else "";
    Listed(ALL, Found(DigitsOf(text), Starred(text, replacement)))
  }

  // ---- the code's tests are the patterns ----

  function Reversed(d: seq<nat>): seq<nat> {
    seq(|d|, i requires 0 <= i < |d| => d[|d| - 1 - i])
  }

  function Repeated(block: seq<nat>, times: nat): seq<nat> {
    if times == 0 then [] else block + Repeated(block, times - 1)
  }

  function Rise(d: seq<nat>, i: nat): int
    requires i + 1 < |d|
  {
    d[i + 1] as int - d[i] as int
  }

  function Differences(d: seq<nat>): set<int> {
    set i | 0 <= i < |d| - 1 :: Rise(d, i)
  }

  lemma OneDistinct(d: seq<nat>)
    requires d != []
    ensures |Distinct(d)| == 1 <==> AllSame(d)
  {
    if AllSame(d) {
      assert d[0] in d;
      assert Distinct(d) == {d[0]};
    }
    if |Distinct(d)| == 1 {
      assert d[0] in Distinct(d);
      forall i | 0 <= i < |d| ensures d[i] == d[0] {
        assert d[i] in Distinct(d);
        if d[i] != d[0] { MoreThanOne(Distinct(d), d[0], d[i]); }
      }
    }
  }

  lemma MoreThanOne<T>(s: set<T>, a: T, b: T)
    requires a in s && b in s && a != b
    ensures |s| >= 2
  {
    assert b in s - {a};
    assert |s| == 1 + |s - {a}|;
  }

  lemma OneDifference(d: seq<nat>, step: int)
    requires |d| >= 2
    ensures Differences(d) == {step} <==> Steps(d, step)
  {
    assert Rise(d, 0) in Differences(d);
    if Steps(d, step) {
      assert Differences(d) == {step};
    }
    if Differences(d) == {step} {
      forall i | 0 <= i < |d| - 1 ensures d[i + 1] == d[i] + step {
        assert Rise(d, i) in Differences(d);
      }
    }
  }

  lemma ReadsBackwards(d: seq<nat>)
    ensures d == Reversed(d) <==> Palindrome(d)
  {}

  /** A block repeated throughout is a period. */
  lemma {:induction false} RepeatsExactly(d: seq<nat>, p: nat, times: nat)
    requires 0 < p && 0 < times && p * times == |d|
    ensures p <= |d| && (Repeated(d[..p], times) == d <==> Periodic(d, p))
    decreases times
  {
    if times == 1 {
      assert Repeated(d[..p], 1) == d[..p] + [];
    } else {
      var block, rest := d[..p], d[p..];
      assert p * times == p + p * (times - 1);
      RepeatsExactly(rest, p, times - 1);
      assert d == block + rest;
      var again := Repeated(block, times - 1);
      assert Repeated(block, times) == block + again;
      if Periodic(d, p) {
        assert rest[..p] == block;
        assert Periodic(rest, p);
      }
      if Repeated(block, times) == d {
        assert again == d[p..];
        assert again == block + Repeated(block, times - 2);
        assert rest[..p] == block;
        forall i | 0 <= i < |d| - p ensures d[i] == d[i + p] {
          if i < p { assert d[i] == block[i] && d[i + p] == rest[i]; } else {
            assert d[i] == rest[i - p] && d[i + p] == rest[i]; }
        }
      }
    }
  }

  lemma {:induction false} Alternates(d: seq<nat>, i: nat)
    requires Periodic(d, 2) && i < |d|
    ensures d[i] == d[i % 2]
  {
    if i >= 2 {
      Alternates(d, i - 2);
      assert d[i - 2] == d[i - 2 + 2];
    }
  }

  /** `_is_date`: the two readings in turn. */
  method IsDate(d: Digits) returns (valid: bool)
    requires |d| == 8
    ensures valid == ReadsAsDate(d)
  {
    var readings := [(d[4..], d[..2], d[2..4]), (d[..4], d[4..6], d[6..])];
    for i := 0 to 2
      invariant forall j :: 0 <= j < i ==> !IsDay(Value(readings[j].0), Value(readings[j].1), Value(readings[j].2))
    {
      var year := Value(readings[i].0);
      if 1700 <= year <= 2099 {
        var month, day := Value(readings[i].1), Value(readings[i].2);
        if !(1 <= month <= 12 && 1 <= day <= DaysIn(year, month)) {
          continue;
        }
        return true;
      }
    }
    valid := false;
    assert !IsDay(Value(readings[0].0), Value(readings[0].1), Value(readings[0].2));
    assert !IsDay(Value(readings[1].0), Value(readings[1].1), Value(readings[1].2));
  }

  /** What the nested tests of `traits` add for the digits. */
  method Patterns(d: Digits) returns (found: set<Trait>)
    ensures forall t :: t in found <==> t != Star && Has(t, d, false)
  {
    hide Differences, Value, ReadsAsDate, Distinct, Palindrome, Periodic, Steps, AllSame;
    found := {};
    var n := |d|;
    if n < MIN_DIGITS {
      return;
    }
    var distinct := |Distinct(d)|;
    var solid := distinct == 1;
    OneDistinct(d);
    var steps := Differences(d);
    OneDifference(d, 1);
    OneDifference(d, -1);
    if solid {
      found := found + {Solid};
    }
    if steps in {{1}, {-1}} {
      found := found + {Ladder};
    }
    var turned := Turned(d, solid);
    found := found + turned;
    if distinct == 2 && n >= 6 {
      found := found + {Binary};
    }
    if distinct == 3 && n == 8 {
      found := found + {Trinary};
    }
    if n >= 6 && 1 <= Value(d) <= 100 {
      found := found + {Low};
    }
    if n == 8 {
      var more := EightDigits(d, solid);
      found := found + more;
    }
  }

  /** The patterns of a serial turned around or cut into blocks. */
  method Turned(d: Digits, solid: bool) returns (found: set<Trait>)
    requires |d| >= MIN_DIGITS && (solid <==> AllSame(d))
    ensures forall t :: t in found <==>
      (t == Radar || t == SuperRadar || t == Repeater || t == SuperRepeater) && Has(t, d, false)
  {
    hide Reversed, Repeated, Distinct, Palindrome, Periodic, AllSame;
    var n := |d|;
    found := {};
    ReadsBackwards(d);
    OneDistinct(d[1..n - 1]);
    SolidInside(d);
    if !solid && d == Reversed(d) {
      found := {if |Distinct(d[1..n - 1])| == 1 then SuperRadar else Radar};
    }
    if n % 2 == 0 {
      RepeatsExactly(d, 2, n / 2);
      RepeatsExactly(d, n / 2, 2);
    }
    if !solid && n % 2 == 0 {
      if Repeated(d[..2], n / 2) == d {
        found := found + {SuperRepeater};
      } else if Repeated(d[..n / 2], 2) == d {
        found := found + {Repeater};
      }
    }
  }

  /** The patterns only serials of eight digits have. */
  method EightDigits(d: Digits, solid: bool) returns (found: set<Trait>)
    requires |d| == 8 && (solid <==> AllSame(d))
    ensures forall t :: t in found <==> (t == High || t == DoubleQuad || t == Dated) && Has(t, d, false)
  {
    hide Value, ReadsAsDate, Distinct, AllSame;
    found := {};
    if Value(d) >= 99999900 {
      found := found + {High};
    }
    OneDistinct(d[..4]);
    OneDistinct(d[4..]);
    if !solid && |Distinct(d[..4])| == 1 && |Distinct(d[4..])| == 1 {
      found := found + {DoubleQuad};
    }
    var date := IsDate(d);
    if date {
      found := found + {Dated};
    }
  }

  /** A solid serial is a palindrome, has every period, and is solid inside. */
  lemma SolidInside(d: seq<nat>)
    requires |d| >= MIN_DIGITS
    ensures AllSame(d) ==> AllSame(d[1..|d| - 1]) && Periodic(d, 2)
  {}

  /** `traits`. */
  method Traits(serial: Option<string>, replacement: bool) returns (traits: seq<Trait>)
    ensures traits == TraitsOf(serial, replacement)
  {
    hide Has;
    var text := if serial.Some? then serial.value else "";
    var d := DigitsOf(text);
    var found := Patterns(d);
    if replacement || '*' in text || '\U{2605}' in text {
      found := found + {Star};
    }
    traits := Listed(ALL, found);
    StarAlone(d, Starred(text, replacement));
    EveryTrait();
    assert found == Found(d, Starred(text, replacement));
  }

  lemma StarAlone(d: seq<nat>, star: bool)
    ensures forall t :: Has(t, d, star) <==> if t == Star then star else Has(t, d, false)
  {}

  lemma EveryTrait()
    ensures forall t :: t in ALL
  {
    forall t ensures t in ALL {
      match t
      case Solid => assert ALL[0] == t;
      case Ladder => assert ALL[1] == t;
      case Radar => assert ALL[2] == t;
      case SuperRadar => assert ALL[3] == t;
      case Repeater => assert ALL[4] == t;
      case SuperRepeater => assert ALL[5] == t;
      case Binary => assert ALL[6] == t;
      case Trinary => assert ALL[7] == t;
      case Low => assert ALL[8] == t;
      case High => assert ALL[9] == t;
      case DoubleQuad => assert ALL[10] == t;
      case Dated => assert ALL[11] == t;
      case Star => assert ALL[12] == t;
    }
  }

  // ---- which patterns go together ----

  lemma {:induction false} StepsFromFirst(d: seq<nat>, step: int, i: nat)
    requires Steps(d, step) && i < |d|
    ensures d[i] == d[0] + step * i
  {
    if i > 0 {
      StepsFromFirst(d, step, i - 1);
      assert d[i - 1 + 1] == d[i - 1] + step;
    }
  }

  /** A ladder has ten digits at most: no ladder wraps around. */
  lemma {:induction false} LadderIsShort(d: Digits, star: bool)
    requires Has(Ladder, d, star)
    ensures |d| <= 10
  {
    if Steps(d, 1) {
      StepsFromFirst(d, 1, |d| - 1);
    } else {
      StepsFromFirst(d, -1, |d| - 1);
    }
  }

  lemma FourDistinct(s: set<nat>, a: nat, b: nat, c: nat, e: nat)
    requires a in s && b in s && c in s && e in s && a != b && a != c && a != e && b != c && b != e && c != e
    ensures |s| >= 4
  {
    assert {a, b, c, e} <= s;
    var rest := s - {a, b, c, e};
    assert s == {a, b, c, e} + rest;
  }

  lemma ValueOfFour(d: seq<nat>)
    requires |d| == 4
    ensures Value(d) == 1000 * d[0] + 100 * d[1] + 10 * d[2] + d[3]
  {
    assert d[..3][..2][..1][..0] == [];
    assert d[..3][..2][..1] == [d[0]] && Value([d[0]]) == d[0];
    assert d[..3][..2] == [d[0], d[1]] && Value([d[0], d[1]]) == 10 * d[0] + d[1];
    assert d[..3] == [d[0], d[1], d[2]];
  }

  /** No year of a date is part of a ladder of eight. */
  lemma LadderNotDated(d: Digits)
    requires |d| == 8 && (Steps(d, 1) || Steps(d, -1))
    ensures !ReadsAsDate(d)
  {
    ValueOfFour(d[..4]);
    ValueOfFour(d[4..]);
    var step := if Steps(d, 1) then 1 else -1;
    StepsFromFirst(d, step, 1);
    StepsFromFirst(d, step, 2);
    StepsFromFirst(d, step, 3);
    StepsFromFirst(d, step, 4);
    StepsFromFirst(d, step, 5);
    StepsFromFirst(d, step, 6);
    StepsFromFirst(d, step, 7);
  }

  lemma {:induction false} ValueAtLeast(d: seq<nat>, i: nat)
    requires i < |d|
    ensures Value(d) >= d[i]
    ensures |d| >= 4 && i + 4 == |d| ==> Value(d) >= 1000 * d[i]
  {
    var n := |d| - 1;
    if i < n {
      ValueAtLeast(d[..n], i);
      if i + 4 == |d| {
        assert Value(d[..n]) >= 100 * d[i] by { ThirdLast(d[..n]); }
      }
    }
  }

  lemma ThirdLast(d: seq<nat>)
    requires |d| >= 3
    ensures Value(d) >= 100 * d[|d| - 3]
  {
    var n := |d|;
    assert d[..n - 1][..n - 2] == d[..n - 2] && d[..n - 2][..n - 3] == d[..n - 3];
    assert Value(d[..n - 2]) == 10 * Value(d[..n - 3]) + d[n - 3];
    assert Value(d[..n - 1]) == 10 * Value(d[..n - 2]) + d[n - 2];
  }

  lemma LadderValue(d: Digits)
    requires |d| >= 6 && (Steps(d, 1) || Steps(d, -1))
    ensures Value(d) > 100
  {
    var n := |d|;
    ValueAtLeast(d, n - 4);
    ThirdLast(d[..n - 1]);
    var step := if Steps(d, 1) then 1 else -1;
    StepsFromFirst(d, step, n - 4);
    StepsFromFirst(d, step, n - 1);
  }

  lemma LadderNotHigh(d: Digits)
    requires |d| == 8 && (Steps(d, 1) || Steps(d, -1))
    ensures Value(d) < 99999900
  {
    ValueOfFour(d[..4]);
    HighParts(d);
    var step := if Steps(d, 1) then 1 else -1;
    StepsFromFirst(d, step, 1);
    StepsFromFirst(d, step, 2);
    StepsFromFirst(d, step, 3);
  }

  lemma HighParts(d: Digits)
    requires |d| == 8
    ensures Value(d) <= 10000 * Value(d[..4]) + 9999
  {
    assert d[..7][..6] == d[..6] && d[..6][..5] == d[..5] && d[..5][..4] == d[..4];
    assert Value(d) == 10 * Value(d[..7]) + d[7];
    assert Value(d[..7]) == 10 * Value(d[..6]) + d[6];
    assert Value(d[..6]) == 10 * Value(d[..5]) + d[5];
    assert Value(d[..5]) == 10 * Value(d[..4]) + d[4];
  }

  /** A ladder is nothing else, but for the star. */
  lemma {:induction false} LadderAlone(d: Digits, star: bool, t: Trait)
    requires Has(Ladder, d, star) && t != Ladder && t != Star
    ensures !Has(t, d, star)
  {
    var n := |d|;
    var step: int := if Steps(d, 1) then 1 else -1;
    assert d[0 + 1] == d[0] + step && d[1 + 1] == d[1] + step && d[2 + 1] == d[2] + step;
    StepsFromFirst(d, step, n - 1);
    FourDistinct(Distinct(d), d[0], d[1], d[2], d[3]);
    match t
    case Low => if n >= 6 { LadderValue(d); }
    case High => if n == 8 { LadderNotHigh(d); }
    case Dated => if n == 8 { LadderNotDated(d); }
    case DoubleQuad => if n == 8 { assert d[..4][1] != d[..4][0]; }
    case Repeater =>
      if n % 2 == 0 {
        StepsFromFirst(d, step, n / 2);
        assert d[0] != d[0 + n / 2];
      }
    case _ =>
  }

  /** A block of two throughout never reads the same backwards. */
  lemma {:induction false} SuperRepeaterNoRadar(d: seq<nat>, star: bool)
    requires Has(SuperRepeater, d, star)
    ensures !Has(Radar, d, star) && !Has(SuperRadar, d, star)
  {
    var n := |d|;
    if Palindrome(d) {
      Alternates(d, n - 1);
      assert d[0] == d[n - 1 - 0];
      forall i | 0 <= i < n ensures d[i] == d[0] { Alternates(d, i); }
    }
  }

  lemma TwoDistinct(d: seq<nat>, a: nat, b: nat)
    requires a in d && b in d && a != b && forall x :: x in d ==> x == a || x == b
    ensures |Distinct(d)| == 2
  {
    assert Distinct(d) == {a, b};
  }

  /** Two digits are all that a super repeater, a super radar or a double quad has. */
  lemma {:induction false} MadeOfTwo(d: seq<nat>, star: bool)
    requires Has(SuperRepeater, d, star) || Has(SuperRadar, d, star) || Has(DoubleQuad, d, star)
    ensures |Distinct(d)| == 2
    ensures Has(Binary, d, star) <==> |d| >= 6
  {
    var n := |d|;
    if Has(SuperRepeater, d, star) {
      forall i | 0 <= i < n ensures d[i] == d[0] || d[i] == d[1] { Alternates(d, i); }
      TwoDistinct(d, d[0], d[1]);
    } else if Has(SuperRadar, d, star) {
      forall i | 0 <= i < n ensures d[i] == d[0] || d[i] == d[1] {
        if 0 < i < n - 1 { assert d[i] == d[1..n - 1][i - 1]; }
      }
      TwoDistinct(d, d[0], d[1]);
    } else {
      forall i | 0 <= i < n ensures d[i] == d[0] || d[i] == d[4] {
        if i < 4 { assert d[i] == d[..4][i]; } else { assert d[i] == d[4..][i - 4]; }
      }
      TwoDistinct(d, d[0], d[4]);
    }
  }

  // ---- the stored text ----

  /** The keys of TRAITS. */
  function Name(t: Trait): string {
    match t
    case Solid => "solid"
    case Ladder => "ladder"
    case Radar => "radar"
    case SuperRadar => "super_radar"
    case Repeater => "repeater"
    case SuperRepeater => "super_repeater"
    case Binary => "binary"
    case Trinary => "trinary"
    case Low => "low"
    case High => "high"
    case DoubleQuad => "double_quad"
    case Dated => "date"
    case Star => "star"
  }

  function Names(traits: seq<Trait>): (names: seq<string>)
    ensures |names| == |traits|
    ensures forall i :: 0 <= i < |traits| ==> names[i] == Name(traits[i])
  {
    seq(|traits|, i requires 0 <= i < |traits| => Name(traits[i]))
  }

  /** Each name and the comma after it. */
  function Trailed(names: seq<string>): string {
    if names == [] then "" else names[0] + "," + Trailed(names[1..])
  }

  /** `encode`: the names joined, a comma before and after. */
  function Encode(names: seq<string>): Option<string> {
    if names == [] then None else Some("," + Trailed(names))
  }

  /** `stored.split(",")`. */
  function Split(text: string): seq<string> {
    if text == "" then [""]
    else if text[0] == ',' then [""] + Split(text[1..])
    else
      var rest := Split(text[1..]);
      if rest == [] then [[text[0]]] else [[text[0]] + rest[0]] + rest[1..]
  }

  function NonEmpty(parts: seq<string>): seq<string> {
    if parts == [] then []
    else if parts[0] == "" then NonEmpty(parts[1..])
    else [parts[0]] + NonEmpty(parts[1..])
  }

  /** `decode`. */
  function Decode(stored: Option<string>): seq<string> {
    NonEmpty(Split(if stored.Some? then stored.value else ""))
  }

  predicate Plain(name: string) {
    name != "" && ',' !in name
  }

  lemma {:induction false} SplitName(name: string, rest: string)
    requires ',' !in name
    ensures Split(name + "," + rest) == [name] + Split(rest)
  {
    var text := name + "," + rest;
    if name == "" {
      assert text == "," + rest;
      assert text[1..] == rest;
    } else {
      assert text[1..] == name[1..] + "," + rest;
      SplitName(name[1..], rest);
      assert [name[0]] + name[1..] == name;
    }
  }

  lemma {:induction false} DecodeTrailed(names: seq<string>)
    requires forall i :: 0 <= i < |names| ==> Plain(names[i])
    ensures NonEmpty(Split(Trailed(names))) == names
  {
    if names != [] {
      DecodeTrailed(names[1..]);
      SplitName(names[0], Trailed(names[1..]));
      assert ([names[0]] + Split(Trailed(names[1..])))[1..] == Split(Trailed(names[1..]));
    }
  }

  /** Decoding undoes encoding for any names without a comma. */
  lemma {:induction false} DecodeEncode(names: seq<string>)
    requires forall i :: 0 <= i < |names| ==> Plain(names[i])
    ensures Decode(Encode(names)) == names
  {
    if names == [] {
      assert Split("") == [""];
      assert NonEmpty([""]) == NonEmpty([]);
    } else {
      DecodeTrailed(names);
      var text := "," + Trailed(names);
      assert text[1..] == Trailed(names);
      assert ([""] + Split(Trailed(names)))[1..] == Split(Trailed(names));
    }
  }

  lemma NamePlain(t: Trait)
    ensures Plain(Name(t))
  {}

  /** What `traits` finds reads back from the stored text. */
  lemma {:induction false} StoredTraitsReadBack(serial: Option<string>, replacement: bool)
    ensures Decode(Encode(Names(TraitsOf(serial, replacement)))) == Names(TraitsOf(serial, replacement))
  {
    hide Name, TraitsOf;
    var names := Names(TraitsOf(serial, replacement));
    forall i | 0 <= i < |names| ensures Plain(names[i]) { NamePlain(TraitsOf(serial, replacement)[i]); }
    DecodeEncode(names);
  }

  // ---- the LIKE filter ----

  /** SQL's LIKE: `%` is any text, `_` any one character. */
  ghost predicate Like(text: string, pattern: string)
    decreases |pattern|
  {
    if pattern == "" then text == ""
    else if pattern[0] == '%' then exists k :: 0 <= k <= |text| && Like(text[k..], pattern[1..])
    else text != "" && (pattern[0] == '_' || text[0] == pattern[0]) && Like(text[1..], pattern[1..])
  }

  /** A pattern without `%` at a place of the text. */
  ghost predicate At(text: string, k: nat, pattern: string) {
    && k + |pattern| <= |text|
    && forall i :: 0 <= i < |pattern| ==> pattern[i] == '_' || text[k + i] == pattern[i]
  }

  lemma {:induction false} LikePrefix(text: string, pattern: string)
    requires '%' !in pattern
    ensures Like(text, pattern + "%") <==> At(text, 0, pattern)
  {
    if pattern == "" {
      assert pattern + "%" == "%";
      assert text[|text|..] == "";
      assert "%"[1..] == "" && Like("", "");
      if At(text, 0, pattern) { assert Like(text[|text|..], "%"[1..]); }
    } else {
      var all := pattern + "%";
      assert all[0] == pattern[0] && all[1..] == pattern[1..] + "%";
      if text != "" {
        LikePrefix(text[1..], pattern[1..]);
        if At(text[1..], 0, pattern[1..]) && (pattern[0] == '_' || text[0] == pattern[0]) {
          forall i | 0 <= i < |pattern| ensures pattern[i] == '_' || text[i] == pattern[i] {
            if i > 0 { assert pattern[1..][i - 1] == '_' || text[1..][0 + (i - 1)] == pattern[1..][i - 1]; }
          }
        }
        if At(text, 0, pattern) {
          forall i | 0 <= i < |pattern| - 1 ensures pattern[1..][i] == '_' || text[1..][0 + i] == pattern[1..][i] {
            assert pattern[i + 1] == '_' || text[0 + (i + 1)] == pattern[i + 1];
          }
        }
      }
    }
  }

  lemma {:induction false} LikeInside(text: string, pattern: string)
    requires '%' !in pattern
    ensures Like(text, "%" + pattern + "%") <==> exists k :: 0 <= k <= |text| && At(text, k, pattern)
  {
    var all := "%" + pattern + "%";
    assert all[0] == '%' && all[1..] == pattern + "%";
    forall k | 0 <= k <= |text|
      ensures Like(text[k..], all[1..]) <==> At(text, k, pattern)
    {
      LikePrefix(text[k..], pattern);
      AtShift(text, k, pattern);
    }
  }

  lemma {:induction false} AtShift(text: string, k: nat, pattern: string)
    requires k <= |text|
    ensures At(text[k..], 0, pattern) <==> At(text, k, pattern)
  {
    if At(text[k..], 0, pattern) {
      forall i | 0 <= i < |pattern| ensures pattern[i] == '_' || text[k + i] == pattern[i] {
        assert text[k..][0 + i] == text[k + i];
      }
    }
    if At(text, k, pattern) {
      forall i | 0 <= i < |pattern| ensures pattern[i] == '_' || text[k..][0 + i] == pattern[i] {
        assert text[k..][0 + i] == text[k + i];
      }
    }
  }

  /** The name could be taken for the trait's, its `_` standing for anything. */
  ghost predicate Passes(name: string, key: string) {
    |name| == |key| && forall i :: 0 <= i < |key| ==> key[i] == '_' || name[i] == key[i]
  }

  /** The trait's name goes on with a `_` where the name ends. */
  ghost predicate Continues(name: string, key: string) {
    && |name| < |key| && key[|name|] == '_'
    && forall i :: 0 <= i < |name| ==> key[i] == '_' || name[i] == key[i]
  }

  /** No trait's name passes for another's, or ends where another's goes on. */
  lemma {:induction false} NamesKeptApart(a: Trait, b: Trait)
    ensures Passes(Name(a), Name(b)) <==> a == b
    ensures !Continues(Name(a), Name(b))
  {
    var x, y := Name(a), Name(b);
    assert |x| >= 3 && |y| >= 3 && y[0] != '_' && y[1] != '_';
    assert (Passes(x, y) || Continues(x, y)) ==> x[0] == y[0] && x[1] == y[1];
  }

  /** The stored text of some traits, from one comma on. */
  function Stored(traits: seq<Trait>): string {
    "," + Trailed(Names(traits))
  }

  lemma StoredHead(traits: seq<Trait>)
    requires traits != []
    ensures Stored(traits) == "," + Name(traits[0]) + Stored(traits[1..])
  {
    hide Name;
    assert Names(traits)[1..] == Names(traits[1..]);
  }

  /** A longer key passes only where it goes on with a `_`. */
  lemma AtLonger(nm: string, key: string, rest: string)
    requires |nm| < |key| && ',' !in key && rest != "" && rest[0] == ','
    ensures At("," + nm + rest, 0, "," + key + ",") ==> Continues(nm, key)
  {
    var text, pattern := "," + nm + rest, "," + key + ",";
    var n := |nm|;
    assert key[n] in key;
    assert forall i :: 0 <= i <= n ==> pattern[i + 1] == key[i];
    assert forall i :: 0 <= i < n ==> text[i + 1] == nm[i];
    if At(text, 0, pattern) {
      assert pattern[n + 1] == '_' || text[0 + (n + 1)] == pattern[n + 1];
      forall i | 0 <= i < n ensures key[i] == '_' || nm[i] == key[i] {
        assert pattern[i + 1] == '_' || text[0 + (i + 1)] == pattern[i + 1];
      }
    }
  }

  lemma AtShorter(nm: string, key: string, rest: string)
    requires |key| < |nm| && ',' !in nm
    ensures !At("," + nm + rest, 0, "," + key + ",")
  {
    var text, pattern := "," + nm + rest, "," + key + ",";
    var m := |key|;
    assert nm[m] in nm;
    assert pattern[m + 1] == ',' && text[0 + (m + 1)] == nm[m];
  }

  /** The filter at the first comma: only the first trait's own name passes. */
  lemma AtHead(nm: string, key: string, rest: string)
    requires Plain(nm) && Plain(key) && !Continues(nm, key) && rest != "" && rest[0] == ','
    ensures At("," + nm + rest, 0, "," + key + ",") <==> Passes(nm, key)
  {
    if |nm| < |key| {
      AtLonger(nm, key, rest);
    } else if |key| < |nm| {
      AtShorter(nm, key, rest);
    } else {
      AtEqual(nm, key, rest);
    }
  }

  lemma AtEqual(nm: string, key: string, rest: string)
    requires |nm| == |key| && rest != "" && rest[0] == ','
    ensures At("," + nm + rest, 0, "," + key + ",") <==> Passes(nm, key)
  {
    var text, pattern := "," + nm + rest, "," + key + ",";
    var m := |key|;
    assert forall i :: 0 <= i < m ==> text[i + 1] == nm[i] && pattern[i + 1] == key[i];
    assert text[m + 1] == ',' && pattern[m + 1] == ',';
    if At(text, 0, pattern) {
      forall i | 0 <= i < m ensures key[i] == '_' || nm[i] == key[i] {
        assert pattern[i + 1] == '_' || text[0 + (i + 1)] == pattern[i + 1];
      }
    }
    if Passes(nm, key) {
      forall i | 0 <= i < |pattern| ensures pattern[i] == '_' || text[0 + i] == pattern[i] {
        if 0 < i <= m { assert key[i - 1] == '_' || nm[i - 1] == key[i - 1]; }
      }
    }
  }

  lemma NotInName(nm: string, key: string, rest: string, k: nat)
    requires Plain(nm) && 0 < k <= |nm|
    ensures !At("," + nm + rest, k, "," + key + ",")
  {
    var text, pattern := "," + nm + rest, "," + key + ",";
    assert nm[k - 1] in nm;
    assert pattern[0] == ',' && text[k + 0] == nm[k - 1];
  }

  lemma AtLater(nm: string, key: string, rest: string, k: nat)
    requires Plain(nm)
    ensures At("," + nm + rest, k, "," + key + ",") && k > 0 ==> k > |nm| && At(rest, k - |nm| - 1, "," + key + ",")
    ensures At(rest, k, "," + key + ",") ==> At("," + nm + rest, k + |nm| + 1, "," + key + ",")
  {
    var text, pattern := "," + nm + rest, "," + key + ",";
    var n := |nm|;
    assert text[n + 1..] == rest;
    if 0 < k <= n {
      NotInName(nm, key, rest, k);
    } else if At(text, k, pattern) && k > 0 {
      AtFrom(text, n + 1, k - n - 1, pattern);
    }
    if At(rest, k, pattern) {
      AtFrom(text, n + 1, k, pattern);
    }
  }

  lemma {:induction false} AtFrom(text: string, n: nat, k: nat, pattern: string)
    requires n <= |text|
    ensures At(text[n..], k, pattern) <==> At(text, n + k, pattern)
  {
    if At(text[n..], k, pattern) {
      forall i | 0 <= i < |pattern| ensures pattern[i] == '_' || text[n + k + i] == pattern[i] {
        assert text[n..][k + i] == text[n + (k + i)];
      }
    }
    if At(text, n + k, pattern) {
      forall i | 0 <= i < |pattern| ensures pattern[i] == '_' || text[n..][k + i] == pattern[i] {
        assert text[n..][k + i] == text[n + k + i];
      }
    }
  }

  ghost predicate Inside(text: string, pattern: string) {
    exists k :: 0 <= k <= |text| && At(text, k, pattern)
  }

  lemma InsideHead(nm: string, key: string, rest: string)
    requires Plain(nm) && Plain(key) && !Continues(nm, key) && rest != "" && rest[0] == ','
    ensures Inside("," + nm + rest, "," + key + ",") <==> Passes(nm, key) || Inside(rest, "," + key + ",")
  {
    hide Passes, Plain, Continues;
    var text, pattern := "," + nm + rest, "," + key + ",";
    AtHead(nm, key, rest);
    if Inside(text, pattern) {
      var k: nat :| k <= |text| && At(text, k, pattern);
      AtLater(nm, key, rest, k);
      if k > 0 {
        assert k > |nm| && At(rest, k - |nm| - 1, pattern);
        assert 0 <= k - |nm| - 1 <= |rest|;
      }
    }
    if Inside(rest, pattern) {
      var k: nat :| k <= |rest| && At(rest, k, pattern);
      AtLater(nm, key, rest, k);
      assert At(text, k + |nm| + 1, pattern) && 0 <= k + |nm| + 1 <= |text|;
    }
  }

  lemma {:induction false} InsideStored(traits: seq<Trait>, key: Trait)
    ensures Inside(Stored(traits), "," + Name(key) + ",") <==> key in traits
  {
    hide Name, At;
    NamePlain(key);
    if traits == [] {
      TooShort(Name(key));
    } else {
      var rest := Stored(traits[1..]);
      StoredHead(traits);
      InsideStored(traits[1..], key);
      NamePlain(traits[0]);
      NamesKeptApart(traits[0], key);
      StoredComma(traits[1..]);
      InsideHead(Name(traits[0]), Name(key), rest);
    }
  }

  lemma StoredComma(traits: seq<Trait>)
    ensures Stored(traits) != "" && Stored(traits)[0] == ','
  {
    hide Name;
  }

  lemma TooShort(key: string)
    requires Plain(key)
    ensures !Inside(Stored([]), "," + key + ",")
  {
    assert Stored([]) == ",";
  }

  /** The list filter finds a serial exactly when the trait is in its list. */
  lemma {:induction false} FilterFindsExactly(traits: seq<Trait>, key: Trait)
    requires traits != []
    ensures Like(Encode(Names(traits)).value, "%," + Name(key) + ",%") <==> key in traits
  {
    hide Name, At, Like;
    var pattern := "," + Name(key) + ",";
    NoPercent(key);
    assert Encode(Names(traits)).value == Stored(traits);
    assert "%," + Name(key) + ",%" == "%" + pattern + "%";
    LikeInside(Stored(traits), pattern);
    InsideStored(traits, key);
  }

  lemma NoPercent(key: Trait)
    ensures '%' !in "," + Name(key) + ","
  {}

  lemma {:induction false} ListedHas(order: seq<Trait>, found: set<Trait>, t: Trait)
    ensures t in Listed(order, found) <==> t in order && t in found
  {
    if order != [] {
      ListedHas(order[1..], found, t);
    }
  }

  /** From a serial to the filter: it is found under a trait exactly when it has the pattern. */
  lemma {:induction false} FoundUnderItsTraits(serial: Option<string>, replacement: bool, key: Trait)
    ensures var text := if serial.Some? then serial.value else "";
      var stored := Encode(Names(TraitsOf(serial, replacement)));
      (stored.Some? && Like(stored.value, "%," + Name(key) + ",%"))
      <==> Has(key, DigitsOf(text), Starred(text, replacement))
  {
    hide Name, Like, Has, Encode;
    var text := if serial.Some? then serial.value else "";
    var traits := TraitsOf(serial, replacement);
    EveryTrait();
    ListedHas(ALL, Found(DigitsOf(text), Starred(text, replacement)), key);
    EncodeNone(Names(traits));
    if traits != [] {
      FilterFindsExactly(traits, key);
    }
  }

  lemma {:induction false} EncodeNone(names: seq<string>)
    ensures Encode(names).None? <==> names == []
  {}
}
