/** Which texts Bech32 writes: those whose values leave the remainder 1 in the code of BIP 173,
    section "Checksum design", and its test vector that spells every symbol, from its section
    "Test vectors". */
module Bech32Code {
  import opened Common
  import opened Checksum
  import opened Polynomials
  import opened Regroup
  import opened Bech32

  /** The human part and data of a text are accepted exactly when, as a polynomial, they leave 1. */
  lemma {:induction false} VerifiesExactly(hrp: string, data: seq<nat>)
    requires AllSymbols(data)
    ensures Verifies(hrp, data) <==> HasRemainder(Polynomial(HrpExpand(hrp) + Words(data)), Zeros(5) + [ONE])
  {
    hide Polynomial, HasRemainder, Unpack, HrpExpand;
    var values := HrpExpand(hrp) + Words(data);
    RunIsRemainder(values, Zeros(5) + [ONE]);
    UnpackSymbol(ONE);
    if Unpack(Run(ONE, values), 6) == Unpack(ONE, 6) {
      UnpackInjective(Run(ONE, values), ONE);
    }
  }

  lemma UnpackInjective(c: Word, d: Word)
    requires Unpack(c, 6) == Unpack(d, 6)
    ensures c == d
  {
    RunUnpack(c);
    RunUnpack(d);
  }

  /** The human part goes in as its characters' high parts, a zero, and their low five bits. */
  lemma {:induction false} ExpansionIs(hrp: string, i: nat)
    requires i < |hrp| && hrp[i] < '\U{400}'
    ensures var values := HrpExpand(hrp);
      && |values| == 2 * |hrp| + 1 && values[|hrp|] == ZERO && values[|hrp| + 1 + i].v < 32
      && values[i].v as int * 32 + values[|hrp| + 1 + i].v as int == hrp[i] as int
  {
    SmallToWord(hrp[i] as int / 32);
    SmallToWord(hrp[i] as int % 32);
  }

  // ---- what a text is refused for ----

  /** A human part, the last `1`, and at least six characters after it. */
  ghost predicate Parted(text: string, hrp: string, rest: string) {
    hrp != "" && '1' !in rest && |rest| >= 6 && text == hrp + "1" + rest
  }

  ghost predicate Spelled(text: string, hrp: string, data: seq<nat>) {
    hrp != "" && AllSymbols(data) && |data| >= 6 && text == Text(hrp, data)
  }

  /** The data before the check is some payload's. */
  ghost predicate OfPayload(data: seq<nat>, payload: seq<nat>) {
    Bytes(payload) && |data| >= 6 && DataOf(payload) == data[..|data| - 6]
  }

  lemma {:induction false} PartedExactly(text: string, hrp: string, rest: string)
    requires Parted(text, hrp, rest)
    ensures LastOne(text) == |hrp| && text[..|hrp|] == hrp && text[|hrp| + 1..] == rest
  {
    assert text[|hrp| + 1..] == rest;
    LastOneIs(text, |hrp|);
  }

  lemma {:induction false} AfterLastOne(text: string)
    requires LastOne(text) >= 0
    ensures LastOne(text) < |text| && '1' !in text[LastOne(text) + 1..]
  {
    if text[|text| - 1] != '1' {
      var shorter := text[..|text| - 1];
      AfterLastOne(shorter);
      assert text[LastOne(text) + 1..] == shorter[LastOne(text) + 1..] + [text[|text| - 1]];
    }
  }

  /** Without a separator, or with too little before or after it. */
  lemma {:induction false} NoSeparatorExactly(text: string)
    ensures DecodeLower(text) == Err(NoSeparator) <==> !exists hrp, rest :: Parted(text, hrp, rest)
  {
    hide Regrouped, Verifies, LastOne, ReadSymbols;
    LastOneFound(text);
    var pos := LastOne(text);
    if pos >= 1 && |text| - pos >= 7 {
      AfterLastOne(text);
      assert text == text[..pos] + "1" + text[pos + 1..];
      assert Parted(text, text[..pos], text[pos + 1..]);
    }
    forall hrp, rest | Parted(text, hrp, rest) ensures pos == |hrp| {
      PartedExactly(text, hrp, rest);
    }
  }

  /** With one, what follows it decides: a character that is no symbol, or else the values. */
  lemma {:induction false} PartedAnswers(text: string, hrp: string, rest: string)
    requires Parted(text, hrp, rest)
    ensures DecodeLower(text) == Err(BadCharacter) <==> !exists data :: Spelled(text, hrp, data)
    ensures forall data :: Spelled(text, hrp, data) ==> DecodeLower(text) == DecodeData(hrp, data)
  {
    hide Regrouped, Verifies, LastOne, ReadSymbols, DecodeData;
    PartedExactly(text, hrp, rest);
    forall data | Spelled(text, hrp, data)
      ensures ReadSymbols(rest) == Some(data) && DecodeLower(text) == DecodeData(hrp, data)
    {
      TextParts(hrp, data);
      ReadSpelled(data);
      DecodeText(hrp, data);
    }
    if ReadSymbols(rest).Some? {
      SpellRead(rest);
      assert Spelled(text, hrp, ReadSymbols(rest).value);
      DataNotCharacter(hrp, ReadSymbols(rest).value);
    }
  }

  lemma {:induction false} DataNotCharacter(hrp: string, data: seq<nat>)
    requires AllSymbols(data) && |data| >= 6
    ensures DecodeData(hrp, data) != Err(BadCharacter)
  {
    hide Regrouped, Verifies;
  }

  /** And of the values first the remainder, then the padding. */
  lemma {:induction false} DataAnswers(hrp: string, data: seq<nat>)
    requires AllSymbols(data) && |data| >= 6
    ensures var right := HasRemainder(Polynomial(HrpExpand(hrp) + Words(data)), Zeros(5) + [ONE]);
      && (DecodeData(hrp, data) == Err(BadChecksum) <==> !right)
      && (DecodeData(hrp, data) == Err(BadPadding) <==> right && !exists payload :: OfPayload(data, payload))
      && (forall payload :: OfPayload(data, payload) && right ==> DecodeData(hrp, data) == Ok(Decoded(hrp, payload)))
  {
    hide Polynomial, HasRemainder, HrpExpand, Verifies;
    VerifiesExactly(hrp, data);
    hide Regrouped;
    var front := data[..|data| - 6];
    if Regrouped(front, 5, 8, false).Ok? {
      CanonicalData(front, Regrouped(front, 5, 8, false).value);
      assert OfPayload(data, Regrouped(front, 5, 8, false).value);
    }
    forall payload | OfPayload(data, payload) ensures Regrouped(front, 5, 8, false) == Ok(payload) {
      BytesToSymbolsAndBack(payload);
    }
  }

  // ---- the test vector ----

  function Fed(c: bv30, bit: bv30, constant: bv30): bv30 {
    if c & bit != 0 then constant else 0
  }

  function Moved(c: bv30, v: bv30): bv30 {
    ((c & 0x1FFFFFF) << 5) ^ v
  }

  function Plus(a: bv30, b: bv30): bv30 {
    a ^ b
  }

  /** One step on plain bits. */
  function Next(c: bv30, v: bv30): bv30 {
    Plus(Plus(Plus(Plus(Plus(Moved(c, v), Fed(c, 0x2000000, 0x3B6A57B2)), Fed(c, 0x4000000, 0x26508E6D)),
      Fed(c, 0x8000000, 0x1EA119FA)), Fed(c, 0x10000000, 0x3D4233DD)), Fed(c, 0x20000000, 0x2A1462B3))
  }

  lemma FedIs(c: bv30)
    ensures Tap(Word(c), 0) == Word(Fed(c, 0x2000000, 0x3B6A57B2))
    ensures Tap(Word(c), 1) == Word(Fed(c, 0x4000000, 0x26508E6D))
    ensures Tap(Word(c), 2) == Word(Fed(c, 0x8000000, 0x1EA119FA))
    ensures Tap(Word(c), 3) == Word(Fed(c, 0x10000000, 0x3D4233DD))
    ensures Tap(Word(c), 4) == Word(Fed(c, 0x20000000, 0x2A1462B3))
  {}

  lemma PlusIs(a: bv30, b: bv30)
    ensures Xor(Word(a), Word(b)) == Word(Plus(a, b))
  {}

  lemma MovedIs(c: bv30, v: bv30)
    ensures Shift(Word(c), Word(v)) == Word(Moved(c, v))
  {}

  lemma NextIs(c: bv30, v: bv30)
    ensures Step(Word(c), Word(v)) == Word(Next(c, v))
  {
    hide Tap, Xor, Fed, Moved, Plus, Shift;
    FedIs(c);
    MovedIs(c, v);
    TapsFive(Shift(Word(c), Word(v)), Word(c));
    var n1 := Plus(Moved(c, v), Fed(c, 0x2000000, 0x3B6A57B2));
    var n2 := Plus(n1, Fed(c, 0x4000000, 0x26508E6D));
    var n3 := Plus(n2, Fed(c, 0x8000000, 0x1EA119FA));
    PlusIs(Moved(c, v), Fed(c, 0x2000000, 0x3B6A57B2));
    PlusIs(n1, Fed(c, 0x4000000, 0x26508E6D));
    PlusIs(n2, Fed(c, 0x8000000, 0x1EA119FA));
    PlusIs(n3, Fed(c, 0x10000000, 0x3D4233DD));
    PlusIs(Plus(n3, Fed(c, 0x10000000, 0x3D4233DD)), Fed(c, 0x20000000, 0x2A1462B3));
  }

  lemma {:induction false} ThreeMore(values: seq<Word>, i: nat, c: bv30, u: bv30, v: bv30, w: bv30, d: bv30)
    requires i + 3 <= |values| && values[i] == Word(u) && values[i + 1] == Word(v) && values[i + 2] == Word(w)
    requires Run(ONE, values[..i]) == Word(c) && Next(Next(Next(c, u), v), w) == d
    ensures Run(ONE, values[..i + 3]) == Word(d)
  {
    hide Next, Step;
    NextIs(c, u);
    NextIs(Next(c, u), v);
    NextIs(Next(Next(c, u), v), w);
    assert values[..i + 1][..i] == values[..i] && values[..i + 2][..i + 1] == values[..i + 1];
    assert values[..i + 3][..i + 2] == values[..i + 2];
    assert Run(ONE, values[..i + 1]) == Word(Next(c, u));
  }

  /** The values of the test vector. */
  ghost predicate Reads(values: seq<Word>) {
    && |values| == 51
    && (forall i :: 0 <= i < 6 ==> values[i] == Word(3)) && values[6] == ZERO
    && (forall i :: 7 <= i < 13 ==> values[i] == ToWord(i - 6))
    && (forall i :: 13 <= i < 45 ==> values[i] == ToWord(i - 13))
    && values[45] == Word(27) && values[46] == ZERO && values[47] == ZERO && values[48] == ZERO
    && values[49] == Word(6) && values[50] == Word(14)
  }

  lemma Steps1()
    ensures Next(0x1, 3) == 0x23 && Next(0x23, 3) == 0x463 && Next(0x463, 3) == 0x8C63
    ensures Next(0x8C63, 3) == 0x118C63 && Next(0x118C63, 3) == 0x2318C63 && Next(0x2318C63, 3) == 0x3D5BDBD1
    ensures Next(0x3D5BDBD1, 0) == 0x4DCBCD9 && Next(0x4DCBCD9, 1) == 0x3DC7154C && Next(0x3DC7154C, 2) == 0x17456F7B
  {}

  lemma {:induction false} Registers1(values: seq<Word>)
    requires Reads(values) && Run(ONE, values[..0]) == Word(0x1)
    ensures Run(ONE, values[..9]) == Word(0x17456F7B)
  {
    hide Run, Next;
    Steps1();
    ThreeMore(values, 0, 0x1, 3, 3, 3, 0x8C63);
    ThreeMore(values, 3, 0x8C63, 3, 3, 3, 0x3D5BDBD1);
    ThreeMore(values, 6, 0x3D5BDBD1, 0, 1, 2, 0x17456F7B);
  }

  lemma Steps2()
    ensures Next(0x17456F7B, 3) == 0x8D50561 && Next(0x8D50561, 4) == 0x401B5DE && Next(0x401B5DE, 5) == 0x266635A8
    ensures Next(0x266635A8, 6) == 0x3BE80E6A && Next(0x3BE80E6A, 0) == 0xF9CD266 && Next(0xF9CD266, 1) == 0x30018CE4
    ensures Next(0x30018CE4, 2) == 0x1767CDEC && Next(0x1767CDEC, 3) == 0xC815781 && Next(0xC815781, 4) == 0x28DB67B3
  {}

  lemma {:induction false} Registers2(values: seq<Word>)
    requires Reads(values) && Run(ONE, values[..9]) == Word(0x17456F7B)
    ensures Run(ONE, values[..18]) == Word(0x28DB67B3)
  {
    hide Run, Next;
    Steps2();
    ThreeMore(values, 9, 0x17456F7B, 3, 4, 5, 0x266635A8);
    ThreeMore(values, 12, 0x266635A8, 6, 0, 1, 0x30018CE4);
    ThreeMore(values, 15, 0x30018CE4, 2, 3, 4, 0x28DB67B3);
  }

  lemma Steps3()
    ensures Next(0x28DB67B3, 5) == 0x2FD98D2C && Next(0x2FD98D2C, 6) == 0x12BE0710 && Next(0x12BE0710, 7) == 0x11E88668
    ensures Next(0x11E88668, 8) == 0x52FED5 && Next(0x52FED5, 9) == 0xA5FDAA9 && Next(0xA5FDAA9, 10) == 0x2E301B62
    ensures Next(0x2E301B62, 11) == 0x2F8CCEDD && Next(0x2F8CCEDD, 12) == 0x1816793A
    ensures Next(0x1816793A, 13) == 0x212C0D6A
  {}

  lemma {:induction false} Registers3(values: seq<Word>)
    requires Reads(values) && Run(ONE, values[..18]) == Word(0x28DB67B3)
    ensures Run(ONE, values[..27]) == Word(0x212C0D6A)
  {
    hide Run, Next;
    Steps3();
    ThreeMore(values, 18, 0x28DB67B3, 5, 6, 7, 0x11E88668);
    ThreeMore(values, 21, 0x11E88668, 8, 9, 10, 0x2E301B62);
    ThreeMore(values, 24, 0x2E301B62, 11, 12, 13, 0x212C0D6A);
  }

  lemma Steps4()
    ensures Next(0x212C0D6A, 14) == 0xF95CFFD && Next(0xF95CFFD, 15) == 0x31223F8A && Next(0x31223F8A, 16) == 0x3311A03E
    ensures Next(0x3311A03E, 17) == 0xE08010D && Next(0xE08010D, 18) == 0x29BE197 && Next(0x29BE197, 19) == 0x28166541
    ensures Next(0x28166541, 20) == 0x3679D37D && Next(0x3679D37D, 21) == 0x556E704 && Next(0x556E704, 22) == 0xC8C6EFB
  {}

  lemma {:induction false} Registers4(values: seq<Word>)
    requires Reads(values) && Run(ONE, values[..27]) == Word(0x212C0D6A)
    ensures Run(ONE, values[..36]) == Word(0xC8C6EFB)
  {
    hide Run, Next;
    Steps4();
    ThreeMore(values, 27, 0x212C0D6A, 14, 15, 16, 0x3311A03E);
    ThreeMore(values, 30, 0x3311A03E, 17, 18, 19, 0x28166541);
    ThreeMore(values, 33, 0x28166541, 20, 21, 22, 0xC8C6EFB);
  }

  lemma Steps5()
    ensures Next(0xC8C6EFB, 23) == 0x297C48E0 && Next(0x297C48E0, 24) == 0x1B3C6751
    ensures Next(0x1B3C6751, 25) == 0x3F0597AC
    ensures Next(0x3F0597AC, 26) == 0x347F64D1 && Next(0x347F64D1, 27) == 0x3EEA4538
    ensures Next(0x3EEA4538, 28) == 0x9853657
    ensures Next(0x9853657, 29) == 0x2E07D307 && Next(0x2E07D307, 30) == 0x2975C268
    ensures Next(0x2975C268, 31) == 0x1A0D3656
  {}

  lemma {:induction false} Registers5(values: seq<Word>)
    requires Reads(values) && Run(ONE, values[..36]) == Word(0xC8C6EFB)
    ensures Run(ONE, values[..45]) == Word(0x1A0D3656)
  {
    hide Run, Next;
    Steps5();
    ThreeMore(values, 36, 0xC8C6EFB, 23, 24, 25, 0x3F0597AC);
    ThreeMore(values, 39, 0x3F0597AC, 26, 27, 28, 0x9853657);
    ThreeMore(values, 42, 0x9853657, 29, 30, 31, 0x1A0D3656);
  }

  lemma Steps6()
    ensures Next(0x1A0D3656, 27) == 0x192FB74E && Next(0x192FB74E, 0) == 0x615C3E7 && Next(0x615C3E7, 0) == 0x1F82A53F
    ensures Next(0x1F82A53F, 0) == 0xE8D5418 && Next(0xE8D5418, 6) == 0x12314323 && Next(0x12314323, 14) == 0x1
  {}

  lemma {:induction false} Registers6(values: seq<Word>)
    requires Reads(values) && Run(ONE, values[..45]) == Word(0x1A0D3656)
    ensures Run(ONE, values[..51]) == Word(0x1)
  {
    hide Run, Next;
    Steps6();
    ThreeMore(values, 45, 0x1A0D3656, 27, 0, 0, 0x1F82A53F);
    ThreeMore(values, 48, 0x1F82A53F, 0, 6, 14, 0x1);
  }

  lemma {:induction false} ReadsVerifies(values: seq<Word>)
    requires Reads(values)
    ensures Run(ONE, values) == ONE
  {
    assert values[..0] == [] && Run(ONE, []) == ONE;
    hide Run, Reads;
    Registers1(values);
    Registers2(values);
    Registers3(values);
    Registers4(values);
    Registers5(values);
    Registers6(values);
    assert values[..51] == values;
  }

  // ---- its parts ----

  const HUMAN := "abcdef"

  /** Every symbol once, in order. */
  function EverySymbol(): (data: seq<nat>)
    ensures |data| == 32 && AllSymbols(data)
  {
    seq(32, i => i)
  }

  const CHECK: seq<nat> := [27, 0, 0, 0, 6, 14]

  lemma HumanReads()
    ensures forall i :: 0 <= i < 6 ==> HrpExpand(HUMAN)[i] == Word(3)
    ensures HrpExpand(HUMAN)[6] == ZERO
    ensures forall i :: 7 <= i < 13 ==> HrpExpand(HUMAN)[i] == ToWord(i - 6)
  {
    assert HUMAN[0] == 'a' && HUMAN[1] == 'b' && HUMAN[2] == 'c';
    assert HUMAN[3] == 'd' && HUMAN[4] == 'e' && HUMAN[5] == 'f';
  }

  lemma CheckReads()
    ensures Words(CHECK) == [Word(27), Word(0), Word(0), Word(0), Word(6), Word(14)]
  {}

  lemma VectorReads()
    ensures Reads(HrpExpand(HUMAN) + Words(EverySymbol() + CHECK))
  {
    HumanReads();
    CheckReads();
    hide HrpExpand, ToWord;
    assert Words(EverySymbol() + CHECK) == Words(EverySymbol()) + Words(CHECK);
    assert forall i :: 0 <= i < 32 ==> Words(EverySymbol())[i] == ToWord(i);
    assert |HrpExpand(HUMAN)| == 13 by { HumanLength(); }
  }

  lemma HumanLength()
    ensures |HrpExpand(HUMAN)| == 13
  {}

  lemma VectorChecks()
    ensures CheckOf(HUMAN, EverySymbol()) == CHECK
  {
    hide Run, Reads, HrpExpand;
    VectorReads();
    ReadsVerifies(HrpExpand(HUMAN) + Words(EverySymbol() + CHECK));
    OnlyCheckVerifies(HUMAN, EverySymbol(), CHECK);
  }

  /** The bytes whose bits, five at a time, are every symbol in order. */
  const PAYLOAD: seq<nat> := [
    0x00, 0x44, 0x32, 0x14, 0xC7, 0x42, 0x54, 0xB6, 0x35, 0xCF,
    0x84, 0x65, 0x3A, 0x56, 0xD7, 0xC6, 0x75, 0xBE, 0x77, 0xDF]

  lemma ShlIs(a: nat)
    ensures Shl(a, 8) == 256 * a && Shl(a, 5) == 32 * a
  {
    assert Shl(a, 1) == 2 * a;
    assert Shl(a, 3) == 8 * a;
    assert Shl(a, 5) == 32 * a;
    assert Shl(a, 7) == 128 * a;
  }

  lemma {:induction false} OneDigit(data: seq<nat>, i: nat, width: nat)
    requires i < |data| && (width == 8 || width == 5)
    ensures Value(data[..i + 1], width) == (if width == 8 then 256 else 32) * Value(data[..i], width) + data[i]
  {
    assert data[..i + 1][..i] == data[..i];
    ShlIs(Value(data[..i], width));
  }

  lemma {:induction false} FiveBytes(data: seq<nat>, i: nat)
    requires i + 5 <= |data|
    ensures Value(data[..i + 5], 8) == 0x10000000000 * Value(data[..i], 8)
      + (((data[i] * 256 + data[i + 1]) * 256 + data[i + 2]) * 256 + data[i + 3]) * 256 + data[i + 4]
  {
    hide Value;
    OneDigit(data, i, 8); OneDigit(data, i + 1, 8); OneDigit(data, i + 2, 8);
    OneDigit(data, i + 3, 8); OneDigit(data, i + 4, 8);
  }

  lemma {:induction false} EightSymbols(data: seq<nat>, i: nat)
    requires i + 8 <= |data|
    ensures Value(data[..i + 8], 5) == 0x10000000000 * Value(data[..i], 5)
      + ((((((data[i] * 32 + data[i + 1]) * 32 + data[i + 2]) * 32 + data[i + 3]) * 32 + data[i + 4]) * 32
          + data[i + 5]) * 32 + data[i + 6]) * 32 + data[i + 7]
  {
    hide Value;
    OneDigit(data, i, 5); OneDigit(data, i + 1, 5); OneDigit(data, i + 2, 5); OneDigit(data, i + 3, 5);
    OneDigit(data, i + 4, 5); OneDigit(data, i + 5, 5); OneDigit(data, i + 6, 5); OneDigit(data, i + 7, 5);
  }

  /** One block of 40 bits, as five bytes and as eight symbols. */
  lemma Block(p: seq<nat>, i: nat, j: nat, bits: nat)
    requires i + 5 <= |p| && j + 8 <= 32 && Value(p[..i], 8) == Value(EverySymbol()[..j], 5)
    requires bits == (((p[i] * 256 + p[i + 1]) * 256 + p[i + 2]) * 256 + p[i + 3]) * 256 + p[i + 4]
    requires bits == ((((((j * 32 + j + 1) * 32 + j + 2) * 32 + j + 3) * 32 + j + 4) * 32
                       + j + 5) * 32 + j + 6) * 32 + j + 7
    ensures Value(p[..i + 5], 8) == Value(EverySymbol()[..j + 8], 5)
  {
    hide Value;
    FiveBytes(p, i);
    EightSymbols(EverySymbol(), j);
  }

  lemma PayloadAt()
    ensures PAYLOAD[0] == 0x00 && PAYLOAD[1] == 0x44 && PAYLOAD[2] == 0x32
    ensures PAYLOAD[3] == 0x14 && PAYLOAD[4] == 0xC7
    ensures PAYLOAD[5] == 0x42 && PAYLOAD[6] == 0x54 && PAYLOAD[7] == 0xB6
    ensures PAYLOAD[8] == 0x35 && PAYLOAD[9] == 0xCF
    ensures PAYLOAD[10] == 0x84 && PAYLOAD[11] == 0x65 && PAYLOAD[12] == 0x3A
    ensures PAYLOAD[13] == 0x56 && PAYLOAD[14] == 0xD7
    ensures PAYLOAD[15] == 0xC6 && PAYLOAD[16] == 0x75 && PAYLOAD[17] == 0xBE
    ensures PAYLOAD[18] == 0x77 && PAYLOAD[19] == 0xDF
  {}

  lemma PayloadValue()
    ensures Value(PAYLOAD, 8) == Value(EverySymbol(), 5)
  {
    var d := EverySymbol();
    PayloadAt();
    assert PAYLOAD[..0] == [] && d[..0] == [];
    assert Value([], 8) == 0 && Value([], 5) == 0;
    hide Value, EverySymbol;
    Block(PAYLOAD, 0, 0, 0x443214C7);
    Block(PAYLOAD, 5, 8, 0x4254B635CF);
    Block(PAYLOAD, 10, 16, 0x84653A56D7);
    Block(PAYLOAD, 15, 24, 0xC675BE77DF);
    assert PAYLOAD[..20] == PAYLOAD && d[..32] == d;
  }

  lemma PayloadBytes()
    ensures Bytes(PAYLOAD)
  {
    assert Pow2(8) == 256 by {
      assert Pow2(4) == 16;
    }
  }

  lemma PayloadIsEverySymbol()
    ensures Bytes(PAYLOAD) && DataOf(PAYLOAD) == EverySymbol()
  {
    PayloadBytes();
    PayloadValue();
    SymbolsAreBelow(EverySymbol());
    DigitsOfValue(EverySymbol(), 5);
    hide Value, Digits, EverySymbol;
    assert Groups(160, 5) == 32;
  }

  lemma EverySymbolSpelled()
    ensures Spell(EverySymbol()) == "qpzry9x8gf2tvdw0s3jn54khce6mua7l"
  {}

  lemma CheckSpelled()
    ensures Spell(CHECK) == "mqqqxw"
  {}

  /** The test vector: human part, separator, data and check. */
  lemma {:induction false} PublishedText()
    ensures Bytes(PAYLOAD)
    ensures Encode("abcdef", PAYLOAD) == "abcdef" + "1" + "qpzry9x8gf2tvdw0s3jn54khce6mua7l" + "mqqqxw"
  {
    PayloadIsEverySymbol();
    VectorChecks();
    EverySymbolSpelled();
    CheckSpelled();
    hide CheckOf, DataOf, EverySymbol;
    assert Spell(EverySymbol() + CHECK) == Spell(EverySymbol()) + Spell(CHECK);
  }
}
