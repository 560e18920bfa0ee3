/** Bech32 as archive_keys.py writes and reads it (lines 50-106): BIP 173,
    section "Bech32", without the 90-character limit, so every result below
    holds at every length. A payload is a sequence of bytes, given as numbers. */
module Bech32 {
  import opened Common
  import opened Checksum
  import opened Regroup

  datatype DecodeError = MixedCase | NoSeparator | BadCharacter | BadChecksum | BadPadding

  datatype Decoded = Decoded(hrp: string, payload: seq<nat>)

  const CHARSET := "qpzry9x8gf2tvdw0s3jn54khce6mua7l"

  // ---- characters ----

  function LowerChar(c: char): char {
    if 'A' <= c <= 'Z' then (c as int + 32) as char else c
  }

  function UpperChar(c: char): char {
    if 'a' <= c <= 'z' then (c as int - 32) as char else c
  }

  function Lower(text: string): (r: string)
    ensures |r| == |text|
  {
    seq(|text|, i requires 0 <= i < |text| => LowerChar(text[i]))
  }

  function Upper(text: string): (r: string)
    ensures |r| == |text|
  {
    seq(|text|, i requires 0 <= i < |text| => UpperChar(text[i]))
  }

  ghost predicate Ascii(text: string) {
    forall i :: 0 <= i < |text| ==> text[i] < '\U{80}'
  }

  /** `str.lower` and `str.upper`. */
  datatype CaseMaps = CaseMaps(lower: string -> string, upper: string -> string)

  /** On ASCII text they are the maps above; of other text nothing is known. */
  ghost predicate Fits(c: CaseMaps) {
    forall text :: Ascii(text) ==> c.lower(text) == Lower(text) && c.upper(text) == Upper(text)
  }

  type Casing = c: CaseMaps | Fits(c) witness CaseMaps(Lower, Upper)

  /** The position of c in the charset at or after i. */
  function IndexFrom(c: char, i: nat): Option<nat>
    requires i <= |CHARSET|
    decreases |CHARSET| - i
  {
    if i == |CHARSET| then None
    else if CHARSET[i] == c then Some(i)
    else IndexFrom(c, i + 1)
  }

  /** `_CHARSET.index(c)`, None where it raises. */
  function SymbolOf(c: char): Option<nat> {
    IndexFrom(c, 0)
  }

  function CharOf(d: nat): char
    requires d < 32
  {
    CHARSET[d]
  }

  lemma CharsetDistinct(i: nat, j: nat)
    requires i < j < 32
    ensures CHARSET[i] != CHARSET[j]
  {}

  lemma IndexFromFinds(d: nat, i: nat)
    requires i <= d < 32
    ensures IndexFrom(CharOf(d), i) == Some(d)
    decreases d - i
  {
    if i < d {
      CharsetDistinct(i, d);
      IndexFromFinds(d, i + 1);
    }
  }

  lemma SymbolOfChar(d: nat)
    requires d < 32
    ensures SymbolOf(CharOf(d)) == Some(d)
  {
    IndexFromFinds(d, 0);
  }

  lemma {:induction false} IndexFromSound(c: char, i: nat)
    requires i <= |CHARSET| && IndexFrom(c, i).Some?
    ensures IndexFrom(c, i).value < 32 && CharOf(IndexFrom(c, i).value) == c
    decreases |CHARSET| - i
  {
    if CHARSET[i] != c {
      IndexFromSound(c, i + 1);
    }
  }

  lemma CharsetPlain(d: nat)
    requires d < 32
    ensures CharOf(d) != '1' && LowerChar(CharOf(d)) == CharOf(d)
  {}

  // ---- text and symbols ----

  function ToWord(n: nat): Word
    requires n < 0x110000
  {
    Word(n as bv30)
  }

  lemma SmallToWord(n: nat)
    requires n < 32
    ensures ToWord(n).v < 32 && ToWord(n).v as int == n
  {}

  lemma WordToSmall(w: Word)
    requires w.v < 32
    ensures w.v as int < 32 && ToWord(w.v as int) == w
  {}

  ghost predicate AllSymbols(data: seq<nat>) {
    forall i :: 0 <= i < |data| ==> data[i] < 32
  }

  function Words(data: seq<nat>): (ws: seq<Word>)
    requires AllSymbols(data)
    ensures |ws| == |data|
  {
    seq(|data|, i requires 0 <= i < |data| => ToWord(data[i]))
  }

  function Numbers(ws: seq<Word>): (data: seq<nat>)
    requires AllSmall(ws)
    ensures |data| == |ws|
  {
    seq(|ws|, i requires 0 <= i < |ws| => ws[i].v as int)
  }

  lemma {:induction false} WordsAreSmall(data: seq<nat>)
    requires AllSymbols(data)
    ensures AllSmall(Words(data))
  {
    forall i | 0 <= i < |data|
      ensures Words(data)[i].v < 32
    {
      SmallToWord(data[i]);
    }
  }

  lemma WordsOfNumbers(ws: seq<Word>)
    requires AllSmall(ws)
    ensures AllSymbols(Numbers(ws)) && Words(Numbers(ws)) == ws
  {
    forall i | 0 <= i < |ws|
      ensures Numbers(ws)[i] < 32
    {
      WordToSmall(ws[i]);
    }
    forall i | 0 <= i < |ws|
      ensures Words(Numbers(ws))[i] == ws[i]
    {
      WordToSmall(ws[i]);
    }
  }

  lemma {:induction false} NumbersOfWords(data: seq<nat>)
    requires AllSymbols(data)
    ensures AllSmall(Words(data)) && Numbers(Words(data)) == data
  {
    WordsAreSmall(data);
    forall i | 0 <= i < |data|
      ensures Numbers(Words(data))[i] == data[i]
    {
      SmallToWord(data[i]);
    }
  }

  lemma {:induction false} WordsSlices(data: seq<nat>, lo: nat, hi: nat)
    requires AllSymbols(data) && lo <= hi <= |data|
    ensures Words(data)[..lo] == Words(data[..lo]) && Words(data)[hi..] == Words(data[hi..])
  {}

  lemma WordsInjective(u: seq<nat>, v: seq<nat>)
    requires AllSymbols(u) && AllSymbols(v) && Words(u) == Words(v)
    ensures u == v
  {
    NumbersOfWords(u);
    NumbersOfWords(v);
  }

  /** `"".join(_CHARSET[d] for d in data)`. */
  function Spell(data: seq<nat>): (text: string)
    requires AllSymbols(data)
    ensures |text| == |data|
  {
    seq(|data|, i requires 0 <= i < |data| => CharOf(data[i]))
  }

  /** `[_CHARSET.index(c) for c in rest]`, None where it raises. */
  function ReadSymbols(text: string): (r: Option<seq<nat>>)
    ensures r.Some? ==> |r.value| == |text|
  {
    if text == "" then Some([])
    else
      var before := ReadSymbols(text[..|text| - 1]);
      var last := SymbolOf(text[|text| - 1]);
      if before.Some? && last.Some? then Some(before.value + [last.value]) else None
  }

  lemma {:induction false} ReadSpelled(data: seq<nat>)
    requires AllSymbols(data)
    ensures ReadSymbols(Spell(data)) == Some(data)
  {
    if data != [] {
      var n := |data| - 1;
      assert Spell(data)[..n] == Spell(data[..n]);
      ReadSpelled(data[..n]);
      SymbolOfChar(data[n]);
      assert data == data[..n] + [data[n]];
    }
  }

  lemma {:induction false} SpellRead(text: string)
    requires ReadSymbols(text).Some?
    ensures AllSymbols(ReadSymbols(text).value) && Spell(ReadSymbols(text).value) == text
  {
    if text != "" {
      var n := |text| - 1;
      SpellRead(text[..n]);
      IndexFromSound(text[n], 0);
      var before, last := ReadSymbols(text[..n]).value, SymbolOf(text[n]).value;
      assert ReadSymbols(text).value == before + [last];
      assert Spell(before + [last]) == Spell(before) + [CharOf(last)];
    }
  }

  lemma {:induction false} SpelledIsPlain(data: seq<nat>)
    requires AllSymbols(data)
    ensures '1' !in Spell(data) && Lower(Spell(data)) == Spell(data)
  {
    forall i | 0 <= i < |data|
      ensures Spell(data)[i] != '1' && LowerChar(Spell(data)[i]) == Spell(data)[i]
    {
      CharsetPlain(data[i]);
    }
  }

  /** `text.rfind("1")`. */
  function LastOne(text: string): int {
    if text == "" then -1
    else if text[|text| - 1] == '1' then |text| - 1
    else LastOne(text[..|text| - 1])
  }

  lemma {:induction false} LastOneIs(text: string, pos: nat)
    requires pos < |text| && text[pos] == '1' && '1' !in text[pos + 1..]
    ensures LastOne(text) == pos
  {
    if pos < |text| - 1 {
      var shorter := text[..|text| - 1];
      assert text[|text| - 1] == text[pos + 1..][|text| - pos - 2];
      assert shorter[pos + 1..] == text[pos + 1..][..|text| - pos - 2];
      LastOneIs(shorter, pos);
    }
  }

  lemma {:induction false} LastOneFound(text: string)
    ensures -1 <= LastOne(text) < |text|
    ensures LastOne(text) >= 0 ==> text[LastOne(text)] == '1'
  {
    if text != "" && text[|text| - 1] != '1' {
      LastOneFound(text[..|text| - 1]);
    }
  }

  // ---- the codec ----

  /** `_hrp_expand`. */
  function HrpExpand(hrp: string): seq<Word> {
    seq(|hrp|, i requires 0 <= i < |hrp| => ToWord(hrp[i] as int / 32))
      + [ZERO]
      + seq(|hrp|, i requires 0 <= i < |hrp| => ToWord(hrp[i] as int % 32))
  }

  ghost predicate Bytes(payload: seq<nat>) {
    AllBelow(payload, 8)
  }

  lemma {:induction false} SymbolsAreBelow(data: seq<nat>)
    ensures AllBelow(data, 5) <==> AllSymbols(data)
  {
    assert Pow2(5) == 32 by {
      assert Pow2(3) == 8;
    }
  }

  /** The payload cut into five-bit symbols. */
  function DataOf(payload: seq<nat>): (data: seq<nat>)
    requires Bytes(payload)
    ensures AllSymbols(data)
  {
    BytesToSymbolsAndBack(payload);
    SymbolsAreBelow(Regrouped(payload, 8, 5, true).value);
    Regrouped(payload, 8, 5, true).value
  }

  /** The six symbols that follow the data. */
  function CheckOf(hrp: string, data: seq<nat>): (check: seq<nat>)
    requires AllSymbols(data)
    ensures |check| == 6 && AllSymbols(check)
  {
    var ws := CheckSymbols(Run(ONE, HrpExpand(hrp) + Words(data)));
    UnpackSmall(Xor(Run(Run(ONE, HrpExpand(hrp) + Words(data)), Zeros(6)), ONE), 6);
    WordsOfNumbers(ws);
    Numbers(ws)
  }

  /** `bech32_encode`. */
  function Encode(hrp: string, payload: seq<nat>): string
    requires Bytes(payload)
  {
    Text(hrp, DataOf(payload) + CheckOf(hrp, DataOf(payload)))
  }

  function Text(hrp: string, data: seq<nat>): string
    requires AllSymbols(data)
  {
    hrp + "1" + Spell(data)
  }

  predicate Verifies(hrp: string, data: seq<nat>)
    requires AllSymbols(data)
  {
    Run(ONE, HrpExpand(hrp) + Words(data)) == ONE
  }

  /** `bech32_decode`, its checks in the same order. */
  function Decode(casing: Casing, text: string): Result<Decoded, DecodeError> {
    if casing.lower(text) != text && casing.upper(text) != text then Err(MixedCase)
    else DecodeLower(casing.lower(text))
  }

  function DecodeLower(text: string): Result<Decoded, DecodeError> {
    var pos := LastOne(text);
    LastOneFound(text);
    if pos < 1 || |text| - pos < 7 then Err(NoSeparator)
    else
      var read := ReadSymbols(text[pos + 1..]);
      if read.None? then Err(BadCharacter)
      else
        SpellRead(text[pos + 1..]);
        DecodeData(text[..pos], read.value)
  }

  function DecodeData(hrp: string, data: seq<nat>): Result<Decoded, DecodeError>
    requires AllSymbols(data) && |data| >= 6
  {
    if !Verifies(hrp, data) then Err(BadChecksum)
    else
      match Regrouped(data[..|data| - 6], 5, 8, false)
      case Err(_) => Err(BadPadding)
      case Ok(payload) => Ok(Decoded(hrp, payload))
  }

  // ---- the code's own steps ----

  /** `check >> 5 * n`, n symbols at a time. */
  function DropSymbols(check: Word, n: nat): Word
    decreases n
  {
    if n == 0 then check else DropSymbols(Rest(check), n - 1)
  }

  lemma {:induction false} UnpackAt(check: Word, n: nat, i: nat)
    requires i < n
    ensures Unpack(check, n)[i] == Last(DropSymbols(check, n - 1 - i))
    decreases n
  {
    if i < n - 1 {
      UnpackAt(Rest(check), n - 1, i);
    }
  }

  method Bech32Encode(hrp: string, payload: seq<nat>) returns (text: string)
    requires Bytes(payload)
    ensures text == Encode(hrp, payload)
  {
    hide Regrouped, Run, Lower;
    var converted := Convert(payload, 8, 5, true);
    BytesToSymbolsAndBack(payload);
    var data := converted.value;
    SymbolsAreBelow(data);
    var check := Polymod(HrpExpand(hrp) + Words(data) + Zeros(6));
    RunAppend(ONE, HrpExpand(hrp) + Words(data), Zeros(6));
    check := Xor(check, ONE);
    UnpackSmall(check, 6);
    var symbols: seq<nat> := [];
    for i := 0 to 6
      invariant |symbols| == i && symbols == Numbers(Unpack(check, 6))[..i]
    {
      UnpackAt(check, 6, i);
      symbols := symbols + [Last(DropSymbols(check, 5 - i)).v as int];
    }
    assert symbols == CheckOf(hrp, data);
    text := hrp + "1" + Spell(data + symbols);
  }

  method Bech32Decode(casing: Casing, text: string) returns (r: Result<Decoded, DecodeError>)
    ensures r == Decode(casing, text)
  {
    hide Regrouped, Run, LastOne, ReadSymbols;
    if casing.lower(text) != text && casing.upper(text) != text {
      return Err(MixedCase);
    }
    var lower := casing.lower(text);
    var pos := LastOne(lower);
    LastOneFound(lower);
    if pos < 1 || |lower| - pos < 7 {
      return Err(NoSeparator);
    }
    var read := ReadSymbols(lower[pos + 1..]);
    if read.None? {
      return Err(BadCharacter);
    }
    SpellRead(lower[pos + 1..]);
    var data := read.value;
    var chk := Polymod(HrpExpand(lower[..pos]) + Words(data));
    if chk != ONE {
      return Err(BadChecksum);
    }
    SymbolsAreBelow(data[..|data| - 6]);
    var payload := Convert(data[..|data| - 6], 5, 8, false);
    match payload
    case Err(_) => r := Err(BadPadding);
    case Ok(bytes) => r := Ok(Decoded(lower[..pos], bytes));
  }

  // ---- case ----

  lemma {:induction false} CaseTwice(text: string)
    ensures Lower(Lower(text)) == Lower(text) && Upper(Upper(text)) == Upper(text)
    ensures Lower(Upper(text)) == Lower(text) && Upper(Lower(text)) == Upper(text)
  {}

  lemma {:induction false} CaseStaysAscii(text: string)
    ensures Ascii(Lower(text)) <==> Ascii(text)
    ensures Ascii(Upper(text)) <==> Ascii(text)
  {
    if Ascii(Lower(text)) {
      forall i | 0 <= i < |text| ensures text[i] < '\U{80}' {
        assert Lower(text)[i] == LowerChar(text[i]);
      }
    }
    if Ascii(Upper(text)) {
      forall i | 0 <= i < |text| ensures text[i] < '\U{80}' {
        assert Upper(text)[i] == UpperChar(text[i]);
      }
    }
  }

  // ---- round trip ----

  lemma {:induction false} CheckVerifies(hrp: string, data: seq<nat>)
    requires AllSymbols(data)
    ensures Verifies(hrp, data + CheckOf(hrp, data))
  {
    hide Run;
    var before := HrpExpand(hrp) + Words(data);
    var check := CheckOf(hrp, data);
    UnpackSmall(Xor(Run(Run(ONE, before), Zeros(6)), ONE), 6);
    WordsOfNumbers(CheckSymbols(Run(ONE, before)));
    assert HrpExpand(hrp) + Words(data + check) == before + Words(check);
    RunAppend(ONE, before, Words(check));
    CheckSymbolsComplete(Run(ONE, before));
  }

  lemma {:induction false} OnlyCheckVerifies(hrp: string, data: seq<nat>, check: seq<nat>)
    requires AllSymbols(data) && AllSymbols(check) && |check| == 6
    requires Verifies(hrp, data + check)
    ensures check == CheckOf(hrp, data)
  {
    var before := HrpExpand(hrp) + Words(data);
    assert HrpExpand(hrp) + Words(data + check) == before + Words(check);
    RunAppend(ONE, before, Words(check));
    WordsAreSmall(check);
    CheckSymbolsUnique(Run(ONE, before), Words(check));
    NumbersOfWords(check);
  }

  lemma {:induction false} TextIsLower(hrp: string, data: seq<nat>)
    requires Lower(hrp) == hrp && AllSymbols(data)
    ensures Lower(Text(hrp, data)) == Text(hrp, data)
  {
    SpelledIsPlain(data);
    assert Lower(Text(hrp, data)) == Lower(hrp) + "1" + Lower(Spell(data));
  }

  lemma {:induction false} TextIsAscii(hrp: string, data: seq<nat>)
    requires Ascii(hrp) && AllSymbols(data)
    ensures Ascii(Text(hrp, data))
  {
    forall i | 0 <= i < |data| ensures Spell(data)[i] < '\U{80}' {
      CharsetPlain(data[i]);
    }
  }

  lemma {:induction false} TextParts(hrp: string, data: seq<nat>)
    requires AllSymbols(data)
    ensures LastOne(Text(hrp, data)) == |hrp|
    ensures Text(hrp, data)[..|hrp|] == hrp && Text(hrp, data)[|hrp| + 1..] == Spell(data)
  {
    SpelledIsPlain(data);
    LastOneIs(Text(hrp, data), |hrp|);
  }

  /** What the decoder sees in a text, its case put aside. */
  lemma {:induction false} DecodeText(hrp: string, data: seq<nat>)
    requires hrp != "" && AllSymbols(data) && |data| >= 6
    ensures DecodeLower(Text(hrp, data)) == DecodeData(hrp, data)
  {
    TextParts(hrp, data);
    ReadSpelled(data);
  }

  /** Any non-empty human part, read back without regard to case. */
  lemma LowerRoundTrip(hrp: string, payload: seq<nat>)
    requires Bytes(payload) && hrp != ""
    ensures DecodeLower(Encode(hrp, payload)) == Ok(Decoded(hrp, payload))
  {
    var data := DataOf(payload);
    var check := CheckOf(hrp, data);
    CheckVerifies(hrp, data);
    BytesToSymbolsAndBack(payload);
    assert (data + check)[..|data + check| - 6] == data;
    DecodeText(hrp, data + check);
  }

  lemma EncodingCase(casing: Casing, hrp: string, payload: seq<nat>)
    requires Bytes(payload) && Ascii(hrp) && Lower(hrp) == hrp
    ensures var text := Encode(hrp, payload);
      && casing.lower(text) == text && casing.lower(Upper(text)) == text && casing.upper(Upper(text)) == Upper(text)
  {
    var data := DataOf(payload) + CheckOf(hrp, DataOf(payload));
    var text := Text(hrp, data);
    TextIsLower(hrp, data);
    TextIsAscii(hrp, data);
    CaseTwice(text);
    CaseStaysAscii(text);
  }

  /** Decoding an encoding, or its upper-case form, returns what was encoded. */
  lemma {:induction false} RoundTrip(casing: Casing, hrp: string, payload: seq<nat>)
    requires Bytes(payload) && hrp != "" && Ascii(hrp) && Lower(hrp) == hrp
    ensures Decode(casing, Encode(hrp, payload)) == Ok(Decoded(hrp, payload))
    ensures Decode(casing, Upper(Encode(hrp, payload))) == Ok(Decoded(hrp, payload))
  {
    hide Encode, DecodeLower, Fits;
    LowerRoundTrip(hrp, payload);
    EncodingCase(casing, hrp, payload);
  }

  // ---- canonical form ----

  /** A text with a separator taken apart. */
  lemma {:induction false} LowerParts(text: string) returns (hrp: string, data: seq<nat>)
    requires DecodeLower(text).Ok?
    ensures hrp != "" && AllSymbols(data) && |data| >= 6 && text == Text(hrp, data)
    ensures DecodeLower(text) == DecodeData(hrp, data)
  {
    hide DecodeData;
    LastOneFound(text);
    var pos := LastOne(text);
    hrp := text[..pos];
    data := ReadSymbols(text[pos + 1..]).value;
    SpellRead(text[pos + 1..]);
    assert text == text[..pos] + [text[pos]] + text[pos + 1..];
  }

  lemma CanonicalParts(hrp: string, all: seq<nat>, payload: seq<nat>)
    requires AllSymbols(all) && |all| >= 6
    requires DecodeData(hrp, all) == Ok(Decoded(hrp, payload))
    ensures Bytes(payload) && Encode(hrp, payload) == Text(hrp, all)
  {
    hide Run, Regrouped;
    var data, check := all[..|all| - 6], all[|all| - 6..];
    assert all == data + check;
    CanonicalData(data, payload);
    OnlyCheckVerifies(hrp, data, check);
  }

  /** A text that decodes is, in lower case, the one encoding of what it decodes to. */
  lemma {:induction false} Canonical(casing: Casing, text: string, hrp: string, payload: seq<nat>)
    requires Decode(casing, text) == Ok(Decoded(hrp, payload))
    ensures hrp != "" && Bytes(payload) && Encode(hrp, payload) == casing.lower(text)
  {
    var h, all := LowerParts(casing.lower(text));
    CanonicalParts(h, all, payload);
  }

  lemma {:induction false} CanonicalData(data: seq<nat>, payload: seq<nat>)
    requires AllSymbols(data) && Regrouped(data, 5, 8, false) == Ok(payload)
    ensures Bytes(payload) && DataOf(payload) == data
  {
    SymbolsAreBelow(data);
    SymbolsToBytesAndBack(data, payload);
  }

  ghost predicate IsEncoding(text: string, hrp: string, payload: seq<nat>) {
    hrp != "" && Bytes(payload) && text == Encode(hrp, payload)
  }

  /** A text is accepted exactly when it is in one case and, in lower case, an encoding. */
  lemma {:induction false} AcceptedExactly(casing: Casing, text: string)
    ensures Decode(casing, text).Ok? <==>
      && (casing.lower(text) == text || casing.upper(text) == text)
      && exists hrp, payload :: IsEncoding(casing.lower(text), hrp, payload)
  {
    hide Encode, DecodeLower, Fits;
    if Decode(casing, text).Ok? {
      var Decoded(hrp, payload) := Decode(casing, text).value;
      Canonical(casing, text, hrp, payload);
      assert IsEncoding(casing.lower(text), hrp, payload);
    }
    forall hrp, payload | IsEncoding(casing.lower(text), hrp, payload)
      ensures DecodeLower(casing.lower(text)).Ok?
    {
      LowerRoundTrip(hrp, payload);
    }
  }

  /** The ASCII texts that should decode: the encodings and their upper-case forms. */
  ghost predicate IsAsciiEncoding(text: string, hrp: string, payload: seq<nat>) {
    hrp != "" && Ascii(hrp) && Lower(hrp) == hrp && Bytes(payload)
    && (text == Encode(hrp, payload) || text == Upper(Encode(hrp, payload)))
  }

  /** Of ASCII texts exactly those are accepted. */
  lemma {:induction false} AsciiAcceptedExactly(casing: Casing, text: string)
    requires Ascii(text)
    ensures Decode(casing, text).Ok? <==> exists hrp, payload :: IsAsciiEncoding(text, hrp, payload)
  {
    if Decode(casing, text).Ok? {
      var Decoded(hrp, payload) := Decode(casing, text).value;
      Canonical(casing, text, hrp, payload);
      CaseTwice(text);
      CaseStaysAscii(text);
      PrefixCase(Lower(text), hrp);
      assert IsAsciiEncoding(text, hrp, payload);
    }
    hide Encode, Decode, Fits;
    forall hrp, payload | IsAsciiEncoding(text, hrp, payload)
      ensures Decode(casing, text).Ok?
    {
      RoundTrip(casing, hrp, payload);
    }
  }

  lemma {:induction false} PrefixCase(text: string, hrp: string)
    requires |hrp| <= |text| && text[..|hrp|] == hrp && Lower(text) == text && Ascii(text)
    ensures Lower(hrp) == hrp && Ascii(hrp)
  {
    forall i | 0 <= i < |hrp| ensures Lower(hrp)[i] == hrp[i] && hrp[i] < '\U{80}' {
      assert hrp[i] == text[i] && Lower(text)[i] == LowerChar(text[i]);
    }
  }

  /** Two texts that decode alike are the same up to case. */
  lemma {:induction false} DecodeInjective(casing: Casing, a: string, b: string)
    requires Decode(casing, a).Ok? && Decode(casing, a) == Decode(casing, b)
    ensures casing.lower(a) == casing.lower(b)
  {
    var Decoded(hrp, payload) := Decode(casing, a).value;
    Canonical(casing, a, hrp, payload);
    Canonical(casing, b, hrp, payload);
  }

  // ---- bursts ----

  lemma {:induction false} VerifiesSplit(hrp: string, data: seq<nat>)
    requires AllSymbols(data)
    ensures AllSmall(Words(data))
    ensures Verifies(hrp, data) <==> Run(Run(ONE, HrpExpand(hrp)), Words(data)) == ONE
  {
    RunAppend(ONE, HrpExpand(hrp), Words(data));
    WordsAreSmall(data);
  }

  lemma {:induction false} BurstBreaksChecksum(hrp: string, data: seq<nat>, changed: seq<nat>, lo: nat, hi: nat)
    requires AllSymbols(data) && AllSymbols(changed) && |data| == |changed|
    requires Verifies(hrp, data)
    requires lo <= hi <= |data| && hi - lo <= 6
    requires data[..lo] == changed[..lo] && data[hi..] == changed[hi..] && data != changed
    ensures !Verifies(hrp, changed)
  {
    VerifiesSplit(hrp, data);
    VerifiesSplit(hrp, changed);
    WordsSlices(data, lo, hi);
    WordsSlices(changed, lo, hi);
    if Words(data) == Words(changed) {
      WordsInjective(data, changed);
    } else {
      BurstChangesRun(Run(ONE, HrpExpand(hrp)), Words(data), Words(changed), lo, hi);
    }
  }

  /** The places lo to hi after the separator are the only ones where the texts differ,
      and the other text has symbols there too. */
  ghost predicate DiffersInStretch(text: string, other: string, pos: nat, lo: nat, hi: nat) {
    && |other| == |text| && lo <= hi <= |text| - pos && hi - lo <= 6
    && other[..pos + lo] == text[..pos + lo] && other[pos + hi..] == text[pos + hi..]
    && ReadSymbols(other[pos..]).Some? && other != text
  }

  lemma {:induction false} BurstInText(hrp: string, data: seq<nat>, other: string, lo: nat, hi: nat)
    requires hrp != "" && AllSymbols(data) && |data| >= 6 && Verifies(hrp, data)
    requires DiffersInStretch(Text(hrp, data), other, |hrp| + 1, lo, hi)
    ensures DecodeLower(other) == Err(BadChecksum)
  {
    hide Run, Regrouped, LastOne;
    TextParts(hrp, data);
    var pos := |hrp| + 1;
    var changed := OtherParts(Text(hrp, data), other, hrp, data, lo);
    SameSymbols(Text(hrp, data), other, pos, pos + lo, data, changed);
    SameTail(Text(hrp, data), other, pos, hi, data, changed);
    BurstBreaksChecksum(hrp, data, changed, lo, hi);
    DecodeText(hrp, changed);
  }

  lemma {:induction false} AcceptedVerifies(casing: Casing, text: string) returns (hrp: string, data: seq<nat>)
    requires Decode(casing, text).Ok?
    ensures hrp != "" && AllSymbols(data) && |data| >= 6 && Verifies(hrp, data)
    ensures casing.lower(text) == Text(hrp, data) && LastOne(casing.lower(text)) == |hrp|
  {
    hrp, data := LowerParts(casing.lower(text));
    TextParts(hrp, data);
  }

  /** An accepted text with symbols replaced by other symbols only inside six consecutive
      places of its data and checksum is refused for its checksum, at every length. */
  lemma {:induction false} BurstDetected(casing: Casing, text: string, other: string, lo: nat, hi: nat)
    requires Decode(casing, text).Ok?
    requires casing.lower(other) == other || casing.upper(other) == other
    requires LastOne(casing.lower(text)) >= 0
    requires DiffersInStretch(casing.lower(text), casing.lower(other), LastOne(casing.lower(text)) + 1, lo, hi)
    ensures Decode(casing, other) == Err(BadChecksum)
  {
    hide Regrouped, Verifies, LastOne, DecodeLower, Fits;
    var hrp, data := AcceptedVerifies(casing, text);
    BurstInText(hrp, data, casing.lower(other), lo, hi);
  }

  lemma {:induction false} OtherParts(
      a: string, b: string, hrp: string, data: seq<nat>, lo: nat) returns (changed: seq<nat>)
    requires AllSymbols(data) && a == Text(hrp, data) && |b| == |a| && lo <= |data|
    requires b[..|hrp| + 1 + lo] == a[..|hrp| + 1 + lo]
    requires ReadSymbols(b[|hrp| + 1..]).Some?
    ensures AllSymbols(changed) && |changed| == |data| && b == Text(hrp, changed)
    ensures b[|hrp| + 1..] == Spell(changed)
  {
    var pos := |hrp| + 1;
    SpellRead(b[pos..]);
    changed := ReadSymbols(b[pos..]).value;
    assert b[..pos] == b[..pos + lo][..pos] && a[..pos] == a[..pos + lo][..pos];
    assert a[..pos] == hrp + "1";
    assert b == b[..pos] + b[pos..];
  }

  /** Equal characters spell equal symbols. */
  lemma SameSymbol(d: nat, e: nat)
    requires d < 32 && e < 32 && CharOf(d) == CharOf(e)
    ensures d == e
  {
    SymbolOfChar(d);
    SymbolOfChar(e);
  }

  lemma {:induction false} SameSymbols(a: string, b: string, pos: nat, end: nat, data: seq<nat>, changed: seq<nat>)
    requires AllSymbols(data) && AllSymbols(changed) && |data| == |changed|
    requires pos <= end <= |a| == |b| && |a| - pos == |data|
    requires a[pos..] == Spell(data) && b[pos..] == Spell(changed) && a[..end] == b[..end]
    ensures data[..end - pos] == changed[..end - pos]
  {
    forall i | 0 <= i < end - pos
      ensures data[i] == changed[i]
    {
      assert a[pos..][i] == a[..end][pos + i] && b[pos..][i] == b[..end][pos + i];
      SameSymbol(data[i], changed[i]);
    }
  }

  lemma {:induction false} SameTail(a: string, b: string, pos: nat, hi: nat, data: seq<nat>, changed: seq<nat>)
    requires AllSymbols(data) && AllSymbols(changed) && |data| == |changed|
    requires pos + hi <= |a| == |b| && |a| - pos == |data|
    requires a[pos..] == Spell(data) && b[pos..] == Spell(changed) && a[pos + hi..] == b[pos + hi..]
    ensures data[hi..] == changed[hi..]
  {
    forall i | hi <= i < |data|
      ensures data[i] == changed[i]
    {
      assert a[pos..][i] == a[pos + hi..][i - hi] && b[pos..][i] == b[pos + hi..][i - hi];
      SameSymbol(data[i], changed[i]);
    }
  }
}
