/** Identities and the backup key file of archive_keys.py (lines 112-166 and 275-281).
    The public key of a secret is X25519's business, and the case of text beyond ASCII is
    Python's: both are parts of a library that every member takes as a parameter. */
module KeyFile {
  import opened Common
  import opened Bech32

  type Payload = p: seq<nat> | Bytes(p) witness []

  datatype Library = Library(publicKey: Payload -> Payload, casing: Casing)

  const SECRET_HRP := "age-secret-key-"
  const RECIPIENT_HRP := "age"
  const SECRET_START := "AGE-SECRET-KEY-1"

  datatype Identity = Identity(secret: Payload, recipient: string)

  /** `identity_from_secret`. */
  function IdentityOf(library: Library, secret: Payload): Identity {
    Identity(secret, Encode(RECIPIENT_HRP, library.publicKey(secret)))
  }

  /** `Identity.text`. */
  function IdentityText(identity: Identity): string {
    Upper(Encode(SECRET_HRP, identity.secret))
  }

  /** An identity as every reader and maker of keys builds it. */
  ghost predicate Genuine(library: Library, identity: Identity) {
    |identity.secret| == 32 && identity == IdentityOf(library, identity.secret)
  }

  // ---- lines ----

  /** The characters `str.strip` removes. */
  predicate IsSpace(c: char) {
    '\t' <= c <= '\r' || '\U{1C}' <= c <= ' ' || c == '\U{85}' || c == '\U{A0}' || c == '\U{1680}'
    || '\U{2000}' <= c <= '\U{200A}' || c == '\U{2028}' || c == '\U{2029}' || c == '\U{202F}'
    || c == '\U{205F}' || c == '\U{3000}'
  }

  /** The characters `str.splitlines` ends a line at. */
  predicate IsBreak(c: char) {
    '\n' <= c <= '\r' || '\U{1C}' <= c <= '\U{1E}' || c == '\U{85}' || c == '\U{2028}' || c == '\U{2029}'
  }

  function StripLeft(line: string): string {
    if line != "" && IsSpace(line[0]) then StripLeft(line[1..]) else line
  }

  function StripRight(line: string): string {
    if line != "" && IsSpace(line[|line| - 1]) then StripRight(line[..|line| - 1]) else line
  }

  function Strip(line: string): string {
    StripRight(StripLeft(line))
  }

  /** The first line break at or after i, or the end. */
  function NextBreak(text: string, i: nat): (k: nat)
    requires i <= |text|
    ensures i <= k <= |text|
    ensures forall j :: i <= j < k ==> !IsBreak(text[j])
    ensures k < |text| ==> IsBreak(text[k])
    decreases |text| - i
  {
    if i == |text| || IsBreak(text[i]) then i else NextBreak(text, i + 1)
  }

  /** `str.splitlines`: "\r\n" is one break, and a break at the very end starts no line. */
  function SplitLines(text: string): seq<string> {
    if text == "" then []
    else
      var k := NextBreak(text, 0);
      if k == |text| then [text]
      else
        var width := if text[k] == '\r' && k + 1 < |text| && text[k + 1] == '\n' then 2 else 1;
        [text[..k]] + SplitLines(text[k + width..])
  }

  /** `"\n".join(lines) + "\n"`. */
  function JoinLines(lines: seq<string>): string {
    if lines == [] then "" else lines[0] + "\n" + JoinLines(lines[1..])
  }

  ghost predicate OneLine(line: string) {
    forall i :: 0 <= i < |line| ==> !IsBreak(line[i])
  }

  lemma {:induction false} SplitJoined(lines: seq<string>)
    requires forall i :: 0 <= i < |lines| ==> OneLine(lines[i])
    ensures SplitLines(JoinLines(lines)) == lines
  {
    hide NextBreak, IsBreak;
    if lines != [] {
      var line, rest := lines[0], JoinLines(lines[1..]);
      assert OneLine(line);
      SplitJoined(lines[1..]);
      FirstBreak(line, rest);
      hide OneLine;
      var text := line + "\n" + rest;
      assert text[..|line|] == line && text[|line| + 1..] == rest;
    }
  }

  lemma {:induction false} FirstBreak(line: string, rest: string)
    requires OneLine(line)
    ensures NextBreak(line + "\n" + rest, 0) == |line| && (line + "\n" + rest)[|line|] == '\n'
  {
    var text := line + "\n" + rest;
    assert forall j :: 0 <= j < |line| ==> text[j] == line[j];
    assert text[|line|] == '\n' && IsBreak('\n');
  }

  // ---- parsing ----

  datatype LineError = WrongStart | BadText(error: DecodeError) | NotAnIdentity

  datatype FileError = BadLine(number: nat, why: LineError) | NoIdentity

  /** `parse_identity`. */
  function ParseIdentity(library: Library, line: string): Result<Identity, LineError> {
    var stripped := Strip(line);
    if !(SECRET_START <= stripped) then Err(WrongStart)
    else
      match Decode(library.casing, stripped)
      case Err(error) => Err(BadText(error))
      case Ok(Decoded(hrp, secret)) =>
        Canonical(library.casing, stripped, hrp, secret);
        if hrp != SECRET_HRP || |secret| != 32 then Err(NotAnIdentity)
        else Ok(IdentityOf(library, secret))
  }

  predicate Skipped(line: string) {
    var stripped := Strip(line);
    stripped == "" || stripped[0] == '#'
  }

  /** The identities of the first n lines, or the first bad line. */
  function ParseLines(library: Library, lines: seq<string>): Result<seq<Identity>, FileError> {
    if lines == [] then Ok([])
    else
      var n := |lines| - 1;
      match ParseLines(library, lines[..n])
      case Err(error) => Err(error)
      case Ok(found) =>
        if Skipped(lines[n]) then Ok(found)
        else
          match ParseIdentity(library, lines[n])
          case Err(why) => Err(BadLine(n + 1, why))
          case Ok(identity) => Ok(found + [identity])
  }

  /** What a key file's text holds. */
  function Identities(library: Library, text: string): Result<seq<Identity>, FileError> {
    match ParseLines(library, SplitLines(text))
    case Err(error) => Err(error)
    case Ok(found) => if found == [] then Err(NoIdentity) else Ok(found)
  }

  lemma {:induction false} FirstBadLine(library: Library, lines: seq<string>, n: nat)
    requires n <= |lines| && ParseLines(library, lines[..n]).Err?
    ensures ParseLines(library, lines) == ParseLines(library, lines[..n])
    decreases |lines|
  {
    if n < |lines| {
      assert lines[..|lines| - 1][..n] == lines[..n];
      FirstBadLine(library, lines[..|lines| - 1], n);
    } else {
      assert lines[..n] == lines;
    }
  }

  /** `parse_identities`. */
  method ParseIdentities(library: Library, text: string) returns (r: Result<seq<Identity>, FileError>)
    ensures r == Identities(library, text)
  {
    hide Strip, ParseIdentity, SplitLines;
    var lines := SplitLines(text);
    var found: seq<Identity> := [];
    for i := 0 to |lines|
      invariant ParseLines(library, lines[..i]) == Ok(found)
    {
      var line := Strip(lines[i]);
      assert lines[..i + 1][..i] == lines[..i];
      if line == "" || line[0] == '#' {
        continue;
      }
      var identity := ParseIdentity(library, lines[i]);
      if identity.Err? {
        FirstBadLine(library, lines, i + 1);
        return Err(BadLine(i + 1, identity.error));
      }
      found := found + [identity.value];
    }
    assert lines[..|lines|] == lines;
    r := if found == [] then Err(NoIdentity) else Ok(found);
  }

  // ---- printing ----

  /** The two lines, in parts short enough to be read character by character in proofs. */
  const HEADER_1 := "# Cabinet backup" + " key. Keep a copy" + " outside Cabinet:" + " without it the"
  const HEADER_2 := "# encrypted archi" + "ves can't be open" + "ed by anyone. Fir" + "st line encrypts."

  function Header(): seq<string> {
    [HEADER_1, HEADER_2]
  }

  function IdentityLines(identities: seq<Identity>): seq<string> {
    if identities == [] then []
    else
      var n := |identities| - 1;
      IdentityLines(identities[..n])
        + ["# public key: " + identities[n].recipient, IdentityText(identities[n])]
  }

  /** `_key_file_text`. */
  function KeyFileText(identities: seq<Identity>): string {
    JoinLines(Header() + IdentityLines(identities))
  }

  // ---- what is printed parses back ----

  lemma {:induction false} KeptByStrip(line: string)
    requires line != "" && !IsSpace(line[0]) && !IsSpace(line[|line| - 1])
    ensures Strip(line) == line
  {}

  lemma {:induction false} StripRightKeepsStart(line: string)
    requires line != "" && !IsSpace(line[0])
    ensures StripRight(line) != "" && StripRight(line)[0] == line[0]
  {
    if IsSpace(line[|line| - 1]) {
      StripRightKeepsStart(line[..|line| - 1]);
    }
  }

  lemma {:induction false} CommentSkipped(line: string)
    requires line != "" && line[0] == '#'
    ensures Skipped(line)
  {
    StripRightKeepsStart(line);
  }

  predicate PlainChar(c: char) {
    '!' <= c <= '~'
  }

  lemma UpperKeepsPlain(c: char)
    requires PlainChar(c)
    ensures PlainChar(UpperChar(c)) && !IsSpace(c) && !IsBreak(c)
  {}

  lemma CharsetIsPlain(d: nat)
    requires d < 32
    ensures PlainChar(CharOf(d))
  {}

  /** An encoding under a plain human part is plain text that starts with it. */
  lemma EncodingIsPlain(hrp: string, payload: Payload)
    requires forall i :: 0 <= i < |hrp| ==> PlainChar(hrp[i])
    ensures |Encode(hrp, payload)| > |hrp| && Encode(hrp, payload)[..|hrp| + 1] == hrp + "1"
    ensures forall i :: 0 <= i < |Encode(hrp, payload)| ==> PlainChar(Encode(hrp, payload)[i])
  {
    var all := DataOf(payload) + CheckOf(hrp, DataOf(payload));
    forall i | 0 <= i < |all|
      ensures PlainChar(Spell(all)[i])
    {
      CharsetIsPlain(all[i]);
    }
  }

  lemma {:induction false} SecretStart(text: string)
    requires |text| >= 16 && text[..16] == SECRET_HRP + "1"
    ensures SECRET_START <= Upper(text)
  {
    assert Upper(text)[..16] == Upper(text[..16]);
    assert Upper(SECRET_HRP + "1") == SECRET_START;
  }

  lemma IdentityTextIsPlain(identity: Identity)
    ensures SECRET_START <= IdentityText(identity)
    ensures forall i :: 0 <= i < |IdentityText(identity)| ==> PlainChar(IdentityText(identity)[i])
  {
    hide Encode;
    var text := Encode(SECRET_HRP, identity.secret);
    SecretHrp();
    EncodingIsPlain(SECRET_HRP, identity.secret);
    forall i | 0 <= i < |text|
      ensures PlainChar(IdentityText(identity)[i])
    {
      UpperKeepsPlain(text[i]);
    }
    SecretStart(text);
  }

  /** The line printed for an identity parses back to it. */
  lemma {:induction false} IdentityLineParses(library: Library, identity: Identity)
    requires Genuine(library, identity)
    ensures !Skipped(IdentityText(identity))
    ensures ParseIdentity(library, IdentityText(identity)) == Ok(identity)
  {
    hide Encode, Decode, IsSpace;
    var text := IdentityText(identity);
    IdentityTextIsPlain(identity);
    UpperKeepsPlain(text[0]);
    UpperKeepsPlain(text[|text| - 1]);
    KeptByStrip(text);
    assert text[0] == SECRET_START[0];
    SecretHrp();
    PlainIsAscii(SECRET_HRP);
    RoundTrip(library.casing, SECRET_HRP, identity.secret);
  }

  lemma {:induction false} PlainIsAscii(text: string)
    requires forall i :: 0 <= i < |text| ==> PlainChar(text[i])
    ensures Ascii(text)
  {}

  lemma SecretHrp()
    ensures Lower(SECRET_HRP) == SECRET_HRP
    ensures forall i :: 0 <= i < |SECRET_HRP| ==> PlainChar(SECRET_HRP[i])
  {}

  lemma HeaderParses(library: Library)
    ensures ParseLines(library, Header()) == Ok([])
  {
    CommentSkipped(HEADER_1);
    CommentSkipped(HEADER_2);
    assert Header()[..1] == [HEADER_1] && [HEADER_1][..0] == [];
    assert ParseLines(library, [HEADER_1]) == Ok([]);
  }

  lemma {:induction false} ParseOneMore(
      library: Library, lines: seq<string>, found: seq<Identity>, comment: string, identity: Identity)
    requires ParseLines(library, lines) == Ok(found)
    requires Skipped(comment) && !Skipped(IdentityText(identity))
    requires ParseIdentity(library, IdentityText(identity)) == Ok(identity)
    ensures ParseLines(library, lines + [comment, IdentityText(identity)]) == Ok(found + [identity])
  {
    hide Skipped, ParseIdentity, IdentityText;
    var text := IdentityText(identity);
    assert (lines + [comment])[..|lines|] == lines;
    assert ParseLines(library, lines + [comment]) == Ok(found);
    assert (lines + [comment, text])[..|lines| + 1] == lines + [comment];
  }

  lemma {:induction false} LinesPush(identities: seq<Identity>)
    requires identities != []
    ensures var n := |identities| - 1;
      && identities == identities[..n] + [identities[n]]
      && Header() + IdentityLines(identities) ==
           Header() + IdentityLines(identities[..n]) + ["# public key: " + identities[n].recipient,
             IdentityText(identities[n])]
  {
    hide IdentityText, Header;
    var n := |identities| - 1;
    var last := ["# public key: " + identities[n].recipient, IdentityText(identities[n])];
    LastOff(identities);
    assert IdentityLines(identities) == IdentityLines(identities[..n]) + last;
    Associative(Header(), IdentityLines(identities[..n]), last);
    hide IdentityLines;
  }

  lemma {:induction false} LastOff<T>(xs: seq<T>)
    requires xs != []
    ensures xs == xs[..|xs| - 1] + [xs[|xs| - 1]]
  {}

  lemma Associative<T>(a: seq<T>, b: seq<T>, c: seq<T>)
    ensures a + (b + c) == a + b + c
  {}

  lemma {:induction false} IdentityLinesParse(library: Library, identities: seq<Identity>)
    requires forall i :: 0 <= i < |identities| ==> Genuine(library, identities[i])
    ensures ParseLines(library, Header() + IdentityLines(identities)) == Ok(identities)
  {
    hide ParseLines, IdentityText, Skipped, Header, Genuine;
    if identities == [] {
      HeaderParses(library);
      assert Header() + IdentityLines([]) == Header();
    } else {
      var n := |identities| - 1;
      var comment := "# public key: " + identities[n].recipient;
      IdentityLinesParse(library, identities[..n]);
      CommentSkipped(comment);
      IdentityLineParses(library, identities[n]);
      LinesPush(identities);
      hide IdentityLines;
      ParseOneMore(library, Header() + IdentityLines(identities[..n]), identities[..n], comment, identities[n]);
    }
  }

  lemma OneLineAppend(a: string, b: string)
    requires OneLine(a) && OneLine(b)
    ensures OneLine(a + b)
  {}

  lemma HeaderIsOneLineEach()
    ensures OneLine(HEADER_1) && OneLine(HEADER_2)
  {
    hide OneLine, IsBreak;
    HeaderPieces();
    HeaderOtherPieces();
    OneLineAppend("# Cabinet backup", " key. Keep a copy");
    OneLineAppend("# Cabinet backup" + " key. Keep a copy", " outside Cabinet:");
    OneLineAppend("# Cabinet backup" + " key. Keep a copy" + " outside Cabinet:", " without it the");
    OneLineAppend("# encrypted archi", "ves can't be open");
    OneLineAppend("# encrypted archi" + "ves can't be open", "ed by anyone. Fir");
    OneLineAppend("# encrypted archi" + "ves can't be open" + "ed by anyone. Fir", "st line encrypts.");
  }

  lemma HeaderPieces()
    ensures OneLine("# Cabinet backup") && OneLine(" key. Keep a copy") && OneLine(" outside Cabinet:")
      && OneLine(" without it the")
  {}

  lemma HeaderOtherPieces()
    ensures OneLine("# encrypted archi") && OneLine("ves can't be open") && OneLine("ed by anyone. Fir")
      && OneLine("st line encrypts.")
  {}

  lemma {:induction false} PlainIsOneLine(text: string)
    requires forall i :: 0 <= i < |text| ==> PlainChar(text[i])
    ensures OneLine(text)
  {}

  lemma CommentIsOneLine(library: Library, identity: Identity)
    requires Genuine(library, identity)
    ensures OneLine("# public key: " + identity.recipient) && OneLine(IdentityText(identity))
  {
    hide Encode;
    EncodingIsPlain(RECIPIENT_HRP, library.publicKey(identity.secret));
    PlainIsOneLine(identity.recipient);
    assert OneLine("# public key: ");
    IdentityTextIsPlain(identity);
    PlainIsOneLine(IdentityText(identity));
  }

  lemma {:induction false} IdentityLinesAreLines(library: Library, identities: seq<Identity>)
    requires forall k :: 0 <= k < |identities| ==> Genuine(library, identities[k])
    ensures forall i :: 0 <= i < |IdentityLines(identities)| ==> OneLine(IdentityLines(identities)[i])
  {
    hide OneLine, IdentityText;
    if identities != [] {
      IdentityLinesAreLines(library, identities[..|identities| - 1]);
      CommentIsOneLine(library, identities[|identities| - 1]);
    }
  }

  /** A key file printed for any identities parses back to exactly those, in order. */
  lemma {:induction false} KeyFileRoundTrip(library: Library, identities: seq<Identity>)
    requires identities != []
    requires forall i :: 0 <= i < |identities| ==> Genuine(library, identities[i])
    ensures Identities(library, KeyFileText(identities)) == Ok(identities)
  {
    hide OneLine;
    HeaderIsOneLineEach();
    IdentityLinesAreLines(library, identities);
    SplitJoined(Header() + IdentityLines(identities));
    IdentityLinesParse(library, identities);
  }
}
