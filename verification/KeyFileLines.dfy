/** Which lines of a key file are identities and what a file that is not one is refused for
    (archive_keys.py, lines 133-166). */
module KeyFileLines {
  import opened Common
  import opened Bech32
  import opened KeyFile

  ghost predicate Blank(text: string) {
    forall i :: 0 <= i < |text| ==> IsSpace(text[i])
  }

  ghost predicate Around(line: string, before: string, after: string) {
    Blank(before) && Blank(after) && line == before + Strip(line) + after
  }

  lemma {:induction false} StripLeftIs(line: string) returns (before: string)
    ensures Blank(before) && line == before + StripLeft(line)
    ensures StripLeft(line) != "" ==> !IsSpace(StripLeft(line)[0])
  {
    before := "";
    if line != "" && IsSpace(line[0]) {
      var rest := StripLeftIs(line[1..]);
      before := [line[0]] + rest;
    }
  }

  lemma {:induction false} StripRightIs(line: string) returns (after: string)
    ensures Blank(after) && line == StripRight(line) + after
    ensures StripRight(line) != "" ==> !IsSpace(StripRight(line)[|StripRight(line)| - 1])
  {
    after := "";
    if line != "" && IsSpace(line[|line| - 1]) {
      var rest := StripRightIs(line[..|line| - 1]);
      after := rest + [line[|line| - 1]];
    }
  }

  /** Stripping takes the blanks off both ends and no more. */
  lemma {:induction false} StripExactly(line: string)
    ensures exists before, after :: Around(line, before, after)
    ensures Strip(line) != "" ==> !IsSpace(Strip(line)[0]) && !IsSpace(Strip(line)[|Strip(line)| - 1])
  {
    hide IsSpace;
    var before := StripLeftIs(line);
    var after := StripRightIs(StripLeft(line));
    if Strip(line) != "" {
      assert StripLeft(line)[0] == Strip(line)[0];
    }
    assert Around(line, before, after);
  }

  /** A line is passed over exactly when it is blank or its first letter that is not is a `#`. */
  lemma {:induction false} SkippedExactly(line: string)
    ensures Skipped(line) <==>
      Blank(line) || exists i :: 0 <= i < |line| && line[i] == '#' && Blank(line[..i])
  {
    StripExactly(line);
    hide Strip, IsSpace;
    assert !IsSpace('#') by { HashIsNoSpace(); }
    var before, after :| Around(line, before, after);
    var stripped := Strip(line);
    if stripped != "" {
      assert line[|before|] == stripped[0];
      assert line[..|before|] == before;
    } else {
      assert line == before + after;
    }
    forall i | 0 <= i < |line| && line[i] == '#' && Blank(line[..i])
      ensures stripped != "" && stripped[0] == '#'
    {
      assert forall j :: 0 <= j < i ==> line[..i][j] == line[j];
      assert forall j :: 0 <= j < |before| ==> line[j] == before[j];
    }
  }

  lemma HashIsNoSpace()
    ensures !IsSpace('#')
  {}

  // ---- identities ----

  /** A line is an identity's exactly when it starts in capitals, is in one case, and its lower-case
      form is the encoding of that identity's 32 bytes. */
  lemma {:induction false} IdentityExactly(library: Library, line: string, x: Identity)
    ensures ParseIdentity(library, line) == Ok(x) <==>
      var stripped := Strip(line);
      && SECRET_START <= stripped && Genuine(library, x)
      && (library.casing.lower(stripped) == stripped || library.casing.upper(stripped) == stripped)
      && library.casing.lower(stripped) == Encode(SECRET_HRP, x.secret)
  {
    hide Strip, Encode, DecodeLower, Fits;
    var stripped := Strip(line);
    LowerRoundTrip(SECRET_HRP, x.secret);
    if ParseIdentity(library, line).Ok? {
      var Decoded(hrp, secret) := Decode(library.casing, stripped).value;
      Canonical(library.casing, stripped, hrp, secret);
      assert ParseIdentity(library, line) == Ok(IdentityOf(library, secret));
    }
    if SECRET_START <= stripped && Decode(library.casing, stripped) == Ok(Decoded(SECRET_HRP, x.secret)) {
      assert Genuine(library, x) ==> ParseIdentity(library, line) == Ok(x);
    }
  }

  /** Of ASCII lines exactly the printed, upper-case form is taken. */
  lemma {:induction false} AsciiIdentityExactly(library: Library, line: string, x: Identity)
    requires Ascii(line)
    ensures ParseIdentity(library, line) == Ok(x) <==>
      && |x.secret| == 32 && x.recipient == Encode("age", library.publicKey(x.secret))
      && Strip(line) == Upper(Encode("age-secret-key-", x.secret))
  {
    var stripped := Strip(line);
    StrippedAscii(line);
    IdentityExactly(library, line, x);
    assert Genuine(library, x) <==> |x.secret| == 32 && x.recipient == Encode("age", library.publicKey(x.secret));
    assert IdentityText(x) == Upper(Encode("age-secret-key-", x.secret));
    hide Strip, Encode, ParseIdentity, Genuine;
    CaseTwice(stripped);
    CaseTwice(Encode(SECRET_HRP, x.secret));
    if SECRET_START <= stripped {
      assert stripped[0] == 'A' && Lower(stripped)[0] == 'a';
    }
    IdentityTextIsPlain(x);
    SecretLower(x.secret);
  }

  lemma SecretLower(secret: Payload)
    ensures Lower(Encode(SECRET_HRP, secret)) == Encode(SECRET_HRP, secret)
  {
    SecretHrp();
    TextIsLower(SECRET_HRP, DataOf(secret) + CheckOf(SECRET_HRP, DataOf(secret)));
  }

  lemma {:induction false} StrippedAscii(line: string)
    requires Ascii(line)
    ensures Ascii(Strip(line))
  {
    StripExactly(line);
    hide Strip, IsSpace;
    var before, after :| Around(line, before, after);
    forall i | 0 <= i < |Strip(line)| ensures Strip(line)[i] < '\U{80}' {
      assert line[|before| + i] == Strip(line)[i];
    }
  }

  // ---- the file ----

  /** The lines that are not passed over, in order. */
  function Kept(lines: seq<string>): seq<string> {
    if lines == [] then []
    else
      var n := |lines| - 1;
      if Skipped(lines[n]) then Kept(lines[..n]) else Kept(lines[..n]) + [lines[n]]
  }

  ghost predicate Reads(library: Library, lines: seq<string>, ids: seq<Identity>) {
    && |ids| == |Kept(lines)|
    && forall k :: 0 <= k < |ids| ==> ParseIdentity(library, Kept(lines)[k]) == Ok(ids[k])
  }

  ghost predicate Passes(library: Library, line: string) {
    Skipped(line) || ParseIdentity(library, line).Ok?
  }

  /** Line n is the first that is neither passed over nor an identity. */
  ghost predicate FirstBad(library: Library, lines: seq<string>, n: nat, why: LineError) {
    && 1 <= n <= |lines| && !Skipped(lines[n - 1]) && ParseIdentity(library, lines[n - 1]) == Err(why)
    && forall j :: 0 <= j < n - 1 ==> Passes(library, lines[j])
  }

  lemma {:induction false} LinesExactly(library: Library, lines: seq<string>)
    ensures match ParseLines(library, lines)
            case Ok(ids) => Reads(library, lines, ids) && forall j :: 0 <= j < |lines| ==> Passes(library, lines[j])
            case Err(BadLine(n, why)) => FirstBad(library, lines, n, why)
            case Err(NoIdentity) => false
  {
    hide ParseIdentity, Skipped;
    if lines != [] {
      var n := |lines| - 1;
      LinesExactly(library, lines[..n]);
      assert forall j :: 0 <= j < n ==> lines[..n][j] == lines[j];
    }
  }

  lemma {:induction false} ReadsOnce(library: Library, lines: seq<string>, ids: seq<Identity>, others: seq<Identity>)
    requires Reads(library, lines, ids) && Reads(library, lines, others)
    ensures ids == others
  {
    hide ParseIdentity;
    forall k | 0 <= k < |ids| ensures ids[k] == others[k] {
      assert ParseIdentity(library, Kept(lines)[k]) == Ok(ids[k]);
    }
  }

  lemma {:induction false} BadOnce(
      library: Library, lines: seq<string>, m: nat, n: nat, why: LineError, other: LineError)
    requires FirstBad(library, lines, m, why) && FirstBad(library, lines, n, other)
    ensures m == n && why == other
  {
    hide ParseIdentity, Skipped;
    assert !Passes(library, lines[m - 1]) && !Passes(library, lines[n - 1]);
  }

  lemma {:induction false} BadDoesNotRead(
    library: Library, lines: seq<string>, n: nat, why: LineError, ids: seq<Identity>)
    requires FirstBad(library, lines, n, why)
    ensures !Reads(library, lines, ids) && Kept(lines) != []
  {
    hide ParseIdentity, Skipped;
    var k := KeptAt(lines, n - 1);
    assert Kept(lines)[k] == lines[n - 1];
  }

  lemma {:induction false} KeptAt(lines: seq<string>, i: nat) returns (k: nat)
    requires i < |lines| && !Skipped(lines[i])
    ensures k < |Kept(lines)| && Kept(lines)[k] == lines[i]
  {
    hide Skipped;
    var n := |lines| - 1;
    if i < n {
      k := KeptAt(lines[..n], i);
    } else {
      k := |Kept(lines)| - 1;
    }
  }

  /** A file's identities are those of its lines that are not passed over, in order, exactly when
      all of them are and there is one; else it is refused for its first line that is not, or for
      having none. */
  lemma {:induction false} FileExactly(library: Library, text: string, ids: seq<Identity>, n: nat, why: LineError)
    ensures var lines, r := SplitLines(text), Identities(library, text);
      && (r == Ok(ids) <==> ids != [] && Reads(library, lines, ids))
      && (r == Err(BadLine(n, why)) <==> FirstBad(library, lines, n, why))
      && (r == Err(NoIdentity) <==> Kept(lines) == [])
  {
    hide ParseIdentity, Skipped, SplitLines, ParseLines, Reads, FirstBad, Kept;
    var lines := SplitLines(text);
    LinesExactly(library, lines);
    match ParseLines(library, lines)
    case Ok(found) =>
      ReadsSize(library, lines, found);
      if Reads(library, lines, ids) { ReadsOnce(library, lines, found, ids); }
      if FirstBad(library, lines, n, why) { BadDoesNotRead(library, lines, n, why, found); }
    case Err(BadLine(m, other)) =>
      BadDoesNotRead(library, lines, m, other, ids);
      if FirstBad(library, lines, n, why) { BadOnce(library, lines, m, n, other, why); }
  }

  lemma {:induction false} ReadsSize(library: Library, lines: seq<string>, ids: seq<Identity>)
    requires Reads(library, lines, ids)
    ensures |ids| == |Kept(lines)|
  {}
}
