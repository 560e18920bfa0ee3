/** Rotating the backup key and signing and verifying archives: archive_keys.py,
    lines 289-304, 362-372 and 378-416. HKDF and HMAC over the canonical manifest are
    one function of the secret, the manifest without `mac`, and the sums. */
module BackupKey {
  import opened Common
  import opened KeyFile

  /** A value in a manifest: text, or anything else JSON has. */
  datatype Json = Text(text: string) | Other(id: int)

  type Manifest = map<string, Json>

  type Mac = (Payload, Manifest, seq<nat>) -> string

  datatype VerifyError = Unavailable(error: FileError) | NotOurs

  datatype Archive = Archive(manifest: Manifest, sums: seq<nat>, signer: Identity)

  /** `canonical`: what the MAC covers. */
  function Covered(manifest: Manifest): Manifest {
    manifest - {"mac"}
  }

  /** `sign` with a given identity. */
  function Signed(mac: Mac, manifest: Manifest, sums: seq<nat>, signer: Identity): Manifest {
    var named := manifest["mac_recipient" := Text(signer.recipient)];
    named["mac" := Text(mac(signer.secret, Covered(named), sums))]
  }

  /** The configured identities a manifest names. */
  function Named(identities: seq<Identity>, recipient: Option<Json>): seq<Identity> {
    if identities == [] then []
    else
      var before := Named(identities[..|identities| - 1], recipient);
      var last := identities[|identities| - 1];
      if recipient == Some(Text(last.recipient)) then before + [last] else before
  }

  function Get(manifest: Manifest, key: string): Option<Json> {
    if key in manifest then Some(manifest[key]) else None
  }

  /** `verify`, with the configured identities already read. */
  function Verified(
      mac: Mac, identities: seq<Identity>, manifest: Manifest, sums: seq<nat>): Result<Identity, VerifyError> {
    var matches := Named(identities, Get(manifest, "mac_recipient"));
    match Get(manifest, "mac")
    case Some(Text(given)) =>
      if |matches| == 1 && mac(matches[0].secret, Covered(manifest), sums) == given then Ok(matches[0])
      else Err(NotOurs)
    case _ => Err(NotOurs)
  }

  /** `verify`, reading the key file afresh. */
  function Verify(
      library: Library, mac: Mac, file: string, manifest: Manifest, sums: seq<nat>): Result<Identity, VerifyError> {
    match Identities(library, file)
    case Err(error) => Err(Unavailable(error))
    case Ok(identities) => Verified(mac, identities, manifest, sums)
  }

  // ---- one archive ----

  lemma {:induction false} SignedParts(mac: Mac, manifest: Manifest, sums: seq<nat>, signer: Identity)
    ensures var signed := Signed(mac, manifest, sums, signer);
      && Get(signed, "mac_recipient") == Some(Text(signer.recipient))
      && Get(signed, "mac") == Some(Text(mac(signer.secret, Covered(signed), sums)))
  {
    var named := manifest["mac_recipient" := Text(signer.recipient)];
    assert Covered(Signed(mac, manifest, sums, signer)) == Covered(named);
  }

  /** Signing names the signer, adds its MAC over everything else, and leaves every other key. */
  lemma {:induction false} SignedExactly(mac: Mac, manifest: Manifest, sums: seq<nat>, signer: Identity)
    ensures var signed := Signed(mac, manifest, sums, signer);
      && signed.Keys == manifest.Keys + {"mac_recipient", "mac"}
      && (forall key :: key in manifest && key != "mac_recipient" && key != "mac" ==> signed[key] == manifest[key])
      && Vouched(mac, signer, signed, sums)
  {
    SignedParts(mac, manifest, sums, signer);
  }

  /** A signed archive verifies as its signer's exactly when the signer is the one
      configured identity with its recipient, listed once. */
  lemma {:induction false} VerifiesExactly(
      mac: Mac, identities: seq<Identity>, manifest: Manifest, sums: seq<nat>, signer: Identity)
    ensures Verified(mac, identities, Signed(mac, manifest, sums, signer), sums) == Ok(signer)
       <==> Named(identities, Some(Text(signer.recipient))) == [signer]
  {
    SignedParts(mac, manifest, sums, signer);
  }

  ghost predicate DistinctRecipients(identities: seq<Identity>) {
    forall i, j :: 0 <= i < j < |identities| ==> identities[i].recipient != identities[j].recipient
  }

  lemma {:induction false} NamedNone(identities: seq<Identity>, recipient: string)
    requires forall i :: 0 <= i < |identities| ==> identities[i].recipient != recipient
    ensures Named(identities, Some(Text(recipient))) == []
  {
    if identities != [] {
      NamedNone(identities[..|identities| - 1], recipient);
    }
  }

  lemma {:induction false} NamedOne(identities: seq<Identity>, i: nat)
    requires OnlyOne(identities, i)
    ensures Named(identities, Some(Text(identities[i].recipient))) == [identities[i]]
  {
    var n := |identities| - 1;
    if i == n {
      NamedNone(identities[..n], identities[n].recipient);
    } else {
      NamedOne(identities[..n], i);
    }
  }

  // ---- any manifest ----

  /** Place i is the only one of the list with its recipient. */
  ghost predicate OnlyOne(identities: seq<Identity>, i: nat) {
    i < |identities|
    && forall j :: 0 <= j < |identities| && j != i ==> identities[j].recipient != identities[i].recipient
  }

  /** The manifest names this identity, and its MAC is this identity's over everything else. */
  ghost predicate Vouched(mac: Mac, x: Identity, manifest: Manifest, sums: seq<nat>) {
    && "mac_recipient" in manifest && manifest["mac_recipient"] == Text(x.recipient)
    && "mac" in manifest && manifest["mac"] == Text(mac(x.secret, manifest - {"mac"}, sums))
  }

  lemma {:induction false} NamedFound(identities: seq<Identity>, recipient: string) returns (i: nat)
    requires |Named(identities, Some(Text(recipient)))| == 1
    ensures OnlyOne(identities, i) && identities[i].recipient == recipient
    ensures identities[i] == Named(identities, Some(Text(recipient)))[0]
  {
    var n := |identities| - 1;
    if identities[n].recipient == recipient {
      forall j | 0 <= j < n ensures identities[j].recipient != recipient {
        if identities[j].recipient == recipient {
          NamedSome(identities[..n], j);
        }
      }
      i := n;
    } else {
      i := NamedFound(identities[..n], recipient);
    }
  }

  /** Any manifest at all, signed or not: it is found to be an identity's exactly when that is
      the one identity of its recipient in the list and the manifest names and was signed by it. */
  lemma {:induction false} VouchedExactly(
      mac: Mac, identities: seq<Identity>, manifest: Manifest, sums: seq<nat>, x: Identity)
    ensures Verified(mac, identities, manifest, sums) == Ok(x)
       <==> Vouched(mac, x, manifest, sums) && exists i: nat :: OnlyOne(identities, i) && identities[i] == x
    ensures Verified(mac, identities, manifest, sums).Ok? || Verified(mac, identities, manifest, sums) == Err(NotOurs)
  {
    if "mac_recipient" in manifest && manifest["mac_recipient"].Text? {
      var recipient := manifest["mac_recipient"].text;
      if |Named(identities, Some(Text(recipient)))| == 1 {
        var i := NamedFound(identities, recipient);
      }
      forall i: nat | OnlyOne(identities, i) && identities[i] == x && x.recipient == recipient
        ensures Named(identities, Some(Text(recipient))) == [x]
      {
        NamedOne(identities, i);
      }
    } else {
      NamedNothing(identities, Get(manifest, "mac_recipient"));
    }
  }

  lemma {:induction false} NamedNothing(identities: seq<Identity>, recipient: Option<Json>)
    requires recipient.Some? ==> !recipient.value.Text?
    ensures Named(identities, recipient) == []
  {
    if identities != [] {
      NamedNothing(identities[..|identities| - 1], recipient);
    }
  }

  /** No two manifests and sums have one MAC. */
  ghost predicate NoCollisions(mac: Mac) {
    forall s: Payload, m: Manifest, sums: seq<nat>, s': Payload, m': Manifest, sums': seq<nat> ::
      mac(s, m, sums) == mac(s', m', sums') ==> m == m' && sums == sums'
  }

  /** A signed archive whose manifest or sums were changed under its MAC is refused, whatever
      identities are configured. */
  lemma {:induction false} ChangedRefused(
      mac: Mac, identities: seq<Identity>, manifest: Manifest, sums: seq<nat>, signer: Identity,
      changed: Manifest, changedSums: seq<nat>)
    requires NoCollisions(mac)
    requires var signed := Signed(mac, manifest, sums, signer);
      && "mac" in changed && changed["mac"] == signed["mac"]
      && (changed != signed || changedSums != sums)
    ensures Verified(mac, identities, changed, changedSums) == Err(NotOurs)
  {
    var signed := Signed(mac, manifest, sums, signer);
    SignedParts(mac, manifest, sums, signer);
    if Covered(changed) == Covered(signed) {
      assert forall key :: key in changed && key != "mac" ==> key in Covered(changed);
      assert forall key :: key in signed && key != "mac" ==> key in Covered(signed);
      assert changed == signed;
    }
  }

  /** Two configured identities with one recipient strand every archive of that recipient. */
  lemma {:induction false} SharedRecipientStrands(
      mac: Mac, identities: seq<Identity>, i: nat, j: nat, manifest: Manifest, sums: seq<nat>)
    requires i < j < |identities| && identities[i].recipient == identities[j].recipient
    ensures Verified(mac, identities, Signed(mac, manifest, sums, identities[i]), sums) == Err(NotOurs)
  {
    var recipient := identities[i].recipient;
    SignedParts(mac, manifest, sums, identities[i]);
    NamedAtLeast(identities, i, j);
  }

  lemma {:induction false} NamedAtLeast(identities: seq<Identity>, i: nat, j: nat)
    requires i < j < |identities| && identities[i].recipient == identities[j].recipient
    ensures |Named(identities, Some(Text(identities[i].recipient)))| >= 2
  {
    var n := |identities| - 1;
    var recipient := Some(Text(identities[i].recipient));
    if j < n {
      NamedAtLeast(identities[..n], i, j);
    } else {
      NamedSome(identities[..n], i);
    }
  }

  lemma {:induction false} NamedSome(identities: seq<Identity>, i: nat)
    requires i < |identities|
    ensures Named(identities, Some(Text(identities[i].recipient))) != []
  {
    var n := |identities| - 1;
    if i < n {
      NamedSome(identities[..n], i);
    }
  }

  // ---- the key file over time ----

  /** The signer is the one identity of its recipient in the file. */
  predicate Alone(identities: seq<Identity>, signer: Identity) {
    Named(identities, Some(Text(signer.recipient))) == [signer]
  }

  /** Each archive verifies as its signer's exactly when the signer is alone. */
  ghost predicate ReadableIfAlone(
    library: Library, mac: Mac, file: string, identities: seq<Identity>, archives: seq<Archive>) {
    forall k :: 0 <= k < |archives| ==>
      (Verify(library, mac, file, archives[k].manifest, archives[k].sums) == Ok(archives[k].signer)
       <==> Alone(identities, archives[k].signer))
  }

  ghost predicate Readable(library: Library, mac: Mac, file: string, archives: seq<Archive>) {
    forall k :: 0 <= k < |archives| ==>
      Verify(library, mac, file, archives[k].manifest, archives[k].sums) == Ok(archives[k].signer)
  }

  /** A key file Cabinet wrote: it prints these identities. */
  ghost predicate Written(library: Library, file: string, identities: seq<Identity>) {
    && identities != [] && file == KeyFileText(identities)
    && forall i :: 0 <= i < |identities| ==> Genuine(library, identities[i])
  }

  /** Every archive ever signed, each by an identity still in the list. */
  ghost predicate AllSigned(mac: Mac, identities: seq<Identity>, archives: seq<Archive>) {
    forall k :: 0 <= k < |archives| ==> archives[k].signer in identities && SignedByItself(mac, archives[k])
  }

  ghost predicate SignedByItself(mac: Mac, a: Archive) {
    exists manifest :: a.manifest == Signed(mac, manifest, a.sums, a.signer)
  }

  lemma {:induction false} WrittenReads(library: Library, file: string, identities: seq<Identity>)
    requires Written(library, file, identities)
    ensures Identities(library, file) == Ok(identities)
  {
    KeyFileRoundTrip(library, identities);
  }

  lemma {:induction false} SignedAreReadable(
      library: Library, mac: Mac, file: string, identities: seq<Identity>, archives: seq<Archive>)
    requires Written(library, file, identities) && AllSigned(mac, identities, archives)
    ensures ReadableIfAlone(library, mac, file, identities, archives)
  {
    hide KeyFileText, Identities, Signed, Verified;
    WrittenReads(library, file, identities);
    forall k | 0 <= k < |archives|
      ensures Verify(library, mac, file, archives[k].manifest, archives[k].sums) == Ok(archives[k].signer)
         <==> Alone(identities, archives[k].signer)
    {
      var a := archives[k];
      assert SignedByItself(mac, a);
      var manifest :| a.manifest == Signed(mac, manifest, a.sums, a.signer);
      VerifiesExactly(mac, identities, manifest, a.sums, a.signer);
    }
  }

  /** Of distinct recipients every signer is alone. */
  lemma {:induction false} DistinctAreAlone(identities: seq<Identity>, signer: Identity)
    requires DistinctRecipients(identities) && signer in identities
    ensures Alone(identities, signer)
  {
    var i :| 0 <= i < |identities| && identities[i] == signer;
    NamedOne(identities, i);
  }

  lemma {:induction false} DistinctAreReadable(
      library: Library, mac: Mac, file: string, identities: seq<Identity>, archives: seq<Archive>)
    requires ReadableIfAlone(library, mac, file, identities, archives) && AllSigned(mac, identities, archives)
    requires DistinctRecipients(identities)
    ensures Readable(library, mac, file, archives)
  {
    hide Verify, SignedByItself, DistinctRecipients, Alone;
    forall k | 0 <= k < |archives|
      ensures Verify(library, mac, file, archives[k].manifest, archives[k].sums) == Ok(archives[k].signer)
    {
      DistinctAreAlone(identities, archives[k].signer);
    }
  }

  lemma GenuineMade(library: Library, secret: Payload)
    requires |secret| == 32
    ensures Genuine(library, IdentityOf(library, secret))
  {}

  /** A rotation in front of the list keeps the file readable and every signer in it. */
  lemma {:induction false} RotationKeeps(
      library: Library, mac: Mac, file: string, identities: seq<Identity>, archives: seq<Archive>, secret: Payload)
    requires |secret| == 32
    requires Written(library, file, identities) && AllSigned(mac, identities, archives)
    ensures Written(library, KeyFileText([IdentityOf(library, secret)] + identities),
      [IdentityOf(library, secret)] + identities)
    ensures AllSigned(mac, [IdentityOf(library, secret)] + identities, archives)
  {
    hide KeyFileText, IdentityOf, Genuine, SignedByItself;
    GenuineMade(library, secret);
    var more := [IdentityOf(library, secret)] + identities;
    assert forall i :: 0 <= i < |identities| ==> more[i + 1] == identities[i];
  }

  lemma {:induction false} SigningKeeps(
      mac: Mac, identities: seq<Identity>, archives: seq<Archive>, manifest: Manifest, sums: seq<nat>)
    requires identities != [] && AllSigned(mac, identities, archives)
    ensures AllSigned(mac, identities,
              archives + [Archive(Signed(mac, manifest, sums, identities[0]), sums, identities[0])])
  {
    hide Signed;
    var more := archives + [Archive(Signed(mac, manifest, sums, identities[0]), sums, identities[0])];
    forall k | 0 <= k < |more|
      ensures more[k].signer in identities && SignedByItself(mac, more[k])
    {
      if k < |archives| { assert more[k] == archives[k]; }
    }
  }

  /** The key file and, for the record, every archive signed with it so far. */
  class KeyStore {
    const library: Library
    const mac: Mac
    const supplied: bool
    var file: string
    ghost var identities: seq<Identity>
    ghost var archives: seq<Archive>

    ghost predicate Valid()
      reads this
    {
      Written(library, file, identities) && AllSigned(mac, identities, archives)
    }

    /** A key file of one identity, generated or supplied by the operator. */
    constructor (library: Library, mac: Mac, secret: Payload, supplied: bool)
      requires |secret| == 32
      ensures Valid() && this.supplied == supplied && this.library == library && this.mac == mac
      ensures identities == [IdentityOf(library, secret)] && archives == []
    {
      this.library, this.mac, this.supplied := library, mac, supplied;
      hide KeyFileText, IdentityOf;
      FirstKey(library, mac, secret);
      var first := IdentityOf(library, secret);
      file := KeyFileText([first]);
      identities, archives := [first], [];
    }

    /** `rotate`: None when the key is supplied, which is never changed. */
    method Rotate(secret: Payload) returns (added: Option<Identity>)
      requires Valid() && |secret| == 32
      modifies this
      ensures Valid() && archives == old(archives)
      ensures supplied ==> added == None && file == old(file) && identities == old(identities)
      ensures !supplied ==> added == Some(IdentityOf(library, secret)) && identities == [added.value] + old(identities)
    {
      hide KeyFileText, Identities, IdentityOf, Written, AllSigned;
      if supplied {
        return None;
      }
      var current := ParseIdentities(library, file);
      WrittenReads(library, file, identities);
      var made := IdentityOf(library, secret);
      RotationKeeps(library, mac, file, identities, archives, secret);
      file := KeyFileText([made] + current.value);
      identities := [made] + identities;
      added := Some(made);
    }

    /** `sign` with the newest key, the first of the file. */
    method Sign(manifest: Manifest, sums: seq<nat>) returns (signed: Manifest)
      requires Valid()
      modifies this`archives
      ensures Valid()
      ensures signed == Signed(mac, manifest, sums, identities[0])
      ensures archives == old(archives) + [Archive(signed, sums, identities[0])]
    {
      hide KeyFileText, Identities, AllSigned;
      var current := ParseIdentities(library, file);
      WrittenReads(library, file, identities);
      SigningKeeps(mac, identities, archives, manifest, sums);
      signed := Signed(mac, manifest, sums, current.value[0]);
      archives := archives + [Archive(signed, sums, identities[0])];
    }

    /** `verify`, of any manifest: its identity's exactly when that is the one of its recipient in
        the file and its MAC is right. So an archive signed before is its signer's, whatever
        rotations came between, exactly when the signer is alone with its recipient. */
    method Check(manifest: Manifest, sums: seq<nat>) returns (r: Result<Identity, VerifyError>)
      requires Valid()
      ensures r == Verify(library, mac, file, manifest, sums)
      ensures forall x ::
        r == Ok(x) <==> Vouched(mac, x, manifest, sums) && exists i: nat :: OnlyOne(identities, i) && identities[i] == x
      ensures r.Ok? || r == Err(NotOurs)
      ensures forall k :: 0 <= k < |archives| && archives[k].manifest == manifest && archives[k].sums == sums ==>
        (r == Ok(archives[k].signer) <==> Alone(identities, archives[k].signer))
      ensures DistinctRecipients(identities) ==>
        forall k :: (0 <= k < |archives| && archives[k].manifest == manifest && archives[k].sums == sums
                     ==> r == Ok(archives[k].signer))
    {
      SignedAreReadable(library, mac, file, identities, archives);
      if DistinctRecipients(identities) {
        DistinctAreReadable(library, mac, file, identities, archives);
      }
      WrittenReads(library, file, identities);
      forall x
        ensures Verified(mac, identities, manifest, sums) == Ok(x) <==>
          Vouched(mac, x, manifest, sums) && exists i: nat :: OnlyOne(identities, i) && identities[i] == x
        ensures Verified(mac, identities, manifest, sums).Ok?
          || Verified(mac, identities, manifest, sums) == Err(NotOurs)
      {
        VouchedExactly(mac, identities, manifest, sums, x);
      }
      hide KeyFileText, Identities, Signed, Verified, Alone, DistinctRecipients, Vouched, OnlyOne;
      var current := ParseIdentities(library, file);
      match current
      case Err(error) => r := Err(Unavailable(error));
      case Ok(found) => r := Verified(mac, found, manifest, sums);
    }
  }

  // ---- every run ----

  datatype Op = Sign(manifest: Manifest, sums: seq<nat>) | Rotate(secret: Payload)

  datatype Vault = Vault(file: string, archives: seq<Archive>)

  /** One command on a generated key; None where the file cannot be read. */
  function After(library: Library, mac: Mac, v: Vault, op: Op): Option<Vault> {
    match Identities(library, v.file)
    case Err(_) => None
    case Ok(found) =>
      match op
      case Sign(manifest, sums) =>
        Some(v.(archives := v.archives + [Archive(Signed(mac, manifest, sums, found[0]), sums, found[0])]))
      case Rotate(secret) =>
        Some(v.(file := KeyFileText([IdentityOf(library, secret)] + found)))
  }

  function Run(library: Library, mac: Mac, v: Vault, ops: seq<Op>): Option<Vault> {
    if ops == [] then Some(v)
    else
      match Run(library, mac, v, ops[..|ops| - 1])
      case None => None
      case Some(before) => After(library, mac, before, ops[|ops| - 1])
  }

  /** The identities the file should hold: the newest rotation first, the first key last. */
  function Expected(library: Library, first: Payload, ops: seq<Op>): (ids: seq<Identity>)
    ensures ids != []
  {
    if ops == [] then [IdentityOf(library, first)]
    else
      var before := Expected(library, first, ops[..|ops| - 1]);
      match ops[|ops| - 1]
      case Sign(_, _) => before
      case Rotate(secret) => [IdentityOf(library, secret)] + before
  }

  ghost predicate FullLength(ops: seq<Op>) {
    forall i :: 0 <= i < |ops| && ops[i].Rotate? ==> |ops[i].secret| == 32
  }

  lemma {:induction false} RunWritten(library: Library, mac: Mac, first: Payload, ops: seq<Op>)
    requires |first| == 32 && FullLength(ops)
    ensures var start := Vault(KeyFileText([IdentityOf(library, first)]), []);
      && Run(library, mac, start, ops).Some?
      && Written(library, Run(library, mac, start, ops).value.file, Expected(library, first, ops))
      && AllSigned(mac, Expected(library, first, ops), Run(library, mac, start, ops).value.archives)
  {
    hide KeyFileText, Identities, Signed, IdentityOf, AllSigned;
    if ops == [] {
      FirstKey(library, mac, first);
    } else {
      var n := |ops| - 1;
      var before := Expected(library, first, ops[..n]);
      RunWritten(library, mac, first, ops[..n]);
      var v := Run(library, mac, Vault(KeyFileText([IdentityOf(library, first)]), []), ops[..n]).value;
      WrittenReads(library, v.file, before);
      match ops[n]
      case Rotate(secret) => RotationKeeps(library, mac, v.file, before, v.archives, secret);
      case Sign(manifest, sums) => SigningKeeps(mac, before, v.archives, manifest, sums);
    }
  }

  lemma FirstKey(library: Library, mac: Mac, first: Payload)
    requires |first| == 32
    ensures Written(library, KeyFileText([IdentityOf(library, first)]), [IdentityOf(library, first)])
    ensures AllSigned(mac, [IdentityOf(library, first)], [])
  {
    hide KeyFileText, IdentityOf, Genuine;
    GenuineMade(library, first);
  }

  /** Whatever signing and rotating came between, the next archive is signed with the newest
      key, and every archive ever signed verifies as its signer's exactly when no other
      identity of the file has the signer's recipient. */
  lemma {:induction false} RotationStrandsExactly(library: Library, mac: Mac, first: Payload, ops: seq<Op>)
    requires |first| == 32 && FullLength(ops)
    ensures var start := Vault(KeyFileText([IdentityOf(library, first)]), []);
      var end := Run(library, mac, start, ops);
      && end.Some?
      && Identities(library, end.value.file) == Ok(Expected(library, first, ops))
      && ReadableIfAlone(library, mac, end.value.file, Expected(library, first, ops), end.value.archives)
  {
    hide KeyFileText, Identities, Signed, Verify, Alone;
    RunWritten(library, mac, first, ops);
    var end := Run(library, mac, Vault(KeyFileText([IdentityOf(library, first)]), []), ops).value;
    WrittenReads(library, end.file, Expected(library, first, ops));
    SignedAreReadable(library, mac, end.file, Expected(library, first, ops), end.archives);
  }

  /** So with distinct recipients no archive is ever stranded. */
  lemma {:induction false} RotationStrandsNothing(library: Library, mac: Mac, first: Payload, ops: seq<Op>)
    requires |first| == 32 && FullLength(ops)
    requires DistinctRecipients(Expected(library, first, ops))
    ensures var start := Vault(KeyFileText([IdentityOf(library, first)]), []);
      var end := Run(library, mac, start, ops);
      end.Some? && Readable(library, mac, end.value.file, end.value.archives)
  {
    hide KeyFileText, Identities, Signed, Verify, Alone, Written;
    RunWritten(library, mac, first, ops);
    RotationStrandsExactly(library, mac, first, ops);
    var end := Run(library, mac, Vault(KeyFileText([IdentityOf(library, first)]), []), ops).value;
    DistinctAreReadable(library, mac, end.file, Expected(library, first, ops), end.archives);
  }
}
