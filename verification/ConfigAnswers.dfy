/** What the settings of single sign-on accept and write, in terms of the rows: config.py,
    lines 80-249, accounts.py, lines 481-590, and routers/sso.py, lines 598-847. */
module ConfigAnswers {
  import opened Common
  import opened SignIn
  import opened WaysIn

  // ---- issuers ----

  /** The issuer a preset stands for, given exactly what the preset needs to be told. */
  ghost predicate Leads(
    preset: Preset, issuer: Option<string>, tenant: Option<string>, formed: string -> bool, result: string) {
    match preset
    case Google => issuer.None? && tenant.None? && result == "https://accounts.google.com"
    case GitHub => issuer.None? && tenant.None? && result == "https://github.com"
    case Microsoft =>
      && issuer.None? && tenant.Some? && tenant.value != ""
      && result == "https://login.microsoftonline.com/" + tenant.value + "/v2.0"
    case Custom => issuer == Some(result) && tenant.None? && result != "" && formed(result)
  }

  lemma {:induction false} IssuerAnswers(
      preset: Preset, issuer: Option<string>, tenant: Option<string>, formed: string -> bool, result: string)
    ensures RouteIssuer(preset, issuer, tenant, formed) == Some(result) <==>
      Leads(preset, issuer, tenant, formed, result)
  {}

  /** Another provider has both the issuer and the client id. */
  ghost predicate PairElsewhere(db: Db, issuer: string, clientId: string, own: nat) {
    exists p ::
      p in db.providers && p != own && db.providers[p].issuer == issuer && db.providers[p].clientId == clientId
  }

  // ---- adding ----

  ghost predicate MayAdd(db: Db, draft: Draft, env: Env, issuer: string) {
    && Leads(draft.preset, draft.issuer, draft.tenant, env.formed, issuer)
    && !env.sharedHosts && |db.providers| < 8
    && !PairElsewhere(db, issuer, draft.clientId, db.nextProvider)
  }

  /** A provider is added exactly when its preset leads to an issuer, the two origins do not share
      a host, there are fewer than eight, and none has its issuer and client id; then it is one
      new row, on if the form says so. */
  lemma {:induction false} AddAnswers(db: Db, draft: Draft, env: Env, t: int)
    requires Sound(db)
    ensures var (after, outcome) := AddProvider(db, draft, env, t);
      && (outcome.Added? <==> exists issuer :: MayAdd(db, draft, env, issuer))
      && (!outcome.Added? ==> outcome.Refused? && after == db)
      && (outcome.Added? ==>
            && outcome.provider !in db.providers
            && after == db.(providers := after.providers, nextProvider := after.nextProvider, config := after.config)
            && exists issuer ::
                 && MayAdd(db, draft, env, issuer)
                 && after.providers == db.providers[outcome.provider := Provider(
                      draft.preset, if draft.preset.GitHub? then OAuth2Profile else OidcKind, issuer, draft.clientId,
                      draft.displayName, draft.enabled)])
  {
    hide WayIn, SessionRows, IdentityRows, Distinct, Defaulted, UserRows, RouteIssuer, PairElsewhere, PairTaken;
    var issuer := RouteIssuer(draft.preset, draft.issuer, draft.tenant, env.formed);
    forall result | MayAdd(db, draft, env, result) ensures issuer == Some(result) {
      IssuerAnswers(draft.preset, draft.issuer, draft.tenant, env.formed, result);
    }
    if issuer.Some? {
      IssuerAnswers(draft.preset, draft.issuer, draft.tenant, env.formed, issuer.value);
      PairIs(db, Provider(draft.preset, KindFor(draft.preset), issuer.value, draft.clientId, draft.displayName, false),
        db.nextProvider);
      if AddProvider(db, draft, env, t).1.Added? {
        assert MayAdd(db, draft, env, issuer.value);
      }
    }
  }

  lemma PairIs(db: Db, row: Provider, own: nat)
    ensures PairTaken(db.providers, row, own) <==> PairElsewhere(db, row.issuer, row.clientId, own)
  {}

  // ---- changing ----

  /** A column the patch names takes its value, and one it does not stays. */
  ghost predicate Takes<T(!new)>(given: Option<T>, held: T, column: T) {
    column == if given.Some? then given.value else held
  }

  /** The patch names something the issuer follows from. */
  ghost predicate Renames(row: Provider, patch: Patch) {
    patch.issuer.Some? || patch.tenant.Some? || (patch.preset.Some? && patch.preset.value != row.preset)
  }

  /** The row the patch asks for; a custom provider that stays one keeps its issuer unless told. */
  ghost predicate AsPatched(row: Provider, patch: Patch, formed: string -> bool, wanted: Provider) {
    && Takes(patch.preset, row.preset, wanted.preset) && Takes(patch.clientId, row.clientId, wanted.clientId)
    && Takes(patch.displayName, row.displayName, wanted.displayName)
    && Takes(patch.enabled, row.enabled, wanted.enabled)
    && wanted.kind == (if wanted.preset.GitHub? then OAuth2Profile else OidcKind)
    && if !Renames(row, patch) then wanted.issuer == row.issuer
       else
         var kept := patch.issuer.None? && row.preset.Custom? && wanted.preset.Custom?;
         Leads(wanted.preset, if kept then Some(row.issuer) else patch.issuer, patch.tenant, formed, wanted.issuer)
  }

  /** A column that stands for what identities were linked to. */
  ghost predicate Repinned(row: Provider, wanted: Provider) {
    wanted.issuer != row.issuer || wanted.clientId != row.clientId || wanted.kind != row.kind
    || wanted.preset != row.preset
  }

  ghost predicate MayChange(db: Db, provider: nat, patch: Patch, env: Env, wanted: Provider) {
    && provider in db.providers
    && var row := db.providers[provider];
    && AsPatched(row, patch, env.formed, wanted)
    && (env.sharedHosts ==> patch.preset.None? && !Renames(row, patch))
    && (Repinned(row, wanted) ==> forall i :: i in db.identities ==> db.identities[i].provider != Some(provider))
    && !PairElsewhere(db, wanted.issuer, wanted.clientId, provider)
  }

  /** What the patch's issuer comes to, and so its row. */
  lemma PatchedAnswers(row: Provider, patch: Patch, env: Env, wanted: Provider)
    requires row.kind == KindFor(row.preset)
    ensures AsPatched(row, patch, env.formed, wanted) <==>
      && PatchedIssuer(row, patch, env).Some?
      && wanted == Patched(row, patch, PatchedIssuer(row, patch, env).value).(
           enabled := if patch.enabled.Some? then patch.enabled.value else row.enabled)
  {
    hide RouteIssuer, Leads;
    var preset := if patch.preset.Some? then patch.preset.value else row.preset;
    var kept := patch.issuer.None? && preset.Custom? && row.preset.Custom?;
    var given := if kept then Some(row.issuer) else patch.issuer;
    IssuerAnswers(preset, given, patch.tenant, env.formed, wanted.issuer);
    if RouteIssuer(preset, given, patch.tenant, env.formed).Some? {
      IssuerAnswers(preset, given, patch.tenant, env.formed,
        RouteIssuer(preset, given, patch.tenant, env.formed).value);
    }
  }

  lemma UpdateAnswers(db: Db, provider: nat, asked: Provider)
    requires provider in db.providers && asked.kind == KindFor(asked.preset)
    ensures var outcome := UpdateProvider(db, provider, asked).1;
      && (outcome.Done? || outcome.Refused?)
      && (outcome.Done? <==>
            && (Repinned(db.providers[provider], asked) ==>
                  forall i :: i in db.identities ==> db.identities[i].provider != Some(provider))
            && !PairElsewhere(db, asked.issuer, asked.clientId, provider))
  {
    PairIs(db, asked, provider);
    hide PairTaken, PairElsewhere;
    if forall i :: i in db.identities ==> db.identities[i].provider != Some(provider) {
      assert LinkedThrough(db, provider) == {};
    } else {
      var i :| i in db.identities && db.identities[i].provider == Some(provider);
      assert i in LinkedThrough(db, provider);
    }
  }

  lemma SwitchAnswers(db: Db, provider: nat, enabled: Option<bool>, t: int)
    requires provider in db.providers
    ensures var (after, outcome) := Switch(db, provider, enabled, t);
      var on := if enabled.Some? then enabled.value else db.providers[provider].enabled;
      && outcome.Done?
      && after == db.(providers := after.providers, sessions := after.sessions, config := after.config)
      && after.providers == db.providers[provider := db.providers[provider].(enabled := on)]
  {
    hide ThroughIdentities, LinkedThrough, Unrevoked;
  }

  /** A change is accepted exactly when the row it asks for may be written; then that row is,
      and no other. */
  lemma {:induction false} ChangeAnswers(db: Db, provider: nat, patch: Patch, env: Env, t: int)
    requires Sound(db)
    ensures var (after, outcome) := ChangeProvider(db, provider, patch, env, t);
      && (outcome.Done? <==> exists wanted :: MayChange(db, provider, patch, env, wanted))
      && (!outcome.Done? ==> outcome.Refused? && after == db)
      && (outcome.Done? ==>
            && after == db.(providers := after.providers, sessions := after.sessions, config := after.config)
            && provider in after.providers && MayChange(db, provider, patch, env, after.providers[provider])
            && after.providers == db.providers[provider := after.providers[provider]])
  {
    KindsFollow(db);
    if provider in db.providers {
      var row := db.providers[provider];
      if PatchedIssuer(row, patch, env).Some? {
        hide Sound, PatchedIssuer, MayChange, ChangeProvider;
        IssuedAnswers(db, provider, patch, env, t);
      } else {
        forall other ensures !MayChange(db, provider, patch, env, other) {
          PatchedAnswers(row, patch, env, other);
        }
      }
    }
  }

  /** Where the patch leads to an issuer it asks for one row. */
  lemma IssuedAnswers(db: Db, provider: nat, patch: Patch, env: Env, t: int)
    requires provider in db.providers && PatchedIssuer(db.providers[provider], patch, env).Some?
    requires db.providers[provider].kind == KindFor(db.providers[provider].preset)
    ensures var (after, outcome) := ChangeProvider(db, provider, patch, env, t);
      && (outcome.Done? || (outcome.Refused? && after == db))
      && (outcome.Done? <==> exists wanted :: MayChange(db, provider, patch, env, wanted))
      && (outcome.Done? ==>
            && after == db.(providers := after.providers, sessions := after.sessions, config := after.config)
            && provider in after.providers && MayChange(db, provider, patch, env, after.providers[provider])
            && after.providers == db.providers[provider := after.providers[provider]])
  {
    var row := db.providers[provider];
    var asked := Patched(row, patch, PatchedIssuer(row, patch, env).value);
    var wanted := asked.(enabled := if patch.enabled.Some? then patch.enabled.value else row.enabled);
    PatchedAnswers(row, patch, env, wanted);
    assert asked.kind == KindFor(asked.preset) && asked.enabled == row.enabled;
    hide Patched, PatchedIssuer, AsPatched, PairElsewhere, UpdateProvider, Switch;
    forall other | MayChange(db, provider, patch, env, other) ensures other == wanted {
      PatchedAnswers(row, patch, env, other);
    }
    UpdateAnswers(db, provider, asked);
    UpdatedIs(db, provider, asked);
    SwitchAnswers(UpdateProvider(db, provider, asked).0, provider, patch.enabled, t);
    RepinnedAlike(row, asked, wanted);
    assert MayChange(db, provider, patch, env, wanted) <==> ChangeProvider(db, provider, patch, env, t).1.Done?;
  }

  lemma RepinnedAlike(row: Provider, asked: Provider, wanted: Provider)
    requires wanted == asked.(enabled := wanted.enabled)
    ensures Repinned(row, asked) <==> Repinned(row, wanted)
  {}

  lemma KindsFollow(db: Db)
    requires Sound(db)
    ensures forall p :: p in db.providers ==> db.providers[p].kind == KindFor(db.providers[p].preset)
  {
    hide WayIn, SessionRows, IdentityRows, Distinct, Defaulted, UserRows;
  }

  // ---- removing and switching ----

  /** An identity is unlinked exactly for its own account, and nothing but it and sessions changes. */
  lemma {:induction false} UnlinkAnswers(db: Db, user: nat, identity: nat, t: int)
    ensures var (after, outcome) := UnlinkIdentity(db, user, identity, t);
      && (outcome.Done? <==> identity in db.identities && db.identities[identity].user == user)
      && (!outcome.Done? ==> outcome == Refused(NotFound) && after == db)
      && (outcome.Done? ==> after == db.(identities := db.identities - {identity}, sessions := after.sessions))
  {}

  /** A provider is deleted exactly where there is one, with the identities linked through it. */
  lemma {:induction false} DeleteAnswers(db: Db, provider: nat, t: int)
    ensures var (after, outcome) := DeleteProvider(db, provider, t);
      && (outcome.Done? <==> provider in db.providers)
      && (!outcome.Done? ==> outcome == Refused(NotFound) && after == db)
      && (outcome.Done? ==>
            && after == db.(providers := after.providers, identities := after.identities, sessions := after.sessions)
            && after.providers == db.providers - {provider}
            && after.identities ==
                 map i | i in db.identities && db.identities[i].provider != Some(provider) :: db.identities[i])
  {
    hide RevokeWhere, ThroughIdentities, Unrevoked;
    if provider in db.providers {
      RevokedElse(db, ThroughIdentities(db, LinkedThrough(db, provider)), t);
      var after := DeleteProvider(db, provider, t).0;
      assert after.providers == db.providers - {provider};
      assert after.identities ==
        map i | i in db.identities && db.identities[i].provider != Some(provider) :: db.identities[i];
    }
  }

  lemma RevokedElse(db: Db, among: set<nat>, t: int)
    ensures var after := RevokeWhere(db, among, t);
      after == db.(sessions := after.sessions)
  {}

  /** The switch-off leaves every provider as it was but off, and the header off. */
  lemma {:induction false} DisableAnswers(db: Db, t: int)
    ensures var (after, outcome) := DisableSso(db, t);
      && outcome.Done?
      && after == db.(providers := after.providers, sessions := after.sessions,
                      config := db.config.(headerEnabled := false))
      && after.providers == map p | p in db.providers :: db.providers[p].(enabled := false)
  {
    hide Unrevoked, ByMethod;
  }

  /** The form sets the switches it names and no other. */
  lemma {:induction false} PutConfigAnswers(db: Db, alerts: Option<bool>, header: Option<bool>, t: int)
    ensures var (after, outcome) := PutConfig(db, alerts, header, t);
      && outcome.Done?
      && after == db.(sessions := after.sessions, config := after.config)
      && Takes(header, db.config.headerEnabled, after.config.headerEnabled)
      && Takes(alerts, db.config.alerts, after.config.alerts)
      && after.config.alertsDefaultedAt == db.config.alertsDefaultedAt
  {
    hide Unrevoked, ByMethod;
  }
}
