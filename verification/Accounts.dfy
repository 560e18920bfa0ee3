/** The tables as the functions of sessions.py, accounts.py, config.py and routers/sso.py
    change them, row by row; each method is one committed transaction of the sign-in
    machine and keeps its invariant. */
module Accounts {
  import opened Common
  import opened SignIn
  import opened WaysIn
  import opened WaysOut

  class Tables {
    var users: map<nat, User>
    var sessions: map<nat, Session>
    var identities: map<nat, Identity>
    var providers: map<nat, Provider>
    var config: Config
    var claim: Option<nat>
    var nextUser: nat
    var nextSession: nat
    var nextIdentity: nat
    var nextProvider: nat

    /** What is committed. */
    ghost function State(): Db
      reads this
    {
      Db(users, sessions, identities, providers, config, claim, nextUser, nextSession, nextIdentity, nextProvider)
    }

    ghost predicate Valid()
      reads this
    {
      Sound(State())
    }

    constructor ()
      ensures Valid() && State() == EMPTY
    {
      users, sessions, identities, providers := map[], map[], map[], map[];
      config, claim := Config(true, false, None), None;
      nextUser, nextSession, nextIdentity, nextProvider := 1, 1, 1, 1;
    }

    // ---- sessions.py ----

    method CreateSession(user: nat, auth: Method, identity: Option<nat>, t: int) returns (s: nat)
      modifies this`sessions, this`nextSession
      ensures State() == Create(old(State()), user, auth, identity, t) && s == old(nextSession)
    {
      s := nextSession;
      sessions := sessions[s := Session(user, auth, identity, t, t + LIFETIME, None, None)];
      nextSession := s + 1;
    }

    /** `find`: the live row a cookie names. */
    method Find(presented: Option<nat>, t: int) returns (found: Option<nat>)
      ensures found == if presented.Some? && Live(State(), presented.value, t) then presented else None
    {
      found := None;
      if presented.Some? && presented.value in sessions {
        var row := sessions[presented.value];
        if row.user in users {
          var valid := row.revokedAt.None? && users[row.user].active && t < row.expiresAt && t < row.lastSeenAt + IDLE;
          found := if valid then presented else None;
        }
      }
    }

    method RevokeSession(s: nat, t: int)
      requires s in sessions
      modifies this`sessions
      ensures State() == Revoke(old(State()), s, t)
    {
      var row := sessions[s];
      if row.revokedAt.None? {
        row := row.(revokedAt := Some(t));
      }
      row := row.(confirmedUntil := None);
      sessions := sessions[s := row];
    }

    /** `_revoke_where`: every row not revoked among these, with the rowcount. */
    method RevokeAmong(among: set<nat>, t: int) returns (ended: nat)
      modifies this`sessions
      ensures State() == RevokeWhere(old(State()), among, t)
      ensures ended == |Unrevoked(old(State()), among)|
    {
      var hit := set s | s in sessions && s in among && sessions[s].revokedAt.None?;
      assert hit == Unrevoked(State(), among);
      ended := |hit|;
      sessions := map s | s in sessions ::
        if s in hit then sessions[s].(revokedAt := Some(t), confirmedUntil := None) else sessions[s];
    }

    /** The gate: a live session is touched, at most once a minute. */
    method Pass(s: nat, t: int) returns (outcome: Outcome)
      requires Valid()
      modifies this
      ensures Valid() && (State(), outcome) == Use(old(State()), s, t)
    {
      if Live(State(), s, t) {
        SeenKeeps(State(), s, TouchedRow(sessions[s], t));
      }
      hide Sound, LiveRow;
      var found := Find(Some(s), t);
      if found.None? {
        return Refused(NoSession);
      }
      if t - sessions[s].lastSeenAt >= TOUCH_EVERY {
        sessions := sessions[s := sessions[s].(lastSeenAt := t)];
      } else {
        assert sessions == sessions[s := sessions[s]];
      }
      outcome := Done(0);
    }

    // ---- accounts.py ----

    method PasswordSignInOf(user: nat, presented: Option<nat>, t: int) returns (outcome: Outcome)
      requires Valid()
      modifies this
      ensures Valid() && (State(), outcome) == PasswordSignIn(old(State()), user, presented, t)
      ensures outcome.Started? ==> Starts(old(State()), State(), outcome.session, user, Password, presented, t)
      ensures outcome.Refused? ==> State() == old(State())
    {
      PasswordStarts(State(), user, presented, t);
      PasswordSignInKeeps(State(), user, presented, t);
      hide Sound, LiveRow, Starts;
      if user !in users || !users[user].active {
        return Refused(WrongPassword);
      }
      var held := if presented.Some? && presented.value in sessions then presented else None;
      var s := CreateSession(user, Password, None, t);
      users := users[user := users[user].(lastLoginAt := Some(t))];
      var found := Find(held, t);
      if found.Some? {
        RevokeSession(found.value, t);
      }
      outcome := Started(s);
    }

    /** `start_external`. */
    method StartExternalOf(identity: nat, auth: Method, presented: Option<nat>, t: int) returns (s: nat)
      requires identity in identities && identities[identity].user in users
      modifies this
      ensures State() == StartExternal(old(State()), identity, auth, presented, t) && s == old(nextSession)
    {
      var found := Find(presented, t);
      if found.Some? {
        RevokeSession(found.value, t);
      }
      var user := identities[identity].user;
      s := CreateSession(user, auth, Some(identity), t);
      users := users[user := users[user].(lastLoginAt := Some(t))];
    }

    /** The callback with the login intent. */
    method OidcCallback(provider: nat, subject: string, presented: Option<nat>, t: int) returns (outcome: Outcome)
      requires Valid()
      modifies this
      ensures Valid() && (State(), outcome) == CallbackSignIn(old(State()), provider, subject, presented, t)
      ensures outcome.Started? ==>
        && provider in providers
          && CameThrough(State(), outcome.session, Some(provider), providers[provider].issuer, subject)
        && Starts(old(State()), State(), outcome.session, sessions[outcome.session].user, Oidc, presented, t)
      ensures outcome.Refused? ==> State() == old(State())
    {
      CallbackStarts(State(), provider, subject, presented, t);
      CallbackSignInKeeps(State(), provider, subject, presented, t);
      hide Sound, LiveRow, StartExternal, Starts, CameThrough;
      if provider !in providers || !providers[provider].enabled {
        return Refused(Disabled);
      }
      var found := FindIdentity(identities, Named(Some(provider), providers[provider].issuer, subject), nextIdentity);
      outcome := SignInThrough(found, Oidc, presented, t);
    }

    /** `trusted_sign_in`, the assertion verified. */
    method TrustedHeaderSignIn(
        configured: bool, issuer: string, subject: string, presented: Option<nat>, t: int) returns (outcome: Outcome)
      requires Valid()
      modifies this
      ensures Valid() && (State(), outcome) == TrustedSignIn(old(State()), configured, issuer, subject, presented, t)
      ensures outcome.Started? ==>
        && CameThrough(State(), outcome.session, None, issuer, subject)
        && Starts(old(State()), State(), outcome.session, sessions[outcome.session].user, TrustedHeader, presented, t)
      ensures outcome.Refused? ==> State() == old(State())
    {
      HeaderStarts(State(), configured, issuer, subject, presented, t);
      TrustedSignInKeeps(State(), configured, issuer, subject, presented, t);
      hide Sound, LiveRow, StartExternal, Starts, CameThrough;
      if !configured || !config.headerEnabled {
        return Refused(NotFound);
      }
      var found := FindIdentity(identities, Named(None, issuer, subject), nextIdentity);
      outcome := SignInThrough(found, TrustedHeader, presented, t);
    }

    method SignInThrough(found: Option<nat>, auth: Method, presented: Option<nat>, t: int) returns (outcome: Outcome)
      requires found.Some? ==> found.value in identities
      modifies this
      ensures (State(), outcome) == ExternalSignIn(old(State()), found, auth, presented, t)
    {
      hide StartExternal;
      if found.None? {
        return Refused(Unlinked);
      }
      var user := identities[found.value].user;
      if user !in users || !users[user].active {
        return Refused(Unlinked);
      }
      var s := StartExternalOf(found.value, auth, presented, t);
      outcome := Started(s);
    }

    /** The two checks both links make. */
    method IsTaken(user: nat, provider: Option<nat>, issuer: string, subject: string) returns (taken: bool)
      ensures taken == Taken(State(), user, provider, issuer, subject)
    {
      var same := FindIdentity(identities, Named(provider, issuer, subject), nextIdentity);
      var own := FindIdentity(identities, Of(user, provider), nextIdentity);
      taken := same.Some? || own.Some?;
    }

    /** What both links share: refused when either check finds a row. */
    method Link(user: nat, provider: Option<nat>, issuer: string, subject: string) returns (outcome: Outcome)
      requires Valid() && user in users
      requires provider.Some? ==> provider.value in providers && providers[provider.value].issuer == issuer
      modifies this
      ensures Valid() && (State(), outcome) == LinkIdentity(old(State()), user, provider, issuer, subject)
    {
      LinkKeeps(State(), user, provider, issuer, subject);
      hide Sound, Taken;
      var taken := IsTaken(user, provider, issuer, subject);
      if taken {
        return Refused(AlreadyLinked);
      }
      outcome := Linked(nextIdentity);
      identities := identities[nextIdentity := Identity(user, provider, issuer, subject)];
      nextIdentity := nextIdentity + 1;
    }

    /** `change_password`, the current one right. */
    method ChangePasswordOf(s: nat, t: int) returns (outcome: Outcome)
      requires Valid()
      modifies this
      ensures Valid() && (State(), outcome) == ChangePassword(old(State()), s, t)
    {
      ChangePasswordKeeps(State(), s, t);
      hide Sound, LiveRow;
      var found := Find(Some(s), t);
      if found.None? {
        return Refused(NoSession);
      }
      var user := sessions[s].user;
      var _ := EndEverything(user, t);
      var started := CreateSession(user, Password, None, t);
      outcome := Started(started);
    }

    /** `_end_everything`, of the sessions. */
    method EndEverything(user: nat, t: int) returns (ended: nat)
      modifies this`sessions
      ensures (State(), Done(ended)) == EndAll(old(State()), user, t)
    {
      var own := set s | s in sessions && sessions[s].user == user;
      assert own == OfUser(State(), user);
      ended := RevokeAmong(own, t);
    }

    method ResetPasswordOf(t: int) returns (outcome: Outcome)
      requires Valid()
      modifies this
      ensures Valid() && (State(), outcome) == ResetPassword(old(State()), t)
    {
      ResetPasswordKeeps(State(), t);
      hide Sound, EndAll;
      if claim.None? || claim.value !in users {
        return Refused(NotClaimed);
      }
      users := users[claim.value := users[claim.value].(active := true)];
      var ended := EndEverything(claim.value, t);
      outcome := Done(ended);
      EndAllSays(State(), claim.value, t);
    }

    lemma EndAllSays(db: Db, user: nat, t: int)
      ensures EndAll(db, user, t).1.Done?
    {}

    /** The rows that go with deleted identities: their sessions are ended first, then name none. */
    method RemoveIdentities(ids: set<nat>, t: int) returns (ended: nat)
      modifies this`sessions, this`identities
      ensures (State(), Done(ended)) == Unlink(old(State()), ids, t)
    {
      var came := set s | s in sessions && sessions[s].identity.Some? && sessions[s].identity.value in ids;
      assert came == ThroughIdentities(State(), ids);
      ended := RevokeAmong(came, t);
      identities := map i | i in identities && i !in ids :: identities[i];
      sessions := map s | s in sessions ::
        if sessions[s].identity.Some?
          && sessions[s].identity.value in ids then sessions[s].(identity := None) else sessions[s];
    }

    method UnlinkIdentityOf(user: nat, identity: nat, t: int) returns (outcome: Outcome)
      requires Valid()
      modifies this
      ensures Valid() && (State(), outcome) == UnlinkIdentity(old(State()), user, identity, t)
      ensures outcome.Done? ==>
        && Ends(old(State()), State(), Through(old(State()), identity), t)
        && outcome.ended == |Through(old(State()), identity)| && identities == old(identities) - {identity}
      ensures outcome.Refused? ==> State() == old(State())
    {
      if identity in identities && identities[identity].user == user {
        UnlinkingEndsItsOwn(State(), user, identity, t);
      }
      UnlinkKeeps(State(), {identity}, t);
      hide Sound, Unlink, Ends, Through;
      if identity !in identities || identities[identity].user != user {
        return Refused(NotFound);
      }
      var ended := RemoveIdentities({identity}, t);
      outcome := Done(ended);
    }

    method DeleteProviderOf(provider: nat, t: int) returns (outcome: Outcome)
      requires Valid()
      modifies this
      ensures Valid() && (State(), outcome) == DeleteProvider(old(State()), provider, t)
      ensures outcome.Done? ==>
        && Ends(old(State()), State(), ThroughProvider(old(State()), provider), t)
        && outcome.ended == |ThroughProvider(old(State()), provider)| && providers == old(providers) - {provider}
      ensures outcome.Refused? ==> State() == old(State())
    {
      if provider in providers {
        DeletingEndsItsOwn(State(), provider, t);
      }
      DeleteProviderKeeps(State(), provider, t);
      hide Sound, Ends, ThroughProvider;
      if provider !in providers {
        return Refused(NotFound);
      }
      var ids := set i | i in identities && identities[i].provider == Some(provider);
      assert ids == LinkedThrough(State(), provider);
      hide Unlink;
      var ended := RemoveIdentities(ids, t);
      providers := map p | p in providers && p != provider :: providers[p];
      outcome := Done(ended);
    }

    /** Every enabled provider, in turn. */
    method SwitchProvidersOff()
      modifies this`providers
      ensures providers == AllOff(old(providers))
    {
      var left := set p | p in providers && providers[p].enabled;
      while left != {}
        invariant providers.Keys == old(providers).Keys && left <= providers.Keys
        invariant forall p :: p in providers ==>
          providers[p] == (if p in left then old(providers)[p] else old(providers)[p].(enabled := false))
        decreases |left|
      {
        var p :| p in left;
        providers := providers[p := providers[p].(enabled := false)];
        left := left - {p};
      }
    }

    /** `disable_sso`: the providers, the header, then the sessions. */
    method DisableSsoNow(t: int) returns (outcome: Outcome)
      requires Valid()
      modifies this
      ensures Valid() && (State(), outcome) == DisableSso(old(State()), t)
      ensures Ends(old(State()), State(), ThroughMethods(old(State()), EXTERNAL), t)
      ensures outcome == Done(|ThroughMethods(old(State()), EXTERNAL)|) && !config.headerEnabled
      ensures forall p :: p in providers ==> !providers[p].enabled
    {
      DisablingEndsEveryExternal(State(), t);
      DisableSsoKeeps(State(), t);
      hide Sound, Ends, ThroughMethods, DisableSso;
      outcome := SwitchAllOff(t);
    }

    /** The switches off, and then the sessions. */
    method SwitchAllOff(t: int) returns (outcome: Outcome)
      modifies this
      ensures (State(), outcome) == DisableSso(old(State()), t)
    {
      hide AllOff, ByMethod, Unrevoked, RevokeWhere;
      SwitchProvidersOff();
      config := config.(headerEnabled := false);
      SwitchesUnread(old(State()), State(), EXTERNAL);
      var ended := EndByMethod(EXTERNAL, t);
      outcome := Done(ended);
    }

    /** `revoke_external`, of every account. */
    method EndByMethod(methods: set<Method>, t: int) returns (ended: nat)
      modifies this`sessions
      ensures State() == RevokeWhere(old(State()), ByMethod(old(State()), methods), t)
      ensures ended == |Unrevoked(old(State()), ByMethod(old(State()), methods))|
    {
      var came := set s | s in sessions && sessions[s].auth in methods;
      assert came == ByMethod(State(), methods);
      ended := RevokeAmong(came, t);
    }

    /** `prune`, of the sessions. */
    method PruneSessions(t: int)
      requires Valid()
      modifies this`sessions
      ensures Valid() && State() == Prune(old(State()), t).0
    {
      PruneKeeps(State(), t);
      hide Sound;
      sessions := map s | s in sessions
        && !(sessions[s].expiresAt < t || sessions[s].lastSeenAt < t - IDLE || sessions[s].revokedAt.Some?) ::
          sessions[s];
    }

    // ---- config.py and routers/sso.py ----

    /** Which sessions came how does not depend on the switches. */
    lemma SwitchesUnread(a: Db, b: Db, methods: set<Method>)
      requires b.sessions == a.sessions
      ensures ByMethod(b, methods) == ByMethod(a, methods)
      ensures Unrevoked(b, ByMethod(a, methods)) == Unrevoked(a, ByMethod(a, methods))
    {}

    /** `put_signin_config`: the two switches in turn. */
    method PutSigninConfig(alerts: Option<bool>, header: Option<bool>, t: int) returns (outcome: Outcome)
      requires Valid()
      modifies this
      ensures Valid() && (State(), outcome) == PutConfig(old(State()), alerts, header, t)
      ensures var off := old(config).headerEnabled && header == Some(false);
        var ended := if off then ThroughMethods(old(State()), {TrustedHeader}) else {};
        Ends(old(State()), State(), ended, t) && outcome == Done(|ended|)
    {
      HeaderOffEndsItsOwn(State(), alerts, header, t);
      PutConfigKeeps(State(), alerts, header, t);
      hide Sound, RevokeWhere, ByMethod, Unrevoked, Ends, ThroughMethods;
      outcome := SwitchBoth(alerts, header, t);
    }

    /** The two switches, each set only where it changes. */
    method SwitchBoth(alerts: Option<bool>, header: Option<bool>, t: int) returns (outcome: Outcome)
      modifies this
      ensures (State(), outcome) == PutConfig(old(State()), alerts, header, t)
    {
      hide RevokeWhere, ByMethod, Unrevoked;
      var ended := 0;
      if alerts.Some? && config.alerts != alerts.value {
        config := config.(alerts := alerts.value);
      }
      if header.Some? && config.headerEnabled != header.value {
        config := config.(headerEnabled := header.value);
        if !header.value {
          SwitchesUnread(old(State()), State(), {TrustedHeader});
          ended := EndByMethod({TrustedHeader}, t);
        }
      }
      outcome := Done(ended);
    }

    /** What the unique constraint on issuer and client id would refuse. */
    method PairHeld(row: Provider, own: nat) returns (held: bool)
      ensures held == PairTaken(providers, row, own)
    {
      held := exists p ::
        p in providers && p != own && providers[p].issuer == row.issuer && providers[p].clientId == row.clientId;
    }

    method Insert(row: Provider)
      modifies this`providers, this`nextProvider
      ensures State() == old(State()).(providers := old(providers)[old(nextProvider) := row],
        nextProvider := old(nextProvider) + 1)
    {
      providers := providers[nextProvider := row];
      nextProvider := nextProvider + 1;
    }

    /** `add_provider`: off until `enable_provider`. */
    method Add(draft: Draft, env: Env, t: int) returns (outcome: Outcome)
      requires Valid()
      modifies this
      ensures Valid() && (State(), outcome) == AddProvider(old(State()), draft, env, t)
    {
      AddProviderKeeps(State(), draft, env, t);
      hide Sound, Enable, RouteIssuer, PairTaken, KindFor;
      var issuer := RouteIssuer(draft.preset, draft.issuer, draft.tenant, env.formed);
      if issuer.None? {
        return Refused(BadIssuer);
      }
      if env.sharedHosts {
        return Refused(SharedHosts);
      }
      if |providers| >= MAX_PROVIDERS {
        return Refused(TooManyProviders);
      }
      var id := nextProvider;
      var row := Provider(draft.preset, KindFor(draft.preset), issuer.value, draft.clientId, draft.displayName, false);
      var held := PairHeld(row, id);
      if held {
        return Refused(AlreadyConfigured);
      }
      Insert(row);
      if draft.enabled {
        EnableProvider(id, t);
      }
      outcome := Added(id);
    }

    /** `enable_provider`. */
    method EnableProvider(provider: nat, t: int)
      requires provider in providers
      modifies this`providers, this`config
      ensures State() == Enable(old(State()), provider, t)
    {
      if providers[provider].enabled {
        return;
      }
      providers := providers[provider := providers[provider].(enabled := true)];
      if config.alertsDefaultedAt.None? {
        config := config.(alertsDefaultedAt := Some(t));
        if !config.alerts {
          config := config.(alerts := true);
        }
      }
    }

    /** `update_provider`: what changed is found first, then refused or set. */
    method Update(provider: nat, row: Provider) returns (outcome: Outcome)
      requires provider in providers && row.enabled == providers[provider].enabled
      modifies this`providers
      ensures (State(), outcome) == UpdateProvider(old(State()), provider, row)
    {
      var before := providers[provider];
      var pinned := before.issuer != row.issuer || before.clientId != row.clientId || before.kind != row.kind
        || before.preset != row.preset;
      var linked := set i | i in identities && identities[i].provider == Some(provider);
      assert linked == LinkedThrough(State(), provider);
      if pinned && linked != {} {
        return Refused(ProviderLinked);
      }
      if row.kind != KindFor(row.preset) {
        return Refused(PresetMismatch);
      }
      var held := PairHeld(row, provider);
      if held {
        return Refused(AlreadyConfigured);
      }
      providers := providers[provider := row];
      outcome := Done(0);
    }

    lemma ChangeSays(db: Db, provider: nat, patch: Patch, env: Env, t: int)
      requires Sound(db)
      ensures var (after, outcome) := ChangeProvider(db, provider, patch, env, t);
        && (outcome.Refused? ==> after == db)
        && (!outcome.Refused? ==>
              && provider in db.providers && provider in after.providers
              && var off := patch.enabled == Some(false) && db.providers[provider].enabled;
              var ended := if off then ThroughProvider(db, provider) else {};
              Ends(db, after, ended, t) && outcome == Done(|ended|))
    {
      hide Sound, Ends, ThroughProvider, ChangeProvider;
      var op := OpChangeProvider(provider, patch, env);
      if ChangeProvider(db, provider, patch, env, t).1.Refused? {
        NothingDone(db, op, t);
      } else {
        ChangedHas(db, provider, patch, env, t);
        ChangingEndsItsOwn(db, provider, patch, env, t);
      }
    }

    /** `change_provider`. */
    method ChangeProviderOf(provider: nat, patch: Patch, env: Env, t: int) returns (outcome: Outcome)
      requires Valid()
      modifies this
      ensures Valid() && (State(), outcome) == ChangeProvider(old(State()), provider, patch, env, t)
      ensures !outcome.Refused? ==>
        && provider in old(providers) && provider in providers
        && var off := patch.enabled == Some(false) && old(providers)[provider].enabled;
        var ended := if off then ThroughProvider(old(State()), provider) else {};
        Ends(old(State()), State(), ended, t) && outcome == Done(|ended|)
      ensures outcome.Refused? ==> State() == old(State())
    {
      ChangeSays(State(), provider, patch, env, t);
      ChangeProviderKeeps(State(), provider, patch, env, t);
      hide Sound, ChangeProvider, Ends, ThroughProvider;
      outcome := PatchProvider(provider, patch, env, t);
    }

    /** The row patched and written, and then its switch. */
    method PatchProvider(provider: nat, patch: Patch, env: Env, t: int) returns (outcome: Outcome)
      modifies this
      ensures (State(), outcome) == ChangeProvider(old(State()), provider, patch, env, t)
    {
      hide Enable, LinkedThrough, ThroughIdentities, PatchedIssuer, Patched, UpdateProvider, Switch;
      if provider !in providers {
        return Refused(NotFound);
      }
      var changed := PatchRow(providers[provider], patch, env);
      if changed.None? {
        return Refused(BadIssuer);
      }
      if env.sharedHosts && (patch.preset.Some? || patch.issuer.Some? || patch.tenant.Some?) {
        return Refused(SharedHosts);
      }
      UpdatedIs(State(), provider, changed.value);
      outcome := Update(provider, changed.value);
      if outcome.Refused? {
        return;
      }
      outcome := SwitchTo(provider, patch.enabled, t);
    }

    /** The columns the patch asks for, or none when the issuer they lead to is not one. */
    method PatchRow(row: Provider, patch: Patch, env: Env) returns (changed: Option<Provider>)
      ensures var issuer := PatchedIssuer(row, patch, env);
        changed == if issuer.None? then None else Some(Patched(row, patch, issuer.value))
      ensures changed.Some? ==> changed.value.enabled == row.enabled
    {
      hide RouteIssuer;
      var preset := if patch.preset.Some? then patch.preset.value else row.preset;
      var issuer := Some(row.issuer);
      var kind := row.kind;
      if patch.preset.Some? || patch.issuer.Some? || patch.tenant.Some? {
        if !(patch.issuer.None? && patch.tenant.None? && preset == row.preset) {
          var given := patch.issuer;
          if given.None? && preset.Custom? && row.preset.Custom? {
            given := Some(row.issuer);
          }
          issuer := RouteIssuer(preset, given, patch.tenant, env.formed);
        }
        kind := KindFor(preset);
      }
      if issuer.None? {
        return None;
      }
      changed := Some(row.(
        preset := preset, kind := kind, issuer := issuer.value,
        clientId := if patch.clientId.Some? then patch.clientId.value else row.clientId,
        displayName := if patch.displayName.Some? then patch.displayName.value else row.displayName));
    }

    /** The switch of `change_provider`: turned off, it ends its sessions. */
    method SwitchTo(provider: nat, enabled: Option<bool>, t: int) returns (outcome: Outcome)
      requires provider in providers
      modifies this
      ensures (State(), outcome) == Switch(old(State()), provider, enabled, t)
    {
      var row := providers[provider];
      var ended := 0;
      if enabled == Some(true) && !row.enabled {
        EnableProvider(provider, t);
      } else if enabled == Some(false) && row.enabled {
        var ids := set i | i in identities && identities[i].provider == Some(provider);
        assert ids == LinkedThrough(old(State()), provider);
        var came := set s | s in sessions && sessions[s].identity.Some? && sessions[s].identity.value in ids;
        assert came == ThroughIdentities(old(State()), ids);
        providers := providers[provider := row.(enabled := false)];
        assert Unrevoked(State(), came) == Unrevoked(old(State()), came);
        ended := RevokeAmong(came, t);
      }
      outcome := Done(ended);
    }
  }
}
