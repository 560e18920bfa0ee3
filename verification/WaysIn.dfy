/** What every transaction keeps: a session that is not revoked came in through a way that
    is still open. */
module WaysIn {
  import opened Common
  import opened SignIn

  type Sessions = map<nat, Session>
  type Identities = map<nat, Identity>
  type Providers = map<nat, Provider>

  // ---- the invariant ----

  /** The way the session came in is open: its identity is its own account's, and its
      provider, or the trusted header, is switched on. */
  ghost predicate Open(row: Session, identities: Identities, providers: Providers, headerOn: bool) {
    match row.auth
    case Password => row.identity.None?
    case Oidc =>
      && row.identity.Some? && row.identity.value in identities
      && var identity := identities[row.identity.value];
      && identity.user == row.user
      && identity.provider.Some? && identity.provider.value in providers
      && providers[identity.provider.value].enabled
    case TrustedHeader =>
      && row.identity.Some? && row.identity.value in identities
      && var identity := identities[row.identity.value];
      && identity.user == row.user
      && identity.provider.None?
      && headerOn
  }

  ghost predicate WayIn(sessions: Sessions, identities: Identities, providers: Providers, headerOn: bool) {
    forall s :: s in sessions && sessions[s].revokedAt.None? ==> Open(sessions[s], identities, providers, headerOn)
  }

  ghost predicate SessionRows(sessions: Sessions, users: map<nat, User>, next: nat) {
    && (forall s :: s in sessions ==> s < next && sessions[s].user in users)
    && (forall s :: s in sessions && sessions[s].auth.Password? ==> sessions[s].identity.None?)
    && (forall s :: s in sessions && sessions[s].revokedAt.Some? ==> sessions[s].confirmedUntil.None?)
  }

  /** An identity's issuer is its provider's, so the pair it was linked with never moves. */
  ghost predicate IdentityRows(identities: Identities, users: map<nat, User>, providers: Providers, next: nat) {
    forall i :: i in identities ==>
      && i < next && identities[i].user in users
      && (identities[i].provider.Some? ==>
            && identities[i].provider.value in providers
            && providers[identities[i].provider.value].issuer == identities[i].issuer)
  }

  ghost predicate Clash(a: Identity, b: Identity) {
    a.provider == b.provider && (a.user == b.user || (a.issuer == b.issuer && a.subject == b.subject))
  }

  ghost predicate Distinct(identities: Identities) {
    forall i, j :: i in identities && j in identities && i != j ==> !Clash(identities[i], identities[j])
  }

  ghost predicate ProviderRows(providers: Providers, next: nat) {
    && |providers| <= MAX_PROVIDERS
    && (forall p :: p in providers ==> p < next && providers[p].kind == KindFor(providers[p].preset))
    && (forall p, q :: p in providers && q in providers && p != q ==>
          providers[p].issuer != providers[q].issuer || providers[p].clientId != providers[q].clientId)
  }

  /** Until the alerts were defaulted no provider was ever on. */
  ghost predicate Defaulted(providers: Providers, config: Config) {
    config.alertsDefaultedAt.None? ==> forall p :: p in providers ==> !providers[p].enabled
  }

  ghost predicate UserRows(users: map<nat, User>, claim: Option<nat>, next: nat) {
    && (forall u :: u in users ==> u < next)
    && (claim.Some? ==> claim.value in users)
  }

  ghost predicate Sound(db: Db) {
    && WayIn(db.sessions, db.identities, db.providers, db.config.headerEnabled)
    && SessionRows(db.sessions, db.users, db.nextSession)
    && IdentityRows(db.identities, db.users, db.providers, db.nextIdentity)
    && Distinct(db.identities)
    && ProviderRows(db.providers, db.nextProvider)
    && Defaulted(db.providers, db.config)
    && UserRows(db.users, db.claim, db.nextUser)
  }

  // ---- what the parts of a transaction keep ----

  lemma CreateKeeps(db: Db, user: nat, auth: Method, identity: Option<nat>, t: int)
    requires Sound(db) && user in db.users
    requires Open(NewSession(user, auth, identity, t), db.identities, db.providers, db.config.headerEnabled)
    ensures Sound(Create(db, user, auth, identity, t))
  {
    hide IdentityRows, ProviderRows, Distinct, Defaulted, UserRows;
  }

  lemma RevokeKeeps(db: Db, s: nat, t: int)
    requires Sound(db) && s in db.sessions
    ensures Sound(Revoke(db, s, t))
  {
    hide IdentityRows, ProviderRows, Distinct, Defaulted, UserRows, Open;
  }

  lemma RevokeWhereKeeps(db: Db, among: set<nat>, t: int)
    requires Sound(db)
    ensures Sound(RevokeWhere(db, among, t))
    ensures forall s :: s in among && s in db.sessions ==> RevokeWhere(db, among, t).sessions[s].revokedAt.Some?
  {
    hide IdentityRows, ProviderRows, Distinct, Defaulted, UserRows, Open;
    var after := RevokeWhere(db, among, t).sessions;
    assert forall s :: s in after && after[s].revokedAt.None? ==> after[s] == db.sessions[s];
  }

  lemma SignedInKeeps(db: Db, user: nat, t: int)
    requires Sound(db) && user in db.users
    ensures Sound(SignedIn(db, user, t))
  {
    hide WayIn, ProviderRows, Distinct, Defaulted;
  }

  lemma RotateKeeps(db: Db, presented: Option<nat>, t: int)
    requires Sound(db)
    ensures Sound(Rotate(db, presented, t))
  {
    hide Sound;
    if presented.Some? && Live(db, presented.value, t) {
      RevokeKeeps(db, presented.value, t);
    }
  }

  /** A row changed in nothing the invariant reads. */
  lemma SeenKeeps(db: Db, s: nat, row: Session)
    requires Sound(db) && s in db.sessions && db.sessions[s].revokedAt.None?
    requires row == db.sessions[s].(lastSeenAt := row.lastSeenAt, confirmedUntil := row.confirmedUntil)
    ensures Sound(db.(sessions := db.sessions[s := row]))
  {
    hide IdentityRows, ProviderRows, Distinct, Defaulted, UserRows;
  }

  lemma PruneKeeps(db: Db, t: int)
    requires Sound(db)
    ensures Sound(Prune(db, t).0)
  {
    hide IdentityRows, ProviderRows, Distinct, Defaulted, UserRows, Open, Prunable;
  }

  // ---- signing in ----

  lemma ExternalKeeps(db: Db, found: Option<nat>, auth: Method, presented: Option<nat>, t: int)
    requires Sound(db) && (found.Some? ==> found.value in db.identities)
    requires found.Some? ==>
      Open(NewSession(db.identities[found.value].user, auth, found, t), db.identities, db.providers,
        db.config.headerEnabled)
    ensures Sound(ExternalSignIn(db, found, auth, presented, t).0)
  {
    hide Sound, Open;
    if found.Some? {
      var user := db.identities[found.value].user;
      if user in db.users && db.users[user].active {
        RotateKeeps(db, presented, t);
        var rotated := Rotate(db, presented, t);
        CreateKeeps(rotated, user, auth, found, t);
        SignedInKeeps(Create(rotated, user, auth, found, t), user, t);
      }
    }
  }

  lemma CallbackSignInKeeps(db: Db, provider: nat, subject: string, presented: Option<nat>, t: int)
    requires Sound(db)
    ensures Sound(CallbackSignIn(db, provider, subject, presented, t).0)
  {
    hide Sound;
    if provider in db.providers && db.providers[provider].enabled {
      ExternalKeeps(db, Lookup(db, Some(provider), db.providers[provider].issuer, subject), Oidc, presented, t);
    }
  }

  lemma TrustedSignInKeeps(db: Db, configured: bool, issuer: string, subject: string, presented: Option<nat>, t: int)
    requires Sound(db)
    ensures Sound(TrustedSignIn(db, configured, issuer, subject, presented, t).0)
  {
    hide Sound;
    if configured && db.config.headerEnabled {
      ExternalKeeps(db, Lookup(db, None, issuer, subject), TrustedHeader, presented, t);
    }
  }

  lemma PasswordSignInKeeps(db: Db, user: nat, presented: Option<nat>, t: int)
    requires Sound(db)
    ensures Sound(PasswordSignIn(db, user, presented, t).0)
  {
    hide Sound;
    if user in db.users && db.users[user].active {
      var created := Create(db, user, Password, None, t);
      CreateKeeps(db, user, Password, None, t);
      SignedInKeeps(created, user, t);
      RotateKeeps(SignedIn(created, user, t), Held(db, presented), t);
    }
  }

  /** A sign-in made this session, which works for up to seven days; the one presented ended,
      if it was live; the account's last sign-in is now, and nothing else changed. */
  ghost predicate Starts(a: Db, b: Db, s: nat, user: nat, auth: Method, presented: Option<nat>, t: int) {
    && s !in a.sessions && s in b.sessions && user in a.users && Live(b, s, t)
    && b.sessions[s] == Session(user, auth, b.sessions[s].identity, t, t + 604_800_000, None, None)
    && b.sessions.Keys == a.sessions.Keys + {s}
    && (forall x :: x in a.sessions ==>
          b.sessions[x] == if Some(x) == presented && Live(a, x, t)
                           then a.sessions[x].(revokedAt := Some(t), confirmedUntil := None) else a.sessions[x])
    && b.users == a.users[user := a.users[user].(lastLoginAt := Some(t))]
    && b.identities == a.identities && b.providers == a.providers && b.config == a.config && b.claim == a.claim
  }

  /** So the one presented no longer works. */
  lemma PresentedEnds(a: Db, b: Db, s: nat, user: nat, auth: Method, presented: nat, t: int)
    requires Starts(a, b, s, user, auth, Some(presented), t) && presented in a.sessions
    ensures !Live(b, presented, t)
  {}

  /** It came in through an identity that names these. */
  ghost predicate CameThrough(db: Db, s: nat, provider: Option<nat>, issuer: string, subject: string) {
    && s in db.sessions && db.sessions[s].identity.Some? && db.sessions[s].identity.value in db.identities
    && var identity := db.identities[db.sessions[s].identity.value];
    && identity.user == db.sessions[s].user
    && identity.provider == provider && identity.issuer == issuer && identity.subject == subject
  }

  lemma PasswordStarts(db: Db, user: nat, presented: Option<nat>, t: int)
    requires Sound(db)
    ensures var (after, outcome) := PasswordSignIn(db, user, presented, t);
      outcome.Started? ==> Starts(db, after, outcome.session, user, Password, presented, t)
  {
    hide WayIn, IdentityRows, Distinct, ProviderRows, Defaulted, UserRows;
  }

  lemma ExternalStarts(db: Db, found: Option<nat>, auth: Method, presented: Option<nat>, t: int)
    requires Sound(db) && (found.Some? ==> found.value in db.identities)
    ensures var (after, outcome) := ExternalSignIn(db, found, auth, presented, t);
      outcome.Started? ==>
        && found.Some? && after.identities == db.identities
        && Starts(db, after, outcome.session, db.identities[found.value].user, auth, presented, t)
        && after.sessions[outcome.session].identity == found
  {
    hide WayIn, IdentityRows, Distinct, ProviderRows, Defaulted, UserRows;
  }

  /** A callback signs in the account that linked this subject at this provider. */
  lemma CallbackStarts(db: Db, provider: nat, subject: string, presented: Option<nat>, t: int)
    requires Sound(db)
    ensures var (after, outcome) := CallbackSignIn(db, provider, subject, presented, t);
      outcome.Started? ==>
        && provider in db.providers
        && CameThrough(after, outcome.session, Some(provider), db.providers[provider].issuer, subject)
        && Starts(db, after, outcome.session, after.sessions[outcome.session].user, Oidc, presented, t)
  {
    hide Sound, ExternalSignIn, Starts;
    if provider in db.providers && db.providers[provider].enabled {
      var found := Lookup(db, Some(provider), db.providers[provider].issuer, subject);
      ExternalStarts(db, found, Oidc, presented, t);
      StartsHas(db, ExternalSignIn(db, found, Oidc, presented, t), Oidc, presented, t);
    }
  }

  lemma HeaderStarts(db: Db, configured: bool, issuer: string, subject: string, presented: Option<nat>, t: int)
    requires Sound(db)
    ensures var (after, outcome) := TrustedSignIn(db, configured, issuer, subject, presented, t);
      outcome.Started? ==>
        && CameThrough(after, outcome.session, None, issuer, subject)
        && Starts(db, after, outcome.session, after.sessions[outcome.session].user, TrustedHeader, presented, t)
  {
    hide Sound, ExternalSignIn, Starts;
    if configured && db.config.headerEnabled {
      var found := Lookup(db, None, issuer, subject);
      ExternalStarts(db, found, TrustedHeader, presented, t);
      StartsHas(db, ExternalSignIn(db, found, TrustedHeader, presented, t), TrustedHeader, presented, t);
    }
  }

  lemma StartsHas(db: Db, done: (Db, Outcome), auth: Method, presented: Option<nat>, t: int)
    ensures forall user :: done.1.Started? && Starts(db, done.0, done.1.session, user, auth, presented, t) ==>
      done.1.session in done.0.sessions && done.0.sessions[done.1.session].user == user
  {}

  lemma NewUserKeeps(db: Db, t: int)
    requires Sound(db)
    ensures var user := db.nextUser;
      Sound(db.(users := db.users[user := User(true, Some(t))], nextUser := user + 1, claim := Some(user)))
  {
    hide WayIn, ProviderRows, Distinct, Defaulted;
  }

  lemma CreateAdminKeeps(db: Db, t: int)
    requires Sound(db)
    ensures Sound(CreateAdmin(db, t).0)
  {
    hide Sound;
    if db.claim.None? {
      var user := db.nextUser;
      NewUserKeeps(db, t);
      CreateKeeps(db.(users := db.users[user := User(true, Some(t))], nextUser := user + 1, claim := Some(user)),
        user, Password, None, t);
    }
  }

  // ---- linking ----

  /** The two checks of the routes are all the unique indexes ask. */
  lemma {:induction false} LinkKeeps(db: Db, user: nat, provider: Option<nat>, issuer: string, subject: string)
    requires Sound(db) && user in db.users
    requires provider.Some? ==> provider.value in db.providers && db.providers[provider.value].issuer == issuer
    ensures Sound(LinkIdentity(db, user, provider, issuer, subject).0)
  {
    hide SessionRows, ProviderRows, Defaulted, UserRows;
    if !Taken(db, user, provider, issuer, subject) {
      var row := Identity(user, provider, issuer, subject);
      var after := db.identities[db.nextIdentity := row];
      forall i | i in db.identities
        ensures !Clash(db.identities[i], row) && !Clash(row, db.identities[i])
      {
        assert !Named(provider, issuer, subject)(db.identities[i]);
        assert !Of(user, provider)(db.identities[i]);
      }
      LinkedStayOpen(db, after);
    }
  }

  lemma LinkedStayOpen(db: Db, after: Identities)
    requires WayIn(db.sessions, db.identities, db.providers, db.config.headerEnabled)
    requires forall i :: i in db.identities ==> i in after && after[i] == db.identities[i]
    ensures WayIn(db.sessions, after, db.providers, db.config.headerEnabled)
  {}

  lemma CallbackLinkKeeps(
      db: Db, provider: nat, subject: string, presented: Option<nat>, flow: Option<nat>,
      recent: bool, fit: bool, t: int)
    requires Sound(db)
    ensures Sound(CallbackLink(db, provider, subject, presented, flow, recent, fit, t).0)
  {
    hide Sound, LinkIdentity;
    if provider in db.providers && presented.Some? && Live(db, presented.value, t) {
      LinkKeeps(db, db.sessions[presented.value].user, Some(provider), db.providers[provider].issuer, subject);
    }
  }

  lemma LinkHeaderKeeps(db: Db, configured: bool, session: nat, issuer: string, subject: string, fit: bool, t: int)
    requires Sound(db)
    ensures Sound(LinkHeader(db, configured, session, issuer, subject, fit, t).0)
  {
    hide Sound, LinkIdentity;
    if Live(db, session, t) {
      LinkKeeps(db, db.sessions[session].user, None, issuer, subject);
    }
  }

  // ---- removing a way in ----

  lemma DeleteIdentitiesKeeps(db: Db, ids: set<nat>)
    requires Sound(db)
    requires forall s :: s in ThroughIdentities(db, ids) ==> db.sessions[s].revokedAt.Some?
    ensures Sound(DeleteIdentities(db, ids))
  {
    hide ProviderRows, Defaulted, UserRows;
    var after := DeleteIdentities(db, ids);
    forall s | s in after.sessions && after.sessions[s].revokedAt.None?
      ensures Open(after.sessions[s], after.identities, after.providers, after.config.headerEnabled)
    {
      assert s !in ThroughIdentities(db, ids);
      assert after.sessions[s] == db.sessions[s];
    }
  }

  lemma UnlinkKeeps(db: Db, ids: set<nat>, t: int)
    requires Sound(db)
    ensures Sound(Unlink(db, ids, t).0)
  {
    hide Sound;
    var came := ThroughIdentities(db, ids);
    RevokeWhereKeeps(db, came, t);
    var revoked := RevokeWhere(db, came, t);
    assert forall s :: s in ThroughIdentities(revoked, ids) ==> s in came;
    DeleteIdentitiesKeeps(revoked, ids);
  }

  lemma RemoveProviderKeeps(db: Db, provider: nat)
    requires Sound(db) && provider in db.providers
    requires forall i :: i in db.identities ==> db.identities[i].provider != Some(provider)
    ensures Sound(db.(providers := map p | p in db.providers && p != provider :: db.providers[p]))
  {
    hide SessionRows, Distinct, UserRows;
    var after := map p | p in db.providers && p != provider :: db.providers[p];
    assert after.Keys <= db.providers.Keys;
    SmallerKeys(after, db.providers);
  }

  lemma SmallerKeys<K, V>(a: map<K, V>, b: map<K, V>)
    requires a.Keys <= b.Keys
    ensures |a| <= |b|
  {
    assert |a| == |a.Keys| && |b| == |b.Keys|;
    SubsetSize(a.Keys, b.Keys);
  }

  lemma DeleteProviderKeeps(db: Db, provider: nat, t: int)
    requires Sound(db)
    ensures Sound(DeleteProvider(db, provider, t).0)
  {
    hide Sound;
    if provider in db.providers {
      UnlinkKeeps(db, LinkedThrough(db, provider), t);
      RemoveProviderKeeps(Unlink(db, LinkedThrough(db, provider), t).0, provider);
    }
  }

  /** Rows that differ in nothing but their switches. */
  ghost predicate SameButSwitches(a: Providers, b: Providers) {
    a.Keys == b.Keys && forall p :: p in a ==> a[p] == b[p].(enabled := a[p].enabled)
  }

  lemma SwitchedRows(
      a: Providers, b: Providers, identities: Identities, users: map<nat, User>, nextIdentity: nat, next: nat)
    requires SameButSwitches(a, b)
    requires IdentityRows(identities, users, b, nextIdentity) && ProviderRows(b, next)
    ensures IdentityRows(identities, users, a, nextIdentity) && ProviderRows(a, next)
  {
    hide KindFor;
    assert |a| == |a.Keys| && |b| == |b.Keys|;
    assert forall p :: p in a ==> p in b;
  }

  /** Ways in may be closed once no session that is not revoked came through them. */
  lemma ClosingKeeps(db: Db, providers: Providers, config: Config)
    requires Sound(db)
    requires SameButSwitches(providers, db.providers)
    requires forall p :: p in providers && providers[p].enabled ==> db.providers[p].enabled
    requires config.alertsDefaultedAt == db.config.alertsDefaultedAt
    requires forall s :: s in db.sessions && db.sessions[s].revokedAt.None? && !db.sessions[s].auth.Password? ==>
      Open(db.sessions[s], db.identities, providers, config.headerEnabled)
    ensures Sound(db.(providers := providers, config := config))
  {
    hide SessionRows, IdentityRows, ProviderRows, Distinct, UserRows;
    SwitchedRows(providers, db.providers, db.identities, db.users, db.nextIdentity, db.nextProvider);
  }

  lemma DisableSsoKeeps(db: Db, t: int)
    requires Sound(db)
    ensures Sound(DisableSso(db, t).0)
  {
    hide Sound, Open;
    var external := ByMethod(db, EXTERNAL);
    RevokeWhereKeeps(db, external, t);
    var revoked := RevokeWhere(db, external, t);
    forall s | s in revoked.sessions && revoked.sessions[s].revokedAt.None?
      ensures revoked.sessions[s].auth.Password?
    {
      assert s !in external;
    }
    ClosingKeeps(revoked, AllOff(db.providers), db.config.(headerEnabled := false));
  }

  lemma SwitchOffKeeps(db: Db, provider: nat, t: int)
    requires Sound(db) && provider in db.providers && db.providers[provider].enabled
    ensures Sound(Switch(db, provider, Some(false), t).0)
  {
    var came := ThroughIdentities(db, LinkedThrough(db, provider));
    var off := db.providers[provider := db.providers[provider].(enabled := false)];
    var revoked := RevokeWhere(db, came, t);
    RevokeWhereKeeps(db, came, t);
    forall s | s in revoked.sessions && revoked.sessions[s].revokedAt.None? && !revoked.sessions[s].auth.Password?
      ensures Open(revoked.sessions[s], revoked.identities, off, revoked.config.headerEnabled)
    {
      hide SessionRows, IdentityRows, Distinct, ProviderRows, Defaulted, UserRows;
      assert s !in came;
    }
    hide Sound, Open;
    ClosingKeeps(revoked, off, db.config);
    assert Switch(db, provider, Some(false), t).0 == revoked.(providers := off, config := db.config);
  }

  lemma ConfigKeeps(db: Db, config: Config)
    requires Sound(db)
    requires config.alertsDefaultedAt == db.config.alertsDefaultedAt
    requires db.config.headerEnabled ==> config.headerEnabled
    ensures Sound(db.(config := config))
  {
    hide SessionRows, IdentityRows, Distinct, ProviderRows, UserRows;
  }

  lemma HeaderOffKeeps(db: Db, config: Config, t: int)
    requires Sound(db)
    requires config.alertsDefaultedAt == db.config.alertsDefaultedAt && !config.headerEnabled
    ensures Sound(RevokeWhere(db.(config := config), ByMethod(db, {TrustedHeader}), t))
  {
    hide SessionRows, IdentityRows, Distinct, ProviderRows, Defaulted, UserRows;
    var header := ByMethod(db, {TrustedHeader});
    RevokeWhereKeeps(db, header, t);
    var revoked := RevokeWhere(db, header, t);
    forall s | s in revoked.sessions && revoked.sessions[s].revokedAt.None?
      ensures Open(revoked.sessions[s], db.identities, db.providers, false)
    {
      assert s !in header;
    }
    hide Sound, Open;
    ClosingKeeps(revoked, db.providers, config);
    assert RevokeWhere(db.(config := config), header, t) == revoked.(providers := db.providers, config := config);
  }

  lemma PutConfigKeeps(db: Db, alerts: Option<bool>, header: Option<bool>, t: int)
    requires Sound(db)
    ensures Sound(PutConfig(db, alerts, header, t).0)
  {
    hide Sound, RevokeWhere;
    var config := Config(Or(header, db.config.headerEnabled), Or(alerts, db.config.alerts),
      db.config.alertsDefaultedAt);
    if db.config.headerEnabled && !config.headerEnabled {
      HeaderOffKeeps(db, config, t);
    } else {
      ConfigKeeps(db, config);
    }
  }

  // ---- providers ----

  lemma EnableKeeps(db: Db, provider: nat, t: int)
    requires Sound(db) && provider in db.providers
    ensures Sound(Enable(db, provider, t))
  {
    hide SessionRows, IdentityRows, ProviderRows, Distinct, UserRows;
    if !db.providers[provider].enabled {
      var after := db.providers[provider := db.providers[provider].(enabled := true)];
      SwitchedRows(after, db.providers, db.identities, db.users, db.nextIdentity, db.nextProvider);
    }
  }

  lemma AddProviderKeeps(db: Db, draft: Draft, env: Env, t: int)
    requires Sound(db)
    ensures Sound(AddProvider(db, draft, env, t).0)
  {
    hide RouteIssuer, SessionRows, Distinct, UserRows, Enable;
    var issuer := RouteIssuer(draft.preset, draft.issuer, draft.tenant, env.formed);
    if issuer.Some? {
      var id := db.nextProvider;
      var row := Provider(draft.preset, KindFor(draft.preset), issuer.value, draft.clientId, draft.displayName, false);
      if !PairTaken(db.providers, row, id) && |db.providers| < MAX_PROVIDERS {
        var added := db.(providers := db.providers[id := row], nextProvider := id + 1);
        AddedKeeps(db, row);
        EnableKeeps(added, id, t);
      }
    }
  }

  lemma AddedKeeps(db: Db, row: Provider)
    requires Sound(db) && |db.providers| < MAX_PROVIDERS
    requires row.kind == KindFor(row.preset) && !row.enabled && !PairTaken(db.providers, row, db.nextProvider)
    ensures Sound(db.(providers := db.providers[db.nextProvider := row], nextProvider := db.nextProvider + 1))
  {
    hide SessionRows, Distinct, UserRows, KindFor;
  }

  lemma ReplacedRow(providers: Providers, provider: nat, row: Provider, next: nat)
    requires ProviderRows(providers, next) && provider in providers
    requires row.kind == KindFor(row.preset) && !PairTaken(providers, row, provider)
    ensures ProviderRows(providers[provider := row], next)
  {
    hide KindFor;
    var after := providers[provider := row];
    assert after.Keys == providers.Keys;
    assert |after| == |after.Keys| && |providers| == |providers.Keys|;
  }

  lemma UpdateProviderKeeps(db: Db, provider: nat, row: Provider)
    requires Sound(db) && provider in db.providers && row.enabled == db.providers[provider].enabled
    ensures Sound(UpdateProvider(db, provider, row).0)
  {
    hide SessionRows, ProviderRows, Distinct, UserRows;
    if UpdateProvider(db, provider, row).1.Done? {
      ReplacedRow(db.providers, provider, row, db.nextProvider);
      forall i | i in db.identities && db.identities[i].provider == Some(provider)
        ensures row.issuer == db.identities[i].issuer
      {
        assert i in LinkedThrough(db, provider);
      }
    }
  }

  lemma ChangeProviderKeeps(db: Db, provider: nat, patch: Patch, env: Env, t: int)
    requires Sound(db)
    ensures Sound(ChangeProvider(db, provider, patch, env, t).0)
  {
    hide Sound, PatchedIssuer, UpdateProvider, Enable;
    if provider in db.providers {
      var issuer := PatchedIssuer(db.providers[provider], patch, env);
      if issuer.Some? {
        var row := Patched(db.providers[provider], patch, issuer.value);
        UpdateProviderKeeps(db, provider, row);
        UpdatedIs(db, provider, row);
        var updated := UpdateProvider(db, provider, row).0;
        if patch.enabled == Some(true) {
          EnableKeeps(updated, provider, t);
        } else if patch.enabled == Some(false) && updated.providers[provider].enabled {
          SwitchOffKeeps(updated, provider, t);
        }
      }
    }
  }

  lemma UpdatedIs(db: Db, provider: nat, row: Provider)
    requires provider in db.providers
    ensures var (after, outcome) := UpdateProvider(db, provider, row);
      && provider in after.providers
      && after == (if outcome.Refused? then db else db.(providers := db.providers[provider := row]))
  {}

  // ---- every run ----

  lemma {:induction false} ApplyKeeps(db: Db, op: Op, t: int)
    requires Sound(db)
    ensures Sound(Apply(db, op, t).0)
  {
    hide Sound, CallbackSignIn, TrustedSignIn, PasswordSignIn, CreateAdmin, CallbackLink, LinkHeader, Unlink,
      DeleteProvider,
      DisableSso, PutConfig, AddProvider, ChangeProvider, Create, RevokeWhere, Prune;
    match op
    case OpCreateAdmin => CreateAdminKeeps(db, t);
    case OpPasswordSignIn(user, presented) => PasswordSignInKeeps(db, user, presented, t);
    case OpCallbackSignIn(provider, subject, presented) => CallbackSignInKeeps(db, provider, subject, presented, t);
    case OpTrustedSignIn(configured, issuer, subject, presented) =>
      TrustedSignInKeeps(db, configured, issuer, subject, presented, t);
    case OpCallbackLink(provider, subject, presented, flow, recent, fit) =>
      CallbackLinkKeeps(db, provider, subject, presented, flow, recent, fit, t);
    case OpLinkHeader(configured, session, issuer, subject, fit) =>
      LinkHeaderKeeps(db, configured, session, issuer, subject, fit, t);
    case OpUse(session) =>
      if Live(db, session, t) { SeenKeeps(db, session, TouchedRow(db.sessions[session], t)); }
    case OpConfirm(session) => ConfirmedKeeps(db, session, t);
    case OpCallbackConfirm(_, _, presented, _) =>
      if presented.Some? { ConfirmedKeeps(db, presented.value, t); }
    case OpSignOut(session) =>
      if Live(db, session, t) { RevokeKeeps(db, session, t); }
    case OpEndSession(_, session) =>
      if Live(db, session, t) { RevokeKeeps(db, session, t); }
    case OpEndAll(user) => RevokeWhereKeeps(db, OfUser(db, user), t);
    case OpChangePassword(session) => ChangePasswordKeeps(db, session, t);
    case OpResetPassword => ResetPasswordKeeps(db, t);
    case OpPrune => PruneKeeps(db, t);
    case OpUnlinkIdentity(_, identity) => UnlinkKeeps(db, {identity}, t);
    case OpDeleteProvider(provider) => DeleteProviderKeeps(db, provider, t);
    case OpDisableSso => DisableSsoKeeps(db, t);
    case OpPutConfig(alerts, header) => PutConfigKeeps(db, alerts, header, t);
    case OpAddProvider(draft, env) => AddProviderKeeps(db, draft, env, t);
    case OpChangeProvider(provider, patch, env) => ChangeProviderKeeps(db, provider, patch, env, t);
  }

  lemma ConfirmedKeeps(db: Db, s: nat, t: int)
    requires Sound(db)
    ensures Live(db, s, t) ==> Sound(Confirmed(db, s, t))
  {
    hide Sound;
    if Live(db, s, t) {
      SeenKeeps(db, s, db.sessions[s].(confirmedUntil := Some(t + CONFIRM_WINDOW)));
    }
  }

  lemma ChangePasswordKeeps(db: Db, s: nat, t: int)
    requires Sound(db)
    ensures Sound(ChangePassword(db, s, t).0)
  {
    hide Sound;
    if Live(db, s, t) {
      var user := db.sessions[s].user;
      RevokeWhereKeeps(db, OfUser(db, user), t);
      CreateKeeps(EndAll(db, user, t).0, user, Password, None, t);
    }
  }

  lemma ActiveKeeps(db: Db, user: nat)
    requires Sound(db) && user in db.users
    ensures Sound(db.(users := db.users[user := db.users[user].(active := true)]))
  {
    hide WayIn, ProviderRows, Distinct, Defaulted;
  }

  lemma ResetPasswordKeeps(db: Db, t: int)
    requires Sound(db)
    ensures Sound(ResetPassword(db, t).0)
  {
    hide Sound;
    if db.claim.Some? && db.claim.value in db.users {
      var user := db.claim.value;
      ActiveKeeps(db, user);
      RevokeWhereKeeps(db.(users := db.users[user := db.users[user].(active := true)]), OfUser(db, user), t);
    }
  }

  /** Over every run: no session that is not revoked outlives the way it came in. */
  lemma {:induction false} RunKeeps(db: Db, steps: seq<Step>)
    requires Sound(db)
    ensures Sound(Run(db, steps))
  {
    hide Sound, Apply;
    if steps != [] {
      var n := |steps| - 1;
      RunKeeps(db, steps[..n]);
      ApplyKeeps(Run(db, steps[..n]), steps[n].op, steps[n].t);
    }
  }

  /** From the tables as the migrations leave them, whatever is done. */
  lemma {:induction false} RunFromEmpty(steps: seq<Step>)
    ensures Sound(Run(EMPTY, steps))
  {
    hide Sound, Run;
    EmptySound();
    RunKeeps(EMPTY, steps);
  }

  lemma EmptySound()
    ensures Sound(EMPTY)
  {}
}
