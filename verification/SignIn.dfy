/** The sign-in machine: what sessions.py, accounts.py, config.py and routers/sso.py do to
    the tables of users, sessions, identities and providers, one committed transaction at
    a time. A cookie is the id of the session row its digest names; times are whole
    milliseconds; a deleted identity's id is set to null in the sessions that named it. */
module SignIn {
  import opened Common

  const MINUTE := 60_000
  const LIFETIME := 7 * 24 * 60 * MINUTE
  const IDLE := 24 * 60 * MINUTE
  const CONFIRM_WINDOW := 5 * MINUTE
  const TOUCH_EVERY := MINUTE
  const MAX_PROVIDERS := 8

  datatype User = User(active: bool, lastLoginAt: Option<int>)

  datatype Method = Password | Oidc | TrustedHeader

  datatype Session = Session(
    user: nat,
    auth: Method,
    identity: Option<nat>,
    lastSeenAt: int,
    expiresAt: int,
    confirmedUntil: Option<int>,
    revokedAt: Option<int>)

  datatype Identity = Identity(
    user: nat,
    provider: Option<nat>,  // none: the trusted header
    issuer: string,
    subject: string)

  datatype Preset = Google | Microsoft | GitHub | Custom

  datatype Kind = OidcKind | OAuth2Profile

  datatype Provider = Provider(
    preset: Preset,
    kind: Kind,
    issuer: string,
    clientId: string,
    displayName: string,
    enabled: bool)

  datatype Config = Config(headerEnabled: bool, alerts: bool, alertsDefaultedAt: Option<int>)

  datatype Db = Db(
    users: map<nat, User>,
    sessions: map<nat, Session>,
    identities: map<nat, Identity>,
    providers: map<nat, Provider>,
    config: Config,
    claim: Option<nat>,
    nextUser: nat,
    nextSession: nat,
    nextIdentity: nat,
    nextProvider: nat)

  /** The tables as the migrations leave them. */
  const EMPTY := Db(map[], map[], map[], map[], Config(true, false, None), None, 1, 1, 1, 1)

  datatype Reason =
    | WrongPassword | AlreadyClaimed | NotClaimed | NotFound
    | NoSession | Disabled | Unlinked | NotFresh | UnfitSubject | AlreadyLinked
    | OtherIdentity | TooManyProviders | AlreadyConfigured | ProviderLinked
    | PresetMismatch | BadIssuer | SharedHosts

  datatype Outcome =
    | Started(session: nat)
    | Linked(identity: nat)
    | Added(provider: nat)
    | Done(ended: nat)
    | Refused(reason: Reason)

  // ---- sessions.py ----

  predicate LiveRow(row: Session, active: bool, t: int) {
    && row.revokedAt.None?
    && active
    && t < row.expiresAt
    && t < row.lastSeenAt + IDLE
  }

  /** `valid`, for the row of this id, if there is one. */
  predicate Live(db: Db, s: nat, t: int) {
    && s in db.sessions
    && db.sessions[s].user in db.users
    && LiveRow(db.sessions[s], db.users[db.sessions[s].user].active, t)
  }

  function NewSession(user: nat, auth: Method, identity: Option<nat>, t: int): Session {
    Session(user, auth, identity, t, t + LIFETIME, None, None)
  }

  /** `create`. */
  function Create(db: Db, user: nat, auth: Method, identity: Option<nat>, t: int): Db {
    db.(sessions := db.sessions[db.nextSession := NewSession(user, auth, identity, t)],
        nextSession := db.nextSession + 1)
  }

  function RevokedRow(row: Session, t: int): Session {
    row.(revokedAt := if row.revokedAt.None? then Some(t) else row.revokedAt, confirmedUntil := None)
  }

  /** `revoke`. */
  function Revoke(db: Db, s: nat, t: int): Db
    requires s in db.sessions
  {
    db.(sessions := db.sessions[s := RevokedRow(db.sessions[s], t)])
  }

  /** The one a browser presented ends, if it is live. */
  function Rotate(db: Db, presented: Option<nat>, t: int): Db {
    if presented.Some? && Live(db, presented.value, t) then Revoke(db, presented.value, t) else db
  }

  /** What a cookie from before names: never the row being made. */
  function Held(db: Db, presented: Option<nat>): Option<nat> {
    if presented.Some? && presented.value in db.sessions then presented else None
  }

  /** The live ones among these, as an update's rowcount. */
  function Unrevoked(db: Db, among: set<nat>): set<nat> {
    set s | s in among && s in db.sessions && db.sessions[s].revokedAt.None?
  }

  /** `_revoke_where`, for the rows of these ids. */
  function RevokeWhere(db: Db, among: set<nat>, t: int): Db {
    db.(sessions := map s | s in db.sessions ::
      if s in among && db.sessions[s].revokedAt.None? then RevokedRow(db.sessions[s], t) else db.sessions[s])
  }

  function OfUser(db: Db, user: nat): set<nat> {
    set s | s in db.sessions && db.sessions[s].user == user
  }

  function ThroughIdentities(db: Db, ids: set<nat>): set<nat> {
    set s | s in db.sessions && db.sessions[s].identity.Some? && db.sessions[s].identity.value in ids
  }

  function ByMethod(db: Db, methods: set<Method>): set<nat> {
    set s | s in db.sessions && db.sessions[s].auth in methods
  }

  /** `touch`, for a row found live. */
  function TouchedRow(row: Session, t: int): Session {
    if t - row.lastSeenAt < TOUCH_EVERY then row else row.(lastSeenAt := t)
  }

  // ---- finding rows ----

  /** The row of the greatest id below a bound that passes the test. */
  function FindIdentity(rows: map<nat, Identity>, test: Identity -> bool, below: nat): (found: Option<nat>)
    ensures found.Some? ==> found.value in rows && found.value < below && test(rows[found.value])
    ensures found.None? ==> forall i :: i in rows && i < below ==> !test(rows[i])
  {
    if below == 0 then None
    else if below - 1 in rows && test(rows[below - 1]) then Some(below - 1)
    else FindIdentity(rows, test, below - 1)
  }

  function Named(provider: Option<nat>, issuer: string, subject: string): Identity -> bool {
    (row: Identity) => row.provider == provider && row.issuer == issuer && row.subject == subject
  }

  function Of(user: nat, provider: Option<nat>): Identity -> bool {
    (row: Identity) => row.user == user && row.provider == provider
  }

  /** `_lookup` and `_header_identity`. */
  function Lookup(db: Db, provider: Option<nat>, issuer: string, subject: string): Option<nat> {
    FindIdentity(db.identities, Named(provider, issuer, subject), db.nextIdentity)
  }

  /** Whether the identity, or the account's place at the provider, is taken. */
  predicate Taken(db: Db, user: nat, provider: Option<nat>, issuer: string, subject: string) {
    || Lookup(db, provider, issuer, subject).Some?
    || FindIdentity(db.identities, Of(user, provider), db.nextIdentity).Some?
  }

  function LinkedThrough(db: Db, provider: nat): set<nat> {
    set i | i in db.identities && db.identities[i].provider == Some(provider)
  }

  // ---- signing in ----

  function SignedIn(db: Db, user: nat, t: int): Db
    requires user in db.users
  {
    db.(users := db.users[user := db.users[user].(lastLoginAt := Some(t))])
  }

  /** `create_admin`. */
  function CreateAdmin(db: Db, t: int): (Db, Outcome) {
    if db.claim.Some? then (db, Refused(AlreadyClaimed))
    else
      var user := db.nextUser;
      var claimed := db.(users := db.users[user := User(true, Some(t))], nextUser := user + 1, claim := Some(user));
      (Create(claimed, user, Password, None, t), Started(db.nextSession))
  }

  /** `sign_in` with the right password, and the rotation its route adds. */
  function PasswordSignIn(db: Db, user: nat, presented: Option<nat>, t: int): (Db, Outcome) {
    if user !in db.users || !db.users[user].active then (db, Refused(WrongPassword))
    else
      (Rotate(SignedIn(Create(db, user, Password, None, t), user, t), Held(db, presented), t), Started(db.nextSession))
  }

  /** `start_external`. */
  function StartExternal(db: Db, identity: nat, auth: Method, presented: Option<nat>, t: int): Db
    requires identity in db.identities && db.identities[identity].user in db.users
  {
    var user := db.identities[identity].user;
    SignedIn(Create(Rotate(db, presented, t), user, auth, Some(identity), t), user, t)
  }

  /** The tail of both external sign-ins: the identity looked up, its account active. */
  function ExternalSignIn(db: Db, found: Option<nat>, auth: Method, presented: Option<nat>, t: int): (Db, Outcome)
    requires found.Some? ==> found.value in db.identities
  {
    if found.None? then (db, Refused(Unlinked))
    else
      var user := db.identities[found.value].user;
      if user !in db.users || !db.users[user].active then (db, Refused(Unlinked))
      else (StartExternal(db, found.value, auth, presented, t), Started(db.nextSession))
  }

  /** The callback with the login intent; the provider answered with its own issuer. */
  function CallbackSignIn(db: Db, provider: nat, subject: string, presented: Option<nat>, t: int): (Db, Outcome) {
    if provider !in db.providers || !db.providers[provider].enabled then (db, Refused(Disabled))
    else ExternalSignIn(db, Lookup(db, Some(provider), db.providers[provider].issuer, subject), Oidc, presented, t)
  }

  /** `trusted_sign_in` with a verified assertion. */
  function TrustedSignIn(
      db: Db, configured: bool, issuer: string, subject: string, presented: Option<nat>, t: int): (Db, Outcome) {
    if !configured || !db.config.headerEnabled then (db, Refused(NotFound))
    else ExternalSignIn(db, Lookup(db, None, issuer, subject), TrustedHeader, presented, t)
  }

  // ---- linking ----

  function LinkIdentity(db: Db, user: nat, provider: Option<nat>, issuer: string, subject: string): (Db, Outcome) {
    if Taken(db, user, provider, issuer, subject) then (db, Refused(AlreadyLinked))
    else
      (db.(identities := db.identities[db.nextIdentity := Identity(user, provider, issuer, subject)],
           nextIdentity := db.nextIdentity + 1),
       Linked(db.nextIdentity))
  }

  /** The callback with the link intent: the session the flow began in must be presented again. */
  function CallbackLink(
      db: Db, provider: nat, subject: string, presented: Option<nat>, flow: Option<nat>,
      recent: bool, fit: bool, t: int): (Db, Outcome) {
    if provider !in db.providers || !db.providers[provider].enabled then (db, Refused(Disabled))
    else if presented.None? || !Live(db, presented.value, t) || flow != presented then (db, Refused(NoSession))
    else if !recent then (db, Refused(NotFresh))
    else if !fit then (db, Refused(UnfitSubject))
    else LinkIdentity(db, db.sessions[presented.value].user, Some(provider), db.providers[provider].issuer, subject)
  }

  /** `link_trusted_header`, for the account of the session that asks. */
  function LinkHeader(
      db: Db, configured: bool, session: nat, issuer: string, subject: string, fit: bool, t: int): (Db, Outcome) {
    if !Live(db, session, t) then (db, Refused(NoSession))
    else if !configured || !db.config.headerEnabled then (db, Refused(NotFound))
    else if !fit then (db, Refused(UnfitSubject))
    else LinkIdentity(db, db.sessions[session].user, None, issuer, subject)
  }

  // ---- the life of a session ----

  /** The gate's use of a session: found live, it is touched. */
  function Use(db: Db, s: nat, t: int): (Db, Outcome) {
    if !Live(db, s, t) then (db, Refused(NoSession))
    else (db.(sessions := db.sessions[s := TouchedRow(db.sessions[s], t)]), Done(0))
  }

  function Confirmed(db: Db, s: nat, t: int): Db
    requires s in db.sessions
  {
    db.(sessions := db.sessions[s := db.sessions[s].(confirmedUntil := Some(t + CONFIRM_WINDOW))])
  }

  /** `confirm` with the right password. */
  function Confirm(db: Db, s: nat, t: int): (Db, Outcome) {
    if !Live(db, s, t) then (db, Refused(NoSession)) else (Confirmed(db, s, t), Done(0))
  }

  /** The callback with the confirm intent: only the session's own identity will do. */
  function CallbackConfirm(
      db: Db, provider: nat, subject: string, presented: Option<nat>, flow: Option<nat>, t: int): (Db, Outcome) {
    if provider !in db.providers || !db.providers[provider].enabled then (db, Refused(Disabled))
    else if presented.None? || !Live(db, presented.value, t) || flow != presented then (db, Refused(NoSession))
    else
      var row := db.sessions[presented.value];
      if row.auth != Oidc || row.identity.None? || row.identity.value !in db.identities
         || !Named(Some(provider), db.providers[provider].issuer, subject)(db.identities[row.identity.value])
      then (db, Refused(OtherIdentity))
      else (Confirmed(db, presented.value, t), Done(0))
  }

  function SignOut(db: Db, s: nat, t: int): (Db, Outcome) {
    if !Live(db, s, t) then (db, Refused(NoSession)) else (Revoke(db, s, t), Done(1))
  }

  function EndSession(db: Db, user: nat, s: nat, t: int): (Db, Outcome) {
    if !Live(db, s, t) || db.sessions[s].user != user then (db, Refused(NotFound)) else (Revoke(db, s, t), Done(1))
  }

  /** `sign_out_everywhere`, and the sessions `_end_everything` ends. */
  function EndAll(db: Db, user: nat, t: int): (Db, Outcome) {
    (RevokeWhere(db, OfUser(db, user), t), Done(|Unrevoked(db, OfUser(db, user))|))
  }

  function ChangePassword(db: Db, s: nat, t: int): (Db, Outcome) {
    if !Live(db, s, t) then (db, Refused(NoSession))
    else
      var user := db.sessions[s].user;
      (Create(EndAll(db, user, t).0, user, Password, None, t), Started(db.nextSession))
  }

  /** `reset_password`: the account is switched on again and everything ended. */
  function ResetPassword(db: Db, t: int): (Db, Outcome) {
    if db.claim.None? || db.claim.value !in db.users then (db, Refused(NotClaimed))
    else
      var user := db.claim.value;
      EndAll(db.(users := db.users[user := db.users[user].(active := true)]), user, t)
  }

  /** `prune`, of the sessions. */
  predicate Prunable(row: Session, t: int) {
    row.expiresAt < t || row.lastSeenAt < t - IDLE || row.revokedAt.Some?
  }

  function Prune(db: Db, t: int): (Db, Outcome) {
    (db.(sessions := map s | s in db.sessions && !Prunable(db.sessions[s], t) :: db.sessions[s]), Done(0))
  }

  // ---- removing a way in ----

  /** Deletes the identities; the foreign key sets the sessions that named them to null. */
  function DeleteIdentities(db: Db, ids: set<nat>): Db {
    db.(identities := map i | i in db.identities && i !in ids :: db.identities[i],
        sessions := map s | s in db.sessions ::
          if db.sessions[s].identity.Some? && db.sessions[s].identity.value in ids
          then db.sessions[s].(identity := None) else db.sessions[s])
  }

  /** `revoke_for_identities`, then the delete. */
  function Unlink(db: Db, ids: set<nat>, t: int): (Db, Outcome) {
    (DeleteIdentities(RevokeWhere(db, ThroughIdentities(db, ids), t), ids),
     Done(|Unrevoked(db, ThroughIdentities(db, ids))|))
  }

  function UnlinkIdentity(db: Db, user: nat, identity: nat, t: int): (Db, Outcome) {
    if identity !in db.identities || db.identities[identity].user != user then (db, Refused(NotFound))
    else Unlink(db, {identity}, t)
  }

  function DeleteProvider(db: Db, provider: nat, t: int): (Db, Outcome) {
    if provider !in db.providers then (db, Refused(NotFound))
    else
      var (rest, done) := Unlink(db, LinkedThrough(db, provider), t);
      (rest.(providers := map p | p in db.providers && p != provider :: db.providers[p]), done)
  }

  const EXTERNAL: set<Method> := {Oidc, TrustedHeader}

  function AllOff(providers: map<nat, Provider>): map<nat, Provider> {
    map p | p in providers :: providers[p].(enabled := false)
  }

  function DisableSso(db: Db, t: int): (Db, Outcome) {
    var off := db.(providers := AllOff(db.providers), config := db.config.(headerEnabled := false));
    (RevokeWhere(off, ByMethod(db, EXTERNAL), t), Done(|Unrevoked(db, ByMethod(db, EXTERNAL))|))
  }

  /** `put_signin_config`. */
  function PutConfig(db: Db, alerts: Option<bool>, header: Option<bool>, t: int): (Db, Outcome) {
    var config := Config(
      if header.Some? then header.value else db.config.headerEnabled,
      if alerts.Some? then alerts.value else db.config.alerts,
      db.config.alertsDefaultedAt);
    if db.config.headerEnabled && !config.headerEnabled then
      (RevokeWhere(db.(config := config), ByMethod(db, {TrustedHeader}), t),
       Done(|Unrevoked(db, ByMethod(db, {TrustedHeader}))|))
    else (db.(config := config), Done(0))
  }

  // ---- providers ----

  function KindFor(preset: Preset): Kind {
    if preset.GitHub? then OAuth2Profile else OidcKind
  }

  /** `issuer_for`. */
  function IssuerFor(preset: Preset, issuer: Option<string>, tenant: Option<string>): Option<string> {
    match preset
    case Microsoft =>
      if tenant.None? || tenant.value == "" then None
      else Some("https://login.microsoftonline.com/" + tenant.value + "/v2.0")
    case Google => Some("https://accounts.google.com")
    case GitHub => Some("https://github.com")
    case Custom => if issuer.None? || issuer.value == "" then None else issuer
  }

  /** `_issuer`, given which issuers are well formed: none for each of its 422s. */
  function RouteIssuer(
      preset: Preset, issuer: Option<string>, tenant: Option<string>, formed: string -> bool): Option<string> {
    if issuer.Some? && !preset.Custom? then None
    else if tenant.Some? && !preset.Microsoft? then None
    else if issuer.Some? && !formed(issuer.value) then None
    else IssuerFor(preset, issuer, tenant)
  }

  /** `uq_auth_providers_issuer_client`: another row has the pair already. */
  predicate PairTaken(providers: map<nat, Provider>, row: Provider, own: nat) {
    exists p :: p in providers && p != own && providers[p].issuer == row.issuer && providers[p].clientId == row.clientId
  }

  /** `enable_provider`: the first ever also switches the password alerts on, once. */
  function Enable(db: Db, provider: nat, t: int): Db
    requires provider in db.providers
  {
    if db.providers[provider].enabled then db
    else
      var on := db.(providers := db.providers[provider := db.providers[provider].(enabled := true)]);
      if db.config.alertsDefaultedAt.None?
      then on.(config := db.config.(alertsDefaultedAt := Some(t), alerts := true))
      else on
  }

  /** What the environment says: whether two origins share a host, and the issuers' form. */
  datatype Env = Env(sharedHosts: bool, formed: string -> bool)

  datatype Draft = Draft(
    preset: Preset,
    displayName: string,
    clientId: string,
    issuer: Option<string>,
    tenant: Option<string>,
    enabled: bool)

  /** `add_provider`, of the route and of config.py. */
  function AddProvider(db: Db, draft: Draft, env: Env, t: int): (Db, Outcome) {
    var issuer := RouteIssuer(draft.preset, draft.issuer, draft.tenant, env.formed);
    if issuer.None? then (db, Refused(BadIssuer))
    else if env.sharedHosts then (db, Refused(SharedHosts))
    else if |db.providers| >= MAX_PROVIDERS then (db, Refused(TooManyProviders))
    else
      var id := db.nextProvider;
      var row := Provider(draft.preset, KindFor(draft.preset), issuer.value, draft.clientId, draft.displayName, false);
      if PairTaken(db.providers, row, id) then (db, Refused(AlreadyConfigured))
      else
        var added := db.(providers := db.providers[id := row], nextProvider := id + 1);
        (if draft.enabled then Enable(added, id, t) else added, Added(id))
  }

  datatype Patch = Patch(
    preset: Option<Preset>,
    displayName: Option<string>,
    clientId: Option<string>,
    issuer: Option<string>,
    tenant: Option<string>,
    enabled: Option<bool>)

  /** Whether the patch names anything the issuer follows from. */
  predicate Repoints(row: Provider, patch: Patch) {
    patch.issuer.Some? || patch.tenant.Some? || (patch.preset.Some? && patch.preset.value != row.preset)
  }

  function Or<T>(given: Option<T>, held: T): T {
    if given.Some? then given.value else held
  }

  function PatchedIssuer(row: Provider, patch: Patch, env: Env): Option<string> {
    var preset := Or(patch.preset, row.preset);
    if !Repoints(row, patch) then Some(row.issuer)
    else
      var kept := patch.issuer.None? && preset.Custom? && row.preset.Custom?;
      var issuer := if kept then Some(row.issuer) else patch.issuer;
      RouteIssuer(preset, issuer, patch.tenant, env.formed)
  }

  /** The row as patched, its switch left alone. */
  function Patched(row: Provider, patch: Patch, issuer: string): Provider {
    var preset := Or(patch.preset, row.preset);
    var named := patch.preset.Some? || Repoints(row, patch);
    row.(preset := preset,
         kind := if named then KindFor(preset) else row.kind,
         issuer := issuer,
         clientId := Or(patch.clientId, row.clientId),
         displayName := Or(patch.displayName, row.displayName))
  }

  /** The columns that cannot change while an identity is linked. */
  predicate SamePinned(a: Provider, b: Provider) {
    a.issuer == b.issuer && a.clientId == b.clientId && a.kind == b.kind && a.preset == b.preset
  }

  /** The part of `change_provider` after `update_provider`. */
  function Switch(db: Db, provider: nat, enabled: Option<bool>, t: int): (Db, Outcome)
    requires provider in db.providers
  {
    var row := db.providers[provider];
    if enabled == Some(true) && !row.enabled then (Enable(db, provider, t), Done(0))
    else if enabled == Some(false) && row.enabled then
      var off := db.(providers := db.providers[provider := row.(enabled := false)]);
      var came := ThroughIdentities(db, LinkedThrough(db, provider));
      (RevokeWhere(off, came, t), Done(|Unrevoked(db, came)|))
    else (db, Done(0))
  }

  /** `update_provider`: refused for a linked provider's pinned columns. */
  function UpdateProvider(db: Db, provider: nat, row: Provider): (Db, Outcome)
    requires provider in db.providers
  {
    if !SamePinned(db.providers[provider], row) && LinkedThrough(db, provider) != {} then (db, Refused(ProviderLinked))
    else if row.kind != KindFor(row.preset) then (db, Refused(PresetMismatch))
    else if PairTaken(db.providers, row, provider) then (db, Refused(AlreadyConfigured))
    else (db.(providers := db.providers[provider := row]), Done(0))
  }

  function ChangeProvider(db: Db, provider: nat, patch: Patch, env: Env, t: int): (Db, Outcome) {
    if provider !in db.providers then (db, Refused(NotFound))
    else
      var row := db.providers[provider];
      var issuer := PatchedIssuer(row, patch, env);
      if issuer.None? then (db, Refused(BadIssuer))
      else if env.sharedHosts && (patch.preset.Some? || Repoints(row, patch)) then (db, Refused(SharedHosts))
      else
        var (updated, outcome) := UpdateProvider(db, provider, Patched(row, patch, issuer.value));
        if outcome.Refused? then (db, outcome) else Switch(updated, provider, patch.enabled, t)
  }

  // ---- every transaction ----

  datatype Op =
    | OpCreateAdmin
    | OpPasswordSignIn(user: nat, presented: Option<nat>)
    | OpCallbackSignIn(provider: nat, subject: string, presented: Option<nat>)
    | OpTrustedSignIn(configured: bool, issuer: string, subject: string, presented: Option<nat>)
    | OpCallbackLink(provider: nat, subject: string, presented: Option<nat>, flow: Option<nat>, recent: bool, fit: bool)
    | OpLinkHeader(configured: bool, session: nat, issuer: string, subject: string, fit: bool)
    | OpUse(session: nat)
    | OpConfirm(session: nat)
    | OpCallbackConfirm(provider: nat, subject: string, presented: Option<nat>, flow: Option<nat>)
    | OpSignOut(session: nat)
    | OpEndSession(user: nat, session: nat)
    | OpEndAll(user: nat)
    | OpChangePassword(session: nat)
    | OpResetPassword
    | OpPrune
    | OpUnlinkIdentity(user: nat, identity: nat)
    | OpDeleteProvider(provider: nat)
    | OpDisableSso
    | OpPutConfig(alerts: Option<bool>, header: Option<bool>)
    | OpAddProvider(draft: Draft, env: Env)
    | OpChangeProvider(provider: nat, patch: Patch, env: Env)

  function Apply(db: Db, op: Op, t: int): (Db, Outcome) {
    match op
    case OpCreateAdmin => CreateAdmin(db, t)
    case OpPasswordSignIn(user, presented) => PasswordSignIn(db, user, presented, t)
    case OpCallbackSignIn(provider, subject, presented) => CallbackSignIn(db, provider, subject, presented, t)
    case OpTrustedSignIn(configured, issuer, subject, presented) =>
      TrustedSignIn(db, configured, issuer, subject, presented, t)
    case OpCallbackLink(provider, subject, presented, flow, recent, fit) =>
      CallbackLink(db, provider, subject, presented, flow, recent, fit, t)
    case OpLinkHeader(configured, session, issuer, subject, fit) =>
      LinkHeader(db, configured, session, issuer, subject, fit, t)
    case OpUse(session) => Use(db, session, t)
    case OpConfirm(session) => Confirm(db, session, t)
    case OpCallbackConfirm(provider, subject, presented, flow) =>
      CallbackConfirm(db, provider, subject, presented, flow, t)
    case OpSignOut(session) => SignOut(db, session, t)
    case OpEndSession(user, session) => EndSession(db, user, session, t)
    case OpEndAll(user) => EndAll(db, user, t)
    case OpChangePassword(session) => ChangePassword(db, session, t)
    case OpResetPassword => ResetPassword(db, t)
    case OpPrune => Prune(db, t)
    case OpUnlinkIdentity(user, identity) => UnlinkIdentity(db, user, identity, t)
    case OpDeleteProvider(provider) => DeleteProvider(db, provider, t)
    case OpDisableSso => DisableSso(db, t)
    case OpPutConfig(alerts, header) => PutConfig(db, alerts, header, t)
    case OpAddProvider(draft, env) => AddProvider(db, draft, env, t)
    case OpChangeProvider(provider, patch, env) => ChangeProvider(db, provider, patch, env, t)
  }

  datatype Step = Step(op: Op, t: int)

  function Run(db: Db, steps: seq<Step>): Db {
    if steps == [] then db
    else Apply(Run(db, steps[..|steps| - 1]), steps[|steps| - 1].op, steps[|steps| - 1].t).0
  }
}
