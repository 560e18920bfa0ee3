/** How long a session works, over whole runs of the sign-in machine. */
module SessionLife {
  import opened Common
  import opened SignIn
  import opened WaysIn

  // ---- what one transaction may do to a session that exists ----

  ghost predicate Active(db: Db, user: nat) {
    user in db.users && db.users[user].active
  }

  /** The row is the same but for what time, use and revocation do to it. Nothing undoes a
      revocation; only a use moves the time last seen; an account switched on again takes
      no session with it. */
  ghost predicate Ages(a: Db, b: Db, s: nat, t: int) {
    && a.nextSession <= b.nextSession
    && (s in b.sessions ==>
        && s in a.sessions
        && var before, after := a.sessions[s], b.sessions[s];
        && after.user == before.user && after.auth == before.auth && after.expiresAt == before.expiresAt
        && (before.revokedAt.Some? ==> after.revokedAt == before.revokedAt)
        && after.lastSeenAt == before.lastSeenAt
        && (after.identity == before.identity || after.identity.None?)
        && (after.revokedAt.None? && Active(b, after.user) ==> Active(a, after.user)))
  }

  lemma AgesTwice(a: Db, b: Db, c: Db, s: nat, t: int)
    requires Ages(a, b, s, t) && Ages(b, c, s, t)
    ensures Ages(a, c, s, t)
  {}

  lemma CreateAges(db: Db, user: nat, auth: Method, identity: Option<nat>, s: nat, t: int)
    requires s < db.nextSession
    ensures Ages(db, Create(db, user, auth, identity, t), s, t)
  {}

  lemma RevokeAges(db: Db, gone: nat, s: nat, t: int)
    requires gone in db.sessions
    ensures Ages(db, Revoke(db, gone, t), s, t)
  {}

  lemma RevokeWhereAges(db: Db, among: set<nat>, s: nat, t: int)
    ensures Ages(db, RevokeWhere(db, among, t), s, t)
  {}

  lemma RotateAges(db: Db, presented: Option<nat>, s: nat, t: int)
    ensures Ages(db, Rotate(db, presented, t), s, t)
  {}

  lemma SignedInAges(db: Db, user: nat, s: nat, t: int)
    requires user in db.users
    ensures Ages(db, SignedIn(db, user, t), s, t)
  {}

  lemma DeleteAges(db: Db, ids: set<nat>, s: nat, t: int)
    ensures Ages(db, DeleteIdentities(db, ids), s, t)
  {}

  lemma ExternalAges(db: Db, found: Option<nat>, auth: Method, presented: Option<nat>, s: nat, t: int)
    requires (found.Some? ==> found.value in db.identities) && s < db.nextSession
    ensures Ages(db, ExternalSignIn(db, found, auth, presented, t).0, s, t)
  {
    hide Ages, Rotate, Create, SignedIn;
    SameAges(db, s, t);
    if found.Some? {
      var user := db.identities[found.value].user;
      if user in db.users && db.users[user].active {
        var rotated := Rotate(db, presented, t);
        var created := Create(rotated, user, auth, found, t);
        RotateAges(db, presented, s, t);
        RotateCounts(db, presented, t);
        CreateAges(rotated, user, auth, found, s, t);
        CreateCounts(rotated, user, auth, found, t);
        SignedInAges(created, user, s, t);
        AgesTwice(db, rotated, created, s, t);
        AgesTwice(db, created, SignedIn(created, user, t), s, t);
      }
    }
  }

  lemma SameAges(db: Db, s: nat, t: int)
    ensures Ages(db, db, s, t)
  {}

  lemma RotateCounts(db: Db, presented: Option<nat>, t: int)
    ensures Rotate(db, presented, t) == db.(sessions := Rotate(db, presented, t).sessions)
  {}

  lemma CreateCounts(db: Db, user: nat, auth: Method, identity: Option<nat>, t: int)
    ensures var after := Create(db, user, auth, identity, t);
      after == db.(sessions := after.sessions, nextSession := db.nextSession + 1)
  {}

  lemma PasswordSignInAges(db: Db, user: nat, presented: Option<nat>, s: nat, t: int)
    requires s < db.nextSession
    ensures Ages(db, PasswordSignIn(db, user, presented, t).0, s, t)
  {
    hide Ages, Rotate, Create, SignedIn;
    SameAges(db, s, t);
    if user in db.users && db.users[user].active {
      var created := Create(db, user, Password, None, t);
      CreateAges(db, user, Password, None, s, t);
      CreateCounts(db, user, Password, None, t);
      var signed := SignedIn(created, user, t);
      SignedInAges(created, user, s, t);
      RotateAges(signed, Held(db, presented), s, t);
      AgesTwice(db, created, signed, s, t);
      AgesTwice(db, signed, Rotate(signed, Held(db, presented), t), s, t);
    }
  }

  lemma ChangePasswordAges(db: Db, own: nat, s: nat, t: int)
    requires s < db.nextSession
    ensures Ages(db, ChangePassword(db, own, t).0, s, t)
  {
    hide Ages, Create;
    SameAges(db, s, t);
    if Live(db, own, t) {
      var user := db.sessions[own].user;
      var ended := EndAll(db, user, t).0;
      RevokeWhereAges(db, OfUser(db, user), s, t);
      CreateAges(ended, user, Password, None, s, t);
      AgesTwice(db, ended, Create(ended, user, Password, None, t), s, t);
    }
  }

  lemma UnlinkAges(db: Db, ids: set<nat>, s: nat, t: int)
    ensures Ages(db, Unlink(db, ids, t).0, s, t)
  {
    hide Ages, RevokeWhere, DeleteIdentities, ThroughIdentities;
    var revoked := RevokeWhere(db, ThroughIdentities(db, ids), t);
    RevokeWhereAges(db, ThroughIdentities(db, ids), s, t);
    DeleteAges(revoked, ids, s, t);
    AgesTwice(db, revoked, DeleteIdentities(revoked, ids), s, t);
  }

  /** The ways in do not matter to a session's age. */
  lemma ElsewhereAges(a: Db, b: Db, c: Db, s: nat, t: int)
    requires Ages(a, b, s, t) && c.sessions == b.sessions && c.users == b.users && c.nextSession == b.nextSession
    ensures Ages(a, c, s, t)
  {}

  lemma ChangeProviderAges(db: Db, provider: nat, patch: Patch, env: Env, s: nat, t: int)
    ensures Ages(db, ChangeProvider(db, provider, patch, env, t).0, s, t)
  {
    hide PatchedIssuer, Patched, RevokeWhere, Ages, UpdateProvider, LinkedThrough, ThroughIdentities;
    SameAges(db, s, t);
    if provider in db.providers {
      var issuer := PatchedIssuer(db.providers[provider], patch, env);
      if issuer.Some? {
        var row := Patched(db.providers[provider], patch, issuer.value);
        var updated := UpdateProvider(db, provider, row).0;
        UpdatedIs(db, provider, row);
        ElsewhereAges(db, db, updated, s, t);
        SwitchAges(db, updated, provider, patch.enabled, s, t);
      }
    }
  }

  lemma SwitchAges(db: Db, updated: Db, provider: nat, enabled: Option<bool>, s: nat, t: int)
    requires provider in updated.providers && Ages(db, updated, s, t)
    ensures Ages(db, Switch(updated, provider, enabled, t).0, s, t)
  {
    hide Ages, RevokeWhere, LinkedThrough, ThroughIdentities;
    var switched := Switch(updated, provider, enabled, t).0;
    if enabled == Some(false) && updated.providers[provider].enabled {
      var off := updated.(providers := updated.providers[provider := updated.providers[provider].(enabled := false)]);
      ElsewhereAges(db, updated, off, s, t);
      RevokeWhereAges(off, ThroughIdentities(updated, LinkedThrough(updated, provider)), s, t);
      AgesTwice(db, off, switched, s, t);
    } else {
      ElsewhereAges(db, updated, switched, s, t);
    }
  }

  lemma AddProviderElsewhere(db: Db, draft: Draft, env: Env, t: int)
    ensures var after := AddProvider(db, draft, env, t).0;
      after.sessions == db.sessions && after.users == db.users && after.nextSession == db.nextSession
  {
    hide RouteIssuer;
  }

  lemma DisableAges(db: Db, s: nat, t: int)
    ensures Ages(db, DisableSso(db, t).0, s, t)
  {
    hide Ages, RevokeWhere, ByMethod, AllOff;
    var off := db.(providers := AllOff(db.providers), config := db.config.(headerEnabled := false));
    SameAges(db, s, t);
    ElsewhereAges(db, db, off, s, t);
    RevokeWhereAges(off, ByMethod(db, EXTERNAL), s, t);
    AgesTwice(db, off, DisableSso(db, t).0, s, t);
  }

  lemma PutConfigAges(db: Db, alerts: Option<bool>, header: Option<bool>, s: nat, t: int)
    ensures Ages(db, PutConfig(db, alerts, header, t).0, s, t)
  {
    hide Ages, RevokeWhere, ByMethod;
    var config := Config(Or(header, db.config.headerEnabled), Or(alerts, db.config.alerts),
      db.config.alertsDefaultedAt);
    var switched := db.(config := config);
    SameAges(db, s, t);
    ElsewhereAges(db, db, switched, s, t);
    if db.config.headerEnabled && !config.headerEnabled {
      RevokeWhereAges(switched, ByMethod(db, {TrustedHeader}), s, t);
      AgesTwice(db, switched, RevokeWhere(switched, ByMethod(db, {TrustedHeader}), t), s, t);
    }
  }

  lemma DeleteProviderAges(db: Db, provider: nat, s: nat, t: int)
    ensures Ages(db, DeleteProvider(db, provider, t).0, s, t)
  {
    hide Ages, Unlink, LinkedThrough;
    SameAges(db, s, t);
    if provider in db.providers {
      UnlinkAges(db, LinkedThrough(db, provider), s, t);
      ElsewhereAges(db, Unlink(db, LinkedThrough(db, provider), t).0, DeleteProvider(db, provider, t).0, s, t);
    }
  }

  /** Switching the account on again ends what it had. */
  lemma ResetPasswordAges(db: Db, s: nat, t: int)
    ensures Ages(db, ResetPassword(db, t).0, s, t)
  {
    if db.claim.Some? && db.claim.value in db.users {
      var user := db.claim.value;
      var on := db.(users := db.users[user := db.users[user].(active := true)]);
      assert s in db.sessions && db.sessions[s].user == user ==> s in OfUser(on, user);
    }
  }

  lemma CreateAdminAges(db: Db, s: nat, t: int)
    requires Sound(db) && s < db.nextSession
    ensures Ages(db, CreateAdmin(db, t).0, s, t)
  {
    hide WayIn, IdentityRows, ProviderRows, Distinct, Defaulted;
  }

  lemma LinkElsewhere(db: Db, user: nat, provider: Option<nat>, issuer: string, subject: string)
    ensures var after := LinkIdentity(db, user, provider, issuer, subject).0;
      after.sessions == db.sessions && after.users == db.users && after.nextSession == db.nextSession
  {
    hide Taken;
  }

  ghost predicate Used(db: Db, op: Op, s: nat, t: int) {
    op == OpUse(s) && Live(db, s, t)
  }

  lemma {:induction false} ApplyAges(db: Db, op: Op, s: nat, t: int)
    requires Sound(db) && s < db.nextSession && !Used(db, op, s, t)
    ensures Ages(db, Apply(db, op, t).0, s, t)
  {
    hide Sound, Ages, ExternalSignIn, TouchedRow, PasswordSignIn, CreateAdmin, LinkIdentity, Unlink, DeleteProvider,
      DisableSso,
      PutConfig, AddProvider, ChangeProvider, ChangePassword, ResetPassword, Create, RevokeWhere, LiveRow;
    SameAges(db, s, t);
    match op
    case OpCreateAdmin => CreateAdminAges(db, s, t);
    case OpPasswordSignIn(user, presented) => PasswordSignInAges(db, user, presented, s, t);
    case OpCallbackSignIn(provider, subject, presented) =>
      if provider in db.providers {
        ExternalAges(db, Lookup(db, Some(provider), db.providers[provider].issuer, subject), Oidc, presented, s, t);
      }
    case OpTrustedSignIn(_, issuer, subject, presented) =>
      ExternalAges(db, Lookup(db, None, issuer, subject), TrustedHeader, presented, s, t);
    case OpCallbackLink(provider, subject, presented, flow, recent, fit) => CallbackLinkAges(db, op, s, t);
    case OpLinkHeader(_, session, issuer, subject, _) =>
      if Live(db, session, t) {
        LinkElsewhere(db, db.sessions[session].user, None, issuer, subject);
        ElsewhereAges(db, db, Apply(db, op, t).0, s, t);
      }
    case OpUse(session) => SeenAges(db, session, s, t);
    case OpConfirm(session) => SeenAges(db, session, s, t);
    case OpCallbackConfirm(_, _, presented, _) =>
      if presented.Some? { SeenAges(db, presented.value, s, t); }
    case OpSignOut(session) =>
      if Live(db, session, t) { RevokeAges(db, session, s, t); }
    case OpEndSession(_, session) =>
      if Live(db, session, t) { RevokeAges(db, session, s, t); }
    case OpEndAll(user) => RevokeWhereAges(db, OfUser(db, user), s, t);
    case OpChangePassword(session) => ChangePasswordAges(db, session, s, t);
    case OpResetPassword => ResetPasswordAges(db, s, t);
    case OpPrune => PruneAges(db, s, t);
    case OpUnlinkIdentity(_, identity) => UnlinkAges(db, {identity}, s, t);
    case OpDeleteProvider(provider) => DeleteProviderAges(db, provider, s, t);
    case OpDisableSso => DisableAges(db, s, t);
    case OpPutConfig(alerts, header) => PutConfigAges(db, alerts, header, s, t);
    case OpAddProvider(draft, env) =>
      AddProviderElsewhere(db, draft, env, t);
      ElsewhereAges(db, db, AddProvider(db, draft, env, t).0, s, t);
    case OpChangeProvider(provider, patch, env) => ChangeProviderAges(db, provider, patch, env, s, t);
  }

  lemma CallbackLinkAges(db: Db, op: Op, s: nat, t: int)
    requires op.OpCallbackLink?
    ensures Ages(db, Apply(db, op, t).0, s, t)
  {
    hide Ages, LinkIdentity;
    SameAges(db, s, t);
    if op.provider in db.providers && op.presented.Some? && Live(db, op.presented.value, t) {
      LinkElsewhere(db, db.sessions[op.presented.value].user, Some(op.provider), db.providers[op.provider].issuer,
        op.subject);
      ElsewhereAges(db, db, LinkIdentity(db, db.sessions[op.presented.value].user, Some(op.provider),
        db.providers[op.provider].issuer, op.subject).0, s, t);
    }
  }

  /** Another session used, or any session confirmed. */
  lemma SeenAges(db: Db, seen: nat, s: nat, t: int)
    ensures Live(db, seen, t) ==> Ages(db, Confirmed(db, seen, t), s, t)
    ensures Live(db, seen, t) && seen != s ==> Ages(db, Use(db, seen, t).0, s, t)
  {}

  lemma PruneAges(db: Db, s: nat, t: int)
    ensures Ages(db, Prune(db, t).0, s, t)
  {}

  /** A use changes nothing but the time last seen. */
  lemma UseIs(db: Db, s: nat, t: int)
    requires Live(db, s, t)
    ensures var after := Use(db, s, t).0;
      && after == db.(sessions := after.sessions) && s in after.sessions
      && after.sessions[s] == db.sessions[s].(lastSeenAt := after.sessions[s].lastSeenAt)
      && after.sessions[s].lastSeenAt == (if t - db.sessions[s].lastSeenAt < MINUTE then db.sessions[s].lastSeenAt
        else t)
  {}

  // ---- once it does not work, it never works again ----

  ghost predicate InTime(steps: seq<Step>, start: int, end: int) {
    && (forall i, j :: 0 <= i < j < |steps| ==> steps[i].t <= steps[j].t)
    && (forall i :: 0 <= i < |steps| ==> start <= steps[i].t <= end)
    && start <= end
  }

  /** Whatever is done, deactivated accounts switched on again included. */
  lemma StaysDead(db: Db, op: Op, s: nat, t: int, later: int)
    requires Sound(db) && s < db.nextSession && !Live(db, s, t) && t <= later
    ensures !Live(Apply(db, op, t).0, s, later) && s < Apply(db, op, t).0.nextSession
  {
    hide Apply, Sound;
    ApplyAges(db, op, s, t);
  }

  lemma {:induction false} NeverAgain(db: Db, steps: seq<Step>, s: nat, start: int, end: int)
    requires Sound(db) && s < db.nextSession && !Live(db, s, start) && InTime(steps, start, end)
    ensures !Live(Run(db, steps), s, end) && s < Run(db, steps).nextSession
  {
    hide Apply, Sound;
    if steps != [] {
      var n := |steps| - 1;
      NeverAgain(db, steps[..n], s, start, steps[n].t);
      RunKeeps(db, steps[..n]);
      StaysDead(Run(db, steps[..n]), steps[n].op, s, steps[n].t, end);
    }
  }
}
