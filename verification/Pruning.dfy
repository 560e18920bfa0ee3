/** The hourly prune is never seen: with it or without it, every run gives the same answers. */
module Pruning {
  import opened Common
  import opened SignIn
  import opened WaysIn
  import opened SessionLife

  /** No use of the row can ever find it live. */
  ghost predicate Spent(row: Session, t: int) {
    row.revokedAt.Some? || row.expiresAt <= t || row.lastSeenAt + IDLE <= t
  }

  /** The tables hold the same rows but for spent ones. */
  ghost predicate Alike(a: Sessions, b: Sessions, t: int) {
    && (forall s :: s in a && s in b ==> a[s] == b[s])
    && (forall s :: s in a && s !in b ==> Spent(a[s], t))
    && (forall s :: s in b && s !in a ==> Spent(b[s], t))
  }

  ghost predicate Same(a: Db, b: Db, t: int) {
    b == a.(sessions := b.sessions) && Alike(a.sessions, b.sessions, t)
  }

  lemma LiveAlike(a: Db, b: Db, s: nat, t: int)
    requires Same(a, b, t)
    ensures Live(a, s, t) <==> Live(b, s, t)
    ensures Live(a, s, t) ==> a.sessions[s] == b.sessions[s]
  {}

  lemma LaterAlike(a: Sessions, b: Sessions, t: int, later: int)
    requires Alike(a, b, t) && t <= later
    ensures Alike(a, b, later)
  {}

  // ---- the parts of a transaction ----

  lemma PutAlike(a: Sessions, b: Sessions, s: nat, row: Session, t: int)
    requires Alike(a, b, t)
    ensures Alike(a[s := row], b[s := row], t)
  {}

  lemma RevokeWhereAlike(a: Db, b: Db, amongA: set<nat>, amongB: set<nat>, t: int)
    requires Alike(a.sessions, b.sessions, t)
    requires forall s :: s in a.sessions && s in b.sessions ==> (s in amongA <==> s in amongB)
    ensures Alike(RevokeWhere(a, amongA, t).sessions, RevokeWhere(b, amongB, t).sessions, t)
  {}

  lemma DeleteAlike(a: Db, b: Db, ids: set<nat>, t: int)
    requires Alike(a.sessions, b.sessions, t)
    ensures Alike(DeleteIdentities(a, ids).sessions, DeleteIdentities(b, ids).sessions, t)
  {}

  lemma RotateAlike(a: Db, b: Db, presented: Option<nat>, t: int)
    requires Same(a, b, t)
    ensures Same(Rotate(a, presented, t), Rotate(b, presented, t), t)
  {
    hide Alike;
    if presented.Some? {
      LiveAlike(a, b, presented.value, t);
      if Live(a, presented.value, t) {
        PutAlike(a.sessions, b.sessions, presented.value, RevokedRow(a.sessions[presented.value], t), t);
      }
    }
  }

  lemma CreateAlike(a: Db, b: Db, user: nat, auth: Method, identity: Option<nat>, t: int)
    requires Same(a, b, t)
    ensures Same(Create(a, user, auth, identity, t), Create(b, user, auth, identity, t), t)
  {
    hide Alike;
    PutAlike(a.sessions, b.sessions, a.nextSession, NewSession(user, auth, identity, t), t);
  }

  lemma EndAllAlike(a: Db, b: Db, user: nat, t: int)
    requires Same(a, b, t)
    ensures Same(EndAll(a, user, t).0, EndAll(b, user, t).0, t)
  {
    AlikeRows(a.sessions, b.sessions, t);
    hide Alike;
    RevokeWhereAlike(a, b, OfUser(a, user), OfUser(b, user), t);
  }

  lemma AlikeRows(a: Sessions, b: Sessions, t: int)
    requires Alike(a, b, t)
    ensures forall s :: s in a && s in b ==> a[s] == b[s]
  {}

  lemma UnlinkAlike(a: Db, b: Db, ids: set<nat>, t: int)
    requires Same(a, b, t)
    ensures Same(Unlink(a, ids, t).0, Unlink(b, ids, t).0, t)
  {
    AlikeRows(a.sessions, b.sessions, t);
    hide Alike;
    RevokeWhereAlike(a, b, ThroughIdentities(a, ids), ThroughIdentities(b, ids), t);
    DeleteAlike(RevokeWhere(a, ThroughIdentities(a, ids), t), RevokeWhere(b, ThroughIdentities(b, ids), t), ids, t);
  }

  lemma ExternalAlike(a: Db, b: Db, found: Option<nat>, auth: Method, presented: Option<nat>, t: int)
    requires Same(a, b, t) && (found.Some? ==> found.value in a.identities)
    ensures Same(ExternalSignIn(a, found, auth, presented, t).0, ExternalSignIn(b, found, auth, presented, t).0, t)
  {
    hide Alike, Rotate, Create;
    if found.Some? {
      RotateAlike(a, b, presented, t);
      var user := a.identities[found.value].user;
      RotateCounts(a, presented, t);
      RotateCounts(b, presented, t);
      CreateCounts(Rotate(a, presented, t), user, auth, found, t);
      CreateCounts(Rotate(b, presented, t), user, auth, found, t);
      CreateAlike(Rotate(a, presented, t), Rotate(b, presented, t), user, auth, found, t);
    }
  }

  /** A presented row pruned from one table only was spent, so it ends in neither. */
  lemma HeldAlike(a: Db, b: Db, one: Db, two: Db, presented: Option<nat>, t: int)
    requires Same(a, b, t) && Same(one, two, t)
    requires presented.Some? && presented.value in a.sessions ==>
      presented.value in one.sessions && one.sessions[presented.value] == a.sessions[presented.value]
    requires presented.Some? && presented.value in b.sessions ==>
      presented.value in two.sessions && two.sessions[presented.value] == b.sessions[presented.value]
    ensures Same(Rotate(one, Held(a, presented), t), Rotate(two, Held(b, presented), t), t)
  {
    if presented.Some? && presented.value in a.sessions && presented.value in b.sessions {
      RotateAlike(one, two, presented, t);
    }
  }

  lemma PasswordAlike(a: Db, b: Db, user: nat, presented: Option<nat>, t: int)
    requires Same(a, b, t) && SessionRows(a.sessions, a.users, a.nextSession)
      && SessionRows(b.sessions, b.users, b.nextSession)
    ensures Same(PasswordSignIn(a, user, presented, t).0, PasswordSignIn(b, user, presented, t).0, t)
  {
    if user in a.users && a.users[user].active {
      var one := SignedIn(Create(a, user, Password, None, t), user, t);
      var two := SignedIn(Create(b, user, Password, None, t), user, t);
      assert presented.Some? && presented.value in a.sessions ==> presented.value < a.nextSession;
      assert presented.Some? && presented.value in b.sessions ==> presented.value < b.nextSession;
      hide Alike, Rotate, SessionRows;
      CreateAlike(a, b, user, Password, None, t);
      HeldAlike(a, b, one, two, presented, t);
    }
  }

  lemma SwitchAlike(a: Db, b: Db, provider: nat, enabled: Option<bool>, t: int)
    requires Same(a, b, t) && provider in a.providers
    ensures Same(Switch(a, provider, enabled, t).0, Switch(b, provider, enabled, t).0, t)
  {
    hide Alike, RevokeWhere, ThroughIdentities, LinkedThrough, Unrevoked;
    if enabled == Some(false) && a.providers[provider].enabled {
      SwitchOffAlike(a, b, provider, t);
    }
  }

  lemma SwitchOffAlike(a: Db, b: Db, provider: nat, t: int)
    requires Same(a, b, t) && provider in a.providers
    ensures var off := a.providers[provider := a.providers[provider].(enabled := false)];
      Same(RevokeWhere(a.(providers := off), ThroughIdentities(a, LinkedThrough(a, provider)), t),
        RevokeWhere(b.(providers := off), ThroughIdentities(b, LinkedThrough(b, provider)), t), t)
  {
    AlikeRows(a.sessions, b.sessions, t);
    hide Alike, RevokeWhere;
    var off := a.providers[provider := a.providers[provider].(enabled := false)];
    RevokeWhereAlike(a.(providers := off), b.(providers := off),
      ThroughIdentities(a, LinkedThrough(a, provider)), ThroughIdentities(b, LinkedThrough(b, provider)), t);
  }

  lemma ChangeProviderAlike(a: Db, b: Db, provider: nat, patch: Patch, env: Env, t: int)
    requires Same(a, b, t)
    ensures Same(ChangeProvider(a, provider, patch, env, t).0, ChangeProvider(b, provider, patch, env, t).0, t)
  {
    hide Alike, PatchedIssuer, Patched, Switch, UpdateProvider;
    if provider in a.providers {
      var issuer := PatchedIssuer(a.providers[provider], patch, env);
      if issuer.Some? {
        var row := Patched(a.providers[provider], patch, issuer.value);
        UpdateAlike(a, b, provider, row, t);
        UpdatedIs(a, provider, row);
        SwitchAlike(UpdateProvider(a, provider, row).0, UpdateProvider(b, provider, row).0, provider, patch.enabled, t);
      }
    }
  }

  lemma UpdateAlike(a: Db, b: Db, provider: nat, row: Provider, t: int)
    requires Same(a, b, t) && provider in a.providers
    ensures Same(UpdateProvider(a, provider, row).0, UpdateProvider(b, provider, row).0, t)
    ensures UpdateProvider(a, provider, row).1 == UpdateProvider(b, provider, row).1
  {
    hide Alike;
    assert LinkedThrough(a, provider) == LinkedThrough(b, provider);
  }

  lemma ByMethodAlike(a: Db, b: Db, rest: Db, methods: set<Method>, t: int)
    requires Same(a, b, t)
    ensures Alike(RevokeWhere(rest.(sessions := a.sessions), ByMethod(a, methods), t).sessions,
                  RevokeWhere(rest.(sessions := b.sessions), ByMethod(b, methods), t).sessions, t)
  {
    AlikeRows(a.sessions, b.sessions, t);
    hide Alike;
    RevokeWhereAlike(rest.(sessions := a.sessions), rest.(sessions := b.sessions), ByMethod(a, methods),
      ByMethod(b, methods), t);
  }

  lemma DisableAlike(a: Db, b: Db, t: int)
    requires Same(a, b, t)
    ensures Same(DisableSso(a, t).0, DisableSso(b, t).0, t)
  {
    hide Alike, ByMethod, AllOff;
    ByMethodAlike(a, b, a.(providers := AllOff(a.providers), config := a.config.(headerEnabled := false)), EXTERNAL, t);
  }

  lemma PutConfigAlike(a: Db, b: Db, alerts: Option<bool>, header: Option<bool>, t: int)
    requires Same(a, b, t)
    ensures Same(PutConfig(a, alerts, header, t).0, PutConfig(b, alerts, header, t).0, t)
  {
    hide Alike, ByMethod;
    var config := Config(Or(header, a.config.headerEnabled), Or(alerts, a.config.alerts), a.config.alertsDefaultedAt);
    ByMethodAlike(a, b, a.(config := config), {TrustedHeader}, t);
  }

  lemma ResetPasswordAlike(a: Db, b: Db, t: int)
    requires Same(a, b, t)
    ensures Same(ResetPassword(a, t).0, ResetPassword(b, t).0, t)
  {
    hide Alike, EndAll;
    if a.claim.Some? && a.claim.value in a.users {
      var users := a.users[a.claim.value := a.users[a.claim.value].(active := true)];
      EndAllAlike(a.(users := users), b.(users := users), a.claim.value, t);
    }
  }

  lemma ChangePasswordAlike(a: Db, b: Db, s: nat, t: int)
    requires Same(a, b, t)
    ensures Same(ChangePassword(a, s, t).0, ChangePassword(b, s, t).0, t)
  {
    LiveAlike(a, b, s, t);
    hide Alike, EndAll, Live;
    if Live(a, s, t) {
      LiveHas(a, s, t);
      EndAllAlike(a, b, a.sessions[s].user, t);
      CreateAlike(EndAll(a, a.sessions[s].user, t).0, EndAll(b, b.sessions[s].user, t).0, a.sessions[s].user, Password,
        None, t);
      EndAllCounts(a, a.sessions[s].user, t);
    }
  }

  lemma LiveHas(db: Db, s: nat, t: int)
    requires Live(db, s, t)
    ensures s in db.sessions
  {}

  lemma EndAllCounts(db: Db, user: nat, t: int)
    ensures EndAll(db, user, t).0 == db.(sessions := EndAll(db, user, t).0.sessions)
  {}

  lemma LinkAlike(a: Db, b: Db, user: nat, provider: Option<nat>, issuer: string, subject: string, t: int)
    requires Same(a, b, t)
    ensures Same(LinkIdentity(a, user, provider, issuer, subject).0,
      LinkIdentity(b, user, provider, issuer, subject).0, t)
  {
    hide Alike;
  }

  lemma DeleteProviderAlike(a: Db, b: Db, provider: nat, t: int)
    requires Same(a, b, t)
    ensures Same(DeleteProvider(a, provider, t).0, DeleteProvider(b, provider, t).0, t)
  {
    hide Alike, Unlink;
    assert LinkedThrough(a, provider) == LinkedThrough(b, provider);
    UnlinkAlike(a, b, LinkedThrough(a, provider), t);
  }

  lemma AddProviderAlike(a: Db, b: Db, draft: Draft, env: Env, t: int)
    requires Same(a, b, t)
    ensures Same(AddProvider(a, draft, env, t).0, AddProvider(b, draft, env, t).0, t)
  {
    hide Alike, RouteIssuer, PairTaken;
  }

  /** The same row seen, confirmed or revoked in both. */
  lemma RowAlike(a: Db, b: Db, op: Op, t: int)
    requires Same(a, b, t) && OfOneRow(op)
    ensures Same(Apply(a, op, t).0, Apply(b, op, t).0, t)
  {
    var s := match op
      case OpUse(s) => s
      case OpConfirm(s) => s
      case OpSignOut(s) => s
      case OpEndSession(_, s) => s
      case OpCallbackConfirm(_, _, presented, _) => Or(presented, 0)
      case _ => 0;
    LiveAlike(a, b, s, t);
    if Live(a, s, t) {
      var row := a.sessions[s];
      hide Alike, LiveRow;
      PutAlike(a.sessions, b.sessions, s, RevokedRow(row, t), t);
      PutAlike(a.sessions, b.sessions, s, TouchedRow(row, t), t);
      PutAlike(a.sessions, b.sessions, s, row.(confirmedUntil := Some(t + CONFIRM_WINDOW)), t);
    } else {
      hide Alike;
    }
  }

  lemma LinkingAlike(a: Db, b: Db, op: Op, t: int)
    requires Same(a, b, t) && (op.OpCallbackLink? || op.OpLinkHeader?)
    ensures Same(Apply(a, op, t).0, Apply(b, op, t).0, t)
  {
    var s := if op.OpCallbackLink? then Or(op.presented, 0) else op.session;
    LiveAlike(a, b, s, t);
    if Live(a, s, t) {
      hide Alike, LinkIdentity, LiveRow;
      var user := a.sessions[s].user;
      if op.OpCallbackLink? {
        if op.provider in a.providers {
          LinkAlike(a, b, user, Some(op.provider), a.providers[op.provider].issuer, op.subject, t);
        }
      } else {
        LinkAlike(a, b, user, None, op.issuer, op.subject, t);
      }
    } else {
      hide Alike;
    }
  }

  lemma CreateAdminAlike(a: Db, b: Db, t: int)
    requires Same(a, b, t)
    ensures Same(CreateAdmin(a, t).0, CreateAdmin(b, t).0, t)
  {
    hide Alike, Create;
    if a.claim.None? {
      var users := a.users[a.nextUser := User(true, Some(t))];
      CreateAlike(a.(users := users, nextUser := a.nextUser + 1, claim := Some(a.nextUser)),
        b.(users := users, nextUser := a.nextUser + 1, claim := Some(a.nextUser)), a.nextUser, Password, None, t);
    }
  }

  lemma ExternalsAlike(a: Db, b: Db, op: Op, t: int)
    requires Same(a, b, t) && (op.OpCallbackSignIn? || op.OpTrustedSignIn?)
    ensures Same(Apply(a, op, t).0, Apply(b, op, t).0, t)
  {
    hide Alike, ExternalSignIn;
    match op
    case OpCallbackSignIn(provider, subject, presented) =>
      if provider in a.providers {
        ExternalAlike(a, b, Lookup(a, Some(provider), a.providers[provider].issuer, subject), Oidc, presented, t);
      }
    case OpTrustedSignIn(_, issuer, subject, presented) =>
      ExternalAlike(a, b, Lookup(a, None, issuer, subject), TrustedHeader, presented, t);
  }

  predicate OfOneRow(op: Op) {
    op.OpUse? || op.OpConfirm? || op.OpCallbackConfirm? || op.OpSignOut? || op.OpEndSession?
  }

  lemma ApplyAlike(a: Db, b: Db, op: Op, t: int)
    requires Sound(a) && Sound(b) && Same(a, b, t) && !op.OpPrune?
    ensures Same(Apply(a, op, t).0, Apply(b, op, t).0, t)
  {
    if OfOneRow(op) {
      RowAlike(a, b, op, t);
    } else if op.OpCallbackLink? || op.OpLinkHeader? {
      LinkingAlike(a, b, op, t);
    } else if op.OpCallbackSignIn? || op.OpTrustedSignIn? {
      ExternalsAlike(a, b, op, t);
    } else {
      OthersAlike(a, b, op, t);
    }
  }

  lemma OthersAlike(a: Db, b: Db, op: Op, t: int)
    requires Sound(a) && Sound(b) && Same(a, b, t) && !op.OpPrune? && !OfOneRow(op)
    requires !op.OpCallbackLink? && !op.OpLinkHeader? && !op.OpCallbackSignIn? && !op.OpTrustedSignIn?
    ensures Same(Apply(a, op, t).0, Apply(b, op, t).0, t)
  {
    assert SessionRows(a.sessions, a.users, a.nextSession) && SessionRows(b.sessions, b.users, b.nextSession);
    hide Sound, SessionRows, Same, PasswordSignIn, CreateAdmin, Unlink, DeleteProvider, DisableSso, PutConfig,
      AddProvider, ChangeProvider, ChangePassword, ResetPassword, EndAll;
    match op
    case OpCreateAdmin => CreateAdminAlike(a, b, t);
    case OpPasswordSignIn(user, presented) => PasswordAlike(a, b, user, presented, t);
    case OpEndAll(user) => EndAllAlike(a, b, user, t);
    case OpChangePassword(s) => ChangePasswordAlike(a, b, s, t);
    case OpResetPassword => ResetPasswordAlike(a, b, t);
    case OpUnlinkIdentity(user, identity) => UnlinkOneAlike(a, b, user, identity, t);
    case OpDeleteProvider(provider) => DeleteProviderAlike(a, b, provider, t);
    case OpDisableSso => DisableAlike(a, b, t);
    case OpPutConfig(alerts, header) => PutConfigAlike(a, b, alerts, header, t);
    case OpAddProvider(draft, env) => AddProviderAlike(a, b, draft, env, t);
    case OpChangeProvider(provider, patch, env) => ChangeProviderAlike(a, b, provider, patch, env, t);
  }

  lemma UnlinkOneAlike(a: Db, b: Db, user: nat, identity: nat, t: int)
    requires Same(a, b, t)
    ensures Same(UnlinkIdentity(a, user, identity, t).0, UnlinkIdentity(b, user, identity, t).0, t)
  {
    hide Alike, Unlink;
    UnlinkAlike(a, b, {identity}, t);
  }

  lemma PruneAlike(a: Db, b: Db, t: int)
    requires Same(a, b, t)
    ensures Same(a, Prune(b, t).0, t)
  {}

  // ---- every run ----

  /** The run with its prunes left out. */
  ghost function Unpruned(steps: seq<Step>): seq<Step> {
    if steps == [] then []
    else
      var n := |steps| - 1;
      if steps[n].op.OpPrune? then Unpruned(steps[..n]) else Unpruned(steps[..n]) + [steps[n]]
  }

  lemma {:induction false} RunAlike(db: Db, steps: seq<Step>, start: int, end: int)
    requires Sound(db) && InTime(steps, start, end)
    ensures Same(Run(db, Unpruned(steps)), Run(db, steps), end)
  {
    hide Sound, Apply, Alike;
    if steps == [] {
      SelfAlike(db.sessions, end);
    } else {
      var n := |steps| - 1;
      var without, with := Unpruned(steps[..n]), steps[..n];
      RunAlike(db, with, start, steps[n].t);
      RunKeeps(db, without);
      RunKeeps(db, with);
      var a, b := Run(db, without), Run(db, with);
      if steps[n].op.OpPrune? {
        PruneAlike(a, b, steps[n].t);
        assert Apply(b, steps[n].op, steps[n].t) == Prune(b, steps[n].t) by { PruneIs(b, steps[n].op, steps[n].t); }
        LaterAlike(a.sessions, Run(db, steps).sessions, steps[n].t, end);
      } else {
        assert (without + [steps[n]])[..|without|] == without;
        ApplyAlike(a, b, steps[n].op, steps[n].t);
        LaterAlike(Run(db, Unpruned(steps)).sessions, Run(db, steps).sessions, steps[n].t, end);
      }
    }
  }

  lemma PruneIs(db: Db, op: Op, t: int)
    requires op.OpPrune?
    ensures Apply(db, op, t) == Prune(db, t)
  {}

  lemma SelfAlike(a: Sessions, t: int)
    ensures Alike(a, a, t)
  {}

  /** The same sessions work, and every other table is the same, with and without the prunes. */
  lemma {:induction false} PruneUnseen(db: Db, steps: seq<Step>, start: int, end: int)
    requires Sound(db) && InTime(steps, start, end)
    ensures var a, b := Run(db, Unpruned(steps)), Run(db, steps);
      && (forall s :: Live(a, s, end) <==> Live(b, s, end))
      && (a.users, a.identities, a.providers, a.config, a.claim)
        == (b.users, b.identities, b.providers, b.config, b.claim)
  {
    hide Sound, Apply, Run;
    RunAlike(db, steps, start, end);
    forall s
      ensures Live(Run(db, Unpruned(steps)), s, end) <==> Live(Run(db, steps), s, end)
    {
      LiveAlike(Run(db, Unpruned(steps)), Run(db, steps), s, end);
    }
  }
}
