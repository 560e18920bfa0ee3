/** Closing a way in ends exactly the sessions that came through it, and what a linked
    identity is pinned to never moves. */
module WaysOut {
  import opened Common
  import opened SignIn
  import opened WaysIn
  import opened SessionLife

  /** These ids' sessions are ended and no other session changes, but for the identity it named. */
  ghost predicate Ends(a: Db, b: Db, ended: set<nat>, t: int) {
    && b.users == a.users
    && a.sessions.Keys == b.sessions.Keys
    && (forall s :: s in ended ==>
          s in a.sessions && a.sessions[s].revokedAt.None? && b.sessions[s].revokedAt == Some(t))
    && (forall s :: s in a.sessions && s !in ended && a.sessions[s].revokedAt.None? ==> b.sessions[s] == a.sessions[s])
    && (forall s :: s in a.sessions && a.sessions[s].auth.Password? ==> b.sessions[s] == a.sessions[s])
    && (forall s :: s in a.sessions ==>
          b.sessions[s].auth == a.sessions[s].auth && b.sessions[s].user == a.sessions[s].user)
  }

  /** The sessions not revoked that came in this way. */
  ghost function Through(db: Db, identity: nat): set<nat> {
    set s | s in db.sessions && db.sessions[s].revokedAt.None? && !db.sessions[s].auth.Password?
         && db.sessions[s].identity == Some(identity)
  }

  ghost function ThroughProvider(db: Db, provider: nat): set<nat> {
    set s | s in db.sessions && db.sessions[s].revokedAt.None? && db.sessions[s].auth.Oidc?
         && db.sessions[s].identity.Some? && db.sessions[s].identity.value in db.identities
         && db.identities[db.sessions[s].identity.value].provider == Some(provider)
  }

  ghost function ThroughMethods(db: Db, methods: set<Method>): set<nat> {
    set s | s in db.sessions && db.sessions[s].revokedAt.None? && db.sessions[s].auth in methods
  }

  // ---- each removal ----

  lemma UnlinkEnds(db: Db, ids: set<nat>, ended: set<nat>, t: int)
    requires Sound(db) && ended == Unrevoked(db, ThroughIdentities(db, ids))
    ensures Ends(db, Unlink(db, ids, t).0, ended, t)
  {
    hide Sound, Ends, RevokeWhere, DeleteIdentities;
    var came := ThroughIdentities(db, ids);
    NoPasswordCame(db, ids);
    RevokeWhereEnds(db, came, ended, t);
    NamedAlike(db, came, t);
    DeletingEndsNoMore(db, RevokeWhere(db, came, t), ids, ended, t);
  }

  lemma NoPasswordCame(db: Db, ids: set<nat>)
    requires Sound(db)
    ensures forall s :: s in ThroughIdentities(db, ids) && s in db.sessions ==> !db.sessions[s].auth.Password?
  {
    hide WayIn, IdentityRows, Distinct, ProviderRows, Defaulted, UserRows;
  }

  lemma NamedAlike(db: Db, among: set<nat>, t: int)
    ensures var after := RevokeWhere(db, among, t);
      after.users == db.users
      && forall s :: s in db.sessions ==> s in after.sessions && after.sessions[s].identity == db.sessions[s].identity
  {}

  /** Setting to null what the ended sessions named. */
  lemma DeletingEndsNoMore(db: Db, revoked: Db, ids: set<nat>, ended: set<nat>, t: int)
    requires Ends(db, revoked, ended, t) && ended == Unrevoked(db, ThroughIdentities(db, ids))
    requires forall s :: s in ThroughIdentities(db, ids) && s in db.sessions ==> !db.sessions[s].auth.Password?
    requires forall s :: s in db.sessions ==>
      s in revoked.sessions && revoked.sessions[s].identity == db.sessions[s].identity
    ensures Ends(db, DeleteIdentities(revoked, ids), ended, t)
  {}

  /** Unlinking ends what came through that identity, and says how many. */
  lemma {:induction false} UnlinkingEndsItsOwn(db: Db, user: nat, identity: nat, t: int)
    requires Sound(db) && identity in db.identities && db.identities[identity].user == user
    ensures var (after, outcome) := UnlinkIdentity(db, user, identity, t);
      && Ends(db, after, Through(db, identity), t) && outcome == Done(|Through(db, identity)|)
      && after.identities == db.identities - {identity}
      && after.providers == db.providers && after.config == db.config
  {
    UnlinkEnds(db, {identity}, Unrevoked(db, ThroughIdentities(db, {identity})), t);
    hide Ends, IdentityRows, Distinct, ProviderRows, Defaulted, UserRows;
    assert Unrevoked(db, ThroughIdentities(db, {identity})) == Through(db, identity);
  }

  lemma UnlinkElse(db: Db, ids: set<nat>, t: int)
    ensures var (after, outcome) := Unlink(db, ids, t);
      && after == db.(identities := db.identities - ids, sessions := after.sessions)
      && outcome == Done(|Unrevoked(db, ThroughIdentities(db, ids))|)
  {}

  lemma ProviderUnrevoked(db: Db, provider: nat)
    requires Sound(db)
    ensures Unrevoked(db, ThroughIdentities(db, LinkedThrough(db, provider))) == ThroughProvider(db, provider)
  {
    hide IdentityRows, Distinct, ProviderRows, Defaulted, UserRows;
  }

  /** Deleting a provider ends what came through its identities: no header session. */
  lemma {:induction false} DeletingEndsItsOwn(db: Db, provider: nat, t: int)
    requires Sound(db) && provider in db.providers
    ensures var (after, outcome) := DeleteProvider(db, provider, t);
      && Ends(db, after, ThroughProvider(db, provider), t) && outcome == Done(|ThroughProvider(db, provider)|)
      && after.identities == db.identities - LinkedThrough(db, provider)
      && after.providers == db.providers - {provider} && after.config == db.config
  {
    hide Sound, ThroughProvider, LinkedThrough, Ends, Unlink, ThroughIdentities, Unrevoked;
    UnlinkElse(db, LinkedThrough(db, provider), t);
    ProviderUnrevoked(db, provider);
    UnlinkEnds(db, LinkedThrough(db, provider), ThroughProvider(db, provider), t);
    ElsewhereEnds(db, Unlink(db, LinkedThrough(db, provider), t).0, DeleteProvider(db, provider, t).0,
      ThroughProvider(db, provider), t);
  }

  lemma RevokeWhereEnds(db: Db, among: set<nat>, ended: set<nat>, t: int)
    requires Sound(db) && ended == Unrevoked(db, among)
    requires forall s :: s in among && s in db.sessions ==> !db.sessions[s].auth.Password?
    ensures Ends(db, RevokeWhere(db, among, t), ended, t)
  {
    hide Sound;
  }

  lemma ElsewhereEnds(a: Db, b: Db, c: Db, ended: set<nat>, t: int)
    requires Ends(a, b, ended, t) && c.sessions == b.sessions && c.users == b.users
    ensures Ends(a, c, ended, t)
  {}

  /** Switching a provider off ends what came through it; any other accepted change ends nothing. */
  lemma {:induction false} ChangingEndsItsOwn(db: Db, provider: nat, patch: Patch, env: Env, t: int)
    requires Sound(db) && !ChangeProvider(db, provider, patch, env, t).1.Refused?
    ensures var (after, outcome) := ChangeProvider(db, provider, patch, env, t);
      var off := patch.enabled == Some(false) && db.providers[provider].enabled;
      var ended := if off then ThroughProvider(db, provider) else {};
      && Ends(db, after, ended, t) && outcome == Done(|ended|)
      && after.identities == db.identities
      && (patch.enabled.Some? ==> after.providers[provider].enabled == patch.enabled.value)
      && (patch.enabled.None? ==> after.providers[provider].enabled == db.providers[provider].enabled)
  {
    hide Sound, PatchedIssuer, UpdateProvider, Ends, ThroughProvider, LinkedThrough, ThroughIdentities;
    var issuer := PatchedIssuer(db.providers[provider], patch, env);
    var row := Patched(db.providers[provider], patch, issuer.value);
    UpdatedIs(db, provider, row);
    var updated := UpdateProvider(db, provider, row).0;
    var came := ThroughIdentities(db, LinkedThrough(db, provider));
    if patch.enabled == Some(false) && db.providers[provider].enabled {
      ProviderUnrevoked(db, provider);
      SameCame(db, updated, provider);
      CameExternal(db, provider);
      RevokeWhereEnds(db, came, ThroughProvider(db, provider), t);
      ElsewhereEnds(db, RevokeWhere(db, came, t), ChangeProvider(db, provider, patch, env, t).0,
        ThroughProvider(db, provider), t);
    } else {
      NothingEnded(db, ChangeProvider(db, provider, patch, env, t).0, t);
    }
  }

  lemma SameCame(db: Db, updated: Db, provider: nat)
    requires updated == db.(providers := updated.providers)
    ensures ThroughIdentities(updated, LinkedThrough(updated, provider))
      == ThroughIdentities(db, LinkedThrough(db, provider))
    ensures Unrevoked(updated, ThroughIdentities(db, LinkedThrough(db, provider)))
         == Unrevoked(db, ThroughIdentities(db, LinkedThrough(db, provider)))
  {
    assert LinkedThrough(updated, provider) == LinkedThrough(db, provider);
  }

  lemma CameExternal(db: Db, provider: nat)
    requires Sound(db)
    ensures forall s :: s in ThroughIdentities(db, LinkedThrough(db, provider)) && s in db.sessions ==>
      !db.sessions[s].auth.Password?
  {
    hide WayIn, IdentityRows, Distinct, ProviderRows, Defaulted, UserRows;
  }

  /** The header switched off ends the header's sessions, and only then does the form end any. */
  lemma {:induction false} HeaderOffEndsItsOwn(db: Db, alerts: Option<bool>, header: Option<bool>, t: int)
    requires Sound(db)
    ensures var (after, outcome) := PutConfig(db, alerts, header, t);
      var ended := if db.config.headerEnabled && header == Some(false) then ThroughMethods(db, {TrustedHeader}) else {};
      && Ends(db, after, ended, t) && outcome == Done(|ended|)
      && after.identities == db.identities && after.providers == db.providers
      && after.config.headerEnabled == Or(header, db.config.headerEnabled)
  {
    hide Sound, Ends, RevokeWhere;
    var config := Config(Or(header, db.config.headerEnabled), Or(alerts, db.config.alerts),
      db.config.alertsDefaultedAt);
    var switched := db.(config := config);
    var among, ended := ByMethod(db, {TrustedHeader}), ThroughMethods(db, {TrustedHeader});
    assert ended == Unrevoked(db, among);
    if db.config.headerEnabled && header == Some(false) {
      RevokeWhereEnds(db, among, ended, t);
      RevokeWhereAnyway(db, switched, among, t);
      ElsewhereEnds(db, RevokeWhere(db, among, t), RevokeWhere(switched, among, t), ended, t);
    } else {
      NothingEnded(db, switched, t);
    }
  }

  lemma RevokeWhereAnyway(db: Db, other: Db, among: set<nat>, t: int)
    requires other.sessions == db.sessions && other.users == db.users
    ensures RevokeWhere(other, among, t) == other.(sessions := RevokeWhere(db, among, t).sessions)
    ensures RevokeWhere(db, among, t).users == db.users
  {}

  lemma NothingEnded(a: Db, b: Db, t: int)
    requires b.sessions == a.sessions && b.users == a.users
    ensures Ends(a, b, {}, t)
  {}

  /** The container's switch-off ends every session that did not come in by password. */
  lemma {:induction false} DisablingEndsEveryExternal(db: Db, t: int)
    requires Sound(db)
    ensures var (after, outcome) := DisableSso(db, t);
      && Ends(db, after, ThroughMethods(db, EXTERNAL), t) && outcome == Done(|ThroughMethods(db, EXTERNAL)|)
      && after.identities == db.identities && !after.config.headerEnabled
      && after.providers.Keys == db.providers.Keys
      && (forall p :: p in after.providers ==> !after.providers[p].enabled)
      && (forall s :: s in after.sessions && after.sessions[s].revokedAt.None? ==> after.sessions[s].auth.Password?)
  {
    var among := ByMethod(db, EXTERNAL);
    assert ThroughMethods(db, EXTERNAL) == Unrevoked(db, among);
    hide Sound, Ends;
    RevokeWhereEnds(db, among, ThroughMethods(db, EXTERNAL), t);
    ElsewhereEnds(db, RevokeWhere(db, among, t), DisableSso(db, t).0, ThroughMethods(db, EXTERNAL), t);
    var after := DisableSso(db, t).0;
    forall s | s in after.sessions && after.sessions[s].revokedAt.None?
      ensures after.sessions[s].auth.Password?
    {
      assert s !in among;
    }
  }

  // ---- closing a way in ----

  /** The transactions that configure the ways in. */
  ghost predicate Configures(op: Op) {
    op.OpUnlinkIdentity? || op.OpDeleteProvider? || op.OpDisableSso? || op.OpPutConfig? || op.OpAddProvider?
    || op.OpChangeProvider? || op.OpCallbackLink? || op.OpLinkHeader?
  }

  /** A session is ended exactly when its way in is closed. */
  ghost predicate EndsTheClosed(a: Db, b: Db) {
    forall s :: s in a.sessions && a.sessions[s].revokedAt.None? ==>
      && s in b.sessions
      && (b.sessions[s].revokedAt.Some? <==> !Open(a.sessions[s], b.identities, b.providers, b.config.headerEnabled))
  }

  lemma EndsIffClosed(a: Db, b: Db, ended: set<nat>, t: int)
    requires Sound(a) && Sound(b) && Ends(a, b, ended, t)
    requires forall s :: s in ended ==> !Open(a.sessions[s], b.identities, b.providers, b.config.headerEnabled)
    ensures EndsTheClosed(a, b)
  {
    hide Open, SessionRows, IdentityRows, Distinct, ProviderRows, Defaulted, UserRows;
  }

  lemma NothingEnds(a: Db, b: Db, t: int)
    requires Sound(a) && Sound(b) && b.sessions == a.sessions && b.users == a.users
    ensures EndsTheClosed(a, b)
  {
    hide SessionRows, IdentityRows, Distinct, ProviderRows, Defaulted, UserRows, Open;
  }

  lemma {:induction false} ConfiguringEndsTheClosed(db: Db, op: Op, t: int)
    requires Sound(db) && Configures(op)
    ensures EndsTheClosed(db, Apply(db, op, t).0)
  {
    hide Sound, Ends, EndsTheClosed, Unlink, DisableSso, PutConfig, AddProvider, ChangeProvider, CallbackLink,
      LinkHeader;
    ApplyKeeps(db, op, t);
    var after := Apply(db, op, t).0;
    match op
    case OpUnlinkIdentity(user, identity) =>
      if identity in db.identities && db.identities[identity].user == user {
        UnlinkingEndsItsOwn(db, user, identity, t);
        EndsIffClosed(db, after, Through(db, identity), t);
      } else {
        NothingDone(db, op, t);
        NothingEnds(db, after, t);
      }
    case OpDeleteProvider(provider) =>
      if provider in db.providers {
        DeletingEndsItsOwn(db, provider, t);
        EndsIffClosed(db, after, ThroughProvider(db, provider), t);
      } else {
        NothingDone(db, op, t);
        NothingEnds(db, after, t);
      }
    case OpDisableSso =>
      DisablingEndsEveryExternal(db, t);
      EndsIffClosed(db, after, ThroughMethods(db, EXTERNAL), t);
    case OpPutConfig(alerts, header) =>
      HeaderOffEndsItsOwn(db, alerts, header, t);
      EndsIffClosed(db, after, if db.config.headerEnabled
        && header == Some(false) then ThroughMethods(db, {TrustedHeader}) else {}, t);
    case OpChangeProvider(provider, patch, env) =>
      ChangeEnds(db, provider, patch, env, t);
    case _ =>
      NothingDone(db, op, t);
      NothingEnds(db, after, t);
  }

  lemma ChangeEnds(db: Db, provider: nat, patch: Patch, env: Env, t: int)
    requires Sound(db)
    ensures EndsTheClosed(db, ChangeProvider(db, provider, patch, env, t).0)
  {
    hide *;
    if ChangeProvider(db, provider, patch, env, t).1.Refused? {
      RefusedEndsNothing(db, provider, patch, env, t);
    } else {
      AcceptedEndsTheClosed(db, provider, patch, env, t);
    }
  }

  lemma RefusedEndsNothing(db: Db, provider: nat, patch: Patch, env: Env, t: int)
    requires Sound(db) && ChangeProvider(db, provider, patch, env, t).1.Refused?
    ensures EndsTheClosed(db, ChangeProvider(db, provider, patch, env, t).0)
  {
    hide Sound, EndsTheClosed, ChangeProvider;
    NothingDone(db, OpChangeProvider(provider, patch, env), t);
    NothingEnds(db, db, t);
  }

  lemma AcceptedEndsTheClosed(db: Db, provider: nat, patch: Patch, env: Env, t: int)
    requires Sound(db) && !ChangeProvider(db, provider, patch, env, t).1.Refused?
    ensures EndsTheClosed(db, ChangeProvider(db, provider, patch, env, t).0)
  {
    ChangeProviderKeeps(db, provider, patch, env, t);
    ChangedHas(db, provider, patch, env, t);
    ChangingEndsItsOwn(db, provider, patch, env, t);
    hide Sound, Ends, EndsTheClosed, ChangeProvider;
    var after := ChangeProvider(db, provider, patch, env, t).0;
    var off := patch.enabled == Some(false) && db.providers[provider].enabled;
    EndsIffClosed(db, after, if off then ThroughProvider(db, provider) else {}, t);
  }

  lemma ChangedHas(db: Db, provider: nat, patch: Patch, env: Env, t: int)
    requires !ChangeProvider(db, provider, patch, env, t).1.Refused?
    ensures provider in db.providers && provider in ChangeProvider(db, provider, patch, env, t).0.providers
  {
    hide PatchedIssuer, Patched;
  }

  /** A refused transaction, a link and a new provider leave every session as it was. */
  lemma NothingDone(db: Db, op: Op, t: int)
    requires Configures(op)
    requires Apply(db, op, t).1.Refused? || op.OpAddProvider? || op.OpCallbackLink? || op.OpLinkHeader?
    ensures Apply(db, op, t).0.sessions == db.sessions && Apply(db, op, t).0.users == db.users
    ensures Apply(db, op, t).1.Refused? ==> Apply(db, op, t).0 == db
  {
    hide RouteIssuer, PatchedIssuer, Patched, Taken, PairTaken, RevokeWhere, DeleteIdentities, Live;
  }

  // ---- a way in stays open as long as its session ----

  /** Over every run: a session not revoked at the end was open at every moment since it
      was made, and always of the same account and method. */
  lemma {:induction false} OpenThroughout(db: Db, steps: seq<Step>, k: nat, s: nat)
    requires Sound(db) && k <= |steps| && s < Run(db, steps[..k]).nextSession
    requires var end := Run(db, steps); s in end.sessions && end.sessions[s].revokedAt.None?
    ensures var earlier, end := Run(db, steps[..k]), Run(db, steps);
      && s in earlier.sessions && earlier.sessions[s].revokedAt.None?
      && earlier.sessions[s].user == end.sessions[s].user && earlier.sessions[s].auth == end.sessions[s].auth
      && Open(earlier.sessions[s], earlier.identities, earlier.providers, earlier.config.headerEnabled)
  {
    hide Sound, Open, Apply, Run;
    RunKeeps(db, steps[..k]);
    assert steps[..k] + steps[k..] == steps;
    RunSplit(db, steps[..k], steps[k..]);
    OlderStill(Run(db, steps[..k]), steps[k..], s);
    SoundOpen(Run(db, steps[..k]), s);
  }

  lemma SoundOpen(db: Db, s: nat)
    requires Sound(db) && s in db.sessions && db.sessions[s].revokedAt.None?
    ensures Open(db.sessions[s], db.identities, db.providers, db.config.headerEnabled)
  {
    hide Open, SessionRows, IdentityRows, Distinct, ProviderRows, Defaulted, UserRows;
  }

  lemma {:induction false} RunSplit(db: Db, xs: seq<Step>, ys: seq<Step>)
    ensures Run(db, xs + ys) == Run(Run(db, xs), ys)
  {
    hide Apply;
    if ys == [] {
      assert xs + ys == xs;
    } else {
      var n := |ys| - 1;
      assert (xs + ys)[..|xs + ys| - 1] == xs + ys[..n];
      RunSplit(db, xs, ys[..n]);
    }
  }

  ghost predicate Older(a: Db, b: Db, s: nat) {
    && s < b.nextSession
    && (s in b.sessions && b.sessions[s].revokedAt.None? ==>
          && s in a.sessions && a.sessions[s].revokedAt.None?
          && a.sessions[s].user == b.sessions[s].user && a.sessions[s].auth == b.sessions[s].auth)
  }

  lemma StepOlder(db: Db, op: Op, s: nat, t: int)
    requires Sound(db) && s < db.nextSession
    ensures Older(db, Apply(db, op, t).0, s)
  {
    hide Sound;
    if Used(db, op, s, t) {
      UseIs(db, s, t);
    } else {
      ApplyAges(db, op, s, t);
      hide Apply;
    }
  }

  lemma {:induction false} OlderStill(db: Db, steps: seq<Step>, s: nat)
    requires Sound(db) && s < db.nextSession
    ensures Older(db, Run(db, steps), s)
  {
    hide Sound, Apply;
    if steps != [] {
      var n := |steps| - 1;
      OlderStill(db, steps[..n], s);
      RunKeeps(db, steps[..n]);
      StepOlder(Run(db, steps[..n]), steps[n].op, s, steps[n].t);
    }
  }

  // ---- pinned ----

  /** What a linked identity stands for: its own row, and its provider's pinned columns. */
  ghost predicate Pinned(a: Db, b: Db, i: nat) {
    && i < b.nextIdentity
    && (i in b.identities ==>
          && i in a.identities && b.identities[i] == a.identities[i]
          && (a.identities[i].provider.Some? ==>
                var p := a.identities[i].provider.value;
                p in a.providers && p in b.providers && SamePinned(a.providers[p], b.providers[p])))
  }

  /** Every provider that has an identity linked keeps its pinned columns. */
  ghost predicate KeepsPinned(a: Db, b: Db) {
    && a.nextIdentity <= b.nextIdentity
    && (forall i :: i in b.identities && i < a.nextIdentity ==> i in a.identities && b.identities[i] == a.identities[i])
    && (forall p :: p in a.providers && p in b.providers ==>
          LinkedThrough(a, p) == {} || SamePinned(a.providers[p], b.providers[p]))
  }

  lemma StepPinned(db: Db, op: Op, i: nat, t: int)
    requires Sound(db) && i < db.nextIdentity
    ensures Pinned(db, Apply(db, op, t).0, i)
  {
    var after := Apply(db, op, t).0;
    ApplyKeeps(db, op, t);
    ApplyKeepsPinned(db, op, t);
    hide Apply, WayIn, SessionRows, Distinct, ProviderRows, Defaulted, UserRows;
    if i in after.identities && db.identities[i].provider.Some? {
      assert i in LinkedThrough(db, db.identities[i].provider.value);
    }
  }

  /** Transactions on sessions and accounts leave the ways in alone. */
  lemma WaysUntouched(db: Db, op: Op, t: int)
    requires !Configures(op)
    ensures var after := Apply(db, op, t).0;
      && after.identities == db.identities && after.nextIdentity == db.nextIdentity
      && after.providers == db.providers && after.config == db.config
  {
    hide Live, Lookup, OfUser, RevokedRow, TouchedRow, Named, Prunable;
  }

  lemma SameKeepsPinned(a: Db, b: Db)
    requires b.identities == a.identities && b.nextIdentity >= a.nextIdentity && b.providers == a.providers
    ensures KeepsPinned(a, b)
  {}

  lemma ApplyKeepsPinned(db: Db, op: Op, t: int)
    requires Sound(db)
    ensures KeepsPinned(db, Apply(db, op, t).0)
  {
    if Configures(op) {
      hide Sound, KeepsPinned, AddProvider, ChangeProvider, CallbackLink, LinkHeader, Unlink;
      match op
      case OpAddProvider(draft, env) => AddKeepsPinned(db, draft, env, t);
      case OpChangeProvider(provider, patch, env) => ChangeKeepsPinned(db, provider, patch, env, t);
      case OpCallbackLink(_, _, _, _, _, _) => LinkKeepsPinned(db, op, t);
      case OpLinkHeader(_, _, _, _, _) => LinkKeepsPinned(db, op, t);
      case _ => CloseKeepsPinned(db, op, t);
    } else {
      WaysUntouched(db, op, t);
      hide *;
      SameKeepsPinned(db, Apply(db, op, t).0);
    }
  }

  lemma CloseKeepsPinned(db: Db, op: Op, t: int)
    requires op.OpUnlinkIdentity? || op.OpDeleteProvider? || op.OpDisableSso? || op.OpPutConfig?
    ensures KeepsPinned(db, Apply(db, op, t).0)
  {
    hide LinkedThrough, ThroughIdentities, ByMethod, RevokedRow;
  }

  lemma LinkKeepsPinned(db: Db, op: Op, t: int)
    requires op.OpCallbackLink? || op.OpLinkHeader?
    ensures KeepsPinned(db, Apply(db, op, t).0)
  {
    hide LinkedThrough, Taken, Live;
  }

  /** One row put, new or with its pinned columns kept while it is linked. */
  lemma OneRowKeepsPinned(a: Db, b: Db, own: nat)
    requires b.identities == a.identities && b.nextIdentity == a.nextIdentity
    requires own in b.providers && b.providers == a.providers[own := b.providers[own]]
    requires own in a.providers ==> LinkedThrough(a, own) == {} || SamePinned(a.providers[own], b.providers[own])
    ensures KeepsPinned(a, b)
  {
    hide LinkedThrough;
  }

  lemma ChangeKeepsPinned(db: Db, provider: nat, patch: Patch, env: Env, t: int)
    ensures KeepsPinned(db, ChangeProvider(db, provider, patch, env, t).0)
  {
    hide KeepsPinned, LinkedThrough, PatchedIssuer, Patched, PairTaken, KindFor, Switch;
    var after := ChangeProvider(db, provider, patch, env, t).0;
    SameKeepsPinned(db, db);
    if provider in db.providers && after != db {
      var row := Patched(db.providers[provider], patch, PatchedIssuer(db.providers[provider], patch, env).value);
      SwitchKeepsRow(UpdateProvider(db, provider, row).0, provider, patch.enabled, t);
      OneRowKeepsPinned(db, after, provider);
    }
  }

  /** Switching a provider on or off leaves its pinned columns and every other row. */
  lemma SwitchKeepsRow(db: Db, provider: nat, enabled: Option<bool>, t: int)
    requires provider in db.providers
    ensures var after := Switch(db, provider, enabled, t).0;
      && after.identities == db.identities && after.nextIdentity == db.nextIdentity
      && provider in after.providers && SamePinned(db.providers[provider], after.providers[provider])
      && after.providers == db.providers[provider := after.providers[provider]]
  {
    hide ThroughIdentities, LinkedThrough, Unrevoked;
  }

  lemma AddKeepsPinned(db: Db, draft: Draft, env: Env, t: int)
    requires Sound(db)
    ensures KeepsPinned(db, AddProvider(db, draft, env, t).0)
  {
    assert db.nextProvider !in db.providers;
    hide Sound, KeepsPinned, RouteIssuer, PairTaken, LinkedThrough, KindFor;
    var (after, outcome) := AddProvider(db, draft, env, t);
    if outcome.Refused? {
      SameKeepsPinned(db, after);
    } else {
      OneRowKeepsPinned(db, after, db.nextProvider);
    }
  }

  /** Over every run: while an identity lives, its row, and its provider's issuer, client
      id, kind and preset, are what they were. */
  lemma {:induction false} PinnedWhileLinked(db: Db, steps: seq<Step>, i: nat)
    requires Sound(db) && i < db.nextIdentity
    ensures Pinned(db, Run(db, steps), i)
  {
    hide Sound, Apply;
    if steps == [] {
      PinnedNow(db, i);
    } else {
      var n := |steps| - 1;
      PinnedWhileLinked(db, steps[..n], i);
      RunKeeps(db, steps[..n]);
      StepPinned(Run(db, steps[..n]), steps[n].op, i, steps[n].t);
    }
  }

  lemma PinnedNow(db: Db, i: nat)
    requires Sound(db) && i < db.nextIdentity
    ensures Pinned(db, db, i)
  {}

  // ---- the alerts are defaulted once ----

  ghost predicate AnyOn(db: Db) {
    exists p :: p in db.providers && db.providers[p].enabled
  }

  /** The alert switch after a settings form, which may leave it. */
  function FormSays(op: Op, alerts: bool): bool {
    if op.OpPutConfig? && op.alerts.Some? then op.alerts.value else alerts
  }

  /** And after all the forms of a run. */
  function FormsSay(steps: seq<Step>, alerts: bool): bool {
    if steps == [] then alerts
    else FormSays(steps[|steps| - 1].op, FormsSay(steps[..|steps| - 1], alerts))
  }

  /** The switch as the form leaves it, or set with the first provider that is on. */
  ghost predicate Moves(a: Db, b: Db, alerts: bool, t: int) {
    || (b.config.alertsDefaultedAt == a.config.alertsDefaultedAt && b.config.alerts == alerts)
    || (&& a.config.alertsDefaultedAt.None? && b.config.alertsDefaultedAt == Some(t)
        && b.config.alerts && AnyOn(b))
  }

  lemma EnableMoves(db: Db, provider: nat, t: int)
    requires provider in db.providers
    ensures Moves(db, Enable(db, provider, t), db.config.alerts, t)
  {
    var b := Enable(db, provider, t);
    assert provider in b.providers && b.providers[provider].enabled;
  }

  lemma ChangeMoves(db: Db, provider: nat, patch: Patch, env: Env, t: int)
    ensures Moves(db, ChangeProvider(db, provider, patch, env, t).0, db.config.alerts, t)
  {
    hide PatchedIssuer, Patched, PairTaken, ThroughIdentities, LinkedThrough, Unrevoked, KindFor, Enable, AnyOn;
    if provider in db.providers {
      var row := db.providers[provider];
      var issuer := PatchedIssuer(row, patch, env);
      if issuer.Some? {
        var updated := UpdateProvider(db, provider, Patched(row, patch, issuer.value)).0;
        EnableMoves(updated, provider, t);
      }
    }
  }

  lemma AddMoves(db: Db, draft: Draft, env: Env, t: int)
    ensures Moves(db, AddProvider(db, draft, env, t).0, db.config.alerts, t)
  {
    hide RouteIssuer, PairTaken, KindFor, Enable, AnyOn;
    var issuer := RouteIssuer(draft.preset, draft.issuer, draft.tenant, env.formed);
    if issuer.Some? {
      var row := Provider(draft.preset, KindFor(draft.preset), issuer.value, draft.clientId, draft.displayName, false);
      EnableMoves(db.(providers := db.providers[db.nextProvider := row], nextProvider := db.nextProvider + 1),
        db.nextProvider, t);
    }
  }

  lemma LinkMoves(db: Db, op: Op, t: int)
    requires op.OpCallbackLink? || op.OpLinkHeader?
    ensures Apply(db, op, t).0.config == db.config
  {
    hide LinkedThrough, Taken, Live;
  }

  lemma StepMoves(db: Db, op: Op, t: int)
    ensures Moves(db, Apply(db, op, t).0, FormSays(op, db.config.alerts), t)
  {
    if Configures(op) {
      hide AddProvider, ChangeProvider, CallbackLink, LinkHeader, ThroughIdentities, LinkedThrough, ByMethod,
        RevokedRow, AnyOn;
      match op
      case OpAddProvider(draft, env) => AddMoves(db, draft, env, t);
      case OpChangeProvider(provider, patch, env) => ChangeMoves(db, provider, patch, env, t);
      case OpCallbackLink(_, _, _, _, _, _) => LinkMoves(db, op, t);
      case OpLinkHeader(_, _, _, _, _) => LinkMoves(db, op, t);
      case _ =>
    } else {
      WaysUntouched(db, op, t);
      hide Apply, AnyOn;
    }
  }

  /** One transaction: the first provider that is on sets the switch, else the form alone does. */
  lemma StepDefaulted(db: Db, op: Op, t: int)
    requires Sound(db)
    ensures var a, b := db.config, Apply(db, op, t).0.config;
      if a.alertsDefaultedAt.None? && AnyOn(Apply(db, op, t).0)
      then b.alertsDefaultedAt == Some(t) && b.alerts
      else b.alertsDefaultedAt == a.alertsDefaultedAt && b.alerts == FormSays(op, a.alerts)
  {
    ApplyKeeps(db, op, t);
    StepMoves(db, op, t);
    hide Apply, WayIn, SessionRows, IdentityRows, Distinct, ProviderRows, UserRows;
  }

  /** Once the switch was set, the forms alone decide it. */
  lemma {:induction false} FormsDecide(db: Db, steps: seq<Step>)
    requires Sound(db) && db.config.alertsDefaultedAt.Some?
    ensures Run(db, steps).config.alertsDefaultedAt == db.config.alertsDefaultedAt
    ensures Run(db, steps).config.alerts == FormsSay(steps, db.config.alerts)
  {
    hide Sound, Apply, FormSays, AnyOn;
    if steps != [] {
      var n := |steps| - 1;
      FormsDecide(db, steps[..n]);
      RunKeeps(db, steps[..n]);
      StepDefaulted(Run(db, steps[..n]), steps[n].op, steps[n].t);
    }
  }

  ghost predicate NoneOn(db: Db, steps: seq<Step>) {
    forall k :: 0 <= k <= |steps| ==> !AnyOn(Run(db, steps[..k]))
  }

  /** The step with which the first provider ever goes on. */
  ghost predicate FirstOn(db: Db, steps: seq<Step>, k: nat) {
    k < |steps| && NoneOn(db, steps[..k]) && AnyOn(Run(db, steps[..k + 1]))
  }

  /** And before any provider was on. */
  lemma {:induction false} FormsDecideFirst(db: Db, steps: seq<Step>)
    requires Sound(db) && db.config.alertsDefaultedAt.None? && NoneOn(db, steps)
    ensures Run(db, steps).config.alertsDefaultedAt.None?
    ensures Run(db, steps).config.alerts == FormsSay(steps, db.config.alerts)
  {
    hide Sound, Apply, FormSays, AnyOn;
    if steps != [] {
      var n := |steps| - 1;
      assert forall k :: 0 <= k <= n ==> steps[..n][..k] == steps[..k];
      assert steps[..|steps|] == steps;
      FormsDecideFirst(db, steps[..n]);
      RunKeeps(db, steps[..n]);
      StepDefaulted(Run(db, steps[..n]), steps[n].op, steps[n].t);
    }
  }

  /** Over every run: the first provider ever to go on switches the alerts on, at its time
      and never again; before and after, the settings forms alone decide them. */
  lemma {:induction false} AlertsDefaultedOnce(db: Db, steps: seq<Step>, k: nat)
    requires Sound(db) && db.config.alertsDefaultedAt.None?
    ensures var config := Run(db, steps).config;
      && (NoneOn(db, steps) ==>
            config.alertsDefaultedAt == None && config.alerts == FormsSay(steps, db.config.alerts))
      && (FirstOn(db, steps, k) ==>
            config.alertsDefaultedAt == Some(steps[k].t) && config.alerts == FormsSay(steps[k + 1..], true))
  {
    hide Sound, Apply, FormsSay, AnyOn, NoneOn;
    if NoneOn(db, steps) {
      FormsDecideFirst(db, steps);
    }
    if FirstOn(db, steps, k) {
      FormsDecideFirst(db, steps[..k]);
      RunKeeps(db, steps[..k]);
      RunKeeps(db, steps[..k + 1]);
      assert steps[..k + 1][..k] == steps[..k];
      StepDefaulted(Run(db, steps[..k]), steps[k].op, steps[k].t);
      assert steps == steps[..k + 1] + steps[k + 1..];
      RunSplit(db, steps[..k + 1], steps[k + 1..]);
      FormsDecide(Run(db, steps[..k + 1]), steps[k + 1..]);
    }
  }

  /** A run has such a step or none ever on. */
  lemma {:induction false} FirstOnOrNone(db: Db, steps: seq<Step>)
    requires !AnyOn(db)
    ensures NoneOn(db, steps) || exists k: nat :: FirstOn(db, steps, k)
  {
    hide Apply, AnyOn;
    if steps != [] {
      var n := |steps| - 1;
      FirstOnOrNone(db, steps[..n]);
      assert forall k :: 0 <= k <= n ==> steps[..n][..k] == steps[..k];
      assert steps[..|steps|] == steps;
      if NoneOn(db, steps[..n]) {
        if AnyOn(Run(db, steps)) {
          assert FirstOn(db, steps, n);
        }
      } else {
        var k: nat :| FirstOn(db, steps[..n], k);
        assert steps[..n][..k] == steps[..k] && steps[..n][..k + 1] == steps[..k + 1];
        assert FirstOn(db, steps, k);
      }
    }
  }
}
