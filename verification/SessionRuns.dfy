/** A session's past tells whether it works: what the gate answers over whole runs. */
module SessionRuns {
  import opened Common
  import opened SignIn
  import opened WaysIn
  import opened SessionLife

  // ---- what happened to a session ----

  datatype Past = Past(made: int, used: int, ended: bool)

  /** When the session of this id was made and last used, and whether it was ever ended. */
  ghost function PastOf(db: Db, steps: seq<Step>, s: nat): Option<Past> {
    if steps == [] then None
    else
      var n := |steps| - 1;
      var before := Run(db, steps[..n]);
      After(before, steps[n].op, steps[n].t, s, PastOf(db, steps[..n], s))
  }

  ghost function After(before: Db, op: Op, t: int, s: nat, past: Option<Past>): Option<Past> {
    var after := Apply(before, op, t).0;
    if past.None? then (if s in after.sessions then Some(Past(t, t, false)) else None)
    else Some(Past(
      past.value.made,
      if Used(before, op, s, t) then t else past.value.used,
      past.value.ended || (s in after.sessions && after.sessions[s].revokedAt.Some?)))
  }

  /** The table agrees with the past: the time last seen is less than a minute behind the
      last use, and a row goes only when it was ended or its time was up. */
  ghost predicate Agrees(db: Db, s: nat, past: Option<Past>, now: int) {
    match past
    case None => s !in db.sessions
    case Some(p) =>
      && s < db.nextSession && p.made <= p.used <= now
      && (s in db.sessions ==>
            && db.sessions[s].expiresAt == p.made + LIFETIME
            && db.sessions[s].lastSeenAt <= p.used < db.sessions[s].lastSeenAt + MINUTE
            && (db.sessions[s].revokedAt.Some? <==> p.ended))
      && (s !in db.sessions && !p.ended ==> p.made + LIFETIME < now || p.used + IDLE - MINUTE < now)
  }

  /** A session is made live, unrevoked, and with the next id. */
  ghost predicate Newborn(db: Db, after: Db, s: nat, t: int) {
    s in after.sessions && s !in db.sessions ==>
      && db.nextSession <= s < after.nextSession
      && after.sessions[s].expiresAt == t + LIFETIME
      && after.sessions[s].lastSeenAt == t
      && after.sessions[s].revokedAt.None?
  }

  ghost predicate KeptRow(db: Db, after: Db, s: nat) {
    s in db.sessions ==> s in after.sessions
  }

  /** Only pruning drops a row; only a sign-in or a password change makes one. */
  lemma ApplyNewborn(db: Db, op: Op, s: nat, t: int)
    requires Sound(db)
    ensures Newborn(db, Apply(db, op, t).0, s, t)
    ensures !op.OpPrune? ==> KeptRow(db, Apply(db, op, t).0, s)
  {
    hide Sound, ExternalSignIn, PasswordSignIn, LinkIdentity, Unlink, DeleteProvider, DisableSso, CreateAdmin,
      PutConfig, AddProvider, ChangeProvider, ChangePassword, ResetPassword, LiveRow, Live;
    if s < db.nextSession {
      OldNotNew(db, op, s, t);
    }
    match op
    case OpCreateAdmin => OwnNewborn(db, op, s, t);
    case OpPasswordSignIn(_, _) => OwnNewborn(db, op, s, t);
    case OpCallbackSignIn(provider, subject, presented) =>
      if provider in db.providers {
        ExternalNewborn(db, Lookup(db, Some(provider), db.providers[provider].issuer, subject), Oidc, presented, s, t);
      }
    case OpTrustedSignIn(_, issuer, subject, presented) =>
      ExternalNewborn(db, Lookup(db, None, issuer, subject), TrustedHeader, presented, s, t);
    case OpCallbackLink(_, _, _, _, _, _) => QuietNewborn(db, op, s, t);
    case OpLinkHeader(_, _, _, _, _) => QuietNewborn(db, op, s, t);
    case OpUse(_) => QuietNewborn(db, op, s, t);
    case OpConfirm(_) => QuietNewborn(db, op, s, t);
    case OpCallbackConfirm(_, _, _, _) => QuietNewborn(db, op, s, t);
    case OpSignOut(_) => QuietNewborn(db, op, s, t);
    case OpEndSession(_, _) => QuietNewborn(db, op, s, t);
    case OpEndAll(_) =>
    case OpChangePassword(_) => OwnNewborn(db, op, s, t);
    case OpResetPassword => ClosingNewborn(db, op, s, t);
    case OpPrune =>
    case OpUnlinkIdentity(_, _) => ClosingNewborn(db, op, s, t);
    case OpDeleteProvider(_) => ClosingNewborn(db, op, s, t);
    case OpDisableSso => ClosingNewborn(db, op, s, t);
    case OpPutConfig(_, _) => ClosingNewborn(db, op, s, t);
    case OpAddProvider(draft, env) => AddProviderElsewhere(db, draft, env, t);
    case OpChangeProvider(_, _, _) => ClosingNewborn(db, op, s, t);
  }

  lemma OldNotNew(db: Db, op: Op, s: nat, t: int)
    requires Sound(db) && s < db.nextSession
    ensures s in Apply(db, op, t).0.sessions ==> s in db.sessions
  {
    hide Sound;
    if !Used(db, op, s, t) {
      hide Apply;
      ApplyAges(db, op, s, t);
    }
  }

  lemma OwnNewborn(db: Db, op: Op, s: nat, t: int)
    requires op.OpCreateAdmin? || op.OpPasswordSignIn? || op.OpChangePassword?
    ensures s >= db.nextSession ==> Newborn(db, Apply(db, op, t).0, s, t)
    ensures KeptRow(db, Apply(db, op, t).0, s)
  {
    hide OfUser, LiveRow;
  }

  lemma ExternalNewborn(db: Db, found: Option<nat>, auth: Method, presented: Option<nat>, s: nat, t: int)
    requires found.Some? ==> found.value in db.identities
    ensures s >= db.nextSession ==> Newborn(db, ExternalSignIn(db, found, auth, presented, t).0, s, t)
    ensures KeptRow(db, ExternalSignIn(db, found, auth, presented, t).0, s)
  {
    hide LiveRow;
  }

  lemma QuietNewborn(db: Db, op: Op, s: nat, t: int)
    requires op.OpCallbackLink? || op.OpLinkHeader? || op.OpUse? || op.OpConfirm? || op.OpCallbackConfirm?
          || op.OpSignOut? || op.OpEndSession?
    ensures Newborn(db, Apply(db, op, t).0, s, t)
    ensures KeptRow(db, Apply(db, op, t).0, s)
  {
    hide Taken, LiveRow, TouchedRow, Named;
  }

  lemma ClosingNewborn(db: Db, op: Op, s: nat, t: int)
    requires op.OpResetPassword? || op.OpUnlinkIdentity? || op.OpDeleteProvider? || op.OpDisableSso?
      || op.OpPutConfig? || op.OpChangeProvider?
    ensures Newborn(db, Apply(db, op, t).0, s, t)
    ensures KeptRow(db, Apply(db, op, t).0, s)
  {
    hide PatchedIssuer, Patched, PairTaken, OfUser, ThroughIdentities, LinkedThrough, ByMethod, AllOff;
  }

  lemma StepAgrees(db: Db, op: Op, s: nat, past: Option<Past>, now: int, t: int)
    requires Sound(db) && Agrees(db, s, past, now) && now <= t
    ensures Agrees(Apply(db, op, t).0, s, After(db, op, t, s, past), t)
  {
    hide Sound;
    ApplyNewborn(db, op, s, t);
    if past.Some? {
      if Used(db, op, s, t) {
        UseIs(db, s, t);
      } else {
        ApplyAges(db, op, s, t);
        var after := Apply(db, op, t).0;
        if s in db.sessions && s !in after.sessions {
          assert Prunable(db.sessions[s], t);
        }
        hide Apply;
      }
    } else {
      hide Apply;
    }
  }

  lemma LaterAgrees(db: Db, s: nat, past: Option<Past>, now: int, later: int)
    requires Agrees(db, s, past, now) && now <= later
    ensures Agrees(db, s, past, later)
  {}

  lemma {:induction false} RunAgrees(db: Db, steps: seq<Step>, s: nat, start: int, end: int)
    requires Sound(db) && s !in db.sessions && InTime(steps, start, end)
    ensures Agrees(Run(db, steps), s, PastOf(db, steps, s), end)
  {
    hide Sound, Apply, Agrees, After;
    if steps == [] {
      UnmadeAgrees(db, s, end);
    } else {
      var n := |steps| - 1;
      RunAgrees(db, steps[..n], s, start, steps[n].t);
      RunKeeps(db, steps[..n]);
      StepAgrees(Run(db, steps[..n]), steps[n].op, s, PastOf(db, steps[..n], s), steps[n].t, steps[n].t);
      LaterAgrees(Run(db, steps), s, PastOf(db, steps, s), steps[n].t, end);
    }
  }

  lemma UnmadeAgrees(db: Db, s: nat, now: int)
    requires s !in db.sessions
    ensures Agrees(db, s, None, now)
  {}

  /** A session made in the run, never ended and of an active account works from its last
      use for a day less a minute, within its seven days; a day after its last use, after
      seven days, or once ended, it does not. */
  lemma {:induction false} WorksWhileUsed(db: Db, steps: seq<Step>, s: nat, start: int, end: int)
    requires Sound(db) && s !in db.sessions && InTime(steps, start, end)
    requires PastOf(db, steps, s).Some?
    ensures var past, after := PastOf(db, steps, s).value, Run(db, steps);
      && (!past.ended && end < past.made + 604_800_000 && end <= past.used + 86_340_000 ==>
            s in after.sessions && (Live(after, s, end) <==> Active(after, after.sessions[s].user)))
      && (past.ended || end >= past.made + 604_800_000 || end >= past.used + 86_400_000 ==> !Live(after, s, end))
  {
    hide Sound, Apply, After, Run, PastOf;
    RunAgrees(db, steps, s, start, end);
  }
}
