/** What each transaction of the sign-in machine answers and does, in terms of the rows:
    accounts.py, lines 148-479, and routers/sso.py, lines 168-248 and 403-500. */
module SignInAnswers {
  import opened Common
  import opened SignIn
  import opened WaysIn

  // ---- signing in ----

  ghost predicate Active(db: Db, user: nat) {
    user in db.users && db.users[user].active
  }

  /** Some identity row has this subject and an account that is switched on. */
  ghost predicate MayEnter(db: Db, provider: Option<nat>, issuer: string, subject: string) {
    exists i :: i in db.identities && Names(db.identities[i], provider, issuer, subject)
      && Active(db, db.identities[i].user)
  }

  ghost predicate Names(row: Identity, provider: Option<nat>, issuer: string, subject: string) {
    row.provider == provider && row.issuer == issuer && row.subject == subject
  }

  ghost predicate EnabledAt(db: Db, provider: nat) {
    provider in db.providers && db.providers[provider].enabled
  }

  /** The right password lets in exactly an account that exists and is switched on. */
  lemma {:induction false} PasswordAnswers(db: Db, user: nat, presented: Option<nat>, t: int)
    ensures var (after, outcome) := PasswordSignIn(db, user, presented, t);
      && (outcome.Started? <==> Active(db, user))
      && (!outcome.Started? ==> outcome == Refused(WrongPassword) && after == db)
  {}

  /** There is one row of a subject at a provider, or none, and the lookup finds it. */
  lemma LookupAnswers(db: Db, provider: Option<nat>, issuer: string, subject: string)
    requires Sound(db)
    ensures var found := Lookup(db, provider, issuer, subject);
      && (found.Some? <==> exists i :: i in db.identities && Names(db.identities[i], provider, issuer, subject))
      && (MayEnter(db, provider, issuer, subject) <==> found.Some? && Active(db, db.identities[found.value].user))
  {
    hide WayIn, SessionRows, ProviderRows, Defaulted, UserRows;
    var found := Lookup(db, provider, issuer, subject);
    forall i | i in db.identities && Names(db.identities[i], provider, issuer, subject)
      ensures found == Some(i)
    {
      assert Named(provider, issuer, subject)(db.identities[i]);
      assert Clash(db.identities[i], db.identities[found.value]);
    }
  }

  /** A callback lets in exactly a subject linked at an enabled provider to an account that is
      switched on. */
  lemma {:induction false} CallbackAnswers(db: Db, provider: nat, subject: string, presented: Option<nat>, t: int)
    requires Sound(db)
    ensures var (after, outcome) := CallbackSignIn(db, provider, subject, presented, t);
      && (outcome.Started? <==>
            EnabledAt(db, provider) && MayEnter(db, Some(provider), db.providers[provider].issuer, subject))
      && (!outcome.Started? ==> after == db)
      && (!outcome.Started? ==> outcome == Refused(if EnabledAt(db, provider) then Unlinked else Disabled))
  {
    hide Sound, MayEnter, Lookup, StartExternal;
    if EnabledAt(db, provider) {
      LookupAnswers(db, Some(provider), db.providers[provider].issuer, subject);
    }
  }

  /** The header lets in exactly a linked subject's active account, and only where it is
      configured and switched on. */
  lemma {:induction false} HeaderAnswers(
      db: Db, configured: bool, issuer: string, subject: string, presented: Option<nat>, t: int)
    requires Sound(db)
    ensures var (after, outcome) := TrustedSignIn(db, configured, issuer, subject, presented, t);
      && (outcome.Started? <==> configured && db.config.headerEnabled && MayEnter(db, None, issuer, subject))
      && (!outcome.Started? ==> after == db)
      && (!outcome.Started? ==>
            outcome == Refused(if configured && db.config.headerEnabled then Unlinked else NotFound))
  {
    hide Sound, MayEnter, Lookup, StartExternal;
    LookupAnswers(db, None, issuer, subject);
  }

  // ---- linking ----

  /** Neither the subject nor the account's place at the provider has a row yet. */
  ghost predicate Free(db: Db, user: nat, provider: Option<nat>, issuer: string, subject: string) {
    forall i :: i in db.identities && db.identities[i].provider == provider ==>
      db.identities[i].user != user && (db.identities[i].issuer != issuer || db.identities[i].subject != subject)
  }

  /** One new identity row and nothing else. */
  ghost predicate Links(a: Db, b: Db, identity: nat, row: Identity) {
    identity !in a.identities && b == a.(identities := a.identities[identity := row], nextIdentity := b.nextIdentity)
  }

  lemma LinkAnswers(db: Db, user: nat, provider: Option<nat>, issuer: string, subject: string)
    requires Sound(db)
    ensures var (after, outcome) := LinkIdentity(db, user, provider, issuer, subject);
      && (outcome.Linked? <==> Free(db, user, provider, issuer, subject))
      && (outcome.Linked? ==> Links(db, after, outcome.identity, Identity(user, provider, issuer, subject)))
      && (!outcome.Linked? ==> outcome == Refused(AlreadyLinked) && after == db)
  {
    hide WayIn, SessionRows, ProviderRows, Defaulted, UserRows, Distinct;
    if Free(db, user, provider, issuer, subject) {
      assert Lookup(db, provider, issuer, subject).None?;
    }
    forall i | i in db.identities && db.identities[i].provider == provider
      ensures !Taken(db, user, provider, issuer, subject) ==>
        db.identities[i].user != user && (db.identities[i].issuer != issuer || db.identities[i].subject != subject)
    {
      assert Named(provider, issuer, subject)(db.identities[i])
        <==> db.identities[i].issuer == issuer && db.identities[i].subject == subject;
      assert Of(user, provider)(db.identities[i]) <==> db.identities[i].user == user;
    }
  }

  /** A callback links exactly for the live session its flow began in, recently confirmed, at an
      enabled provider, a fit subject where both places are free. */
  lemma {:induction false} CallbackLinkAnswers(
      db: Db, provider: nat, subject: string, presented: Option<nat>, flow: Option<nat>,
      recent: bool, fit: bool, t: int)
    requires Sound(db)
    ensures var (after, outcome) := CallbackLink(db, provider, subject, presented, flow, recent, fit, t);
      var bound := presented.Some? && Live(db, presented.value, t) && flow == presented;
      && (outcome.Linked? <==>
            && EnabledAt(db, provider) && bound && recent && fit
            && Free(db, db.sessions[presented.value].user, Some(provider), db.providers[provider].issuer, subject))
      && (outcome.Linked? ==>
            Links(db, after, outcome.identity, Identity(
              db.sessions[presented.value].user, Some(provider), db.providers[provider].issuer, subject)))
      && (!outcome.Linked? ==> after == db && outcome == Refused(
            if !EnabledAt(db, provider) then Disabled
            else if !bound then NoSession
            else if !recent then NotFresh
            else if !fit then UnfitSubject
            else AlreadyLinked))
  {
    hide Sound, Live, LinkIdentity, Free, Links;
    if EnabledAt(db, provider) && presented.Some? && Live(db, presented.value, t) {
      LiveHasRow(db, presented.value, t);
      LinkAnswers(db, db.sessions[presented.value].user, Some(provider), db.providers[provider].issuer, subject);
    }
  }

  lemma LiveHasRow(db: Db, s: nat, t: int)
    requires Live(db, s, t)
    ensures s in db.sessions && db.sessions[s].user in db.users
  {}

  lemma {:induction false} HeaderLinkAnswers(
      db: Db, configured: bool, session: nat, issuer: string, subject: string, fit: bool, t: int)
    requires Sound(db)
    ensures var (after, outcome) := LinkHeader(db, configured, session, issuer, subject, fit, t);
      var on := configured && db.config.headerEnabled;
      && (outcome.Linked? <==>
            Live(db, session, t) && on && fit && Free(db, db.sessions[session].user, None, issuer, subject))
      && (outcome.Linked? ==>
            Links(db, after, outcome.identity, Identity(db.sessions[session].user, None, issuer, subject)))
      && (!outcome.Linked? ==> after == db && outcome == Refused(
            if !Live(db, session, t) then NoSession else if !on then NotFound
            else if !fit then UnfitSubject else AlreadyLinked))
  {
    hide Sound, Live, LinkIdentity, Free, Links;
    if Live(db, session, t) {
      LiveHasRow(db, session, t);
      LinkAnswers(db, db.sessions[session].user, None, issuer, subject);
    }
  }

  // ---- confirming ----

  /** Only the row's recent-confirmation window moves. */
  ghost predicate Confirms(a: Db, b: Db, s: nat, t: int) {
    && s in a.sessions
    && b == a.(sessions := a.sessions[s := a.sessions[s].(confirmedUntil := Some(t + 300_000))])
  }

  /** A callback confirms exactly the live single sign-on session its flow began in, by the
      subject that session came in through. */
  lemma {:induction false} CallbackConfirmAnswers(
      db: Db, provider: nat, subject: string, presented: Option<nat>, flow: Option<nat>, t: int)
    requires Sound(db)
    ensures var (after, outcome) := CallbackConfirm(db, provider, subject, presented, flow, t);
      var bound := presented.Some? && Live(db, presented.value, t) && flow == presented;
      && (outcome.Done? <==>
            EnabledAt(db, provider) && bound
            && CameThrough(db, presented.value, Some(provider), db.providers[provider].issuer, subject))
      && (outcome.Done? ==> Confirms(db, after, presented.value, t))
      && (!outcome.Done? ==> after == db && outcome == Refused(
            if !EnabledAt(db, provider) then Disabled else if !bound then NoSession else OtherIdentity))
  {
    hide IdentityRows, ProviderRows, Distinct, Defaulted, UserRows;
  }

  // ---- a session's own ----

  /** The row ended and the rest as it was. */
  ghost predicate EndsOne(a: Db, b: Db, s: nat, t: int) {
    && s in a.sessions
    && b == a.(sessions := a.sessions[s := a.sessions[s].(revokedAt := Some(t), confirmedUntil := None)])
  }

  /** Only the time last seen moves, and only once it is a minute old. */
  ghost predicate Touches(a: Db, b: Db, s: nat, t: int) {
    && s in a.sessions
    && b == a.(sessions := a.sessions[s := a.sessions[s].(
         lastSeenAt := if t - a.sessions[s].lastSeenAt >= 60_000 then t else a.sessions[s].lastSeenAt)])
  }

  /** A live session is used, confirmed and signed out, and its account may end it; no other is. */
  lemma {:induction false} OwnAnswers(db: Db, user: nat, s: nat, t: int)
    ensures var live := Live(db, s, t);
      var (used, use) := Use(db, s, t);
      var (confirmed, confirm) := Confirm(db, s, t);
      var (out, signOut) := SignOut(db, s, t);
      var (ended, end) := EndSession(db, user, s, t);
      && (if live then use.Done? && Touches(db, used, s, t) else use == Refused(NoSession) && used == db)
      && (if live then confirm.Done? && Confirms(db, confirmed, s, t)
          else confirm == Refused(NoSession) && confirmed == db)
      && (if live then signOut.Done? && EndsOne(db, out, s, t) else signOut == Refused(NoSession) && out == db)
      && (if live && db.sessions[s].user == user then end.Done? && EndsOne(db, ended, s, t)
          else end == Refused(NotFound) && ended == db)
  {}

  /** Every session of the account that had not ended ends now; the rest are as they were. */
  ghost predicate EndsAllOf(a: Db, b: Db, user: nat, t: int) {
    && (forall s :: s in a.sessions ==> s in b.sessions)
    && forall s :: s in a.sessions ==>
      b.sessions[s] ==
        if a.sessions[s].user == user && a.sessions[s].revokedAt.None?
        then a.sessions[s].(revokedAt := Some(t), confirmedUntil := None) else a.sessions[s]
  }

  /** The right password changes it from a live session: every session of the account ends and one
      new one starts. */
  lemma {:induction false} ChangePasswordAnswers(db: Db, s: nat, t: int)
    requires Sound(db)
    ensures var (after, outcome) := ChangePassword(db, s, t);
      && (outcome.Started? <==> Live(db, s, t))
      && (!outcome.Started? ==> outcome == Refused(NoSession) && after == db)
      && (outcome.Started? ==>
            && EndsAllOf(db, after, db.sessions[s].user, t) && outcome.session !in db.sessions
            && after.sessions.Keys == db.sessions.Keys + {outcome.session}
            && Live(after, outcome.session, t) && after.sessions[outcome.session].user == db.sessions[s].user
            && after == db.(sessions := after.sessions, nextSession := after.nextSession))
  {
    hide WayIn, IdentityRows, ProviderRows, Distinct, Defaulted;
  }

  /** The reset switches the claimed account on and ends its every session. */
  lemma {:induction false} ResetPasswordAnswers(db: Db, t: int)
    requires Sound(db)
    ensures var (after, outcome) := ResetPassword(db, t);
      && (outcome.Done? <==> db.claim.Some?)
      && (!outcome.Done? ==> outcome == Refused(NotClaimed) && after == db)
      && (outcome.Done? ==>
            && EndsAllOf(db, after, db.claim.value, t) && after.sessions.Keys == db.sessions.Keys
            && after == db.(sessions := after.sessions, users := after.users) && db.claim.value in db.users
            && after.users == db.users[db.claim.value := db.users[db.claim.value].(active := true)])
  {
    hide WayIn, IdentityRows, ProviderRows, Distinct, Defaulted;
  }

  /** The first account is made exactly where none was claimed, switched on and signed in. */
  lemma {:induction false} CreateAdminAnswers(db: Db, t: int)
    requires Sound(db)
    ensures var (after, outcome) := CreateAdmin(db, t);
      && (outcome.Started? <==> db.claim.None?)
      && (!outcome.Started? ==> outcome == Refused(AlreadyClaimed) && after == db)
      && (outcome.Started? ==>
            && after.claim.Some? && after.claim.value !in db.users
            && after.users == db.users[after.claim.value := User(true, Some(t))]
            && outcome.session !in db.sessions && Live(after, outcome.session, t)
            && after.sessions == db.sessions[outcome.session := Session(
                 after.claim.value, Password, None, t, t + 604_800_000, None, None)])
  {
    hide WayIn, IdentityRows, ProviderRows, Distinct, Defaulted;
  }

  /** Pruning keeps exactly the rows not ended that were in their time a moment before. */
  lemma {:induction false} PruneAnswers(db: Db, t: int)
    ensures var (after, outcome) := Prune(db, t);
      && after == db.(sessions := after.sessions)
      && (forall s :: s in after.sessions <==> s in db.sessions && LiveRow(db.sessions[s], true, t - 1))
      && (forall s :: s in after.sessions ==> after.sessions[s] == db.sessions[s])
  {}
}
