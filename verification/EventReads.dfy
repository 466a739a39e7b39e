/** The parts of an event that come from an earlier read: exactly when they are still true,
    in every interleaving. */
module EventReads {
  import opened Core
  import opened Database
  import opened Rows
  import opened Transactions
  import opened Calls
  import opened World
  import opened Versions
  import opened Locking
  import opened Writes
  import opened Moments
  import opened ResetHistory
  import opened EventTruth
  import Users
  import Credentials
  import Resets
  import Sessions
  import Outbox

  /** The credentials a commit changed. */
  function ChangedCredentials(t: Credentials.Table, t': Credentials.Table): set<Atom> {
    set id | id in t && id in t' && t'[id] != t[id]
  }

  /** A password event names the owner of the one password changed and of every session
      revoked. */
  predicate OwnPassword(db: Db, user: Atom, after: Db) {
    && (exists id :: id in db.credentials && db.credentials[id].userId == user
                     && ChangedCredentials(db.credentials, after.credentials) == {id})
    && (forall id :: id in NewlyRevoked(db.sessions, after.sessions) ==> db.sessions[id].userId == user)
  }

  /** The one reset token used up was issued to the user, for this reason. */
  predicate IssuedFor(db: Db, user: Atom, reason: Atom, after: Db) {
    exists id :: id in db.resets && NewlyUsed(db.resets, after.resets) == {id}
                 && db.resets[id].userId == user && db.resets[id].reason == reason
  }

  /** What an event says beyond what its own commit decides: the status before, the whole
      user shown, the owner, the tenant. */
  predicate ReadsTrue(db: Db, e: Outbox.Event, after: Db) {
    match e
    case UserStatusChanged(user, previous, _, _) => user in db.users && db.users[user].status == previous
    case UserProfileUpdated(user, shown, _) => user in after.users && Users.PublicOf(after.users[user]) == shown
    case PasswordChanged(user, _, kind, reason) =>
      && OwnPassword(db, user, after)
      && (kind.AdministrativeRecovery? ==> IssuedFor(db, user, reason, after))
    case SessionRevoked(session, user, tenant, _) =>
      session in after.sessions && after.sessions[session].userId == user && after.sessions[session].tenant == tenant
    case AccountStatusChanged(account, was, _) =>
      was.Some? ==> account in db.accounts && db.accounts[account].status == was.value
    case _ => true
  }

  predicate RevokesOne(tx: Tx) {
    tx.Logout? || tx.RevokeOwn? || tx.RevokeAny?
  }

  /** The row a transaction's event quotes. */
  function QuotedKey(tx: Tx): Option<Key> {
    if tx.SetUserStatus? || tx.UpdateProfile? then Some(UserKey(tx.user))
    else if RevokesOne(tx) then Some(SessionKey(tx.session))
    else if tx.SetAccountStatus? then Some(AccountKey(tx.account))
    else None
  }

  /** The row stood in this database as the transaction quotes it. */
  predicate Quotes(db: Db, tx: Tx) {
    && (tx.SetUserStatus? ==> tx.user in db.users && db.users[tx.user].status == tx.was)
    && (tx.UpdateProfile? ==> tx.user in db.users && db.users[tx.user] == tx.seen)
    && (RevokesOne(tx) ==>
          && tx.session in db.sessions
          && db.sessions[tx.session].userId == tx.user && db.sessions[tx.session].tenant == tx.tenant)
    && (tx.SetAccountStatus? ==> tx.account in db.accounts && db.accounts[tx.account].status == tx.was)
  }

  predicate Agrees<T(==)>(written: Option<T>, quoted: T) {
    written.None? || written.value == quoted
  }

  /** Nothing written since the read contradicts the quotation: the last status change of
      that user or account in between, or the last tenant that session was scoped to in
      between, if there is one, wrote what is quoted. */
  predicate Stands(tx: Tx, since: seq<Tx>) {
    && (tx.SetUserStatus? ==> Agrees(Last(StatusWrite(tx.user), since), tx.was))
    && (tx.UpdateProfile? ==> Agrees(Last(StatusWrite(tx.user), since), tx.seen.status))
    && (RevokesOne(tx) ==> Agrees(Last(ScopeWrite(tx.session), since), tx.tenant))
    && (tx.SetAccountStatus? ==> Agrees(Last(AccountWrite(tx.account), since), tx.was))
  }

  /** The event of each transaction that quotes a row. */
  predicate QuotingEvent(tx: Tx, e: Outbox.Event) {
    && (tx.SetUserStatus? <==> e.UserStatusChanged?)
    && (tx.SetUserStatus? ==> e.user == tx.user && e.previous == tx.was)
    && (tx.UpdateProfile? <==> e.UserProfileUpdated?)
    && (tx.UpdateProfile? ==>
          e.user == tx.user && e.shown == ShownAfter(tx.seen, tx.profile, tx.actor, tx.version, tx.now))
    && (RevokesOne(tx) <==> e.SessionRevoked?)
    && (RevokesOne(tx) ==> e.session == tx.session && e.user == tx.user && e.tenant == tx.tenant)
    && (tx.SetAccountStatus? <==> e.AccountStatusChanged? && e.was.Some?)
    && (tx.SetAccountStatus? ==> e.account == tx.account && e.was == Some(tx.was))
    && (tx.ChangePassword? || tx.ConfirmReset? <==> e.PasswordChanged?)
    && (tx.ChangePassword? || tx.ConfirmReset? ==>
          e.user == tx.user && (e.kind.AdministrativeRecovery? <==> tx.ConfirmReset?))
    && (tx.ConfirmReset? ==> e.reason == tx.reason)
  }

  lemma QuotingEvents(tx: Tx, revoked: nat)
    ensures var p := PlanOf(tx); p.event.Some? ==> QuotingEvent(tx, Outbox.Written(p.event.value, revoked))
  {
  }

  // One kind of transaction at a time: `w` is the moment of the read, `w'` that of the commit.

  lemma StatusExactly(w: World, w': World, tx: Tx, e: Outbox.Event, after: Db)
    requires tx.SetUserStatus? && QuotingEvent(tx, e) && Quotes(w.db, tx) && UserSince(w, w', tx.user)
    ensures ReadsTrue(w'.db, e, after) <==> Stands(tx, Since(w, w'))
  {
  }

  lemma AccountExactly(w: World, w': World, tx: Tx, e: Outbox.Event, after: Db)
    requires tx.SetAccountStatus? && QuotingEvent(tx, e) && Quotes(w.db, tx) && AccountSince(w, w', tx.account)
    ensures ReadsTrue(w'.db, e, after) <==> Stands(tx, Since(w, w'))
  {
  }

  lemma ProfileEffect(db: Db, tx: Tx, after: Db)
    requires tx.UpdateProfile? && UsersEffect(db, PlanOf(tx), after)
    ensures tx.user in db.users && db.users[tx.user].audit.version == tx.version
    ensures after.users == db.users[tx.user :=
      db.users[tx.user].(profile := tx.profile, audit := db.users[tx.user].audit.Touched(tx.actor, tx.now))]
  {
  }

  lemma ProfileExactly(w: World, w': World, tx: Tx, e: Outbox.Event, after: Db)
    requires tx.UpdateProfile? && QuotingEvent(tx, e) && Quotes(w.db, tx) && UserSince(w, w', tx.user)
    requires UsersEffect(w'.db, PlanOf(tx), after)
    ensures ReadsTrue(w'.db, e, after) <==> Stands(tx, Since(w, w'))
  {
    ProfileEffect(w'.db, tx, after);
  }

  lemma RevocationEffect(db: Db, tx: Tx, after: Db)
    requires RevokesOne(tx) && SessionsEffect(db, PlanOf(tx), after)
    ensures tx.session in db.sessions && tx.session in after.sessions
    ensures after.sessions[tx.session].userId == db.sessions[tx.session].userId
    ensures after.sessions[tx.session].tenant == db.sessions[tx.session].tenant
  {
    var s := PlanOf(tx).sessions.value;
    assert Sessions.Matching(db.sessions, s.filter) != {};
    SingleMatch(db.sessions, s.filter);
    assert tx.session in Sessions.Matching(db.sessions, s.filter);
  }

  lemma TenantExactly(w: World, w': World, tx: Tx, e: Outbox.Event, after: Db)
    requires RevokesOne(tx) && QuotingEvent(tx, e) && Quotes(w.db, tx) && SessionSince(w, w', tx.session)
    requires SessionsEffect(w'.db, PlanOf(tx), after)
    ensures ReadsTrue(w'.db, e, after) <==> Stands(tx, Since(w, w'))
  {
    RevocationEffect(w'.db, tx, after);
  }

  // Password events.

  function GuardVersion(tx: Tx): int
    requires ChangesPassword(tx)
  {
    if tx.ChangePassword? then tx.version else tx.credentialVersion
  }

  /** The call read the credential it changes, at the version it guards on, as the user's. */
  lemma PasswordRead(config: Config, h: seq<Act>, tx: Tx) returns (c: Credentials.Credential)
    requires ChangesPassword(tx) && Permits(config, h, tx)
    ensures Saw(CredentialKey(tx.credential), Some(CredentialRow(c))) in h
    ensures c.userId == tx.user && c.audit.version == GuardVersion(tx)
  {
    var i := if tx.ChangePassword? then 0 else 3;
    c := h[i].row.value.credential;
    assert h[i] == Saw(CredentialKey(tx.credential), Some(CredentialRow(c)));
  }

  lemma PasswordGuard(tx: Tx)
    requires ChangesPassword(tx)
    ensures GuardedBy(PlanOf(tx), CredentialKey(tx.credential), GuardVersion(tx))
    ensures var s := PlanOf(tx).credentials; s.Some? && s.value.UpdatePassword? && s.value.id == tx.credential
    ensures var s := PlanOf(tx).sessions;
      && s.Some? && s.value.Revoke?
      && (s.value.filter.OthersOf? || s.value.filter.AllOf?) && s.value.filter.user == tx.user
  {
  }

  lemma OneChanged(t: Credentials.Table, users: set<Atom>, s: Credentials.Stmt)
    requires s.UpdatePassword? && Credentials.Apply(t, users, s).Effect?
    ensures s.id in t && ChangedCredentials(t, Credentials.Apply(t, users, s).table) == {s.id}
  {
    var t' := Credentials.Apply(t, users, s).table;
    assert t'[s.id].audit.version != t[s.id].audit.version;
    forall id ensures id in ChangedCredentials(t, t') <==> id == s.id {
    }
  }

  /** At the commit the credential is there, the user's, as read. */
  lemma PasswordIsOwn(config: Config, now: Time, steps: seq<Step>, call: Atom, tx: Tx)
    requires ChangesPassword(tx) && Commits(Run(Start(config, now), steps), call, tx)
    ensures var t := Run(Start(config, now), steps).db.credentials;
      tx.credential in t && t[tx.credential].userId == tx.user
  {
    var c := PasswordRead(config, History(Run(Start(config, now), steps), call), tx);
    PasswordGuard(tx);
    NoLostUpdate(config, now, steps, call, tx, CredentialKey(tx.credential), CredentialRow(c));
  }

  lemma PasswordOwner(config: Config, now: Time, steps: seq<Step>, call: Atom, tx: Tx)
    requires ChangesPassword(tx) && Commits(Run(Start(config, now), steps), call, tx)
    ensures var w := Run(Start(config, now), steps); OwnPassword(w.db, tx.user, AfterCommit(w, call, tx).db)
  {
    var w := Run(Start(config, now), steps);
    var after := AfterCommit(w, call, tx).db;
    PasswordIsOwn(config, now, steps, call, tx);
    PasswordGuard(tx);
    CommitEffects(w.db, PlanOf(tx));
    OneChanged(w.db.credentials, after.users.Keys, PlanOf(tx).credentials.value);
    RevocationTruth(w.db, PlanOf(tx), after);
  }

  lemma ResetIsOwn(config: Config, now: Time, steps: seq<Step>, call: Atom, tx: Tx)
    requires tx.ConfirmReset? && Commits(Run(Start(config, now), steps), call, tx)
    ensures var t := Run(Start(config, now), steps).db.resets;
      tx.reset in t && t[tx.reset].userId == tx.user && t[tx.reset].reason == tx.reason
  {
    var h := History(Run(Start(config, now), steps), call);
    var row := ResetRead(config, h, tx);
    NoLostUpdate(config, now, steps, call, tx, ResetKey(tx.reset), ResetRow(row));
  }

  lemma ResetRead(config: Config, h: seq<Act>, tx: Tx) returns (r: Resets.Reset)
    requires tx.ConfirmReset? && Permits(config, h, tx)
    ensures Saw(ResetKey(tx.reset), Some(ResetRow(r))) in h
    ensures r.userId == tx.user && r.reason == tx.reason && r.audit.version == tx.version
    ensures GuardedBy(PlanOf(tx), ResetKey(tx.reset), tx.version)
  {
    r := h[0].row.value.reset;
    assert h[0] == Saw(ResetKey(tx.reset), Some(ResetRow(r)));
  }

  lemma ResetStatementOf(tx: Tx)
    requires tx.ConfirmReset?
    ensures var p := PlanOf(tx);
      p.invalidation.None? && p.resets.Some? && p.resets.value.Consume? && p.resets.value.token == tx.reset
  {
  }

  lemma ResetIssuedFor(config: Config, now: Time, steps: seq<Step>, call: Atom, tx: Tx)
    requires tx.ConfirmReset? && Commits(Run(Start(config, now), steps), call, tx)
    ensures var w := Run(Start(config, now), steps);
      IssuedFor(w.db, tx.user, tx.reason, AfterCommit(w, call, tx).db)
  {
    var w := Run(Start(config, now), steps);
    ResetIsOwn(config, now, steps, call, tx);
    CommitEffects(w.db, PlanOf(tx));
    ResetStatementOf(tx);
    ResetTruth(w.db, PlanOf(tx), AfterCommit(w, call, tx).db);
  }

  // The whole event.

  /** The event a commit appended. */
  function NewEvent(db: Db, after: Db): Outbox.Event
    requires |after.outbox| == |db.outbox| + 1
  {
    after.outbox[|db.outbox|]
  }

  lemma EventAppended(db: Db, tx: Tx)
    requires Exec(db, PlanOf(tx)).Committed? && PlanOf(tx).event.Some?
    ensures var after := Exec(db, PlanOf(tx)).db;
      && |after.outbox| == |db.outbox| + 1
      && Truthful(db, NewEvent(db, after), after)
      && QuotingEvent(tx, NewEvent(db, after))
  {
    var after := Exec(db, PlanOf(tx)).db;
    EventsAreTrue(db, tx);
    CommitEffects(db, PlanOf(tx));
    QuotingEvents(tx, OnSessions(db.sessions, after.users.Keys, PlanOf(tx).sessions).affected);
  }

  /** From any moment at which the row stood as quoted. */
  lemma QuotedExactly(config: Config, now: Time, steps: seq<Step>, k: nat, call: Atom, tx: Tx)
    requires k <= |steps| && Quotes(Run(Start(config, now), steps[..k]).db, tx)
    requires Commits(Run(Start(config, now), steps), call, tx) && PlanOf(tx).event.Some?
    ensures var w, w' := Run(Start(config, now), steps[..k]), Run(Start(config, now), steps);
      var after := AfterCommit(w', call, tx).db;
      && w.log <= w'.log
      && |after.outbox| == |w'.db.outbox| + 1
      && Truthful(w'.db, NewEvent(w'.db, after), after)
      && (ReadsTrue(w'.db, NewEvent(w'.db, after), after) <==> Stands(tx, Since(w, w')))
  {
    var w, w' := Run(Start(config, now), steps[..k]), Run(Start(config, now), steps);
    var after := AfterCommit(w', call, tx).db;
    RunAppend(Start(config, now), steps[..k], steps[k..]);
    assert steps[..k] + steps[k..] == steps;
    Reachable(config, now, steps[..k]);
    EventAppended(w'.db, tx);
    if ChangesPassword(tx) { PasswordOwner(config, now, steps, call, tx); }
    if tx.ConfirmReset? { ResetIssuedFor(config, now, steps, call, tx); }
    LogGrows(w, steps[k..]);
    QuotedSince(w, steps[k..], tx, after);
  }

  lemma {:induction false} LogGrows(w: World, steps: seq<Step>)
    ensures w.log <= Run(w, steps).log
    decreases |steps|
  {
    if steps != [] {
      LogGrows(w, steps[..|steps| - 1]);
      StepCases(Run(w, steps[..|steps| - 1]), steps[|steps| - 1]);
    }
  }

  lemma QuotedSince(w: World, later: seq<Step>, tx: Tx, after: Db)
    requires Sound(w) && Quotes(w.db, tx) && w.log <= Run(w, later).log
    requires Exec(Run(w, later).db, PlanOf(tx)) == Committed(after)
    requires |after.outbox| == |Run(w, later).db.outbox| + 1
    requires QuotingEvent(tx, NewEvent(Run(w, later).db, after))
    requires ChangesPassword(tx) ==> OwnPassword(Run(w, later).db, tx.user, after)
    requires tx.ConfirmReset? ==> IssuedFor(Run(w, later).db, tx.user, tx.reason, after)
    ensures ReadsTrue(Run(w, later).db, NewEvent(Run(w, later).db, after), after) <==>
      Stands(tx, Since(w, Run(w, later)))
  {
    var w' := Run(w, later);
    var e := NewEvent(w'.db, after);
    CommitEffects(w'.db, PlanOf(tx));
    if RevokesOne(tx) {
      KnownSession(w, later, tx.session);
      TenantExactly(w, w', tx, e, after);
    } else if !ChangesPassword(tx) {
      StatusesQuoted(w, later, tx, e, after);
    }
  }

  lemma StatusesQuoted(w: World, later: seq<Step>, tx: Tx, e: Outbox.Event, after: Db)
    requires Sound(w) && Quotes(w.db, tx) && w.log <= Run(w, later).log && QuotingEvent(tx, e)
    requires UsersEffect(Run(w, later).db, PlanOf(tx), after) && !RevokesOne(tx) && !ChangesPassword(tx)
    ensures ReadsTrue(Run(w, later).db, e, after) <==> Stands(tx, Since(w, Run(w, later)))
  {
    if tx.SetUserStatus? {
      KnownUser(w, later, tx.user);
      StatusExactly(w, Run(w, later), tx, e, after);
    } else if tx.UpdateProfile? {
      KnownUser(w, later, tx.user);
      ProfileExactly(w, Run(w, later), tx, e, after);
    } else if tx.SetAccountStatus? {
      KnownAccount(w, later, tx.account);
      AccountExactly(w, Run(w, later), tx, e, after);
    }
  }

  lemma KnownSession(w: World, later: seq<Step>, session: Atom)
    requires Sound(w) && session in w.db.sessions
    ensures SessionSince(w, Run(w, later), session)
  {
    assert Lookup(w.db, SessionKey(session)).Some?;
    ColumnsSince(w, later, EMPTY, session, EMPTY);
  }

  lemma KnownUser(w: World, later: seq<Step>, user: Atom)
    requires Sound(w) && user in w.db.users
    ensures UserSince(w, Run(w, later), user)
  {
    if EMPTY in w.db.sessions { assert Lookup(w.db, SessionKey(EMPTY)).Some?; }
    ColumnsSince(w, later, user, EMPTY, EMPTY);
  }

  lemma KnownAccount(w: World, later: seq<Step>, account: Atom)
    requires Sound(w) && account in w.db.accounts
    ensures AccountSince(w, Run(w, later), account)
  {
    if EMPTY in w.db.sessions { assert Lookup(w.db, SessionKey(EMPTY)).Some?; }
    ColumnsSince(w, later, EMPTY, EMPTY, account);
  }

  /** Step `k` is the call's read of the row its event quotes. */
  predicate QuotedAt(w: World, steps: seq<Step>, k: nat, call: Atom, tx: Tx)
    requires QuotedKey(tx).Some?
  {
    k < |steps| && steps[k] == Read(call, QuotedKey(tx).value) && Quotes(Run(w, steps[..k]).db, tx)
  }

  lemma QuotedAct(config: Config, h: seq<Act>, tx: Tx) returns (i: nat)
    requires Permits(config, h, tx) && QuotedKey(tx).Some?
    ensures i < |h| && h[i].Saw? && h[i].key == QuotedKey(tx).value
    ensures forall db :: Lookup(db, h[i].key) == h[i].row ==> Quotes(db, tx)
  {
    i := if tx.Logout? then 1 else 0;
  }

  lemma QuoteMoment(config: Config, now: Time, steps: seq<Step>, call: Atom, tx: Tx)
    requires QuotedKey(tx).Some? && Ready(Run(Start(config, now), steps), call, tx)
    ensures exists k :: QuotedAt(Start(config, now), steps, k, call, tx)
  {
    var h := History(Run(Start(config, now), steps), call);
    var i := QuotedAct(Run(Start(config, now), steps).config, h, tx);
    var ks := Chronicled(config, now, steps, call);
    var k := ks[i];
    assert ActAt(Start(config, now), steps, k, call, h[i]);
    assert QuotedAt(Start(config, now), steps, k, call, tx);
  }

  /** All that the event of this commit says is true. */
  predicate WhollyTrue(db: Db, after: Db) {
    && |after.outbox| == |db.outbox| + 1
    && Truthful(db, NewEvent(db, after), after)
    && ReadsTrue(db, NewEvent(db, after), after)
  }

  predicate StoodFrom(w: World, w': World, tx: Tx) {
    w.log <= w'.log && Stands(tx, Since(w, w'))
  }

  /** Step `k` is the read the event quotes, and the event is wholly true exactly if what was
      read stood from there to the commit. */
  predicate TrueExactlyFrom(w: World, steps: seq<Step>, k: nat, call: Atom, tx: Tx)
    requires QuotedKey(tx).Some? && Commits(Run(w, steps), call, tx)
  {
    var w' := Run(w, steps);
    && QuotedAt(w, steps, k, call, tx)
    && (WhollyTrue(w'.db, AfterCommit(w', call, tx).db) <==> StoodFrom(Run(w, steps[..k]), w', tx))
  }

  /** In every interleaving, an event that quotes an earlier read is wholly true exactly when
      the last status change, or the last tenant scope, committed between the call's read and
      its commit wrote what the event quotes, or there was none. */
  lemma EventTrueExactly(config: Config, now: Time, steps: seq<Step>, call: Atom, tx: Tx)
    requires QuotedKey(tx).Some? && Commits(Run(Start(config, now), steps), call, tx)
    ensures exists k: nat :: TrueExactlyFrom(Start(config, now), steps, k, call, tx)
  {
    QuoteMoment(config, now, steps, call, tx);
    var k: nat :| QuotedAt(Start(config, now), steps, k, call, tx);
    TrueFromRead(config, now, steps, k, call, tx);
  }

  lemma TrueFromRead(config: Config, now: Time, steps: seq<Step>, k: nat, call: Atom, tx: Tx)
    requires QuotedKey(tx).Some? && Commits(Run(Start(config, now), steps), call, tx)
    requires QuotedAt(Start(config, now), steps, k, call, tx)
    ensures TrueExactlyFrom(Start(config, now), steps, k, call, tx)
  {
    QuotingHasEvent(tx);
    QuotedExactly(config, now, steps, k, call, tx);
  }

  lemma QuotingHasEvent(tx: Tx)
    requires QuotedKey(tx).Some?
    ensures PlanOf(tx).event.Some?
  {
  }

  /** Every other event is wholly true, the owner in a password event included. */
  lemma OtherEventsTrue(config: Config, now: Time, steps: seq<Step>, call: Atom, tx: Tx)
    requires QuotedKey(tx).None? && PlanOf(tx).event.Some? && Commits(Run(Start(config, now), steps), call, tx)
    ensures var w := Run(Start(config, now), steps); WhollyTrue(w.db, AfterCommit(w, call, tx).db)
  {
    QuotedExactly(config, now, steps, 0, call, tx);
  }

  lemma QuotedGuard(tx: Tx)
    requires QuotedKey(tx).Some? && !tx.Logout?
    ensures GuardedBy(PlanOf(tx), QuotedKey(tx).value, tx.version)
  {
  }

  /** A call whose version is the one it read writes a wholly true event. */
  lemma TrueAtVersionRead(config: Config, now: Time, steps: seq<Step>, call: Atom, tx: Tx)
    requires QuotedKey(tx).Some? && !tx.Logout? && Commits(Run(Start(config, now), steps), call, tx)
    requires var a := History(Run(Start(config, now), steps), call)[0];
      a.Saw? && a.row.Some? && a.row.value.Version() == tx.version
    ensures var w := Run(Start(config, now), steps); WhollyTrue(w.db, AfterCommit(w, call, tx).db)
  {
    StillQuoted(config, now, steps, call, tx);
    assert steps[..|steps|] == steps;
    QuotingHasEvent(tx);
    QuotedExactly(config, now, steps, |steps|, call, tx);
  }

  lemma StillQuoted(config: Config, now: Time, steps: seq<Step>, call: Atom, tx: Tx)
    requires QuotedKey(tx).Some? && !tx.Logout? && Commits(Run(Start(config, now), steps), call, tx)
    requires var a := History(Run(Start(config, now), steps), call)[0];
      a.Saw? && a.row.Some? && a.row.value.Version() == tx.version
    ensures Quotes(Run(Start(config, now), steps).db, tx)
  {
    var w := Run(Start(config, now), steps);
    var h := History(w, call);
    QuotedGuard(tx);
    QuotedFirst(w.config, h, tx);
    NoLostUpdate(config, now, steps, call, tx, h[0].key, h[0].row.value);
  }

  lemma QuotedFirst(config: Config, h: seq<Act>, tx: Tx)
    requires Permits(config, h, tx) && QuotedKey(tx).Some? && !tx.Logout?
    ensures h != [] && h[0].Saw? && h[0].key == QuotedKey(tx).value
    ensures forall db :: Lookup(db, h[0].key) == h[0].row ==> Quotes(db, tx)
  {
  }
}
