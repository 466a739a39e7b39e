/** Every event says what the transaction that wrote it did, as far as the transaction knows. */
module EventTruth {
  import opened Core
  import opened Database
  import opened Transactions
  import opened ResetHistory
  import Users
  import Sessions
  import Enrollments
  import RecoveryCodes
  import Resets
  import Outbox

  function CodesLeft(db: Db, user: Atom): nat {
    if user in db.codes then |RecoveryCodes.Unused(db.codes[user])| else 0
  }

  /** The reset tokens a commit used up. */
  function NewlyUsed(t: Resets.Table, t': Resets.Table): set<Atom> {
    set id | id in t && id in t' && t[id].consumedAt.None? && t'[id].consumedAt.Some?
  }

  /** What each kind of change does to the enrollment: only a reset by an administrator also
      forgets the last step and when it was enabled. */
  predicate ChangeIs(a: Enrollments.Enrollment, change: Outbox.MfaChange, b: Enrollments.Enrollment) {
    match change
    case TurnedOn => a.status.Pending? && b.status.Enabled?
    case CodesRotated => a.status.Enabled? && b.status.Enabled?
    case TurnedOff =>
      && a.status.Enabled? && b.status.Disabled?
      && b.enabledAt == a.enabledAt && b.lastUsedStep > a.lastUsedStep
    case AdministrativeReset => a.status.Enabled? && b.status.Disabled? && b.enabledAt.None? && b.lastUsedStep == -1
  }

  /** The event against the tables before and after the commit. */
  predicate Truthful(db: Db, e: Outbox.Event, after: Db) {
    match e
    case UserCreated(user, shown) =>
      user !in db.users && user in after.users && Users.PublicOf(after.users[user]) == shown
    case UserStatusChanged(user, _, current, _) => user in after.users && after.users[user].status == current
    case UserProfileUpdated(user, shown, _) =>
      && user in after.users
      && var u := Users.PublicOf(after.users[user]);
         u == shown.(username := u.username, status := u.status,
                     audit := shown.audit.(createdAt := u.audit.createdAt, createdBy := u.audit.createdBy))
    case PasswordChanged(_, revoked, kind, _) =>
      && revoked == |NewlyRevoked(db.sessions, after.sessions)|
      && (kind.AdministrativeRecovery? <==> NewlyUsed(db.resets, after.resets) != {})
    case SessionRevoked(session, _, _, because) =>
      && NewlyRevoked(db.sessions, after.sessions) == {session}
      && session in after.sessions && after.sessions[session].revokeReason == because
    case MfaStatusChanged(user, enabled, left, change) =>
      && user in db.enrollments && user in after.enrollments
      && (enabled <==> after.enrollments[user].status.Enabled?)
      && left == CodesLeft(after, user)
      && ChangeIs(db.enrollments[user], change, after.enrollments[user])
    case AccountStatusChanged(account, was, current) =>
      && (was.None? <==> account !in db.accounts)
      && account in after.accounts && after.accounts[account].status == current
    case AccountSecretRotated(account, version) =>
      account in after.accounts && after.accounts[account].audit.version == version
  }

  /** A commit that has an event appends exactly that one, and it is true; any other
      appends none. */
  predicate AppendsTruth(db: Db, event: Option<Outbox.Stmt>, after: Db) {
    if event.None? then after.outbox == db.outbox
    else
      && |after.outbox| == |db.outbox| + 1 && after.outbox[..|db.outbox|] == db.outbox
      && Truthful(db, after.outbox[|db.outbox|], after)
  }

  lemma RevocationTruth(db: Db, p: Plan, after: Db)
    requires SessionsEffect(db, p, after) && p.sessions.Some? && p.sessions.value.Revoke?
    ensures NewlyRevoked(db.sessions, after.sessions) == Sessions.Matching(db.sessions, p.sessions.value.filter)
    ensures forall id :: id in NewlyRevoked(db.sessions, after.sessions) ==>
      after.sessions[id].revokeReason == p.sessions.value.reason
  {
  }

  lemma SingleMatch(t: Sessions.Table, f: Sessions.Filter)
    requires Sessions.MustAffect(f) && Sessions.Matching(t, f) != {}
    ensures Sessions.Matching(t, f) == {f.id}
  {
    var k :| k in Sessions.Matching(t, f);
    assert k == f.id;
  }

  lemma CodesTruth(db: Db, p: Plan, after: Db, user: Atom)
    requires CodesEffect(db, p, after) && p.codes.Some? && p.codes.value.user == user && !p.codes.value.Consume?
    ensures CodesLeft(after, user) == if p.codes.value.Replace? then |p.codes.value.hashes| else 0
  {
    if p.codes.value.Replace? {
      var hashes := p.codes.value.hashes;
      DistinctSize(hashes);
      assert RecoveryCodes.Unused(after.codes[user]) == set h | h in hashes;
    }
  }

  predicate ChangesBy(s: Enrollments.Stmt, change: Outbox.MfaChange) {
    match change
    case TurnedOn => s.Enable?
    case CodesRotated => s.AdvanceAtVersion?
    case TurnedOff => s.Disable?
    case AdministrativeReset => s.AdminReset?
  }

  /** Which statements an event goes with. */
  predicate EventShape(p: Plan, e: Outbox.Event) {
    match e
    case UserCreated(user, shown) =>
      p.users.Some? && p.users.value.Insert? && p.users.value.id == user && Users.PublicOf(p.users.value.row) == shown
    case UserStatusChanged(user, _, current, _) =>
      p.users.Some? && p.users.value.UpdateStatus? && p.users.value.id == user && p.users.value.status == current
    case UserProfileUpdated(user, shown, _) =>
      && p.users.Some? && p.users.value.UpdateProfile? && p.users.value.id == user
      && p.users.value.profile == shown.profile && p.users.value.version + 1 == shown.audit.version
      && p.users.value.now == shown.audit.updatedAt && p.users.value.actor == shown.audit.updatedBy
    case PasswordChanged(_, _, kind, _) =>
      && p.sessions.Some? && p.sessions.value.Revoke? && p.invalidation.None?
      && if kind.AdministrativeRecovery? then p.resets.Some? && p.resets.value.Consume? else p.resets.None?
    case SessionRevoked(session, _, _, because) =>
      && p.sessions.Some? && p.sessions.value.Revoke? && p.sessions.value.reason == because
      && Sessions.MustAffect(p.sessions.value.filter) && p.sessions.value.filter.id == session
    case MfaStatusChanged(user, enabled, left, change) =>
      && p.codes.Some? && p.codes.value.user == user && !p.codes.value.Consume?
      && left == (if p.codes.value.Replace? then |p.codes.value.hashes| else 0)
      && p.enrollments.Some? && p.enrollments.value.user == user
      && enabled == (change.TurnedOn? || change.CodesRotated?)
      && ChangesBy(p.enrollments.value, change)
    case AccountStatusChanged(account, was, current) =>
      && p.accounts.Some?
      && p.accounts.value.id == account
      && if was.None? then p.accounts.value.Insert? && p.accounts.value.row.status == current
         else p.accounts.value.UpdateStatus? && p.accounts.value.status == current
    case AccountSecretRotated(account, version) =>
      p.accounts.Some? && p.accounts.value.RotateSecret? && p.accounts.value.id == account
      && p.accounts.value.version + 1 == version
  }

  lemma EventShapes(tx: Tx, revoked: nat)
    ensures var p := PlanOf(tx); p.event.Some? ==> EventShape(p, Outbox.Written(p.event.value, revoked))
  {
  }

  lemma AccountTruth(db: Db, p: Plan, after: Db, e: Outbox.Event)
    requires EventShape(p, e) && UsersEffect(db, p, after) && AccountsEffect(db, p, after)
    requires !(e.PasswordChanged? || e.SessionRevoked? || e.MfaStatusChanged?)
    ensures Truthful(db, e, after)
  {
  }

  lemma MfaTruth(db: Db, p: Plan, after: Db, e: Outbox.Event)
    requires EventShape(p, e) && EnrollmentsEffect(db, p, after) && CodesEffect(db, p, after) && e.MfaStatusChanged?
    ensures Truthful(db, e, after)
  {
    CodesTruth(db, p, after, e.user);
  }

  lemma SessionTruth(db: Db, p: Plan, after: Db, e: Outbox.Event)
    requires EventShape(p, e) && SessionsEffect(db, p, after) && e.SessionRevoked?
    ensures Truthful(db, e, after)
  {
    RevocationTruth(db, p, after);
    SingleMatch(db.sessions, p.sessions.value.filter);
  }

  lemma PasswordTruth(db: Db, p: Plan, after: Db, e: Outbox.Event)
    requires EventShape(p, e) && SessionsEffect(db, p, after) && ResetsEffect(db, p, after) && e.PasswordChanged?
    requires e.revokedSessions == OnSessions(db.sessions, after.users.Keys, p.sessions).affected
    ensures Truthful(db, e, after)
  {
    RevocationTruth(db, p, after);
    ResetTruth(db, p, after);
  }

  lemma ResetTruth(db: Db, p: Plan, after: Db)
    requires ResetsEffect(db, p, after) && p.invalidation.None?
    requires p.resets.None? || p.resets.value.Consume?
    ensures NewlyUsed(db.resets, after.resets) == if p.resets.Some? then {p.resets.value.token} else {}
  {
  }

  lemma PlanTruth(db: Db, p: Plan, after: Db, revoked: nat)
    requires UsersEffect(db, p, after) && AccountsEffect(db, p, after) && EnrollmentsEffect(db, p, after)
    requires CodesEffect(db, p, after) && SessionsEffect(db, p, after) && ResetsEffect(db, p, after)
    requires revoked == OnSessions(db.sessions, after.users.Keys, p.sessions).affected
    requires p.event.Some? ==> EventShape(p, Outbox.Written(p.event.value, revoked))
    requires p.event.Some? && p.event.value.Emit? ==> !p.event.value.event.PasswordChanged?
    ensures AppendsTruth(db, p.event, after)
  {
    if p.event.Some? {
      var e := Outbox.Written(p.event.value, revoked);
      if e.MfaStatusChanged? {
        MfaTruth(db, p, after, e);
      } else if e.SessionRevoked? {
        SessionTruth(db, p, after, e);
      } else if e.PasswordChanged? {
        PasswordTruth(db, p, after, e);
      } else {
        AccountTruth(db, p, after, e);
      }
    }
  }

  lemma PasswordEventsCount(tx: Tx)
    ensures var p := PlanOf(tx); p.event.Some? && p.event.value.Emit? ==> !p.event.value.event.PasswordChanged?
  {
  }

  /** Whatever transaction commits, on whatever database, the event it appends is true of
      that very commit in all that the commit itself decides: the new status, the new
      profile and audit columns, the one session revoked and why, the number of sessions
      revoked, the number of recovery codes left. */
  lemma EventsAreTrue(db: Db, tx: Tx)
    requires Exec(db, PlanOf(tx)).Committed?
    ensures AppendsTruth(db, PlanOf(tx).event, Exec(db, PlanOf(tx)).db)
  {
    var p, after := PlanOf(tx), Exec(db, PlanOf(tx)).db;
    CommitEffects(db, p);
    var revoked := OnSessions(db.sessions, after.users.Keys, p.sessions).affected;
    EventShapes(tx, revoked);
    PasswordEventsCount(tx);
    PlanTruth(db, p, after, revoked);
  }
}
