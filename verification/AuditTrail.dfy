/** The audit columns: who touched a row last and when, and who made it. */
module AuditTrail {
  import opened Core
  import opened Database
  import opened Rows
  import opened Transactions
  import Users
  import Credentials
  import Sessions
  import Enrollments
  import Challenges
  import Resets
  import Accounts

  /** On whose behalf a transaction writes. */
  function ActorOf(tx: Tx): Atom {
    match tx
    case Register(_, _, _, _, _, actor, _) => actor
    case LoginFailed(_, _, _) => LOGIN_ACTOR
    case LoginPassed(_, _, _) => LOGIN_ACTOR
    case OpenSession(_, _, _, _, _) => LOGIN_ACTOR
    case OpenChallenge(_, _, _, _, _) => LOGIN_ACTOR
    case VerifyChallenge(_, _, _, _, _, _, _, _, _) => MFA_ACTOR
    case SetUserStatus(_, _, _, _, actor, _, _) => actor
    case UpdateProfile(_, _, _, _, actor, _, _) => actor
    case RevokeAny(_, _, _, _, actor, _, _) => actor
    case RevokeTenant(_, _, _, actor, _) => actor
    case ScopeTenant(_, _, _, _, actor, _) => actor
    case ResetMfa(_, _, actor, _, _) => actor
    case IssueReset(_, _, _, actor, _) => actor
    case ConfirmReset(_, _, _, _, _, _, _, _) => RESET_ACTOR
    case CreateAccount(_, _, _, _, _, actor, _) => actor
    case SetAccountStatus(_, _, _, actor, _, _) => actor
    case RotateAccountSecret(_, _, actor, _, _) => actor
    case CleanSessions(_, _, _) => EMPTY
    case CleanChallenges(_, _, _) => EMPTY
    case CleanResets(_, _, _) => EMPTY
    case _ => tx.user
  }

  /** A verification makes its session a little after it checked the factor. */
  function StampOf(tx: Tx, key: Key): Time {
    if tx.VerifyChallenge? && key.SessionKey? then tx.preparedAt else tx.now
  }

  /** Touched by the actor at that time, or made by the actor at that time, or left alone. */
  predicate Stamped(a: Option<Audit>, b: Option<Audit>, actor: Atom, at: Time) {
    b.Some? && a != b ==>
      && b.value.updatedAt == at && b.value.updatedBy == actor
      && if a.Some? then
           && b.value.version == a.value.version + 1
           && b.value.createdAt == a.value.createdAt && b.value.createdBy == a.value.createdBy
         else b.value.version == 1 && b.value.createdAt == at && b.value.createdBy == actor
  }

  function AuditOf(db: Db, key: Key): Option<Audit> {
    var row := Lookup(db, key);
    if row.Some? then Some(row.value.Audit()) else None
  }

  // The actor and the time in the statements of a transaction are its own.

  predicate SignedUsers(s: Option<Users.Stmt>, actor: Atom, now: Time) {
    match s
    case None => true
    case Some(Insert(_, row)) => row.audit == Audit(1, now, now, actor, actor)
    case Some(RecordFailedLogin(_, _, _, at)) => actor == LOGIN_ACTOR && at == now
    case Some(ResetFailedLogin(_, at)) => actor == LOGIN_ACTOR && at == now
    case Some(UpdateStatus(_, _, who, _, at)) => who == actor && at == now
    case Some(UpdateProfile(_, _, who, _, at)) => who == actor && at == now
  }

  predicate SignedCredentials(s: Option<Credentials.Stmt>, actor: Atom, now: Time) {
    match s
    case None => true
    case Some(Insert(_, row)) => row.audit == Audit(1, now, now, actor, actor)
    case Some(UpdatePassword(_, _, who, _, at)) => who == actor && at == now
  }

  predicate SignedSessions(s: Option<Sessions.Stmt>, actor: Atom, now: Time) {
    match s
    case None => true
    case Some(Insert(_, row)) => row.audit == Audit(1, now, now, actor, actor)
    case Some(Rotate(_, _, _, _, who, at)) => who == actor && at == now
    case Some(Scope(_, _, _, _, who, at)) => who == actor && at == now
    case Some(Revoke(_, _, who, at)) => who == actor && at == now
    case Some(Delete(_, _)) => true
  }

  predicate SignedEnrollments(s: Option<Enrollments.Stmt>, actor: Atom, now: Time) {
    match s
    case None => true
    case Some(Insert(_, row)) => row.audit == Audit(1, now, now, actor, actor)
    case Some(ResetPending(_, _, who, _, at)) => who == actor && at == now
    case Some(Enable(_, _, who, _, at)) => who == actor && at == now
    case Some(Disable(_, _, who, _, at)) => who == actor && at == now
    case Some(AdminReset(_, who, _, at)) => who == actor && at == now
    case Some(Advance(_, _, who, at)) => who == actor && at == now
    case Some(AdvanceAtVersion(_, _, who, _, at)) => who == actor && at == now
  }

  predicate SignedChallenges(s: Option<Challenges.Stmt>, actor: Atom, now: Time) {
    match s
    case None => true
    case Some(Insert(_, row)) => row.audit == Audit(1, now, now, actor, actor)
    case Some(Consume(_, who, _, at)) => who == actor && at == now
    case Some(Delete(_, _)) => true
  }

  predicate SignedResets(s: Option<Resets.Stmt>, actor: Atom, now: Time) {
    match s
    case None => true
    case Some(Invalidate(_, who, at)) => who == actor && at == now
    case Some(Insert(_, row)) => row.audit == Audit(1, now, now, actor, actor)
    case Some(Consume(_, who, _, at)) => who == actor && at == now
    case Some(Delete(_, _)) => true
  }

  predicate SignedAccounts(s: Option<Accounts.Stmt>, actor: Atom, now: Time) {
    match s
    case None => true
    case Some(Insert(_, row)) => row.audit == Audit(1, now, now, actor, actor)
    case Some(UpdateStatus(_, _, who, _, at)) => who == actor && at == now
    case Some(RotateSecret(_, _, who, _, at)) => who == actor && at == now
  }

  lemma AccountPlansSigned(tx: Tx)
    ensures var p := PlanOf(tx);
      && SignedUsers(p.users, ActorOf(tx), tx.now)
      && SignedCredentials(p.credentials, ActorOf(tx), tx.now)
      && SignedAccounts(p.accounts, ActorOf(tx), tx.now)
  {
  }

  lemma SessionPlansSigned(tx: Tx)
    ensures SignedSessions(PlanOf(tx).sessions, ActorOf(tx), StampOf(tx, SessionKey(EMPTY)))
  {
  }

  lemma MfaPlansSigned(tx: Tx)
    ensures var p := PlanOf(tx);
      SignedEnrollments(p.enrollments, ActorOf(tx), tx.now) && SignedChallenges(p.challenges, ActorOf(tx), tx.now)
  {
  }

  lemma ResetPlansSigned(tx: Tx)
    ensures var p := PlanOf(tx);
      && SignedResets(p.resets, ActorOf(tx), tx.now)
      && (p.invalidation.Some? ==>
            && p.invalidation.value == Resets.Invalidate(tx.user, ActorOf(tx), tx.now)
            && p.resets.Some? && p.resets.value.Insert?)
  {
  }

  lemma AccountsStamped(db: Db, p: Plan, after: Db, actor: Atom, now: Time, key: Key)
    requires SignedUsers(p.users, actor, now) && SignedCredentials(p.credentials, actor, now)
    requires SignedAccounts(p.accounts, actor, now) && (key.UserKey? || key.CredentialKey? || key.AccountKey?)
    requires UsersEffect(db, p, after) && CredentialsEffect(db, p, after) && AccountsEffect(db, p, after)
    ensures Stamped(AuditOf(db, key), AuditOf(after, key), actor, now)
  {
  }

  lemma SessionsStamped(db: Db, p: Plan, after: Db, actor: Atom, now: Time, id: Atom)
    requires SignedSessions(p.sessions, actor, now) && SessionsEffect(db, p, after)
    ensures Stamped(AuditOf(db, SessionKey(id)), AuditOf(after, SessionKey(id)), actor, now)
  {
  }

  lemma MfaStamped(db: Db, p: Plan, after: Db, actor: Atom, now: Time, key: Key)
    requires SignedEnrollments(p.enrollments, actor, now) && SignedChallenges(p.challenges, actor, now)
    requires EnrollmentsEffect(db, p, after) && ChallengesEffect(db, p, after)
    requires key.EnrollmentKey? || key.ChallengeKey?
    ensures Stamped(AuditOf(db, key), AuditOf(after, key), actor, now)
  {
  }

  lemma ResetsStamped(db: Db, p: Plan, after: Db, actor: Atom, now: Time, id: Atom)
    requires SignedResets(p.resets, actor, now) && ResetsEffect(db, p, after)
    requires p.invalidation.Some? ==>
      && p.invalidation.value.Invalidate? && p.invalidation.value.actor == actor && p.invalidation.value.now == now
      && p.resets.Some? && p.resets.value.Insert?
    ensures Stamped(AuditOf(db, ResetKey(id)), AuditOf(after, ResetKey(id)), actor, now)
  {
  }

  /** Whatever transaction commits, on whatever database, every row it touches bears its actor
      and its time, with the version one higher and the origin kept; every row it makes bears
      them as its origin too, at version one; and no other row's audit columns change. */
  lemma EveryRowStamped(db: Db, tx: Tx, key: Key)
    requires Exec(db, PlanOf(tx)).Committed?
    ensures Stamped(AuditOf(db, key), AuditOf(Exec(db, PlanOf(tx)).db, key), ActorOf(tx), StampOf(tx, key))
  {
    var p, after := PlanOf(tx), Exec(db, PlanOf(tx)).db;
    CommitEffects(db, p);
    if key.SessionKey? {
      SessionPlansSigned(tx);
      SessionsStamped(db, p, after, ActorOf(tx), StampOf(tx, key), key.id);
    } else if key.ResetKey? {
      ResetPlansSigned(tx);
      ResetsStamped(db, p, after, ActorOf(tx), tx.now, key.id);
    } else if key.EnrollmentKey? || key.ChallengeKey? {
      MfaPlansSigned(tx);
      MfaStamped(db, p, after, ActorOf(tx), tx.now, key);
    } else {
      AccountPlansSigned(tx);
      AccountsStamped(db, p, after, ActorOf(tx), tx.now, key);
    }
  }
}
