/** In-flight service calls: what each has read so far, and when the service code
    lets it run a transaction. */
module Calls {
  import opened Core
  import opened Rows
  import opened Transactions
  import Credentials
  import Enrollments
  import Totp

  datatype Config = Config(retention: Time, challengeTtl: Time)

  /** One interaction of a call with the database or the clock. */
  datatype Act =
    | Saw(key: Key, row: Option<Row>)
    | SawClock(now: Time)
    | Ran(tx: Tx, ok: bool)

  predicate SawUser(a: Act, id: Atom) {
    a.Saw? && a.key == UserKey(id) && a.row.Some? && a.row.value.UserRow?
  }

  predicate SawCredential(a: Act) {
    a.Saw? && a.key.CredentialKey? && a.row.Some? && a.row.value.CredentialRow?
  }

  predicate SawSession(a: Act, id: Atom) {
    a.Saw? && a.key == SessionKey(id) && a.row.Some? && a.row.value.SessionRow?
  }

  predicate SawEnrollment(a: Act, user: Atom) {
    a.Saw? && a.key == EnrollmentKey(user) && a.row.Some? && a.row.value.EnrollmentRow?
  }

  predicate SawChallenge(a: Act, token: Atom) {
    a.Saw? && a.key == ChallengeKey(token) && a.row.Some? && a.row.value.ChallengeRow?
  }

  predicate SawReset(a: Act, token: Atom) {
    a.Saw? && a.key == ResetKey(token) && a.row.Some? && a.row.value.ResetRow?
  }

  predicate SawAccount(a: Act, id: Atom) {
    a.Saw? && a.key == AccountKey(id) && a.row.Some? && a.row.value.AccountRow?
  }

  /** The password was checked against an active credential of the user. */
  predicate PasswordChecked(a: Act, user: Atom, password: Atom) {
    && SawCredential(a)
    && a.row.value.credential.userId == user
    && a.row.value.credential.status.Active?
    && Credentials.Verifies(password, a.row.value.credential.secret)
  }

  /** Login up to the password check, which either passed or failed. */
  predicate LoginChecked(h: seq<Act>, user: Atom, password: Atom, passed: bool) {
    && |h| >= 3
    && SawUser(h[0], user)
    && SawCredential(h[1])
    && h[2].SawClock?
    && var u := h[0].row.value.user;
       var c := h[1].row.value.credential;
       && u.status.Active?
       && !(u.lockedUntil.Some? && u.lockedUntil.value > h[2].now)
       && c.userId == user
       && c.status.Active?
       && Credentials.Verifies(password, c.secret) == passed
  }

  /** Login past its failure-counter reset and its look at the enrollment. */
  predicate LoginDecided(h: seq<Act>, user: Atom, mfa: bool, now: Time) {
    && |h| == 6
    && h[3].Ran? && h[3].ok && h[3].tx.LoginPassed? && h[3].tx.user == user
    && LoginChecked(h, user, h[3].tx.password, true)
    && h[4].Saw? && h[4].key == EnrollmentKey(user)
    && mfa == (h[4].row.Some? && h[4].row.value.EnrollmentRow? && h[4].row.value.enrollment.status.Enabled?)
    && h[5] == SawClock(now)
  }

  predicate StepChecked(step: int, now: Time, e: Enrollments.Enrollment) {
    Totp.InWindow(step, now / SECOND) && step > e.lastUsedStep
  }

  /** The service code: after the interactions `h`, the call runs `tx`. */
  predicate Permits(config: Config, h: seq<Act>, tx: Tx) {
    match tx
    case Register(_, _, _, _, _, _, now) => h == [SawClock(now)]
    case LoginFailed(user, password, now) =>
      |h| == 3 && LoginChecked(h, user, password, false) && h[2] == SawClock(now)
    case LoginPassed(user, password, now) =>
      |h| == 3 && LoginChecked(h, user, password, true) && h[2] == SawClock(now)
    case OpenSession(_, user, _, _, now) => LoginDecided(h, user, false, now)
    case OpenChallenge(_, user, _, ttl, now) => LoginDecided(h, user, true, now) && ttl == config.challengeTtl
    case VerifyChallenge(challenge, version, user, factor, _, _, client, now, preparedAt) =>
      && |h| == 5
      && SawChallenge(h[0], challenge)
      && h[1] == SawClock(now)
      && SawUser(h[2], user)
      && SawEnrollment(h[3], user)
      && h[4] == SawClock(preparedAt)
      && h[2].row.value.user.status.Active?
      && h[3].row.value.enrollment.status.Enabled?
      && (factor.TotpStep? ==> StepChecked(factor.step, now, h[3].row.value.enrollment))
      && var c := h[0].row.value.challenge;
         && c.consumedAt.None? && c.expiresAt > now
         && c.userId == user && c.audit.version == version && c.client == client
    case Refresh(session, previous, version, _, user, tenant, membership, now) =>
      && |h| == 4
      && SawSession(h[0], session)
      && h[1].SawClock?
      && SawUser(h[2], user)
      && h[3] == SawClock(now)
      && h[2].row.value.user.status.Active?
      && var s := h[0].row.value.session;
         && s.token == previous && s.revokedAt.None? && s.expiresAt > h[1].now
         && s.userId == user && s.audit.version == version
         && s.tenant == tenant && s.membership == membership
    case Logout(session, user, tenant, _, now) =>
      && |h| == 2
      && h[0] == SawClock(now)
      && SawSession(h[1], session)
      && h[1].row.value.session.userId == user
      && h[1].row.value.session.tenant == tenant
    case ChangePassword(credential, version, user, current, password, secret, now) =>
      && |h| == 2
      && current != EMPTY
      && PasswordChecked(h[0], user, password)
      && h[0].key == CredentialKey(credential)
      && h[0].row.value.credential.audit.version == version
      && !Credentials.Verifies(secret.password, h[0].row.value.credential.secret)
      && h[1] == SawClock(now)
    case SetUserStatus(user, was, _, _, _, _, now) =>
      |h| == 2 && SawUser(h[0], user) && h[0].row.value.user.status == was && h[1] == SawClock(now)
    case UpdateProfile(user, seen, _, _, _, version, now) =>
      && |h| == 2
      && version >= 1
      && SawUser(h[0], user)
      && h[0].row.value.user == seen
      && h[1] == SawClock(now)
    case RevokeOwn(session, user, tenant, _, _, now) =>
      && |h| == 2
      && SawSession(h[0], session)
      && h[0].row.value.session.userId == user
      && h[0].row.value.session.tenant == tenant
      && h[1] == SawClock(now)
    case RevokeAny(session, user, tenant, _, _, _, now) =>
      && |h| == 2
      && SawSession(h[0], session)
      && h[0].row.value.session.userId == user
      && h[0].row.value.session.tenant == tenant
      && h[1] == SawClock(now)
    case RevokeTenant(_, _, _, _, now) => h == [SawClock(now)]
    case ScopeTenant(session, user, tenant, membership, _, now) =>
      h == [SawClock(now)] && session != EMPTY && user != EMPTY && tenant != EMPTY && membership != EMPTY
    case StartSetup(user, password, _, now) =>
      && |h| == 4
      && PasswordChecked(h[0], user, password)
      && SawUser(h[1], user)
      && h[2] == SawClock(now)
      && h[3] == Saw(EnrollmentKey(user), None)
    case RestartSetup(user, password, _, version, now) =>
      && |h| == 4
      && PasswordChecked(h[0], user, password)
      && SawUser(h[1], user)
      && h[2] == SawClock(now)
      && SawEnrollment(h[3], user)
      && !h[3].row.value.enrollment.status.Enabled?
      && h[3].row.value.enrollment.audit.version == version
    case ConfirmSetup(user, current, step, _, hashes, now) =>
      && |h| == 2
      && current != EMPTY
      && SawEnrollment(h[0], user)
      && h[1] == SawClock(now)
      && h[0].row.value.enrollment.status.Pending?
      && h[0].row.value.enrollment.audit.updatedAt + MFA_SETUP_TTL > now
      && Totp.InWindow(step, now / SECOND)
      && |hashes| == RECOVERY_CODE_COUNT
    case DisableMfa(user, current, password, step, _, now) =>
      && |h| == 3
      && current != EMPTY
      && PasswordChecked(h[0], user, password)
      && SawEnrollment(h[1], user)
      && h[2] == SawClock(now)
      && h[1].row.value.enrollment.status.Enabled?
      && StepChecked(step, now, h[1].row.value.enrollment)
    case RegenerateCodes(user, password, step, _, hashes, now) =>
      && |h| == 3
      && PasswordChecked(h[0], user, password)
      && SawEnrollment(h[1], user)
      && h[2] == SawClock(now)
      && h[1].row.value.enrollment.status.Enabled?
      && StepChecked(step, now, h[1].row.value.enrollment)
      && |hashes| == RECOVERY_CODE_COUNT
    case ResetMfa(user, reason, _, version, now) =>
      && |h| == 2
      && user != EMPTY && reason != EMPTY && version >= 1
      && SawEnrollment(h[0], user)
      && h[0].row.value.enrollment.status.Enabled?
      && h[1] == SawClock(now)
    case IssueReset(_, user, reason, _, now) =>
      && |h| == 2
      && user != EMPTY && reason != EMPTY
      && SawUser(h[0], user)
      && h[0].row.value.user.status.Active?
      && h[1] == SawClock(now)
    case ConfirmReset(reset, version, user, credential, credentialVersion, secret, reason, now) =>
      && |h| == 4
      && SawReset(h[0], reset)
      && h[1] == SawClock(now)
      && SawUser(h[2], user)
      && SawCredential(h[3])
      && h[2].row.value.user.status.Active?
      && var r := h[0].row.value.reset;
         && r.consumedAt.None? && r.expiresAt > now
         && r.userId == user && r.audit.version == version && r.reason == reason
         && var c := h[3].row.value.credential;
            && h[3].key == CredentialKey(credential) && c.userId == user && c.status.Active?
            && c.audit.version == credentialVersion
            && !Credentials.Verifies(secret.password, c.secret)
    case CreateAccount(_, _, _, _, _, _, now) => h == [SawClock(now)]
    case SetAccountStatus(account, was, status, _, _, now) =>
      && |h| == 2
      && (status.Active? || status.Disabled?)
      && SawAccount(h[0], account)
      && h[0].row.value.account.status == was
      && h[1] == SawClock(now)
    case RotateAccountSecret(_, _, _, version, now) => h == [SawClock(now)] && version >= 1
    case CleanSessions(_, before, now) => h == [SawClock(now)] && before == now - config.retention
    case CleanChallenges(_, before, now) => h == [SawClock(now)] && before == now - CHALLENGE_RETENTION
    case CleanResets(_, before, now) => h == [SawClock(now)] && before == now - CHALLENGE_RETENTION
  }
}
