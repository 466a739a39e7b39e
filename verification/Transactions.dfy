/** The transactions (and autocommitted statements) the service runs, with the rows
    and constants it puts in them. */
module Transactions {
  import opened Core
  import opened Database
  import Users
  import Credentials
  import Sessions
  import Enrollments
  import RecoveryCodes
  import Challenges
  import Resets
  import Accounts
  import Outbox

  const REFRESH_TTL: Time := 30 * DAY
  const LOGIN_FAILURE_THRESHOLD := 5
  const LOGIN_LOCK_DURATION: Time := 15 * MINUTE
  const MFA_SETUP_TTL: Time := 10 * MINUTE
  const PASSWORD_RESET_TTL: Time := 30 * MINUTE
  const CHALLENGE_RETENTION: Time := DAY
  const RECOVERY_CODE_COUNT := 10

  /** The reason text of the event a self-service password change writes. */
  const USER_CHANGED_PASSWORD: Atom := 4

  /** A reason left empty is replaced by the service's default. */
  function ReasonOr(reason: Atom, default: Sessions.Reason): Sessions.Reason {
    if reason == EMPTY then default else Sessions.Given(reason)
  }

  datatype Factor = TotpStep(step: int) | RecoveryCode(hash: Atom)

  datatype Tx =
    | Register(user: Atom, credential: Atom, username: Atom, profile: Users.Profile, secret: Credentials.Secret,
        actor: Atom, now: Time)
    | LoginFailed(user: Atom, password: Atom, now: Time)
    | LoginPassed(user: Atom, password: Atom, now: Time)
    | OpenSession(session: Atom, user: Atom, token: Atom, client: Client, now: Time)
    | OpenChallenge(challenge: Atom, user: Atom, client: Client, ttl: Time, now: Time)
    | VerifyChallenge(challenge: Atom, version: int, user: Atom, factor: Factor, session: Atom, token: Atom,
        client: Client, now: Time, preparedAt: Time)
    | Refresh(session: Atom, previous: Atom, version: int, token: Atom, user: Atom, tenant: Atom, membership: Atom,
        now: Time)
    | Logout(session: Atom, user: Atom, tenant: Atom, reason: Atom, now: Time)
    | ChangePassword(credential: Atom, version: int, user: Atom, current: Atom, password: Atom,
        secret: Credentials.Secret, now: Time)
    | SetUserStatus(user: Atom, was: Users.Status, status: Users.Status, reason: Atom, actor: Atom, version: int,
        now: Time)
    | UpdateProfile(user: Atom, seen: Users.User, profile: Users.Profile, reason: Atom, actor: Atom, version: int,
        now: Time)
    | RevokeOwn(session: Atom, user: Atom, tenant: Atom, reason: Atom, version: int, now: Time)
    | RevokeAny(session: Atom, user: Atom, tenant: Atom, reason: Atom, actor: Atom, version: int, now: Time)
    | RevokeTenant(user: Atom, tenant: Atom, reason: Atom, actor: Atom, now: Time)
    | ScopeTenant(session: Atom, user: Atom, tenant: Atom, membership: Atom, actor: Atom, now: Time)
    | StartSetup(user: Atom, password: Atom, sealed: Atom, now: Time)
    | RestartSetup(user: Atom, password: Atom, sealed: Atom, version: int, now: Time)
    | ConfirmSetup(user: Atom, current: Atom, step: int, version: int, hashes: seq<Atom>, now: Time)
    | DisableMfa(user: Atom, current: Atom, password: Atom, step: int, version: int, now: Time)
    | RegenerateCodes(user: Atom, password: Atom, step: int, version: int, hashes: seq<Atom>, now: Time)
    | ResetMfa(user: Atom, reason: Atom, actor: Atom, version: int, now: Time)
    | IssueReset(reset: Atom, user: Atom, reason: Atom, actor: Atom, now: Time)
    | ConfirmReset(reset: Atom, version: int, user: Atom, credential: Atom, credentialVersion: int,
        secret: Credentials.Secret, reason: Atom, now: Time)
    | CreateAccount(account: Atom, clientId: Atom, name: Atom, secret: Credentials.Secret, audiences: Atom,
        actor: Atom, now: Time)
    | SetAccountStatus(account: Atom, was: Users.Status, status: Users.Status, actor: Atom, version: int, now: Time)
    | RotateAccountSecret(account: Atom, secret: Credentials.Secret, actor: Atom, version: int, now: Time)
    | CleanSessions(ids: seq<Atom>, before: Time, now: Time)
    | CleanChallenges(ids: seq<Atom>, before: Time, now: Time)
    | CleanResets(ids: seq<Atom>, before: Time, now: Time)

  /** The row prepareSession builds. */
  function NewSession(user: Atom, token: Atom, client: Client, actor: Atom, now: Time): Sessions.Session {
    Sessions.Session(user, token, EMPTY, EMPTY, now + REFRESH_TTL, None, Sessions.NotRevoked, now, client,
                     NewAudit(actor, now))
  }

  /** The user a profile event shows: the row as read, with the new profile and audit columns. */
  function ShownAfter(seen: Users.User, profile: Users.Profile, actor: Atom, version: int, now: Time): Users.Public {
    Users.Public(seen.username, profile, seen.status,
                 seen.audit.(version := version + 1, updatedAt := now, updatedBy := actor))
  }

  function Revocation(filter: Sessions.Filter, reason: Sessions.Reason, actor: Atom, now: Time): Option<Sessions.Stmt> {
    Some(Sessions.Revoke(filter, reason, actor, now))
  }

  function PlanOf(tx: Tx): Plan {
    match tx
    case Register(user, credential, username, profile, secret, actor, now) =>
      NOTHING.(
        users := Some(Users.Insert(user, Users.User(username, profile, Users.Active, 0, None, NewAudit(actor, now)))),
        credentials := Some(Credentials.Insert(credential,
          Credentials.Credential(user, secret, Users.Active, NewAudit(actor, now)))),
        event := Some(Outbox.Emit(Outbox.UserCreated(user,
          Users.Public(username, profile, Users.Active, NewAudit(actor, now))))))
    case LoginFailed(user, _, now) =>
      NOTHING.(users := Some(Users.RecordFailedLogin(user, LOGIN_FAILURE_THRESHOLD, now + LOGIN_LOCK_DURATION, now)))
    case LoginPassed(user, _, now) =>
      NOTHING.(users := Some(Users.ResetFailedLogin(user, now)))
    case OpenSession(session, user, token, client, now) =>
      NOTHING.(sessions := Some(Sessions.Insert(session, NewSession(user, token, client, LOGIN_ACTOR, now))))
    case OpenChallenge(challenge, user, client, ttl, now) =>
      NOTHING.(challenges := Some(Challenges.Insert(challenge,
        Challenges.Challenge(user, client, now + ttl, None, NewAudit(LOGIN_ACTOR, now)))))
    case VerifyChallenge(challenge, version, user, factor, session, token, client, now, preparedAt) =>
      NOTHING.(
        challenges := Some(Challenges.Consume(challenge, MFA_ACTOR, version, now)),
        enrollments := if factor.TotpStep? then Some(Enrollments.Advance(user, factor.step, MFA_ACTOR, now)) else None,
        codes := if factor.RecoveryCode? then Some(RecoveryCodes.Consume(user, factor.hash, MFA_ACTOR, now)) else None,
        sessions := Some(Sessions.Insert(session, NewSession(user, token, client, MFA_ACTOR, preparedAt))))
    case Refresh(session, previous, version, token, user, _, _, now) =>
      NOTHING.(sessions := Some(Sessions.Rotate(session, previous, version, token, user, now)))
    case Logout(session, user, tenant, reason, now) =>
      var why := ReasonOr(reason, Sessions.LoggedOut);
      NOTHING.(
        sessions := Revocation(Sessions.OwnId(session, user), why, user, now),
        event := Some(Outbox.Emit(Outbox.SessionRevoked(session, user, tenant, why))))
    case ChangePassword(credential, version, user, current, _, secret, now) =>
      NOTHING.(
        credentials := Some(Credentials.UpdatePassword(credential, secret, user, version, now)),
        sessions := Revocation(Sessions.OthersOf(user, current, now), Sessions.PasswordChanged, user, now),
        event := Some(Outbox.EmitPasswordChanged(user, Outbox.SelfService, USER_CHANGED_PASSWORD)))
    case SetUserStatus(user, was, status, reason, actor, version, now) =>
      NOTHING.(
        users := Some(Users.UpdateStatus(user, status, actor, version, now)),
        sessions := if status.Active? then None
                    else Revocation(Sessions.AllOf(user, now), Sessions.StatusChangedTo(status), actor, now),
        event := Some(Outbox.Emit(Outbox.UserStatusChanged(user, was, status, reason))))
    case UpdateProfile(user, seen, profile, reason, actor, version, now) =>
      NOTHING.(
        users := Some(Users.UpdateProfile(user, profile, actor, version, now)),
        event := Some(Outbox.Emit(Outbox.UserProfileUpdated(user,
          ShownAfter(seen, profile, actor, version, now), reason))))
    case RevokeOwn(session, user, tenant, reason, version, now) =>
      var why := ReasonOr(reason, Sessions.OwnRevocation);
      NOTHING.(
        sessions := Revocation(Sessions.OwnAtVersion(session, user, version), why, user, now),
        event := Some(Outbox.Emit(Outbox.SessionRevoked(session, user, tenant, why))))
    case RevokeAny(session, user, tenant, reason, actor, version, now) =>
      var why := ReasonOr(reason, Sessions.AdminRevocation);
      NOTHING.(
        sessions := Revocation(Sessions.AtVersion(session, version), why, actor, now),
        event := Some(Outbox.Emit(Outbox.SessionRevoked(session, user, tenant, why))))
    case RevokeTenant(user, tenant, reason, actor, now) =>
      NOTHING.(sessions := Revocation(Sessions.InTenant(user, tenant), Sessions.Given(reason), actor, now))
    case ScopeTenant(session, user, tenant, membership, actor, now) =>
      NOTHING.(sessions := Some(Sessions.Scope(session, user, tenant, membership, actor, now)))
    case StartSetup(user, _, sealed, now) =>
      NOTHING.(enrollments := Some(Enrollments.Insert(user,
        Enrollments.Enrollment(sealed, Enrollments.Pending, -1, None, NewAudit(user, now)))))
    case RestartSetup(user, _, sealed, version, now) =>
      NOTHING.(
        enrollments := Some(Enrollments.ResetPending(user, sealed, user, version, now)),
        codes := Some(RecoveryCodes.Delete(user)))
    case ConfirmSetup(user, current, step, version, hashes, now) =>
      NOTHING.(
        enrollments := Some(Enrollments.Enable(user, step, user, version, now)),
        codes := Some(RecoveryCodes.Replace(user, hashes, user, now)),
        sessions := Revocation(Sessions.OthersOf(user, current, now), Sessions.MfaEnabled, user, now),
        event := Some(Outbox.Emit(Outbox.MfaStatusChanged(user, true, |hashes|, Outbox.TurnedOn))))
    case DisableMfa(user, current, _, step, version, now) =>
      NOTHING.(
        enrollments := Some(Enrollments.Disable(user, step, user, version, now)),
        codes := Some(RecoveryCodes.Delete(user)),
        sessions := Revocation(Sessions.OthersOf(user, current, now), Sessions.MfaDisabled, user, now),
        event := Some(Outbox.Emit(Outbox.MfaStatusChanged(user, false, 0, Outbox.TurnedOff))))
    case RegenerateCodes(user, _, step, version, hashes, now) =>
      NOTHING.(
        enrollments := Some(Enrollments.AdvanceAtVersion(user, step, user, version, now)),
        codes := Some(RecoveryCodes.Replace(user, hashes, user, now)),
        event := Some(Outbox.Emit(Outbox.MfaStatusChanged(user, true, |hashes|, Outbox.CodesRotated))))
    case ResetMfa(user, reason, actor, version, now) =>
      NOTHING.(
        enrollments := Some(Enrollments.AdminReset(user, actor, version, now)),
        codes := Some(RecoveryCodes.Delete(user)),
        sessions := Revocation(Sessions.AllOf(user, now), Sessions.MfaReset(reason), actor, now),
        event := Some(Outbox.Emit(Outbox.MfaStatusChanged(user, false, 0, Outbox.AdministrativeReset))))
    case IssueReset(reset, user, reason, actor, now) =>
      NOTHING.(
        invalidation := Some(Resets.Invalidate(user, actor, now)),
        resets := Some(Resets.Insert(reset,
          Resets.Reset(user, reason, now + PASSWORD_RESET_TTL, None, NewAudit(actor, now)))))
    case ConfirmReset(reset, version, user, credential, credentialVersion, secret, reason, now) =>
      NOTHING.(
        resets := Some(Resets.Consume(reset, RESET_ACTOR, version, now)),
        credentials := Some(Credentials.UpdatePassword(credential, secret, RESET_ACTOR, credentialVersion, now)),
        sessions := Revocation(Sessions.AllOf(user, now), Sessions.PasswordRecovered, RESET_ACTOR, now),
        event := Some(Outbox.EmitPasswordChanged(user, Outbox.AdministrativeRecovery, reason)))
    case CreateAccount(account, clientId, name, secret, audiences, actor, now) =>
      NOTHING.(
        accounts := Some(Accounts.Insert(account,
          Accounts.Account(clientId, name, secret, Users.Active, audiences, NewAudit(actor, now)))),
        event := Some(Outbox.Emit(Outbox.AccountStatusChanged(account, None, Users.Active))))
    case SetAccountStatus(account, was, status, actor, version, now) =>
      NOTHING.(
        accounts := Some(Accounts.UpdateStatus(account, status, actor, version, now)),
        event := Some(Outbox.Emit(Outbox.AccountStatusChanged(account, Some(was), status))))
    case RotateAccountSecret(account, secret, actor, version, now) =>
      NOTHING.(
        accounts := Some(Accounts.RotateSecret(account, secret, actor, version, now)),
        event := Some(Outbox.Emit(Outbox.AccountSecretRotated(account, version + 1))))
    case CleanSessions(ids, before, _) => NOTHING.(sessions := Some(Sessions.Delete(ids, before)))
    case CleanChallenges(ids, before, _) => NOTHING.(challenges := Some(Challenges.Delete(ids, before)))
    case CleanResets(ids, before, _) => NOTHING.(resets := Some(Resets.Delete(ids, before)))
  }

  predicate ChangesPassword(tx: Tx) {
    tx.ChangePassword? || tx.ConfirmReset?
  }

  /** The random identifiers and tokens generated for a transaction. */
  function Generated(tx: Tx): set<Atom> {
    match tx
    case Register(user, credential, _, _, _, _, _) => {user, credential}
    case OpenSession(session, _, token, _, _) => {session, token}
    case OpenChallenge(challenge, _, _, _, _) => {challenge}
    case VerifyChallenge(_, _, _, _, session, token, _, _, _) => {session, token}
    case Refresh(_, _, _, token, _, _, _, _) => {token}
    case IssueReset(reset, _, _, _, _) => {reset}
    case CreateAccount(account, _, _, _, _, _, _) => {account}
    case _ => {}
  }
}
