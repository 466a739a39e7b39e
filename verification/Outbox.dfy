/** The outbox_events table, in commit order, and what a consumer folds out of it. */
module Outbox {
  import opened Core
  import Users
  import Sessions

  datatype PasswordChange = SelfService | AdministrativeRecovery

  datatype MfaChange = TurnedOn | TurnedOff | CodesRotated | AdministrativeReset

  datatype Event =
    | UserCreated(user: Atom, shown: Users.Public)
    | UserStatusChanged(user: Atom, previous: Users.Status, current: Users.Status, reason: Atom)
    | UserProfileUpdated(user: Atom, shown: Users.Public, reason: Atom)
    | PasswordChanged(user: Atom, revokedSessions: nat, kind: PasswordChange, reason: Atom)
    | SessionRevoked(session: Atom, user: Atom, tenant: Atom, because: Sessions.Reason)
    | MfaStatusChanged(user: Atom, enabled: bool, codesRemaining: nat, change: MfaChange)
    | AccountStatusChanged(account: Atom, was: Option<Users.Status>, current: Users.Status)
    | AccountSecretRotated(account: Atom, version: int)

  type Table = seq<Event>

  /** A password event is written with the row count of the revocation before it. */
  datatype Stmt =
    | Emit(event: Event)
    | EmitPasswordChanged(user: Atom, kind: PasswordChange, reason: Atom)

  function Written(s: Stmt, affected: nat): Event {
    match s
    case Emit(event) => event
    case EmitPasswordChanged(user, kind, reason) => PasswordChanged(user, affected, kind, reason)
  }
}
