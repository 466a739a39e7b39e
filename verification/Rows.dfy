/** A uniform view of the seven tables whose rows are addressed by key and versioned. */
module Rows {
  import opened Core
  import opened Database
  import Users
  import Credentials
  import Sessions
  import Enrollments
  import Challenges
  import Resets
  import Accounts

  datatype Key =
    | UserKey(id: Atom)
    | CredentialKey(id: Atom)
    | SessionKey(id: Atom)
    | EnrollmentKey(id: Atom)
    | ChallengeKey(id: Atom)
    | ResetKey(id: Atom)
    | AccountKey(id: Atom)

  datatype Row =
    | UserRow(user: Users.User)
    | CredentialRow(credential: Credentials.Credential)
    | SessionRow(session: Sessions.Session)
    | EnrollmentRow(enrollment: Enrollments.Enrollment)
    | ChallengeRow(challenge: Challenges.Challenge)
    | ResetRow(reset: Resets.Reset)
    | AccountRow(account: Accounts.Account)
  {
    function Audit(): Audit {
      match this
      case UserRow(r) => r.audit
      case CredentialRow(r) => r.audit
      case SessionRow(r) => r.audit
      case EnrollmentRow(r) => r.audit
      case ChallengeRow(r) => r.audit
      case ResetRow(r) => r.audit
      case AccountRow(r) => r.audit
    }

    function Version(): int { Audit().version }
  }

  function Lookup(db: Db, key: Key): Option<Row> {
    match key
    case UserKey(id) => if id in db.users then Some(UserRow(db.users[id])) else None
    case CredentialKey(id) => if id in db.credentials then Some(CredentialRow(db.credentials[id])) else None
    case SessionKey(id) => if id in db.sessions then Some(SessionRow(db.sessions[id])) else None
    case EnrollmentKey(id) => if id in db.enrollments then Some(EnrollmentRow(db.enrollments[id])) else None
    case ChallengeKey(id) => if id in db.challenges then Some(ChallengeRow(db.challenges[id])) else None
    case ResetKey(id) => if id in db.resets then Some(ResetRow(db.resets[id])) else None
    case AccountKey(id) => if id in db.accounts then Some(AccountRow(db.accounts[id])) else None
  }

  /** `b` is `a` itself or a later state of the same row. */
  predicate Succeeds(a: Row, b: Row) {
    b == a || a.Version() < b.Version()
  }
}
