/** The users and credentials tables. */
module Users {
  import opened Core

  datatype Status = Active | Disabled | Locked | Closed

  datatype Profile = Profile(displayName: Atom, email: Atom, phone: Atom)

  datatype User = User(
    username: Atom,
    profile: Profile,
    status: Status,
    failedLogins: int,
    lockedUntil: Option<Time>,
    audit: Audit)

  type Table = map<Atom, User>

  /** A user as events show it: everything but the failure counter and the lock. */
  datatype Public = Public(username: Atom, profile: Profile, status: Status, audit: Audit)

  function PublicOf(u: User): Public {
    Public(u.username, u.profile, u.status, u.audit)
  }

  datatype Stmt =
    | Insert(id: Atom, row: User)
    | RecordFailedLogin(id: Atom, threshold: int, until: Time, now: Time)
    | ResetFailedLogin(id: Atom, now: Time)
    | UpdateStatus(id: Atom, status: Status, actor: Atom, version: int, now: Time)
    | UpdateProfile(id: Atom, profile: Profile, actor: Atom, version: int, now: Time)

  /** The unique indexes over lower-cased user names and e-mail addresses. */
  predicate UsernameTaken(t: Table, id: Atom, username: Atom) {
    exists k :: k in t && k != id && t[k].username == username
  }

  predicate EmailTaken(t: Table, id: Atom, email: Atom) {
    exists k :: k in t && k != id && t[k].profile.email == email
  }

  function Failed(u: User, threshold: int, until: Time, now: Time): User {
    u.(failedLogins := u.failedLogins + 1,
       lockedUntil := if u.failedLogins + 1 >= threshold then Some(until) else u.lockedUntil,
       audit := u.audit.Touched(LOGIN_ACTOR, now))
  }

  function Cleared(u: User, now: Time): User {
    u.(failedLogins := 0, lockedUntil := None, audit := u.audit.Touched(LOGIN_ACTOR, now))
  }

  function WithStatus(u: User, status: Status, actor: Atom, now: Time): User {
    u.(status := status, failedLogins := 0, lockedUntil := None, audit := u.audit.Touched(actor, now))
  }

  function Apply(t: Table, s: Stmt): Effect<Table> {
    match s
    case Insert(id, row) =>
      if id in t || UsernameTaken(t, id, row.username) || EmailTaken(t, id, row.profile.email) then Abort(Conflict)
      else Effect(t[id := row], 1)
    case RecordFailedLogin(id, threshold, until, now) =>
      if id in t then Effect(t[id := Failed(t[id], threshold, until, now)], 1) else Effect(t, 0)
    case ResetFailedLogin(id, now) =>
      if id in t && (t[id].failedLogins != 0 || t[id].lockedUntil.Some?) then Effect(t[id := Cleared(t[id], now)], 1)
      else Effect(t, 0)
    case UpdateStatus(id, status, actor, version, now) =>
      if id in t && t[id].audit.version == version then Effect(t[id := WithStatus(t[id], status, actor, now)], 1)
      else Abort(Stale)
    case UpdateProfile(id, profile, actor, version, now) =>
      if id !in t || t[id].audit.version != version then Abort(Stale)
      else if EmailTaken(t, id, profile.email) then Abort(Conflict)
      else Effect(t[id := t[id].(profile := profile, audit := t[id].audit.Touched(actor, now))], 1)
  }

  /** The row of `id` after a statement on `t` gave `t'`. Only a status update writes the
      status, and nothing writes the user name or the creation columns. */
  predicate Evolves(t: Table, s: Stmt, t': Table, id: Atom) {
    && (id in t ==>
          && id in t'
          && (t'[id] == t[id] || t'[id].audit.version == t[id].audit.version + 1)
          && t'[id].status == (if s.UpdateStatus? && s.id == id then s.status else t[id].status)
          && t'[id].username == t[id].username
          && t'[id].audit.createdAt == t[id].audit.createdAt
          && t'[id].audit.createdBy == t[id].audit.createdBy)
    && (s.UpdateStatus? && s.id == id ==> id in t)
    && (id !in t && id in t' ==> s.Insert? && s.id == id && t'[id] == s.row)
  }

  lemma RowsEvolve(t: Table, s: Stmt)
    requires Apply(t, s).Effect?
    ensures forall id :: Evolves(t, s, Apply(t, s).table, id)
  {
  }

  /** The statement names this version in its WHERE clause. */
  predicate GuardsOn(s: Stmt, id: Atom, version: int) {
    (s.UpdateStatus? || s.UpdateProfile?) && s.id == id && s.version == version
  }

  lemma GuardHolds(t: Table, s: Stmt, id: Atom, version: int)
    requires Apply(t, s).Effect? && GuardsOn(s, id, version)
    ensures var t' := Apply(t, s).table;
      id in t && t[id].audit.version == version && id in t' && t'[id].audit.version == version + 1
  {
  }
}

module Credentials {
  import opened Core
  import Users

  /** An Argon2id hash, symbolically: it determines the password it was made from. */
  datatype Secret = Argon2id(password: Atom, salt: Atom)

  predicate Verifies(password: Atom, secret: Secret) {
    secret.password == password
  }

  /** A row of type 'password', the only type the service writes. */
  datatype Credential = Credential(userId: Atom, secret: Secret, status: Users.Status, audit: Audit)

  type Table = map<Atom, Credential>

  datatype Stmt =
    | Insert(id: Atom, row: Credential)
    | UpdatePassword(id: Atom, secret: Secret, actor: Atom, version: int, now: Time)

  predicate HasPassword(t: Table, user: Atom) {
    exists k :: k in t && t[k].userId == user
  }

  function Apply(t: Table, users: set<Atom>, s: Stmt): Effect<Table> {
    match s
    case Insert(id, row) =>
      if id in t || HasPassword(t, row.userId) || row.userId !in users then Abort(Internal)
      else Effect(t[id := row], 1)
    case UpdatePassword(id, secret, actor, version, now) =>
      if id in t && t[id].status.Active? && t[id].audit.version == version then
        Effect(t[id := t[id].(secret := secret, audit := t[id].audit.Touched(actor, now))], 1)
      else Abort(Stale)
  }

  predicate Evolves(t: Table, s: Stmt, t': Table, id: Atom) {
    && (id in t ==>
          && id in t'
          && (t'[id] == t[id] || t'[id].audit.version == t[id].audit.version + 1)
          && t'[id].userId == t[id].userId)
    && (id !in t && id in t' ==> s.Insert? && s.id == id && t'[id] == s.row)
  }

  lemma RowsEvolve(t: Table, users: set<Atom>, s: Stmt)
    requires Apply(t, users, s).Effect?
    ensures forall id :: Evolves(t, s, Apply(t, users, s).table, id)
  {
  }

  predicate GuardsOn(s: Stmt, id: Atom, version: int) {
    s.UpdatePassword? && s.id == id && s.version == version
  }

  lemma GuardHolds(t: Table, users: set<Atom>, s: Stmt, id: Atom, version: int)
    requires Apply(t, users, s).Effect? && GuardsOn(s, id, version)
    ensures var t' := Apply(t, users, s).table;
      id in t && t[id].audit.version == version && id in t' && t'[id].audit.version == version + 1
  {
  }
}
