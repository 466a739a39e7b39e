/** The whole identity database and its transactions. */
module Database {
  import opened Core
  import Users
  import Credentials
  import Sessions
  import Enrollments
  import RecoveryCodes
  import Challenges
  import Resets
  import Accounts
  import Outbox

  datatype Db = Db(
    users: Users.Table,
    credentials: Credentials.Table,
    sessions: Sessions.Table,
    enrollments: Enrollments.Table,
    codes: RecoveryCodes.Table,
    challenges: Challenges.Table,
    resets: Resets.Table,
    accounts: Accounts.Table,
    outbox: Outbox.Table)

  const EMPTY_DB := Db(map[], map[], map[], map[], map[], map[], map[], map[], [])

  /** The statements of one transaction. Every transaction of the service touches each
      table with at most one statement, in the order of these fields, except that
      issuing a password reset first invalidates and then inserts. */
  datatype Plan = Plan(
    users: Option<Users.Stmt>,
    challenges: Option<Challenges.Stmt>,
    invalidation: Option<Resets.Stmt>,
    resets: Option<Resets.Stmt>,
    credentials: Option<Credentials.Stmt>,
    enrollments: Option<Enrollments.Stmt>,
    codes: Option<RecoveryCodes.Stmt>,
    sessions: Option<Sessions.Stmt>,
    accounts: Option<Accounts.Stmt>,
    event: Option<Outbox.Stmt>)

  const NOTHING := Plan(None, None, None, None, None, None, None, None, None, None)

  /** A transaction commits a new database or rolls back with the first error. */
  datatype Outcome = Committed(db: Db) | RolledBack(error: Error)

  function OnUsers(t: Users.Table, s: Option<Users.Stmt>): Effect<Users.Table> {
    if s.None? then Effect(t, 0) else Users.Apply(t, s.value)
  }

  function OnChallenges(t: Challenges.Table, users: set<Atom>, s: Option<Challenges.Stmt>): Effect<Challenges.Table> {
    if s.None? then Effect(t, 0) else Challenges.Apply(t, users, s.value)
  }

  function OnResets(t: Resets.Table, users: set<Atom>, s: Option<Resets.Stmt>): Effect<Resets.Table> {
    if s.None? then Effect(t, 0) else Resets.Apply(t, users, s.value)
  }

  function OnCredentials(t: Credentials.Table, users: set<Atom>, s: Option<Credentials.Stmt>)
    : Effect<Credentials.Table>
  {
    if s.None? then Effect(t, 0) else Credentials.Apply(t, users, s.value)
  }

  function OnEnrollments(t: Enrollments.Table, users: set<Atom>, s: Option<Enrollments.Stmt>)
    : Effect<Enrollments.Table>
  {
    if s.None? then Effect(t, 0) else Enrollments.Apply(t, users, s.value)
  }

  function OnCodes(t: RecoveryCodes.Table, users: set<Atom>, s: Option<RecoveryCodes.Stmt>)
    : Effect<RecoveryCodes.Table>
  {
    if s.None? then Effect(t, 0) else RecoveryCodes.Apply(t, users, s.value)
  }

  function OnSessions(t: Sessions.Table, users: set<Atom>, s: Option<Sessions.Stmt>): Effect<Sessions.Table> {
    if s.None? then Effect(t, 0) else Sessions.Apply(t, users, s.value)
  }

  function OnAccounts(t: Accounts.Table, s: Option<Accounts.Stmt>): Effect<Accounts.Table> {
    if s.None? then Effect(t, 0) else Accounts.Apply(t, s.value)
  }

  function OnOutbox(t: Outbox.Table, s: Option<Outbox.Stmt>, affected: nat): Outbox.Table {
    if s.None? then t else t + [Outbox.Written(s.value, affected)]
  }

  /** One transaction as an atomic step: all of its statements, or none. */
  function Exec(db: Db, p: Plan): Outcome {
    var u := OnUsers(db.users, p.users);
    if u.Abort? then RolledBack(u.error) else
    var ids := u.table.Keys;
    var ch := OnChallenges(db.challenges, ids, p.challenges);
    if ch.Abort? then RolledBack(ch.error) else
    var iv := OnResets(db.resets, ids, p.invalidation);
    if iv.Abort? then RolledBack(iv.error) else
    var rs := OnResets(iv.table, ids, p.resets);
    if rs.Abort? then RolledBack(rs.error) else
    var cr := OnCredentials(db.credentials, ids, p.credentials);
    if cr.Abort? then RolledBack(cr.error) else
    var en := OnEnrollments(db.enrollments, ids, p.enrollments);
    if en.Abort? then RolledBack(en.error) else
    var cd := OnCodes(db.codes, ids, p.codes);
    if cd.Abort? then RolledBack(cd.error) else
    var ss := OnSessions(db.sessions, ids, p.sessions);
    if ss.Abort? then RolledBack(ss.error) else
    var ac := OnAccounts(db.accounts, p.accounts);
    if ac.Abort? then RolledBack(ac.error) else
    Committed(Db(u.table, cr.table, ss.table, en.table, cd.table, ch.table, rs.table, ac.table,
                 OnOutbox(db.outbox, p.event, ss.affected)))
  }

  // A committed transaction, table by table.

  predicate UsersEffect(db: Db, p: Plan, after: Db) {
    OnUsers(db.users, p.users).Effect? && after.users == OnUsers(db.users, p.users).table
  }

  predicate ChallengesEffect(db: Db, p: Plan, after: Db) {
    var e := OnChallenges(db.challenges, after.users.Keys, p.challenges);
    e.Effect? && after.challenges == e.table
  }

  predicate ResetsEffect(db: Db, p: Plan, after: Db) {
    var e := OnResets(db.resets, after.users.Keys, p.invalidation);
    e.Effect? &&
    var f := OnResets(e.table, after.users.Keys, p.resets);
    f.Effect? && after.resets == f.table
  }

  predicate CredentialsEffect(db: Db, p: Plan, after: Db) {
    var e := OnCredentials(db.credentials, after.users.Keys, p.credentials);
    e.Effect? && after.credentials == e.table
  }

  predicate EnrollmentsEffect(db: Db, p: Plan, after: Db) {
    var e := OnEnrollments(db.enrollments, after.users.Keys, p.enrollments);
    e.Effect? && after.enrollments == e.table
  }

  predicate CodesEffect(db: Db, p: Plan, after: Db) {
    var e := OnCodes(db.codes, after.users.Keys, p.codes);
    e.Effect? && after.codes == e.table
  }

  predicate SessionsEffect(db: Db, p: Plan, after: Db) {
    var e := OnSessions(db.sessions, after.users.Keys, p.sessions);
    e.Effect? && after.sessions == e.table && after.outbox == OnOutbox(db.outbox, p.event, e.affected)
  }

  predicate AccountsEffect(db: Db, p: Plan, after: Db) {
    OnAccounts(db.accounts, p.accounts).Effect? && after.accounts == OnAccounts(db.accounts, p.accounts).table
  }

  /** A transaction commits exactly when every statement succeeds, and then each table
      holds what its own statement made of it. */
  lemma CommitEffects(db: Db, p: Plan)
    requires Exec(db, p).Committed?
    ensures var after := Exec(db, p).db;
      && UsersEffect(db, p, after) && ChallengesEffect(db, p, after) && ResetsEffect(db, p, after)
      && CredentialsEffect(db, p, after) && EnrollmentsEffect(db, p, after) && CodesEffect(db, p, after)
      && SessionsEffect(db, p, after) && AccountsEffect(db, p, after)
  {
  }
}
