/** Optimistic locking: what the version column guarantees, in every interleaving. */
module Versions {
  import opened Core
  import opened Database
  import opened Rows
  import opened Transactions
  import opened World
  import Users
  import Credentials
  import Sessions
  import Enrollments
  import Challenges
  import Resets
  import Accounts

  /** How a committed transaction may change the row under one key: not at all, by one
      update (which adds one to the version), by inserting it at version one, or by
      deleting it. */
  predicate RowStep(a: Option<Row>, b: Option<Row>) {
    && (a.Some? && b.Some? ==> b == a || b.value.Version() == a.value.Version() + 1)
    && (a.None? && b.Some? ==> b.value.Version() == 1)
  }

  /** Every insert of the service writes version one under a random key. */
  ghost predicate FreshInserts(p: Plan, g: set<Atom>) {
    && (p.users.Some? && p.users.value.Insert? ==> p.users.value.row.audit.version == 1 && p.users.value.id in g)
    && (p.challenges.Some? && p.challenges.value.Insert? ==>
          p.challenges.value.row.audit.version == 1 && p.challenges.value.token in g)
    && (p.invalidation.Some? ==>
          p.invalidation.value.Invalidate? && p.resets.Some? && p.resets.value.Insert?)
    && (p.resets.Some? && p.resets.value.Insert? ==>
          p.resets.value.row.audit.version == 1 && p.resets.value.token in g)
    && (p.credentials.Some? && p.credentials.value.Insert? ==>
          p.credentials.value.row.audit.version == 1 && p.credentials.value.id in g)
    && (p.enrollments.Some? && p.enrollments.value.Insert? ==> p.enrollments.value.row.audit.version == 1)
    && (p.sessions.Some? && p.sessions.value.Insert? ==>
          p.sessions.value.row.audit.version == 1 && p.sessions.value.id in g)
    && (p.accounts.Some? && p.accounts.value.Insert? ==>
          p.accounts.value.row.audit.version == 1 && p.accounts.value.id in g)
  }

  lemma InsertsAreFresh(tx: Tx)
    ensures FreshInserts(PlanOf(tx), Generated(tx))
  {
  }

  /** A committed transaction row by row, table by table. */
  ghost predicate Evolution(db: Db, p: Plan, after: Db) {
    && (if p.users.None? then after.users == db.users
        else forall id :: Users.Evolves(db.users, p.users.value, after.users, id))
    && (if p.credentials.None? then after.credentials == db.credentials
        else forall id :: Credentials.Evolves(db.credentials, p.credentials.value, after.credentials, id))
    && (if p.sessions.None? then after.sessions == db.sessions
        else forall id :: Sessions.Evolves(db.sessions, p.sessions.value, after.sessions, id))
    && (if p.enrollments.None? then after.enrollments == db.enrollments
        else forall id :: Enrollments.Evolves(db.enrollments, p.enrollments.value, after.enrollments, id))
    && (if p.challenges.None? then after.challenges == db.challenges
        else forall id :: Challenges.Evolves(db.challenges, p.challenges.value, after.challenges, id))
    && (if p.resets.None? then after.resets == db.resets
        else forall id :: Resets.Evolves(db.resets, p.resets.value, after.resets, id))
    && (if p.accounts.None? then after.accounts == db.accounts
        else forall id :: Accounts.Evolves(db.accounts, p.accounts.value, after.accounts, id))
  }

  /** Issuing a reset consumes open rows and inserts another, so each row still moves once. */
  lemma ResetsEvolve(t: Resets.Table, users: set<Atom>, p: Plan, g: set<Atom>)
    requires FreshInserts(p, g)
    requires OnResets(t, users, p.invalidation).Effect?
    requires OnResets(OnResets(t, users, p.invalidation).table, users, p.resets).Effect?
    ensures var t' := OnResets(OnResets(t, users, p.invalidation).table, users, p.resets).table;
      if p.resets.None? then t' == t else forall id :: Resets.Evolves(t, p.resets.value, t', id)
  {
    var open := OnResets(t, users, p.invalidation).table;
    if p.invalidation.Some? { Resets.RowsEvolve(t, users, p.invalidation.value); }
    if p.resets.Some? { Resets.RowsEvolve(open, users, p.resets.value); }
    if p.invalidation.Some? {
      var t' := OnResets(open, users, p.resets).table;
      forall id ensures Resets.Evolves(t, p.resets.value, t', id) {
        assert Resets.Evolves(t, p.invalidation.value, open, id);
        assert Resets.Evolves(open, p.resets.value, t', id);
      }
    }
  }

  lemma EvolveAccounts(db: Db, p: Plan, after: Db)
    requires UsersEffect(db, p, after) && CredentialsEffect(db, p, after) && AccountsEffect(db, p, after)
    ensures p.users.Some? ==> forall id :: Users.Evolves(db.users, p.users.value, after.users, id)
    ensures p.credentials.Some? ==>
      forall id :: Credentials.Evolves(db.credentials, p.credentials.value, after.credentials, id)
    ensures p.accounts.Some? ==> forall id :: Accounts.Evolves(db.accounts, p.accounts.value, after.accounts, id)
  {
    if p.users.Some? { Users.RowsEvolve(db.users, p.users.value); }
    if p.credentials.Some? { Credentials.RowsEvolve(db.credentials, after.users.Keys, p.credentials.value); }
    if p.accounts.Some? { Accounts.RowsEvolve(db.accounts, p.accounts.value); }
  }

  lemma EvolveTokens(db: Db, p: Plan, after: Db)
    requires SessionsEffect(db, p, after) && EnrollmentsEffect(db, p, after) && ChallengesEffect(db, p, after)
    ensures p.sessions.Some? ==> forall id :: Sessions.Evolves(db.sessions, p.sessions.value, after.sessions, id)
    ensures p.enrollments.Some? ==>
      forall id :: Enrollments.Evolves(db.enrollments, p.enrollments.value, after.enrollments, id)
    ensures p.challenges.Some? ==>
      forall id :: Challenges.Evolves(db.challenges, p.challenges.value, after.challenges, id)
  {
    var ids := after.users.Keys;
    if p.sessions.Some? { Sessions.RowsEvolve(db.sessions, ids, p.sessions.value); }
    if p.enrollments.Some? { Enrollments.RowsEvolve(db.enrollments, ids, p.enrollments.value); }
    if p.challenges.Some? { Challenges.RowsEvolve(db.challenges, ids, p.challenges.value); }
  }

  lemma Evolve(db: Db, p: Plan, g: set<Atom>)
    requires FreshInserts(p, g) && Exec(db, p).Committed?
    ensures Evolution(db, p, Exec(db, p).db)
  {
    var after := Exec(db, p).db;
    CommitEffects(db, p);
    EvolveAccounts(db, p, after);
    EvolveTokens(db, p, after);
    ResetsEvolve(db.resets, after.users.Keys, p, g);
  }

  /** The row under `key` moved one step, and can only have appeared under a random key. */
  predicate KeyStep(db: Db, g: set<Atom>, after: Db, key: Key) {
    && RowStep(Lookup(db, key), Lookup(after, key))
    && (Lookup(db, key).None? && Lookup(after, key).Some? && !key.EnrollmentKey? ==> key.id in g)
    && (key.EnrollmentKey? && Lookup(db, key).Some? ==> Lookup(after, key).Some?)
  }

  lemma AccountRowsStep(db: Db, p: Plan, g: set<Atom>, after: Db, key: Key)
    requires FreshInserts(p, g) && Evolution(db, p, after)
    requires key.UserKey? || key.CredentialKey? || key.AccountKey?
    ensures KeyStep(db, g, after, key)
  {
    match key {
      case UserKey(id) => assert p.users.Some? ==> Users.Evolves(db.users, p.users.value, after.users, id);
      case CredentialKey(id) =>
        assert p.credentials.Some? ==> Credentials.Evolves(db.credentials, p.credentials.value, after.credentials, id);
      case AccountKey(id) =>
        assert p.accounts.Some? ==> Accounts.Evolves(db.accounts, p.accounts.value, after.accounts, id);
    }
  }

  lemma TokenRowsStep(db: Db, p: Plan, g: set<Atom>, after: Db, key: Key)
    requires FreshInserts(p, g) && Evolution(db, p, after)
    requires !(key.UserKey? || key.CredentialKey? || key.AccountKey?)
    ensures KeyStep(db, g, after, key)
  {
    match key {
      case SessionKey(id) =>
        assert p.sessions.Some? ==> Sessions.Evolves(db.sessions, p.sessions.value, after.sessions, id);
      case EnrollmentKey(id) =>
        assert p.enrollments.Some? ==> Enrollments.Evolves(db.enrollments, p.enrollments.value, after.enrollments, id);
      case ChallengeKey(id) =>
        assert p.challenges.Some? ==> Challenges.Evolves(db.challenges, p.challenges.value, after.challenges, id);
      case ResetKey(id) => assert p.resets.Some? ==> Resets.Evolves(db.resets, p.resets.value, after.resets, id);
    }
  }

  lemma RowsStep(db: Db, p: Plan, g: set<Atom>, after: Db, key: Key)
    requires FreshInserts(p, g) && Evolution(db, p, after)
    ensures KeyStep(db, g, after, key)
  {
    if key.UserKey? || key.CredentialKey? || key.AccountKey? {
      AccountRowsStep(db, p, g, after, key);
    } else {
      TokenRowsStep(db, p, g, after, key);
    }
  }

  /** What a commit does to the world, without saying how: rows evolve, the random values
      are used up, the transaction is logged. */
  ghost predicate Moves(w: World, tx: Tx, w': World) {
    && Generated(tx) !! w.used
    && FreshInserts(PlanOf(tx), Generated(tx))
    && Evolution(w.db, PlanOf(tx), w'.db)
    && w'.config == w.config
    && w'.now == w.now
    && w'.used == w.used + Generated(tx)
    && w'.log == w.log + [tx]
  }

  lemma CommitMoves(w: World, call: Atom, tx: Tx)
    requires Commits(w, call, tx)
    ensures Moves(w, tx, AfterCommit(w, call, tx))
  {
    InsertsAreFresh(tx);
    Evolve(w.db, PlanOf(tx), Generated(tx));
  }

  /** A step that commits nothing: time passes, a call reads or fails. */
  ghost predicate Idles(w: World, w': World) {
    && w'.db == w.db
    && w'.log == w.log
    && w'.config == w.config
    && w'.now >= w.now
    && w'.used >= w.used
  }

  ghost predicate IsCommit(w: World, step: Step) {
    step.Commit? && Commits(w, step.call, step.tx)
  }

  lemma StepCases(w: World, step: Step)
    ensures if IsCommit(w, step) then Moves(w, step.tx, Next(w, step)) else Idles(w, Next(w, step))
  {
    if IsCommit(w, step) { CommitMoves(w, step.call, step.tx); }
  }
}
