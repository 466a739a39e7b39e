/** The constraints of the migrations, kept by every transaction there could be. */
module Integrity {
  import opened Core
  import opened Database
  import opened Transactions
  import opened Calls
  import opened World
  import opened Versions
  import Locking
  import Rows
  import Users
  import Credentials
  import Sessions
  import Challenges
  import Resets
  import Accounts

  /** No two users share a name or an e-mail address. */
  ghost predicate UsersUnique(t: Users.Table) {
    && (forall a, b :: a in t && b in t && t[a].username == t[b].username ==> a == b)
    && (forall a, b :: a in t && b in t && t[a].profile.email == t[b].profile.email ==> a == b)
  }

  /** One password to a user. */
  ghost predicate CredentialsUnique(t: Credentials.Table) {
    forall a, b :: a in t && b in t && t[a].userId == t[b].userId ==> a == b
  }

  ghost predicate TokensUnique(t: Sessions.Table) {
    forall a, b :: a in t && b in t && t[a].token == t[b].token ==> a == b
  }

  ghost predicate ClientsUnique(t: Accounts.Table) {
    forall a, b :: a in t && b in t && t[a].clientId == t[b].clientId ==> a == b
  }

  /** Whatever belongs to a user belongs to one that exists. */
  ghost predicate Owned(db: Db, users: set<Atom>) {
    && (forall id :: id in db.credentials ==> db.credentials[id].userId in users)
    && (forall id :: id in db.sessions ==> db.sessions[id].userId in users)
    && (forall id :: id in db.challenges ==> db.challenges[id].userId in users)
    && (forall id :: id in db.resets ==> db.resets[id].userId in users)
    && db.enrollments.Keys <= users && db.codes.Keys <= users
  }

  ghost predicate Whole(db: Db) {
    && UsersUnique(db.users) && CredentialsUnique(db.credentials) && TokensUnique(db.sessions)
    && ClientsUnique(db.accounts) && Owned(db, db.users.Keys)
  }

  lemma UsersKept(t: Users.Table, s: Option<Users.Stmt>)
    requires UsersUnique(t) && OnUsers(t, s).Effect?
    ensures UsersUnique(OnUsers(t, s).table) && t.Keys <= OnUsers(t, s).table.Keys
  {
  }

  lemma CredentialsKept(t: Credentials.Table, users: set<Atom>, s: Option<Credentials.Stmt>)
    requires CredentialsUnique(t) && OnCredentials(t, users, s).Effect?
    requires forall id :: id in t ==> t[id].userId in users
    ensures var t' := OnCredentials(t, users, s).table;
      CredentialsUnique(t') && forall id :: id in t' ==> t'[id].userId in users
  {
  }

  lemma SessionsKept(t: Sessions.Table, users: set<Atom>, s: Option<Sessions.Stmt>)
    requires TokensUnique(t) && OnSessions(t, users, s).Effect?
    requires forall id :: id in t ==> t[id].userId in users
    ensures var t' := OnSessions(t, users, s).table;
      TokensUnique(t') && forall id :: id in t' ==> t'[id].userId in users
  {
  }

  lemma AccountsKept(t: Accounts.Table, s: Option<Accounts.Stmt>)
    requires ClientsUnique(t) && OnAccounts(t, s).Effect?
    ensures ClientsUnique(OnAccounts(t, s).table)
  {
  }

  lemma ChallengesKept(t: Challenges.Table, users: set<Atom>, s: Option<Challenges.Stmt>)
    requires OnChallenges(t, users, s).Effect? && forall id :: id in t ==> t[id].userId in users
    ensures var t' := OnChallenges(t, users, s).table; forall id :: id in t' ==> t'[id].userId in users
  {
  }

  lemma ResetsKept(t: Resets.Table, users: set<Atom>, s: Option<Resets.Stmt>)
    requires OnResets(t, users, s).Effect? && forall id :: id in t ==> t[id].userId in users
    ensures var t' := OnResets(t, users, s).table; forall id :: id in t' ==> t'[id].userId in users
  {
  }

  lemma MfaKept(db: Db, p: Plan, after: Db, users: set<Atom>)
    requires EnrollmentsEffect(db, p, after) && CodesEffect(db, p, after) && users == after.users.Keys
    requires db.enrollments.Keys <= users && db.codes.Keys <= users
    ensures after.enrollments.Keys <= users && after.codes.Keys <= users
  {
  }

  /** Every transaction that commits, whatever its statements, keeps the constraints. */
  lemma ConstraintsKept(db: Db, p: Plan)
    requires Whole(db) && Exec(db, p).Committed?
    ensures Whole(Exec(db, p).db)
  {
    var after := Exec(db, p).db;
    var users := after.users.Keys;
    CommitEffects(db, p);
    UsersKept(db.users, p.users);
    CredentialsKept(db.credentials, users, p.credentials);
    SessionsKept(db.sessions, users, p.sessions);
    AccountsKept(db.accounts, p.accounts);
    ChallengesKept(db.challenges, users, p.challenges);
    ResetsKept(db.resets, users, p.invalidation);
    ResetsKept(OnResets(db.resets, users, p.invalidation).table, users, p.resets);
    MfaKept(db, p, after, users);
  }

  /** In every run user names, e-mail addresses, refresh tokens and client ids are unique, each
      user has at most one password, and nothing belongs to a user who does not exist. */
  lemma {:induction false} ConstraintsHold(config: Config, now: Time, steps: seq<Step>)
    ensures Whole(Run(Start(config, now), steps).db)
    decreases |steps|
  {
    if steps != [] {
      var w, step := Run(Start(config, now), steps[..|steps| - 1]), steps[|steps| - 1];
      ConstraintsHold(config, now, steps[..|steps| - 1]);
      StepCases(w, step);
      if IsCommit(w, step) { ConstraintsKept(w.db, PlanOf(step.tx)); }
    }
  }

  predicate Taken(t: Users.Table, username: Atom, email: Atom) {
    exists k :: k in t && (t[k].username == username || t[k].profile.email == email)
  }

  /** In a run a registration that comes to its commit fails exactly when the name or the
      e-mail address is taken, and then with a conflict. */
  lemma RegistrationFails(config: Config, now: Time, steps: seq<Step>, tx: Tx)
    requires tx.Register? && Generated(tx) !! Run(Start(config, now), steps).used
    ensures var db := Run(Start(config, now), steps).db;
      if Taken(db.users, tx.username, tx.profile.email) then Exec(db, PlanOf(tx)) == RolledBack(Conflict)
      else Exec(db, PlanOf(tx)).Committed?
  {
    var w := Run(Start(config, now), steps);
    FreshIds(config, now, steps, tx);
    ConstraintsHold(config, now, steps);
    RegisterOutcome(w.db, tx);
  }

  lemma FreshIds(config: Config, now: Time, steps: seq<Step>, tx: Tx)
    requires tx.Register? && Generated(tx) !! Run(Start(config, now), steps).used
    ensures var db := Run(Start(config, now), steps).db; tx.user !in db.users && tx.credential !in db.credentials
  {
    var w := Run(Start(config, now), steps);
    Locking.Reachable(config, now, steps);
    assert tx.user in w.db.users <==> Rows.Lookup(w.db, Rows.UserKey(tx.user)).Some?;
    assert tx.credential in w.db.credentials <==> Rows.Lookup(w.db, Rows.CredentialKey(tx.credential)).Some?;
  }

  lemma RegisterOutcome(db: Db, tx: Tx)
    requires Whole(db) && tx.Register? && tx.user !in db.users && tx.credential !in db.credentials
    ensures if Taken(db.users, tx.username, tx.profile.email) then Exec(db, PlanOf(tx)) == RolledBack(Conflict)
            else Exec(db, PlanOf(tx)).Committed?
  {
  }
}
