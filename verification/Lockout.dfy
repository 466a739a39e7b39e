/** Login lockout: what the counter and the lock mean in every interleaving. */
module Lockout {
  import opened Core
  import opened Database
  import opened Transactions
  import opened Calls
  import opened World
  import opened Versions
  import Users

  /** A transaction that sets the failure counter of the user to zero. */
  predicate Clears(tx: Tx, user: Atom) {
    (tx.Register? || tx.LoginPassed? || tx.SetUserStatus?) && tx.user == user
  }

  predicate Fails(tx: Tx, user: Atom) {
    tx.LoginFailed? && tx.user == user
  }

  /** The instants of the user's failed password checks since the counter was last cleared. */
  function Streak(log: seq<Tx>, user: Atom): seq<Time>
    decreases |log|
  {
    if log == [] then [] else
    var tx, earlier := log[|log| - 1], Streak(log[..|log| - 1], user);
    if Clears(tx, user) then [] else if Fails(tx, user) then earlier + [tx.now] else earlier
  }

  /** The counter is the length of the streak; from the fifth failure on the account is
      locked until a quarter of an hour after the last one. */
  predicate Locks(u: Users.User, s: seq<Time>) {
    && u.failedLogins == |s|
    && u.lockedUntil == if |s| >= 5 then Some(s[|s| - 1] + 900_000_000_000) else None
  }

  ghost predicate LocksFollow(db: Db, log: seq<Tx>) {
    forall user :: user in db.users ==> Locks(db.users[user], Streak(log, user))
  }

  /** The statement a transaction makes on the users table. */
  predicate UserStatement(tx: Tx, s: Option<Users.Stmt>) {
    match s
    case None => !(tx.Register? || tx.LoginPassed? || tx.SetUserStatus? || tx.LoginFailed?)
    case Some(Insert(id, row)) => tx.Register? && tx.user == id && row.failedLogins == 0 && row.lockedUntil.None?
    case Some(RecordFailedLogin(id, threshold, until, now)) =>
      && tx.LoginFailed? && tx.user == id && now == tx.now
      && threshold == 5 && until == tx.now + 900_000_000_000
    case Some(ResetFailedLogin(id, _)) => tx.LoginPassed? && tx.user == id
    case Some(UpdateStatus(id, _, _, _, _)) => tx.SetUserStatus? && tx.user == id
    case Some(UpdateProfile(_, _, _, _, _)) => tx.UpdateProfile?
  }

  lemma UserStatements(tx: Tx)
    ensures UserStatement(tx, PlanOf(tx).users)
  {
  }

  lemma LockMoves(t: Users.Table, tx: Tx, s: Option<Users.Stmt>, log: seq<Tx>, user: Atom)
    requires UserStatement(tx, s) && OnUsers(t, s).Effect?
    requires user in t ==> Locks(t[user], Streak(log, user))
    ensures var t' := OnUsers(t, s).table; user in t' ==> Locks(t'[user], Streak(log + [tx], user))
  {
    assert (log + [tx])[..|log|] == log;
  }

  lemma LocksStep(w: World, step: Step)
    requires LocksFollow(w.db, w.log)
    ensures LocksFollow(Next(w, step).db, Next(w, step).log)
  {
    StepCases(w, step);
    if IsCommit(w, step) {
      var tx, w' := step.tx, Next(w, step);
      CommitEffects(w.db, PlanOf(tx));
      UserStatements(tx);
      forall user | user in w'.db.users ensures Locks(w'.db.users[user], Streak(w'.log, user)) {
        LockMoves(w.db.users, tx, PlanOf(tx).users, w.log, user);
      }
    }
  }

  lemma LocksRun(w: World, steps: seq<Step>)
    requires LocksFollow(w.db, w.log)
    ensures LocksFollow(Run(w, steps).db, Run(w, steps).log)
  {
    if steps != [] {
      LocksRun(w, steps[..|steps| - 1]);
      LocksStep(Run(w, steps[..|steps| - 1]), steps[|steps| - 1]);
    }
  }

  /** In every interleaving the counter counts the failures since it was last cleared, and
      the account carries a lock exactly when there are five of them. */
  lemma {:induction false} LockedExactlyAtThreshold(config: Config, now: Time, steps: seq<Step>, user: Atom)
    ensures var w := Run(Start(config, now), steps);
      user in w.db.users ==>
        && Locks(w.db.users[user], Streak(w.log, user))
        && (w.db.users[user].failedLogins >= 5 <==> w.db.users[user].lockedUntil.Some?)
  {
    LocksRun(Start(config, now), steps);
  }
}
