/** What the log says was last written to a column. */
module Writes {
  import opened Core
  import opened Transactions
  import opened World
  import opened Versions
  import Users
  import Sessions
  import Accounts

  /** The last value written by a transaction of the log, if any. */
  function Last<T>(write: Tx -> Option<T>, log: seq<Tx>): Option<T>
    decreases |log|
  {
    if log == [] then None
    else
      var w := write(log[|log| - 1]);
      if w.Some? then w else Last(write, log[..|log| - 1])
  }

  function Or<T>(o: Option<T>, default: T): T {
    if o.Some? then o.value else default
  }

  lemma LastNext<T>(write: Tx -> Option<T>, log: seq<Tx>, tx: Tx)
    ensures Last(write, log + [tx]) == if write(tx).Some? then write(tx) else Last(write, log)
  {
    assert (log + [tx])[..|log|] == log;
  }

  lemma {:induction false} LastAppend<T>(write: Tx -> Option<T>, a: seq<Tx>, b: seq<Tx>)
    ensures Last(write, a + b) == if Last(write, b).Some? then Last(write, b) else Last(write, a)
  {
    if b == [] {
      assert a + b == a;
    } else {
      LastAppend(write, a, b[..|b| - 1]);
      assert (a + b)[..|a + b| - 1] == a + b[..|b| - 1];
    }
  }

  lemma {:induction false} WhoWrote<T>(write: Tx -> Option<T>, log: seq<Tx>) returns (j: nat)
    requires Last(write, log).Some?
    ensures j < |log| && write(log[j]) == Last(write, log)
    decreases |log|
  {
    if write(log[|log| - 1]).Some? {
      j := |log| - 1;
    } else {
      j := WhoWrote(write, log[..|log| - 1]);
    }
  }

  /** Status changes of a user. */
  function StatusWrite(user: Atom): Tx -> Option<Users.Status> {
    (tx: Tx) => if tx.SetUserStatus? && tx.user == user then Some(tx.status) else None
  }

  /** Tenants a session is scoped to. */
  function ScopeWrite(session: Atom): Tx -> Option<Atom> {
    (tx: Tx) => if tx.ScopeTenant? && tx.session == session then Some(tx.tenant) else None
  }

  /** Status changes of a service account. */
  function AccountWrite(account: Atom): Tx -> Option<Users.Status> {
    (tx: Tx) => if tx.SetAccountStatus? && tx.account == account then Some(tx.status) else None
  }

  /** Each of these columns is written by one statement of one transaction. */
  lemma WritingStatements(tx: Tx)
    ensures var p := PlanOf(tx);
      && (tx.SetUserStatus? <==> p.users.Some? && p.users.value.UpdateStatus?)
      && (tx.SetUserStatus? ==> p.users.value.id == tx.user && p.users.value.status == tx.status)
      && (tx.ScopeTenant? <==> p.sessions.Some? && p.sessions.value.Scope?)
      && (tx.ScopeTenant? ==> p.sessions.value.id == tx.session && p.sessions.value.tenant == tx.tenant)
      && (tx.SetAccountStatus? <==> p.accounts.Some? && p.accounts.value.UpdateStatus?)
      && (tx.SetAccountStatus? ==> p.accounts.value.id == tx.account && p.accounts.value.status == tx.status)
  {
  }

  lemma UserMoves(w: World, tx: Tx, w': World, user: Atom)
    requires Moves(w, tx, w') && user in w.db.users
    ensures user in w'.db.users
    ensures var a, b := w.db.users[user], w'.db.users[user];
      && b.status == Or(StatusWrite(user)(tx), a.status)
      && b.username == a.username
      && b.audit.createdAt == a.audit.createdAt && b.audit.createdBy == a.audit.createdBy
  {
    WritingStatements(tx);
    var s := PlanOf(tx).users;
    if s.Some? { assert Users.Evolves(w.db.users, s.value, w'.db.users, user); }
  }

  lemma SessionMoves(w: World, tx: Tx, w': World, id: Atom)
    requires Moves(w, tx, w') && id in w.used
    ensures id in w'.used && (id in w'.db.sessions ==> id in w.db.sessions)
    ensures id in w'.db.sessions ==>
      && w'.db.sessions[id].userId == w.db.sessions[id].userId
      && w'.db.sessions[id].tenant == Or(ScopeWrite(id)(tx), w.db.sessions[id].tenant)
  {
    WritingStatements(tx);
    var s := PlanOf(tx).sessions;
    if s.Some? { assert Sessions.Evolves(w.db.sessions, s.value, w'.db.sessions, id); }
  }

  lemma AccountMoves(w: World, tx: Tx, w': World, id: Atom)
    requires Moves(w, tx, w') && id in w.db.accounts
    ensures id in w'.db.accounts
    ensures w'.db.accounts[id].status == Or(AccountWrite(id)(tx), w.db.accounts[id].status)
  {
    WritingStatements(tx);
    var s := PlanOf(tx).accounts;
    if s.Some? { assert Accounts.Evolves(w.db.accounts, s.value, w'.db.accounts, id); }
  }

  // From one moment to a later one.

  function Since(w: World, w': World): seq<Tx>
    requires w.log <= w'.log
  {
    w'.log[|w.log|..]
  }

  predicate UserSince(w: World, w': World, user: Atom) {
    && w.log <= w'.log && user in w.db.users && user in w'.db.users
    && var a, b := w.db.users[user], w'.db.users[user];
       && b.status == Or(Last(StatusWrite(user), Since(w, w')), a.status)
       && b.username == a.username
       && b.audit.createdAt == a.audit.createdAt && b.audit.createdBy == a.audit.createdBy
  }

  predicate SessionSince(w: World, w': World, id: Atom) {
    && w.log <= w'.log && id in w.db.sessions && id in w'.used
    && (id in w'.db.sessions ==>
          && w'.db.sessions[id].userId == w.db.sessions[id].userId
          && w'.db.sessions[id].tenant == Or(Last(ScopeWrite(id), Since(w, w')), w.db.sessions[id].tenant))
  }

  predicate AccountSince(w: World, w': World, id: Atom) {
    && w.log <= w'.log && id in w.db.accounts && id in w'.db.accounts
    && w'.db.accounts[id].status == Or(Last(AccountWrite(id), Since(w, w')), w.db.accounts[id].status)
  }

  lemma SinceNext(w: World, w': World, tx: Tx, w'': World)
    requires w.log <= w'.log && w''.log == w'.log + [tx]
    ensures w.log <= w''.log && Since(w, w'') == Since(w, w') + [tx]
  {
  }

  lemma SinceStep(w: World, w': World, step: Step, user: Atom, session: Atom, account: Atom)
    ensures var w'' := Next(w', step);
      && (UserSince(w, w', user) ==> UserSince(w, w'', user))
      && (SessionSince(w, w', session) ==> SessionSince(w, w'', session))
      && (AccountSince(w, w', account) ==> AccountSince(w, w'', account))
  {
    StepCases(w', step);
    if IsCommit(w', step) && w.log <= w'.log {
      var w'' := Next(w', step);
      SinceNext(w, w', step.tx, w'');
      LastNext(StatusWrite(user), Since(w, w'), step.tx);
      LastNext(ScopeWrite(session), Since(w, w'), step.tx);
      LastNext(AccountWrite(account), Since(w, w'), step.tx);
      if UserSince(w, w', user) { UserMoves(w', step.tx, w'', user); }
      if SessionSince(w, w', session) { SessionMoves(w', step.tx, w'', session); }
      if AccountSince(w, w', account) { AccountMoves(w', step.tx, w'', account); }
    }
  }

  /** Between any two moments of any run: the status of a user or account is the last one
      written in between, the tenant of a session the last one it was scoped to, and the
      owner of a session and the name and origin of a user never change. */
  lemma {:induction false} ColumnsSince(w: World, steps: seq<Step>, user: Atom, session: Atom, account: Atom)
    requires session in w.db.sessions ==> session in w.used
    ensures user in w.db.users ==> UserSince(w, Run(w, steps), user)
    ensures session in w.db.sessions ==> SessionSince(w, Run(w, steps), session)
    ensures account in w.db.accounts ==> AccountSince(w, Run(w, steps), account)
    decreases |steps|
  {
    if steps != [] {
      ColumnsSince(w, steps[..|steps| - 1], user, session, account);
      SinceStep(w, Run(w, steps[..|steps| - 1]), steps[|steps| - 1], user, session, account);
    }
  }
}
