/** Runs in which an event quotes what is no longer so: one for each kind of event that can. */
module StaleRuns {
  import opened Core
  import opened Database
  import opened Rows
  import opened Transactions
  import opened Calls
  import opened World
  import opened LateLogin
  import opened EventReads
  import Users
  import Credentials
  import Sessions
  import Accounts
  import Outbox

  // A call reads the user; the user is disabled; the call commits at the new version.

  function UserReads(): seq<Step> {
    [Read(2, UserKey(USER)), ReadClock(2)]
  }

  lemma UserRead(w: World)
    requires Settled(w, Users.Active, 1) && History(w, 2) == []
    ensures var w' := Run(w, UserReads());
      && Settled(w', Users.Active, 1) && w'.now == w.now && History(w', 3) == History(w, 3)
      && History(w', 2) == [Saw(UserKey(USER), Some(UserRow(TheUser(Users.Active, 1, w.now)))), SawClock(w.now)]
  {
    RunTwo(w, UserReads()[0], UserReads()[1]);
  }

  function DisabledMeanwhile(now: Time): seq<Step> {
    Registration(now) + UserReads() + Disabling(now)
  }

  lemma ReadBeforeDisabling(config: Config, now: Time)
    ensures var w := Run(Start(config, now), DisabledMeanwhile(now));
      && Settled(w, Users.Disabled, 2) && w.now == now
      && History(w, 2) == [Saw(UserKey(USER), Some(UserRow(TheUser(Users.Active, 1, now)))), SawClock(now)]
  {
    var w := Start(config, now);
    RunAppend(w, Registration(now) + UserReads(), Disabling(now));
    RunAppend(w, Registration(now), UserReads());
    Registered(config, now);
    UserRead(Run(w, Registration(now)));
    NowDisabled(Run(w, Registration(now) + UserReads()));
  }

  function LateLock(now: Time): Tx {
    SetUserStatus(USER, Users.Active, Users.Locked, ADMIN, ADMIN, 2, now)
  }

  lemma LateLockExec(now: Time, outbox: seq<Outbox.Event>)
    ensures var db := Populated(Users.Disabled, 2, now, outbox);
      && Exec(db, PlanOf(LateLock(now))).Committed?
      && Exec(db, PlanOf(LateLock(now))).db.outbox ==
           outbox + [Outbox.UserStatusChanged(USER, Users.Active, Users.Locked, ADMIN)]
  {
  }

  /** The event says the user was active; the commit replaced a disabled user's status. */
  lemma StalePreviousStatus(config: Config, now: Time)
    ensures var w := Run(Start(config, now), DisabledMeanwhile(now));
      Commits(w, 2, LateLock(now)) && !WhollyTrue(w.db, AfterCommit(w, 2, LateLock(now)).db)
  {
    var w := Run(Start(config, now), DisabledMeanwhile(now));
    ReadBeforeDisabling(config, now);
    LateLockExec(now, w.db.outbox);
  }

  function LateRename(now: Time): Tx {
    UpdateProfile(USER, TheUser(Users.Active, 1, now), Users.Profile(ADMIN, USER, EMPTY), ADMIN, ADMIN, 2, now)
  }

  lemma LateRenameExec(now: Time, outbox: seq<Outbox.Event>)
    ensures var db := Populated(Users.Disabled, 2, now, outbox);
      && Exec(db, PlanOf(LateRename(now))).Committed?
      && Exec(db, PlanOf(LateRename(now))).db.users[USER].status.Disabled?
      && Exec(db, PlanOf(LateRename(now))).db.outbox == outbox + [PlanOf(LateRename(now)).event.value.event]
  {
  }

  lemma ShownActive(db: Db, now: Time, after: Db)
    requires USER in after.users && after.users[USER].status.Disabled?
    requires after.outbox == db.outbox + [PlanOf(LateRename(now)).event.value.event]
    ensures !WhollyTrue(db, after)
  {
    assert NewEvent(db, after) == PlanOf(LateRename(now)).event.value.event;
  }

  lemma RenamesLate(w: World)
    requires Settled(w, Users.Disabled, 2)
    requires History(w, 2) == [Saw(UserKey(USER), Some(UserRow(TheUser(Users.Active, 1, w.now)))), SawClock(w.now)]
    ensures Commits(w, 2, LateRename(w.now))
  {
    LateRenameExec(w.now, w.db.outbox);
  }

  /** The event shows an active user; the row it describes is disabled. */
  lemma StaleShownStatus(config: Config, now: Time)
    ensures var w := Run(Start(config, now), DisabledMeanwhile(now));
      Commits(w, 2, LateRename(now)) && !WhollyTrue(w.db, AfterCommit(w, 2, LateRename(now)).db)
  {
    var w := Run(Start(config, now), DisabledMeanwhile(now));
    ReadBeforeDisabling(config, now);
    RenamesLate(w);
    LateRenameExec(now, w.db.outbox);
    ShownActive(w.db, now, AfterCommit(w, 2, LateRename(now)).db);
  }

  // The same with a service account.

  const ACCOUNT: Atom := 20

  function TheAccount(status: Users.Status, version: int, now: Time): Accounts.Account {
    Accounts.Account(ACCOUNT, ACCOUNT, Credentials.Argon2id(PASSWORD, EMPTY), status, EMPTY,
                     Audit(version, now, now, ADMIN, ADMIN))
  }

  function Creation(now: Time): seq<Step> {
    [ReadClock(1),
     Commit(1, CreateAccount(ACCOUNT, ACCOUNT, ACCOUNT, Credentials.Argon2id(PASSWORD, EMPTY), EMPTY, ADMIN, now))]
  }

  function AccountReads(call: Atom): seq<Step> {
    [Read(call, AccountKey(ACCOUNT)), ReadClock(call)]
  }

  function AccountChange(version: int, now: Time): Tx {
    SetAccountStatus(ACCOUNT, Users.Active, Users.Disabled, ADMIN, version, now)
  }

  function AccountDb(status: Users.Status, version: int, now: Time, outbox: seq<Outbox.Event>): Db {
    EMPTY_DB.(accounts := map[ACCOUNT := TheAccount(status, version, now)], outbox := outbox)
  }

  predicate AccountWorld(w: World, status: Users.Status, version: int) {
    w.db == AccountDb(status, version, w.now, w.db.outbox)
  }

  function SaysActive(): Outbox.Event {
    Outbox.AccountStatusChanged(ACCOUNT, Some(Users.Active), Users.Disabled)
  }

  lemma AccountExec(status: Users.Status, version: int, now: Time, outbox: seq<Outbox.Event>)
    ensures Exec(AccountDb(status, version, now, outbox), PlanOf(AccountChange(version, now))) ==
      Committed(AccountDb(Users.Disabled, version + 1, now, outbox + [SaysActive()]))
  {
    var s := Accounts.UpdateStatus(ACCOUNT, Users.Disabled, ADMIN, version, now);
    AccountApplies(status, version, now);
    OnlyAccounts(AccountDb(status, version, now, outbox), s, SaysActive());
  }

  lemma AccountApplies(status: Users.Status, version: int, now: Time)
    ensures Accounts.Apply(map[ACCOUNT := TheAccount(status, version, now)],
                           Accounts.UpdateStatus(ACCOUNT, Users.Disabled, ADMIN, version, now)) ==
      Effect(map[ACCOUNT := TheAccount(Users.Disabled, version + 1, now)], 1)
  {
    var a, b := TheAccount(status, version, now), TheAccount(Users.Disabled, version + 1, now);
    assert map[ACCOUNT := a][ACCOUNT := b] == map[ACCOUNT := b];
    assert a.(status := Users.Disabled, audit := a.audit.Touched(ADMIN, now)) == b;
  }

  lemma OnlyAccounts(db: Db, s: Accounts.Stmt, e: Outbox.Event)
    requires Accounts.Apply(db.accounts, s).Effect?
    ensures Exec(db, NOTHING.(accounts := Some(s), event := Some(Outbox.Emit(e)))) ==
      Committed(db.(accounts := Accounts.Apply(db.accounts, s).table, outbox := db.outbox + [e]))
  {
  }

  lemma AccountCreated(config: Config, now: Time)
    ensures var w := Run(Start(config, now), Creation(now));
      AccountWorld(w, Users.Active, 1) && w.now == now && History(w, 2) == [] && History(w, 3) == []
  {
    var w, r := Start(config, now), Creation(now);
    RunTwo(w, r[0], r[1]);
    CommitOf(Next(w, r[0]), 1, r[1].tx, Exec(EMPTY_DB, PlanOf(r[1].tx)).db);
  }

  lemma AccountRead(w: World, call: Atom, status: Users.Status, version: int)
    requires AccountWorld(w, status, version) && History(w, call) == []
    ensures var w' := Run(w, AccountReads(call));
      && AccountWorld(w', status, version) && w'.now == w.now && w'.used == w.used
      && (forall c :: c != call ==> History(w', c) == History(w, c))
      && History(w', call) ==
           [Saw(AccountKey(ACCOUNT), Some(AccountRow(TheAccount(status, version, w.now)))), SawClock(w.now)]
  {
    RunTwo(w, AccountReads(call)[0], AccountReads(call)[1]);
  }

  predicate QuotesActive(w: World, call: Atom) {
    History(w, call) ==
      [Saw(AccountKey(ACCOUNT), Some(AccountRow(TheAccount(Users.Active, 1, w.now)))), SawClock(w.now)]
  }

  lemma AccountDisabled(w: World)
    requires AccountWorld(w, Users.Active, 1) && QuotesActive(w, 2) && QuotesActive(w, 3)
    ensures var w' := Next(w, Commit(3, AccountChange(1, w.now)));
      AccountWorld(w', Users.Disabled, 2) && w'.now == w.now && QuotesActive(w', 2)
  {
    AccountExec(Users.Active, 1, w.now, w.db.outbox);
    CommitOf(w, 3, AccountChange(1, w.now), AccountDb(Users.Disabled, 2, w.now, w.db.outbox + [SaysActive()]));
  }

  lemma NotActive(outbox: seq<Outbox.Event>, now: Time)
    ensures !WhollyTrue(AccountDb(Users.Disabled, 2, now, outbox),
                        AccountDb(Users.Disabled, 3, now, outbox + [SaysActive()]))
  {
  }

  lemma AccountDisabledAgain(w: World)
    requires AccountWorld(w, Users.Disabled, 2) && QuotesActive(w, 2)
    ensures var tx := AccountChange(2, w.now);
      Commits(w, 2, tx) && !WhollyTrue(w.db, AfterCommit(w, 2, tx).db)
  {
    AccountExec(Users.Disabled, 2, w.now, w.db.outbox);
    NotActive(w.db.outbox, w.now);
  }

  function AccountMeanwhile(now: Time): seq<Step> {
    Creation(now) + AccountReads(2) + AccountReads(3) + [Commit(3, AccountChange(1, now))]
  }

  /** The second of two calls that read the account active says it was active still. */
  lemma StaleAccountStatus(config: Config, now: Time)
    ensures var w := Run(Start(config, now), AccountMeanwhile(now));
      Commits(w, 2, AccountChange(2, now)) && !WhollyTrue(w.db, AfterCommit(w, 2, AccountChange(2, now)).db)
  {
    var w0, a, b, c := Start(config, now), Creation(now), AccountReads(2), AccountReads(3);
    RunAppend(w0, a + b + c, [Commit(3, AccountChange(1, now))]);
    RunAppend(w0, a + b, c);
    RunAppend(w0, a, b);
    AccountCreated(config, now);
    AccountRead(Run(w0, a), 2, Users.Active, 1);
    AccountRead(Run(w0, a + b), 3, Users.Active, 1);
    RunOne(Run(w0, a + b + c), Commit(3, AccountChange(1, now)));
    AccountDisabled(Run(w0, a + b + c));
    AccountDisabledAgain(Run(w0, AccountMeanwhile(now)));
  }

  // A call about to log out reads the session; the session is scoped to a tenant; the logout,
  // which names no version, commits.

  const TENANT: Atom := 21
  const MEMBER: Atom := 22

  function TheSession(tenant: Atom, member: Atom, version: int, actor: Atom, now: Time): Sessions.Session {
    NewSession(USER, TOKEN, CLIENT, LOGIN_ACTOR, now).(tenant := tenant, membership := member,
      audit := Audit(version, now, now, LOGIN_ACTOR, actor))
  }

  function LoggedIn(s: Sessions.Session, now: Time, outbox: seq<Outbox.Event>): Db {
    Populated(Users.Active, 1, now, outbox).(sessions := map[SESSION := s])
  }

  function Unscoped(now: Time): Sessions.Session { TheSession(EMPTY, EMPTY, 1, LOGIN_ACTOR, now) }

  function Scoped(now: Time): Sessions.Session { TheSession(TENANT, MEMBER, 2, ADMIN, now) }

  function Scoping(now: Time): Tx {
    ScopeTenant(SESSION, USER, TENANT, MEMBER, ADMIN, now)
  }

  function LateLogout(now: Time): Tx {
    Logout(SESSION, USER, EMPTY, EMPTY, now)
  }

  lemma OpenActiveExec(now: Time, outbox: seq<Outbox.Event>)
    ensures Exec(Populated(Users.Active, 1, now, outbox), PlanOf(Opening(now))) ==
      Committed(LoggedIn(Unscoped(now), now, outbox))
  {
  }

  lemma ScopeExec(now: Time, outbox: seq<Outbox.Event>)
    ensures Exec(LoggedIn(Unscoped(now), now, outbox), PlanOf(Scoping(now))) ==
      Committed(LoggedIn(Scoped(now), now, outbox))
  {
  }

  lemma LogoutExec(now: Time, outbox: seq<Outbox.Event>)
    ensures var o := Exec(LoggedIn(Scoped(now), now, outbox), PlanOf(LateLogout(now)));
      && o.Committed?
      && SESSION in o.db.sessions && o.db.sessions[SESSION].tenant == TENANT
      && o.db.outbox == outbox + [Outbox.SessionRevoked(SESSION, USER, EMPTY, Sessions.LoggedOut)]
  {
    var db := LoggedIn(Scoped(now), now, outbox);
    assert SESSION in Sessions.Matching(db.sessions, Sessions.OwnId(SESSION, USER));
  }

  function LogoutReads(): seq<Step> {
    [ReadClock(3), Read(3, SessionKey(SESSION))]
  }

  function ScopeSteps(now: Time): seq<Step> {
    [ReadClock(4), Commit(4, Scoping(now))]
  }

  predicate LogoutReady(w: World) {
    History(w, 3) == [SawClock(w.now), Saw(SessionKey(SESSION), Some(SessionRow(Unscoped(w.now))))]
  }

  lemma LogsIn(w: World)
    requires Settled(w, Users.Active, 1) && LoginDecided(History(w, 2), USER, false, w.now)
    ensures var w' := Run(w, [Commit(2, Opening(w.now))]);
      && w'.db == LoggedIn(Unscoped(w.now), w.now, w.db.outbox) && w'.now == w.now
      && (forall call :: call != 2 ==> History(w', call) == History(w, call))
  {
    RunOne(w, Commit(2, Opening(w.now)));
    OpenActiveExec(w.now, w.db.outbox);
    CommitOf(w, 2, Opening(w.now), LoggedIn(Unscoped(w.now), w.now, w.db.outbox));
  }

  lemma SessionThere(now: Time, outbox: seq<Outbox.Event>)
    ensures Lookup(LoggedIn(Unscoped(now), now, outbox), SessionKey(SESSION)) == Some(SessionRow(Unscoped(now)))
  {
  }

  lemma LogoutWaits(w: World)
    requires w.db == LoggedIn(Unscoped(w.now), w.now, w.db.outbox) && History(w, 3) == [] && History(w, 4) == []
    ensures var w' := Run(w, LogoutReads());
      w'.db == w.db && w'.now == w.now && LogoutReady(w') && History(w', 4) == []
  {
    RunTwo(w, LogoutReads()[0], LogoutReads()[1]);
    var v := Next(w, LogoutReads()[0]);
    assert History(v, 3) == [SawClock(w.now)] && History(v, 4) == [];
    SessionThere(w.now, w.db.outbox);
  }

  lemma NowScoped(w: World)
    requires w.db == LoggedIn(Unscoped(w.now), w.now, w.db.outbox) && LogoutReady(w) && History(w, 4) == []
    ensures var w' := Run(w, ScopeSteps(w.now));
      w'.db == LoggedIn(Scoped(w.now), w.now, w.db.outbox) && w'.now == w.now && LogoutReady(w')
  {
    var r := ScopeSteps(w.now);
    RunTwo(w, r[0], r[1]);
    ScopeExec(w.now, w.db.outbox);
    assert History(Next(w, r[0]), 4) == [SawClock(w.now)];
    CommitOf(Next(w, r[0]), 4, r[1].tx, LoggedIn(Scoped(w.now), w.now, w.db.outbox));
  }

  lemma LogsOutLate(w: World)
    requires w.db == LoggedIn(Scoped(w.now), w.now, w.db.outbox) && LogoutReady(w)
    ensures Commits(w, 3, LateLogout(w.now)) && !WhollyTrue(w.db, AfterCommit(w, 3, LateLogout(w.now)).db)
  {
    LogoutExec(w.now, w.db.outbox);
  }

  function ScopedMeanwhile(now: Time): seq<Step> {
    Registration(now) + LoginReads(now) + [Commit(2, Opening(now))] + LogoutReads() + ScopeSteps(now)
  }

  /** The event names no tenant; the session it revokes is scoped to one. */
  lemma StaleTenant(config: Config, now: Time)
    ensures var w := Run(Start(config, now), ScopedMeanwhile(now));
      Commits(w, 3, LateLogout(now)) && !WhollyTrue(w.db, AfterCommit(w, 3, LateLogout(now)).db)
  {
    var w0, a, b, c := Start(config, now), Registration(now), LoginReads(now), [Commit(2, Opening(now))];
    var d, e := LogoutReads(), ScopeSteps(now);
    RunAppend(w0, a + b + c + d, e);
    RunAppend(w0, a + b + c, d);
    RunAppend(w0, a + b, c);
    RunAppend(w0, a, b);
    Registered(config, now);
    LoginWaits(Run(w0, a));
    LogsIn(Run(w0, a + b));
    LogoutWaits(Run(w0, a + b + c));
    NowScoped(Run(w0, a + b + c + d));
    LogsOutLate(Run(w0, a + b + c + d + e));
  }
}
