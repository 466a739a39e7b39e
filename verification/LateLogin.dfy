/** A run in which a login that is past its reads opens a session for a user disabled in
    the meantime. InactiveOwners says exactly which runs do. */
module LateLogin {
  import opened Core
  import opened Database
  import opened Rows
  import opened Transactions
  import opened Calls
  import opened World
  import opened LiveOwners
  import Users
  import Credentials
  import Sessions
  import Outbox

  const USER: Atom := 10
  const CREDENTIAL: Atom := 11
  const SESSION: Atom := 12
  const TOKEN: Atom := 13
  const PASSWORD: Atom := 14
  const ADMIN: Atom := 15
  const CLIENT := Client(EMPTY, EMPTY)

  function TheUser(status: Users.Status, version: int, now: Time): Users.User {
    Users.User(USER, Users.Profile(USER, USER, EMPTY), status, 0, None, Audit(version, now, now, ADMIN, ADMIN))
  }

  function TheCredential(now: Time): Credentials.Credential {
    Credentials.Credential(USER, Credentials.Argon2id(PASSWORD, EMPTY), Users.Active, NewAudit(ADMIN, now))
  }

  function Registration(now: Time): seq<Step> {
    [ReadClock(1),
     Commit(1, Register(USER, CREDENTIAL, USER, Users.Profile(USER, USER, EMPTY),
                        Credentials.Argon2id(PASSWORD, EMPTY), ADMIN, now))]
  }

  /** Everything a login does before it opens the session. */
  function LoginReads(now: Time): seq<Step> {
    [Read(2, UserKey(USER)), Read(2, CredentialKey(CREDENTIAL)), ReadClock(2),
     Commit(2, LoginPassed(USER, PASSWORD, now)), Read(2, EnrollmentKey(USER)), ReadClock(2)]
  }

  function Disabling(now: Time): seq<Step> {
    [Read(3, UserKey(USER)), ReadClock(3),
     Commit(3, SetUserStatus(USER, Users.Active, Users.Disabled, ADMIN, ADMIN, 1, now))]
  }

  function Opening(now: Time): Tx {
    OpenSession(SESSION, USER, TOKEN, CLIENT, now)
  }

  lemma RunOne(w: World, s: Step)
    ensures Run(w, [s]) == Next(w, s)
  {
    assert Run(w, [s][..0]) == w;
  }

  lemma RunCons(w: World, s: Step, rest: seq<Step>)
    ensures Run(w, [s] + rest) == Run(Next(w, s), rest)
  {
    RunOne(w, s);
    RunAppend(w, [s], rest);
  }

  lemma RunTwo(w: World, a: Step, b: Step)
    ensures Run(w, [a, b]) == Next(Next(w, a), b)
  {
    RunCons(w, a, [b]);
    RunOne(Next(w, a), b);
    assert [a, b] == [a] + [b];
  }

  lemma RunThree(w: World, a: Step, b: Step, c: Step)
    ensures Run(w, [a, b, c]) == Next(Next(Next(w, a), b), c)
  {
    RunCons(w, a, [b, c]);
    RunTwo(Next(w, a), b, c);
    assert [a, b, c] == [a] + [b, c];
  }

  lemma RunSix(w: World, a: Step, b: Step, c: Step, d: Step, e: Step, f: Step)
    ensures Run(w, [a, b, c, d, e, f]) == Next(Next(Next(Next(Next(Next(w, a), b), c), d), e), f)
  {
    RunAppend(w, [a, b, c], [d, e, f]);
    RunThree(w, a, b, c);
    RunThree(Next(Next(Next(w, a), b), c), d, e, f);
    assert [a, b, c, d, e, f] == [a, b, c] + [d, e, f];
  }

  // What the four transactions do to the database.

  function Populated(status: Users.Status, version: int, now: Time, outbox: seq<Outbox.Event>): Db {
    EMPTY_DB.(users := map[USER := TheUser(status, version, now)],
              credentials := map[CREDENTIAL := TheCredential(now)],
              outbox := outbox)
  }

  function Created(now: Time): Outbox.Event {
    Outbox.UserCreated(USER, Users.PublicOf(TheUser(Users.Active, 1, now)))
  }

  lemma RegisterExec(now: Time)
    ensures Exec(EMPTY_DB, PlanOf(Registration(now)[1].tx))
         == Committed(Populated(Users.Active, 1, now, [Created(now)]))
  {
  }

  lemma PassExec(now: Time, outbox: seq<Outbox.Event>)
    ensures var db := Populated(Users.Active, 1, now, outbox);
      Exec(db, PlanOf(LoginPassed(USER, PASSWORD, now))) == Committed(db)
  {
  }

  lemma DisableExec(now: Time, outbox: seq<Outbox.Event>)
    ensures Exec(Populated(Users.Active, 1, now, outbox), PlanOf(Disabling(now)[2].tx))
         == Committed(Populated(Users.Disabled, 2, now,
                                outbox + [Outbox.UserStatusChanged(USER, Users.Active, Users.Disabled, ADMIN)]))
  {
    var reason := Sessions.StatusChangedTo(Users.Disabled);
    assert Sessions.RevokeWhere(map[], Sessions.AllOf(USER, now), reason, ADMIN, now) == map[];
  }

  lemma OpenExec(now: Time, outbox: seq<Outbox.Event>)
    ensures var db := Populated(Users.Disabled, 2, now, outbox);
      Exec(db, PlanOf(Opening(now))) ==
        Committed(db.(sessions := map[SESSION := NewSession(USER, TOKEN, CLIENT, LOGIN_ACTOR, now)]))
  {
  }

  // The run, call by call.

  lemma CommitOf(w: World, call: Atom, tx: Tx, after: Db)
    requires Permits(w.config, History(w, call), tx) && Generated(tx) !! w.used
    requires Exec(w.db, PlanOf(tx)) == Committed(after)
    ensures Next(w, Commit(call, tx)) ==
      w.(db := after, calls := Extended(w, call, Ran(tx, true)), used := w.used + Generated(tx), log := w.log + [tx])
  {
  }

  predicate Settled(w: World, status: Users.Status, version: int) {
    && w.db == Populated(status, version, w.now, w.db.outbox)
    && w.used == RESERVED + {USER, CREDENTIAL}
  }

  lemma Registered(config: Config, now: Time)
    ensures var w := Run(Start(config, now), Registration(now));
      Settled(w, Users.Active, 1) && w.now == now && forall call :: call != 1 ==> History(w, call) == []
  {
    var r, w := Registration(now), Start(config, now);
    RunTwo(w, r[0], r[1]);
    RegisterExec(now);
    CommitOf(Next(w, r[0]), 1, r[1].tx, Populated(Users.Active, 1, now, [Created(now)]));
  }

  function PasswordSeen(now: Time): seq<Act> {
    [Saw(UserKey(USER), Some(UserRow(TheUser(Users.Active, 1, now)))),
     Saw(CredentialKey(CREDENTIAL), Some(CredentialRow(TheCredential(now)))),
     SawClock(now)]
  }

  lemma PasswordPassed(w: World)
    requires Settled(w, Users.Active, 1) && History(w, 2) == []
    ensures var r := LoginReads(w.now); var w' := Next(Next(Next(Next(w, r[0]), r[1]), r[2]), r[3]);
      && w'.db == w.db && w'.now == w.now && w'.used == w.used
      && History(w', 2) == PasswordSeen(w.now) + [Ran(LoginPassed(USER, PASSWORD, w.now), true)]
      && (forall call :: call != 2 ==> History(w', call) == History(w, call))
  {
    var r := LoginReads(w.now);
    var v := Next(Next(Next(w, r[0]), r[1]), r[2]);
    var seen := PasswordSeen(w.now);
    assert History(Next(w, r[0]), 2) == seen[..1];
    assert History(Next(Next(w, r[0]), r[1]), 2) == seen[..2];
    assert History(v, 2) == seen[..2] + [SawClock(w.now)] == seen;
    PassExec(w.now, w.db.outbox);
    CommitOf(v, 2, r[3].tx, w.db);
  }

  lemma LoginWaits(w: World)
    requires Settled(w, Users.Active, 1) && History(w, 2) == []
    ensures var w' := Run(w, LoginReads(w.now));
      && Settled(w', Users.Active, 1) && w'.now == w.now
      && LoginDecided(History(w', 2), USER, false, w.now)
      && (forall call :: call != 2 ==> History(w', call) == History(w, call))
  {
    var r := LoginReads(w.now);
    RunSix(w, r[0], r[1], r[2], r[3], r[4], r[5]);
    PasswordPassed(w);
    var v := Next(Next(Next(Next(w, r[0]), r[1]), r[2]), r[3]);
    assert History(Next(Next(v, r[4]), r[5]), 2) ==
      PasswordSeen(w.now)
      + [Ran(LoginPassed(USER, PASSWORD, w.now), true), Saw(EnrollmentKey(USER), None), SawClock(w.now)];
  }

  lemma NowDisabled(w: World)
    requires Settled(w, Users.Active, 1) && History(w, 3) == []
    ensures var w' := Run(w, Disabling(w.now));
      Settled(w', Users.Disabled, 2) && w'.now == w.now && History(w', 2) == History(w, 2)
  {
    var r := Disabling(w.now);
    RunThree(w, r[0], r[1], r[2]);
    var v := Next(Next(w, r[0]), r[1]);
    assert History(v, 3) == [Saw(UserKey(USER), Some(UserRow(TheUser(Users.Active, 1, w.now)))), SawClock(w.now)];
    DisableExec(w.now, w.db.outbox);
    CommitOf(v, 3, r[2].tx, Exec(w.db, PlanOf(r[2].tx)).db);
  }

  lemma SessionOpened(w: World)
    requires Settled(w, Users.Disabled, 2) && LoginDecided(History(w, 2), USER, false, w.now)
    ensures !LiveOwnersActive(Next(w, Commit(2, Opening(w.now))))
  {
    OpenExec(w.now, w.db.outbox);
    CommitOf(w, 2, Opening(w.now), Exec(w.db, PlanOf(Opening(w.now))).db);
    var w' := Next(w, Commit(2, Opening(w.now)));
    assert SESSION in w'.db.sessions && Sessions.Live(w'.db.sessions[SESSION], w'.now);
  }

  function Schedule(now: Time): seq<Step> {
    Registration(now) + LoginReads(now) + Disabling(now) + [Commit(2, Opening(now))]
  }

  /** Interleaved with a status change, a login that is past its reads leaves a disabled
      user with a live session. */
  lemma LateLoginEscapes(config: Config, now: Time)
    ensures !LiveOwnersActive(Run(Start(config, now), Schedule(now)))
  {
    var w := Start(config, now);
    var a, b, c, d := Registration(now), LoginReads(now), Disabling(now), [Commit(2, Opening(now))];
    RunAppend(w, a + b + c, d);
    RunAppend(w, a + b, c);
    RunAppend(w, a, b);
    Registered(config, now);
    LoginWaits(Run(w, a));
    NowDisabled(Run(w, a + b));
    SessionOpened(Run(w, a + b + c));
    RunOne(Run(w, a + b + c), d[0]);
  }
}
