/** What a call had seen, and when, before a transaction of its commits: in every run, the
    reads behind each decision of the service, told by the database and the log as they stood
    at the moment of the read. */
module Grounds {
  import opened Core
  import opened Database
  import opened Rows
  import opened Transactions
  import opened Calls
  import opened World
  import opened Locking
  import opened LiveOwners
  import opened Writes
  import opened Columns
  import opened SessionColumns
  import opened Moments
  import opened CodeHistory
  import Credentials

  // The reads. `w` is the start of the run, `k` the step of the read.

  predicate SawActive(w: World, steps: seq<Step>, k: nat, call: Atom, user: Atom) {
    k < |steps| && steps[k] == Read(call, UserKey(user)) && ActiveUser(At(w, steps, k).db, user)
  }

  /** No lock on the user when read reaches past `now`. */
  predicate SawUnlocked(w: World, steps: seq<Step>, k: nat, call: Atom, user: Atom, now: Time) {
    && SawActive(w, steps, k, call, user)
    && var until := At(w, steps, k).db.users[user].lockedUntil;
       until.None? || until.value <= now
  }

  /** The credential read is the user's, and the password last set for it is this one or, if
      `right` is false, another. */
  predicate SawPassword(
      w: World, steps: seq<Step>, k: nat, call: Atom, credential: Atom, user: Atom, password: Atom, right: bool)
  {
    && k < |steps| && steps[k] == Read(call, CredentialKey(credential))
    && var log := At(w, steps, k).log;
       && Last(OwnerWrite(credential), log) == Some(user)
       && Last(SecretWrite(credential), log).Some?
       && (Last(SecretWrite(credential), log).value.password == password <==> right)
  }

  predicate SawTime(w: World, steps: seq<Step>, k: nat, call: Atom, now: Time) {
    k < |steps| && steps[k] == ReadClock(call) && At(w, steps, k).now == now
  }

  predicate SawMfa(w: World, steps: seq<Step>, k: nat, call: Atom, user: Atom, enabled: bool) {
    && k < |steps| && steps[k] == Read(call, EnrollmentKey(user))
    && (Enabled(At(w, steps, k).db.enrollments, user) <==> enabled)
  }

  lemma UserSeen(w: World, steps: seq<Step>, k: nat, call: Atom, a: Act, user: Atom)
    requires ActAt(w, steps, k, call, a) && SawUser(a, user)
    ensures k < |steps| && steps[k] == Read(call, UserKey(user))
    ensures user in At(w, steps, k).db.users && At(w, steps, k).db.users[user] == a.row.value.user
  {
  }

  lemma PasswordSeen(
      config: Config, now: Time, steps: seq<Step>, k: nat, call: Atom, a: Act, user: Atom, password: Atom, right: bool)
    requires ActAt(Start(config, now), steps, k, call, a) && SawCredential(a)
    requires var c := a.row.value.credential; c.userId == user && (Credentials.Verifies(password, c.secret) <==> right)
    ensures SawPassword(Start(config, now), steps, k, call, a.key.id, user, password, right)
  {
    AccountsFollowLog(config, now, steps[..k], a.key.id);
  }

  lemma MfaSeen(w: World, steps: seq<Step>, k: nat, call: Atom, a: Act, user: Atom)
    requires ActAt(w, steps, k, call, a) && a.Saw? && a.key == EnrollmentKey(user)
    ensures SawMfa(w, steps, k, call, user, a.row.Some? && a.row.value.enrollment.status.Enabled?)
    ensures a.row.Some? ==>
      user in At(w, steps, k).db.enrollments && At(w, steps, k).db.enrollments[user] == a.row.value.enrollment
  {
  }

  // Login.

  /** User, credential, clock: the check passed, or failed, on the password given. */
  predicate PasswordChecks(
      w: World, steps: seq<Step>, a: nat, b: nat, c: nat, call: Atom, credential: Atom, user: Atom, password: Atom,
      now: Time, right: bool)
  {
    && a < b < c
    && SawUnlocked(w, steps, a, call, user, now)
    && SawPassword(w, steps, b, call, credential, user, password, right)
    && SawTime(w, steps, c, call, now)
  }

  lemma CheckedLogin(
      config: Config, now: Time, steps: seq<Step>, call: Atom, ks: seq<nat>, user: Atom, password: Atom, passed: bool)
    requires Chronicle(Start(config, now), steps, call, ks)
    requires LoginChecked(History(Run(Start(config, now), steps), call), user, password, passed)
    ensures var h := History(Run(Start(config, now), steps), call);
      PasswordChecks(Start(config, now), steps, ks[0], ks[1], ks[2], call,
                     h[1].key.id, user, password, h[2].now, passed)
  {
    var w0, h := Start(config, now), History(Run(Start(config, now), steps), call);
    UserSeen(w0, steps, ks[0], call, h[0], user);
    PasswordSeen(config, now, steps, ks[1], call, h[1], user, password, passed);
    assert ActAt(w0, steps, ks[2], call, h[2]);
  }

  predicate Recorded(w: World, steps: seq<Step>, a: nat, b: nat, c: nat, call: Atom, credential: Atom, tx: Tx)
    requires tx.LoginFailed? || tx.LoginPassed?
  {
    PasswordChecks(w, steps, a, b, c, call, credential, tx.user, tx.password, tx.now, tx.LoginPassed?)
  }

  lemma LoginHistory(config: Config, h: seq<Act>, tx: Tx)
    requires Permits(config, h, tx) && (tx.LoginFailed? || tx.LoginPassed?)
    ensures LoginChecked(h, tx.user, tx.password, tx.LoginPassed?) && h[2] == SawClock(tx.now)
  {
  }

  /** A login is recorded as passed exactly when, at the moment the credential was read, the
      password given was the one last set for it; the user was active and not locked. */
  lemma LoginRecordedRightly(config: Config, now: Time, steps: seq<Step>, call: Atom, tx: Tx)
    requires (tx.LoginFailed? || tx.LoginPassed?) && Ready(Run(Start(config, now), steps), call, tx)
    ensures exists a: nat, b: nat, c: nat, credential ::
      Recorded(Start(config, now), steps, a, b, c, call, credential, tx)
  {
    var w := Run(Start(config, now), steps);
    var h := History(w, call);
    var ks := Chronicled(config, now, steps, call);
    LoginHistory(w.config, h, tx);
    CheckedLogin(config, now, steps, call, ks, tx.user, tx.password, tx.LoginPassed?);
    assert Recorded(Start(config, now), steps, ks[0], ks[1], ks[2], call, h[1].key.id, tx);
  }

  /** The steps of a login that got past its password. */
  datatype Login = Login(user: nat, credential: nat, clock: nat, passed: nat, enrollment: nat, opening: nat)

  /** The password was right, the pass was recorded, and then the enrollment was read, enabled
      or not as `mfa` says. */
  predicate LoggedIn(
      w: World, steps: seq<Step>, l: Login, call: Atom, credential: Atom, password: Atom, at: Time, tx: Tx, mfa: bool)
    requires tx.OpenSession? || tx.OpenChallenge?
  {
    && PasswordChecks(w, steps, l.user, l.credential, l.clock, call, credential, tx.user, password, at, true)
    && l.clock < l.passed < l.enrollment < l.opening
    && PassRecorded(w, steps, l.passed, call, tx.user, password)
    && SawMfa(w, steps, l.enrollment, call, tx.user, mfa)
    && SawTime(w, steps, l.opening, call, tx.now)
  }

  predicate PassRecorded(w: World, steps: seq<Step>, k: nat, call: Atom, user: Atom, password: Atom) {
    && k < |steps| && steps[k].Commit? && steps[k].call == call
    && steps[k].tx.LoginPassed? && steps[k].tx.user == user && steps[k].tx.password == password
    && Commits(At(w, steps, k), call, steps[k].tx)
  }

  lemma DecidedHistory(config: Config, h: seq<Act>, tx: Tx)
    requires Permits(config, h, tx) && (tx.OpenSession? || tx.OpenChallenge?)
    ensures |h| == 6 && h[3].Ran? && h[3].ok && h[3].tx.LoginPassed? && h[3].tx.user == tx.user
    ensures LoginChecked(h, tx.user, h[3].tx.password, true)
    ensures h[4].Saw? && h[4].key == EnrollmentKey(tx.user) && h[5] == SawClock(tx.now)
    ensures tx.OpenChallenge? <==>
      h[4].row.Some? && h[4].row.value.EnrollmentRow? && h[4].row.value.enrollment.status.Enabled?
  {
  }

  lemma LoggedInSteps(config: Config, now: Time, steps: seq<Step>, call: Atom, tx: Tx)
      returns (l: Login, credential: Atom, password: Atom, at: Time)
    requires (tx.OpenSession? || tx.OpenChallenge?) && Ready(Run(Start(config, now), steps), call, tx)
    ensures LoggedIn(Start(config, now), steps, l, call, credential, password, at, tx, tx.OpenChallenge?)
  {
    var w0, w := Start(config, now), Run(Start(config, now), steps);
    var h := History(w, call);
    var ks := Chronicled(config, now, steps, call);
    DecidedHistory(w.config, h, tx);
    l := Login(ks[0], ks[1], ks[2], ks[3], ks[4], ks[5]);
    credential, password, at := h[1].key.id, h[3].tx.password, h[2].now;
    CheckedLogin(config, now, steps, call, ks, tx.user, password, true);
    PassSeen(w0, steps, ks[3], call, h[3], tx.user, password);
    MfaSeen(w0, steps, ks[4], call, h[4], tx.user);
    assert ActAt(w0, steps, ks[5], call, h[5]);
  }

  lemma PassSeen(w: World, steps: seq<Step>, k: nat, call: Atom, a: Act, user: Atom, password: Atom)
    requires ActAt(w, steps, k, call, a)
    requires a.Ran? && a.ok && a.tx.LoginPassed? && a.tx.user == user && a.tx.password == password
    ensures PassRecorded(w, steps, k, call, user, password)
  {
  }

  /** In every interleaving a login opens a session only after the right password, and only
      when the enrollment, read after the password was checked, was not enabled at that moment.
      It opens a challenge exactly in the other case. */
  lemma SecondFactorDecides(config: Config, now: Time, steps: seq<Step>, call: Atom, tx: Tx)
    requires (tx.OpenSession? || tx.OpenChallenge?) && Ready(Run(Start(config, now), steps), call, tx)
    ensures exists l, credential, password, at ::
      LoggedIn(Start(config, now), steps, l, call, credential, password, at, tx, tx.OpenChallenge?)
  {
    var l, credential, password, at := LoggedInSteps(config, now, steps, call, tx);
  }

  // Refresh.

  /** Session, clock, user, clock: the session was unrevoked and carried the token, and at the
      clock reading it was within thirty days of its opening. */
  predicate Refreshes(w: World, steps: seq<Step>, a: nat, b: nat, c: nat, d: nat, call: Atom, tx: Tx)
    requires tx.Refresh?
  {
    && a < b < c < d < |steps|
    && steps[a] == Read(call, SessionKey(tx.session)) && steps[b] == ReadClock(call)
    && SawActive(w, steps, c, call, tx.user)
    && SawTime(w, steps, d, call, tx.now)
    && var o := Last(OpeningWrite(tx.session), At(w, steps, a).log);
       && o.Some? && o.value.user == tx.user
       && At(w, steps, b).now < o.value.at + 2_592_000_000_000_000
       && EndingIn(At(w, steps, a).log, tx.session, tx.user, o.value.at + 2_592_000_000_000_000).None?
       && Last(TokenWrite(tx.session), At(w, steps, a).log) == Some(tx.previous)
  }

  lemma RefreshHistory(config: Config, h: seq<Act>, tx: Tx)
    requires Permits(config, h, tx) && tx.Refresh?
    ensures |h| == 4 && SawSession(h[0], tx.session) && h[1].SawClock?
    ensures SawUser(h[2], tx.user) && h[3] == SawClock(tx.now)
    ensures h[2].row.value.user.status.Active?
    ensures var s := h[0].row.value.session;
      s.token == tx.previous && s.revokedAt.None? && s.expiresAt > h[1].now && s.userId == tx.user
      && s.audit.version == tx.version
  {
  }

  lemma SessionSeen(config: Config, now: Time, steps: seq<Step>, k: nat, call: Atom, a: Act, id: Atom)
    requires ActAt(Start(config, now), steps, k, call, a) && SawSession(a, id)
    ensures k < |steps| && steps[k] == Read(call, SessionKey(id))
    ensures SessionIs(a.row.value.session, At(Start(config, now), steps, k).log, id)
  {
    SessionsFollowLog(config, now, steps[..k], id);
  }

  /** In every interleaving, a call that refreshes looked at the clock while the session was
      within thirty days of its opening, after reading it unrevoked and with the token it
      presents, and before reading its owner active. */
  lemma RefreshedInTime(config: Config, now: Time, steps: seq<Step>, call: Atom, tx: Tx)
    requires tx.Refresh? && Ready(Run(Start(config, now), steps), call, tx)
    ensures exists a: nat, b: nat, c: nat, d: nat :: Refreshes(Start(config, now), steps, a, b, c, d, call, tx)
  {
    var w0, w := Start(config, now), Run(Start(config, now), steps);
    var h := History(w, call);
    var ks := Chronicled(config, now, steps, call);
    RefreshHistory(w.config, h, tx);
    SessionSeen(config, now, steps, ks[0], call, h[0], tx.session);
    UserSeen(w0, steps, ks[2], call, h[2], tx.user);
    assert ActAt(w0, steps, ks[1], call, h[1]) && ActAt(w0, steps, ks[3], call, h[3]);
    assert Refreshes(w0, steps, ks[0], ks[1], ks[2], ks[3], call, tx);
  }

  /** And the row it commits to is that session, still with that expiry. */
  lemma RefreshedRowInTime(config: Config, now: Time, steps: seq<Step>, call: Atom, tx: Tx)
    requires tx.Refresh? && Commits(Run(Start(config, now), steps), call, tx)
    ensures var w := Run(Start(config, now), steps);
      && tx.session in w.db.sessions
      && exists k: nat ::
           k < |steps| && steps[k] == ReadClock(call)
           && At(Start(config, now), steps, k).now < w.db.sessions[tx.session].expiresAt
  {
    var w0, w := Start(config, now), Run(Start(config, now), steps);
    var h := History(w, call);
    var ks := Chronicled(config, now, steps, call);
    RefreshHistory(w.config, h, tx);
    assert ActAt(w0, steps, ks[1], call, h[1]);
    RefreshGuard(tx);
    var row := h[0].row.value;
    assert h[0] == Saw(SessionKey(tx.session), Some(row));
    NoLostUpdate(config, now, steps, call, tx, SessionKey(tx.session), row);
    assert steps[ks[1]] == ReadClock(call) && At(w0, steps, ks[1]).now < w.db.sessions[tx.session].expiresAt;
  }

  lemma RefreshGuard(tx: Tx)
    requires tx.Refresh?
    ensures GuardedBy(PlanOf(tx), SessionKey(tx.session), tx.version)
  {
  }

  // Tenant scope.

  lemma ScopeEffect(db: Db, tx: Tx, after: Db)
    requires tx.ScopeTenant? && SessionsEffect(db, PlanOf(tx), after)
    ensures tx.session in db.sessions
    ensures var s := db.sessions[tx.session]; s.userId == tx.user && s.revokedAt.None? && tx.now < s.expiresAt
  {
  }

  lemma ScopeHistory(config: Config, h: seq<Act>, tx: Tx)
    requires Permits(config, h, tx) && tx.ScopeTenant?
    ensures h == [SawClock(tx.now)]
  {
  }

  /** A session is scoped to a tenant only while it is the user's and unrevoked at the commit,
      and unexpired at the clock reading of the call. */
  lemma ScopedInTime(config: Config, now: Time, steps: seq<Step>, call: Atom, tx: Tx)
    requires tx.ScopeTenant? && Commits(Run(Start(config, now), steps), call, tx)
    ensures var w := Run(Start(config, now), steps);
      && tx.session in w.db.sessions && w.db.sessions[tx.session].userId == tx.user
      && w.db.sessions[tx.session].revokedAt.None? && tx.now < w.db.sessions[tx.session].expiresAt
    ensures exists k: nat :: SawTime(Start(config, now), steps, k, call, tx.now)
  {
    var w0, w := Start(config, now), Run(Start(config, now), steps);
    CommitEffects(w.db, PlanOf(tx));
    ScopeEffect(w.db, tx, AfterCommit(w, call, tx).db);
    ScopeHistory(w.config, History(w, call), tx);
    var ks := Chronicled(config, now, steps, call);
    assert ActAt(w0, steps, ks[0], call, History(w, call)[0]);
    assert SawTime(w0, steps, ks[0], call, tx.now);
  }
}
