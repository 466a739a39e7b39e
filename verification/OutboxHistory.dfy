/** The outbox is a faithful history: folding it in commit order gives the current state. */
module OutboxHistory {
  import opened Core
  import opened Database
  import opened Transactions
  import opened Calls
  import opened World
  import opened Versions
  import opened MfaHistory
  import opened Outbox
  import Users
  import Enrollments
  import Accounts

  // What a consumer keeps from the events it has seen.

  function MfaSeen(events: seq<Event>, user: Atom): bool {
    if events == [] then false
    else
      var e := events[|events| - 1];
      if e.MfaStatusChanged? && e.user == user then e.enabled else MfaSeen(events[..|events| - 1], user)
  }

  function UserSeen(events: seq<Event>, user: Atom): Option<Users.Status> {
    if events == [] then None
    else
      var e := events[|events| - 1];
      if e.UserCreated? && e.user == user then Some(e.shown.status)
      else if e.UserStatusChanged? && e.user == user then Some(e.current)
      else UserSeen(events[..|events| - 1], user)
  }

  function ProfileSeen(events: seq<Event>, user: Atom): Option<Users.Profile> {
    if events == [] then None
    else
      var e := events[|events| - 1];
      if (e.UserCreated? || e.UserProfileUpdated?) && e.user == user then Some(e.shown.profile)
      else ProfileSeen(events[..|events| - 1], user)
  }

  function AccountSeen(events: seq<Event>, account: Atom): Option<Users.Status> {
    if events == [] then None
    else
      var e := events[|events| - 1];
      if e.AccountStatusChanged? && e.account == account then Some(e.current)
      else AccountSeen(events[..|events| - 1], account)
  }

  // What the tables say.

  predicate MfaEnabled(db: Db, user: Atom) {
    user in db.enrollments && db.enrollments[user].status.Enabled?
  }

  function UserStatus(db: Db, user: Atom): Option<Users.Status> {
    if user in db.users then Some(db.users[user].status) else None
  }

  function UserProfile(db: Db, user: Atom): Option<Users.Profile> {
    if user in db.users then Some(db.users[user].profile) else None
  }

  function AccountStatus(db: Db, account: Atom): Option<Users.Status> {
    if account in db.accounts then Some(db.accounts[account].status) else None
  }

  predicate Faithful(db: Db, id: Atom) {
    && MfaSeen(db.outbox, id) == MfaEnabled(db, id)
    && UserSeen(db.outbox, id) == UserStatus(db, id)
    && ProfileSeen(db.outbox, id) == UserProfile(db, id)
    && AccountSeen(db.outbox, id) == AccountStatus(db, id)
  }

  // The event of a transaction says what its statements do.

  predicate Emits(e: Option<Outbox.Stmt>) {
    e.Some? && e.value.Emit?
  }

  predicate SwitchesMfa(s: Option<Enrollments.Stmt>) {
    s.Some? && (s.value.Enable? || s.value.AdvanceAtVersion? || s.value.Disable? || s.value.AdminReset?)
  }

  predicate MfaEventMatches(e: Option<Outbox.Stmt>, s: Option<Enrollments.Stmt>) {
    if Emits(e) && e.value.event.MfaStatusChanged? then
      && SwitchesMfa(s)
      && e.value.event.user == s.value.user
      && e.value.event.enabled == (s.value.Enable? || s.value.AdvanceAtVersion?)
    else !SwitchesMfa(s)
  }

  predicate UserEventMatches(e: Option<Outbox.Stmt>, s: Option<Users.Stmt>) {
    if Emits(e) && e.value.event.UserCreated? then
      && s.Some? && s.value.Insert?
      && e.value.event.user == s.value.id && e.value.event.shown == Users.PublicOf(s.value.row)
    else if Emits(e) && e.value.event.UserStatusChanged? then
      s.Some? && s.value.UpdateStatus? && e.value.event.user == s.value.id && e.value.event.current == s.value.status
    else if Emits(e) && e.value.event.UserProfileUpdated? then
      && s.Some? && s.value.UpdateProfile?
      && e.value.event.user == s.value.id && e.value.event.shown.profile == s.value.profile
    else !(s.Some? && (s.value.Insert? || s.value.UpdateStatus? || s.value.UpdateProfile?))
  }

  predicate AccountEventMatches(e: Option<Outbox.Stmt>, s: Option<Accounts.Stmt>) {
    if Emits(e) && e.value.event.AccountStatusChanged? then
      && s.Some? && (s.value.Insert? || s.value.UpdateStatus?)
      && e.value.event.account == s.value.id
      && e.value.event.current == if s.value.Insert? then s.value.row.status else s.value.status
    else !(s.Some? && (s.value.Insert? || s.value.UpdateStatus?))
  }

  lemma EventOf(tx: Tx)
    ensures var p := PlanOf(tx);
      && MfaEventMatches(p.event, p.enrollments)
      && UserEventMatches(p.event, p.users)
      && AccountEventMatches(p.event, p.accounts)
  {
  }

  lemma SeenNext(events: seq<Event>, e: Event, id: Atom)
    ensures MfaSeen(events + [e], id) == if e.MfaStatusChanged? && e.user == id then e.enabled else MfaSeen(events, id)
    ensures UserSeen(events + [e], id) ==
      if e.UserCreated? && e.user == id then Some(e.shown.status)
      else if e.UserStatusChanged? && e.user == id then Some(e.current)
      else UserSeen(events, id)
    ensures ProfileSeen(events + [e], id) ==
      if (e.UserCreated? || e.UserProfileUpdated?) && e.user == id then Some(e.shown.profile)
      else ProfileSeen(events, id)
    ensures AccountSeen(events + [e], id) ==
      if e.AccountStatusChanged? && e.account == id then Some(e.current) else AccountSeen(events, id)
  {
    assert (events + [e])[..|events|] == events;
  }

  lemma MfaFaithful(db: Db, e: Option<Outbox.Stmt>, s: Option<Enrollments.Stmt>, after: Db, revoked: nat, id: Atom)
    requires MfaEventMatches(e, s) && MfaSeen(db.outbox, id) == MfaEnabled(db, id)
    requires EnrollmentStep(db.enrollments, s, after.enrollments, id)
    requires after.outbox == OnOutbox(db.outbox, e, revoked)
    ensures MfaSeen(after.outbox, id) == MfaEnabled(after, id)
  {
    if e.Some? { SeenNext(db.outbox, Outbox.Written(e.value, revoked), id); }
  }

  lemma UsersFaithful(db: Db, e: Option<Outbox.Stmt>, s: Option<Users.Stmt>, after: Db, revoked: nat, id: Atom)
    requires UserEventMatches(e, s) && UserSeen(db.outbox, id) == UserStatus(db, id)
    requires OnUsers(db.users, s).Effect? && after.users == OnUsers(db.users, s).table
    requires after.outbox == OnOutbox(db.outbox, e, revoked)
    ensures UserSeen(after.outbox, id) == UserStatus(after, id)
  {
    if e.Some? { SeenNext(db.outbox, Outbox.Written(e.value, revoked), id); }
  }

  lemma ProfilesFaithful(db: Db, e: Option<Outbox.Stmt>, s: Option<Users.Stmt>, after: Db, revoked: nat, id: Atom)
    requires UserEventMatches(e, s) && ProfileSeen(db.outbox, id) == UserProfile(db, id)
    requires OnUsers(db.users, s).Effect? && after.users == OnUsers(db.users, s).table
    requires after.outbox == OnOutbox(db.outbox, e, revoked)
    ensures ProfileSeen(after.outbox, id) == UserProfile(after, id)
  {
    if e.Some? { SeenNext(db.outbox, Outbox.Written(e.value, revoked), id); }
  }

  lemma AccountsFaithful(db: Db, e: Option<Outbox.Stmt>, s: Option<Accounts.Stmt>, after: Db, revoked: nat, id: Atom)
    requires AccountEventMatches(e, s) && AccountSeen(db.outbox, id) == AccountStatus(db, id)
    requires OnAccounts(db.accounts, s).Effect? && after.accounts == OnAccounts(db.accounts, s).table
    requires after.outbox == OnOutbox(db.outbox, e, revoked)
    ensures AccountSeen(after.outbox, id) == AccountStatus(after, id)
  {
    if e.Some? { SeenNext(db.outbox, Outbox.Written(e.value, revoked), id); }
  }

  lemma CommitFaithful(w: World, call: Atom, tx: Tx, id: Atom)
    requires Faithful(w.db, id) && Commits(w, call, tx)
    ensures Faithful(AfterCommit(w, call, tx).db, id)
  {
    var p, after := PlanOf(tx), AfterCommit(w, call, tx).db;
    CommitEffects(w.db, p);
    EventOf(tx);
    var revoked := OnSessions(w.db.sessions, after.users.Keys, p.sessions).affected;
    CommitMovesEnrollment(w, call, tx, id);
    MfaFaithful(w.db, p.event, p.enrollments, after, revoked, id);
    UsersFaithful(w.db, p.event, p.users, after, revoked, id);
    ProfilesFaithful(w.db, p.event, p.users, after, revoked, id);
    AccountsFaithful(w.db, p.event, p.accounts, after, revoked, id);
  }

  /** At every reachable state, in every interleaving, a consumer that folds the outbox in
      commit order knows who has multi-factor authentication enabled, which users and
      service accounts exist, their current status, and each user's current profile. The
      status it takes from created and status events only: the one a profile event shows
      may be out of date. */
  lemma {:induction false} OutboxFaithful(config: Config, now: Time, steps: seq<Step>, id: Atom)
    ensures Faithful(Run(Start(config, now), steps).db, id)
  {
    if steps != [] {
      var w, step := Run(Start(config, now), steps[..|steps| - 1]), steps[|steps| - 1];
      OutboxFaithful(config, now, steps[..|steps| - 1], id);
      StepCases(w, step);
      if IsCommit(w, step) { CommitFaithful(w, step.call, step.tx, id); }
    }
  }
}
