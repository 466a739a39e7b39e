/** What every column holds: the value the last transaction of the log that writes it wrote.
    Users, credentials, service accounts and the tables of multi-factor authentication and
    password reset. */
module Columns {
  import opened Core
  import opened Database
  import opened Transactions
  import opened Calls
  import opened World
  import opened Versions
  import opened Writes
  import Users
  import Credentials
  import Accounts
  import Enrollments
  import RecoveryCodes
  import Challenges
  import Resets

  // Users.

  function NameWrite(user: Atom): Tx -> Option<Atom> {
    (tx: Tx) => if tx.Register? && tx.user == user then Some(tx.username) else None
  }

  function ProfileWrite(user: Atom): Tx -> Option<Users.Profile> {
    (tx: Tx) => if (tx.Register? || tx.UpdateProfile?) && tx.user == user then Some(tx.profile) else None
  }

  function AnyStatusWrite(user: Atom): Tx -> Option<Users.Status> {
    (tx: Tx) =>
      if tx.Register? && tx.user == user then Some(Users.Active)
      else if tx.SetUserStatus? && tx.user == user then Some(tx.status)
      else None
  }

  predicate UserIs(u: Users.User, log: seq<Tx>, id: Atom) {
    && Last(NameWrite(id), log) == Some(u.username)
    && Last(ProfileWrite(id), log) == Some(u.profile)
    && Last(AnyStatusWrite(id), log) == Some(u.status)
  }

  predicate UserWrites(tx: Tx, s: Option<Users.Stmt>) {
    match s
    case None => !tx.Register? && !tx.UpdateProfile? && !tx.SetUserStatus?
    case Some(Insert(id, row)) =>
      && tx.Register? && tx.user == id
      && row.username == tx.username && row.profile == tx.profile && row.status.Active?
    case Some(UpdateStatus(id, status, _, _, _)) => tx.SetUserStatus? && tx.user == id && tx.status == status
    case Some(UpdateProfile(id, profile, _, _, _)) => tx.UpdateProfile? && tx.user == id && tx.profile == profile
    case Some(RecordFailedLogin(_, _, _, _)) => tx.LoginFailed?
    case Some(ResetFailedLogin(_, _)) => tx.LoginPassed?
  }

  lemma UserWritesOf(tx: Tx)
    ensures UserWrites(tx, PlanOf(tx).users)
  {
  }

  lemma UserMovesOn(t: Users.Table, tx: Tx, s: Option<Users.Stmt>, log: seq<Tx>, id: Atom)
    requires UserWrites(tx, s) && OnUsers(t, s).Effect? && (id in t ==> UserIs(t[id], log, id))
    ensures var t' := OnUsers(t, s).table; id in t' ==> UserIs(t'[id], log + [tx], id)
  {
    LastNext(NameWrite(id), log, tx);
    LastNext(ProfileWrite(id), log, tx);
    LastNext(AnyStatusWrite(id), log, tx);
  }

  // Credentials.

  /** The secrets written for a credential. */
  function SecretWrite(id: Atom): Tx -> Option<Credentials.Secret> {
    (tx: Tx) => if (tx.Register? || ChangesPassword(tx)) && tx.credential == id then Some(tx.secret) else None
  }

  function OwnerWrite(id: Atom): Tx -> Option<Atom> {
    (tx: Tx) => if tx.Register? && tx.credential == id then Some(tx.user) else None
  }

  predicate CredentialIs(c: Credentials.Credential, log: seq<Tx>, id: Atom) {
    && Last(SecretWrite(id), log) == Some(c.secret)
    && Last(OwnerWrite(id), log) == Some(c.userId)
    && c.status.Active?
  }

  predicate CredentialWrites(tx: Tx, s: Option<Credentials.Stmt>) {
    match s
    case None => !tx.Register? && !ChangesPassword(tx)
    case Some(Insert(id, row)) =>
      tx.Register? && tx.credential == id && row.userId == tx.user && row.secret == tx.secret && row.status.Active?
    case Some(UpdatePassword(id, secret, _, _, _)) => ChangesPassword(tx) && tx.credential == id && tx.secret == secret
  }

  lemma CredentialWritesOf(tx: Tx)
    ensures CredentialWrites(tx, PlanOf(tx).credentials)
  {
  }

  lemma CredentialMovesOn(
      t: Credentials.Table, users: set<Atom>, tx: Tx, s: Option<Credentials.Stmt>, log: seq<Tx>, id: Atom)
    requires CredentialWrites(tx, s) && OnCredentials(t, users, s).Effect? && (id in t ==> CredentialIs(t[id], log, id))
    ensures var t' := OnCredentials(t, users, s).table; id in t' ==> CredentialIs(t'[id], log + [tx], id)
  {
    LastNext(SecretWrite(id), log, tx);
    LastNext(OwnerWrite(id), log, tx);
  }

  // Service accounts.

  function AccountSecretWrite(id: Atom): Tx -> Option<Credentials.Secret> {
    (tx: Tx) => if (tx.CreateAccount? || tx.RotateAccountSecret?) && tx.account == id then Some(tx.secret) else None
  }

  function AnyAccountWrite(id: Atom): Tx -> Option<Users.Status> {
    (tx: Tx) =>
      if tx.CreateAccount? && tx.account == id then Some(Users.Active)
      else if tx.SetAccountStatus? && tx.account == id then Some(tx.status)
      else None
  }

  function CreationWrite(id: Atom): Tx -> Option<(Atom, Atom, Atom)> {
    (tx: Tx) => if tx.CreateAccount? && tx.account == id then Some((tx.clientId, tx.name, tx.audiences)) else None
  }

  predicate AccountIs(a: Accounts.Account, log: seq<Tx>, id: Atom) {
    && Last(AccountSecretWrite(id), log) == Some(a.secret)
    && Last(AnyAccountWrite(id), log) == Some(a.status)
    && Last(CreationWrite(id), log) == Some((a.clientId, a.name, a.audiences))
  }

  predicate AccountWrites(tx: Tx, s: Option<Accounts.Stmt>) {
    match s
    case None => !tx.CreateAccount? && !tx.SetAccountStatus? && !tx.RotateAccountSecret?
    case Some(Insert(id, row)) =>
      && tx.CreateAccount? && tx.account == id && row.secret == tx.secret && row.status.Active?
      && row.clientId == tx.clientId && row.name == tx.name && row.audiences == tx.audiences
    case Some(UpdateStatus(id, status, _, _, _)) => tx.SetAccountStatus? && tx.account == id && tx.status == status
    case Some(RotateSecret(id, secret, _, _, _)) => tx.RotateAccountSecret? && tx.account == id && tx.secret == secret
  }

  lemma AccountWritesOf(tx: Tx)
    ensures AccountWrites(tx, PlanOf(tx).accounts)
  {
  }

  lemma AccountMovesOn(t: Accounts.Table, tx: Tx, s: Option<Accounts.Stmt>, log: seq<Tx>, id: Atom)
    requires AccountWrites(tx, s) && OnAccounts(t, s).Effect? && (id in t ==> AccountIs(t[id], log, id))
    ensures var t' := OnAccounts(t, s).table; id in t' ==> AccountIs(t'[id], log + [tx], id)
  {
    LastNext(AccountSecretWrite(id), log, tx);
    LastNext(AnyAccountWrite(id), log, tx);
    LastNext(CreationWrite(id), log, tx);
  }

  // Enrollments.

  predicate StartsSetup(tx: Tx) { tx.StartSetup? || tx.RestartSetup? }

  function SealedWrite(user: Atom): Tx -> Option<Atom> {
    (tx: Tx) => if StartsSetup(tx) && tx.user == user then Some(tx.sealed) else None
  }

  function SetupWrite(user: Atom): Tx -> Option<Time> {
    (tx: Tx) => if StartsSetup(tx) && tx.user == user then Some(tx.now) else None
  }

  function MfaWrite(user: Atom): Tx -> Option<Enrollments.Status> {
    (tx: Tx) =>
      if StartsSetup(tx) && tx.user == user then Some(Enrollments.Pending)
      else if tx.ConfirmSetup? && tx.user == user then Some(Enrollments.Enabled)
      else if (tx.DisableMfa? || tx.ResetMfa?) && tx.user == user then Some(Enrollments.Disabled)
      else None
  }

  function StepWrite(user: Atom): Tx -> Option<int> {
    (tx: Tx) =>
      if (StartsSetup(tx) || tx.ResetMfa?) && tx.user == user then Some(-1)
      else if (tx.ConfirmSetup? || tx.DisableMfa? || tx.RegenerateCodes?) && tx.user == user then Some(tx.step)
      else if tx.VerifyChallenge? && tx.user == user && tx.factor.TotpStep? then Some(tx.factor.step)
      else None
  }

  function EnabledWrite(user: Atom): Tx -> Option<Option<Time>> {
    (tx: Tx) =>
      if (StartsSetup(tx) || tx.ResetMfa?) && tx.user == user then Some(None)
      else if tx.ConfirmSetup? && tx.user == user then Some(Some(tx.now))
      else None
  }

  predicate EnrollmentIs(e: Enrollments.Enrollment, log: seq<Tx>, user: Atom) {
    && Last(SealedWrite(user), log) == Some(e.secret)
    && Last(MfaWrite(user), log) == Some(e.status)
    && Last(StepWrite(user), log) == Some(e.lastUsedStep)
    && Last(EnabledWrite(user), log) == Some(e.enabledAt)
    && (e.status.Pending? ==> Last(SetupWrite(user), log) == Some(e.audit.updatedAt))
  }

  predicate EnrollmentWrites(tx: Tx, s: Option<Enrollments.Stmt>) {
    match s
    case None =>
      && !StartsSetup(tx) && !tx.ConfirmSetup? && !tx.DisableMfa? && !tx.RegenerateCodes? && !tx.ResetMfa?
      && !(tx.VerifyChallenge? && tx.factor.TotpStep?)
    case Some(Insert(user, row)) =>
      && tx.StartSetup? && tx.user == user
      && row.secret == tx.sealed && row.status.Pending? && row.lastUsedStep == -1 && row.enabledAt.None?
      && row.audit.updatedAt == tx.now
    case Some(ResetPending(user, secret, _, _, now)) =>
      tx.RestartSetup? && tx.user == user && tx.sealed == secret && tx.now == now
    case Some(Enable(user, step, _, _, now)) => tx.ConfirmSetup? && tx.user == user && tx.step == step && tx.now == now
    case Some(Disable(user, step, _, _, _)) => tx.DisableMfa? && tx.user == user && tx.step == step
    case Some(AdminReset(user, _, _, _)) => tx.ResetMfa? && tx.user == user
    case Some(Advance(user, step, _, _)) =>
      tx.VerifyChallenge? && tx.user == user && tx.factor.TotpStep? && tx.factor.step == step
    case Some(AdvanceAtVersion(user, step, _, _, _)) => tx.RegenerateCodes? && tx.user == user && tx.step == step
  }

  lemma EnrollmentWritesOf(tx: Tx)
    ensures EnrollmentWrites(tx, PlanOf(tx).enrollments)
  {
  }

  lemma EnrollmentMovesOn(
      t: Enrollments.Table, users: set<Atom>, tx: Tx, s: Option<Enrollments.Stmt>, log: seq<Tx>, user: Atom)
    requires EnrollmentWrites(tx, s) && OnEnrollments(t, users, s).Effect?
    requires user in t ==> EnrollmentIs(t[user], log, user)
    ensures var t' := OnEnrollments(t, users, s).table; user in t' ==> EnrollmentIs(t'[user], log + [tx], user)
  {
    LastNext(SealedWrite(user), log, tx);
    LastNext(SetupWrite(user), log, tx);
    LastNext(MfaWrite(user), log, tx);
    LastNext(StepWrite(user), log, tx);
    LastNext(EnabledWrite(user), log, tx);
  }

  // Recovery codes.

  predicate ReplacesCodes(tx: Tx) { tx.ConfirmSetup? || tx.RegenerateCodes? }

  predicate DropsCodes(tx: Tx) { tx.RestartSetup? || tx.DisableMfa? || tx.ResetMfa? }

  function HashesWrite(user: Atom): Tx -> Option<seq<Atom>> {
    (tx: Tx) =>
      if ReplacesCodes(tx) && tx.user == user then Some(tx.hashes)
      else if DropsCodes(tx) && tx.user == user then Some([])
      else None
  }

  predicate SpendsCode(tx: Tx, user: Atom, hash: Atom) {
    tx.VerifyChallenge? && tx.user == user && tx.factor == RecoveryCode(hash)
  }

  function SpentWrite(user: Atom, hash: Atom): Tx -> Option<Option<Time>> {
    (tx: Tx) =>
      if ReplacesCodes(tx) && tx.user == user then Some(None)
      else if SpendsCode(tx, user, hash) then Some(Some(tx.now))
      else None
  }

  /** The codes there are, and when each was used. */
  ghost predicate CodesAre(t: RecoveryCodes.Table, log: seq<Tx>, user: Atom) {
    var hashes := Or(Last(HashesWrite(user), log), []);
    && (user in t <==> hashes != [])
    && (user in t ==>
          && t[user].Keys == (set h | h in hashes)
          && forall h :: h in t[user] ==> Last(SpentWrite(user, h), log) == Some(t[user][h].consumedAt))
  }

  predicate CodesWrites(tx: Tx, s: Option<RecoveryCodes.Stmt>) {
    match s
    case None => !ReplacesCodes(tx) && !DropsCodes(tx) && !(tx.VerifyChallenge? && tx.factor.RecoveryCode?)
    case Some(Delete(user)) => DropsCodes(tx) && tx.user == user
    case Some(Replace(user, hashes, _, _)) => ReplacesCodes(tx) && tx.user == user && tx.hashes == hashes
    case Some(Consume(user, hash, _, now)) => SpendsCode(tx, user, hash) && tx.now == now
  }

  lemma CodesWritesOf(tx: Tx)
    ensures CodesWrites(tx, PlanOf(tx).codes)
  {
  }

  lemma CodesMoveOn(
      t: RecoveryCodes.Table, users: set<Atom>, tx: Tx, s: Option<RecoveryCodes.Stmt>, log: seq<Tx>, user: Atom)
    requires CodesWrites(tx, s) && OnCodes(t, users, s).Effect? && CodesAre(t, log, user)
    ensures CodesAre(OnCodes(t, users, s).table, log + [tx], user)
  {
    var t' := OnCodes(t, users, s).table;
    LastNext(HashesWrite(user), log, tx);
    forall h ensures Last(SpentWrite(user, h), log + [tx]) ==
      if SpentWrite(user, h)(tx).Some? then SpentWrite(user, h)(tx) else Last(SpentWrite(user, h), log)
    {
      LastNext(SpentWrite(user, h), log, tx);
    }
    if s.Some? && s.value.Replace? && s.value.user == user {
      assert t'[user].Keys == set h | h in s.value.hashes;
    } else if s.Some? && s.value.Consume? && s.value.user == user {
      assert t'[user].Keys == t[user].Keys;
    }
  }

  // Login challenges.

  function ChallengeWrite(id: Atom): Tx -> Option<(Atom, Client, Time)> {
    (tx: Tx) =>
      if tx.OpenChallenge? && tx.challenge == id then Some((tx.user, tx.client, tx.now + tx.ttl)) else None
  }

  function AnswerWrite(id: Atom): Tx -> Option<Option<Time>> {
    (tx: Tx) =>
      if tx.OpenChallenge? && tx.challenge == id then Some(None)
      else if tx.VerifyChallenge? && tx.challenge == id then Some(Some(tx.now))
      else None
  }

  predicate ChallengeIs(c: Challenges.Challenge, log: seq<Tx>, id: Atom) {
    && Last(ChallengeWrite(id), log) == Some((c.userId, c.client, c.expiresAt))
    && Last(AnswerWrite(id), log) == Some(c.consumedAt)
  }

  predicate ChallengeWrites(tx: Tx, s: Option<Challenges.Stmt>) {
    match s
    case None => !tx.OpenChallenge? && !tx.VerifyChallenge?
    case Some(Insert(id, row)) =>
      && tx.OpenChallenge? && tx.challenge == id
      && row.userId == tx.user && row.client == tx.client && row.expiresAt == tx.now + tx.ttl && row.consumedAt.None?
    case Some(Consume(id, _, _, now)) => tx.VerifyChallenge? && tx.challenge == id && tx.now == now
    case Some(Delete(_, _)) => tx.CleanChallenges?
  }

  lemma ChallengeWritesOf(tx: Tx)
    ensures ChallengeWrites(tx, PlanOf(tx).challenges)
  {
  }

  lemma ChallengeMovesOn(
      t: Challenges.Table, users: set<Atom>, tx: Tx, s: Option<Challenges.Stmt>, log: seq<Tx>, id: Atom)
    requires ChallengeWrites(tx, s) && OnChallenges(t, users, s).Effect? && (id in t ==> ChallengeIs(t[id], log, id))
    ensures var t' := OnChallenges(t, users, s).table; id in t' ==> ChallengeIs(t'[id], log + [tx], id)
  {
    LastNext(ChallengeWrite(id), log, tx);
    LastNext(AnswerWrite(id), log, tx);
  }

  // Password resets.

  function ResetWrite(id: Atom): Tx -> Option<(Atom, Atom, Time)> {
    (tx: Tx) =>
      if tx.IssueReset? && tx.reset == id then Some((tx.user, tx.reason, tx.now + 1_800_000_000_000)) else None
  }

  /** When the token was used up: by its own confirmation, or by the next token issued to its
      user, whichever came first. */
  function UsedUp(log: seq<Tx>, id: Atom, user: Atom): Option<Time>
    decreases |log|
  {
    if log == [] then None
    else
      var tx, earlier := log[|log| - 1], UsedUp(log[..|log| - 1], id, user);
      if tx.IssueReset? && tx.reset == id then None
      else if earlier.Some? then earlier
      else if (tx.IssueReset? && tx.user == user) || (tx.ConfirmReset? && tx.reset == id) then Some(tx.now)
      else None
  }

  predicate ResetIs(r: Resets.Reset, log: seq<Tx>, id: Atom) {
    && Last(ResetWrite(id), log) == Some((r.userId, r.reason, r.expiresAt))
    && UsedUp(log, id, r.userId) == r.consumedAt
  }

  predicate ResetWrites(tx: Tx, inv: Option<Resets.Stmt>, s: Option<Resets.Stmt>) {
    if tx.IssueReset? then
      && inv.Some? && inv.value.Invalidate? && inv.value.user == tx.user && inv.value.now == tx.now
      && s.Some? && s.value.Insert? && s.value.token == tx.reset
      && s.value.row.userId == tx.user && s.value.row.reason == tx.reason
      && s.value.row.expiresAt == tx.now + 1_800_000_000_000 && s.value.row.consumedAt.None?
    else if tx.ConfirmReset? then
      inv.None? && s.Some? && s.value.Consume? && s.value.token == tx.reset && s.value.now == tx.now
    else inv.None? && (s.None? || s.value.Delete?)
  }

  lemma ResetWritesOf(tx: Tx)
    ensures ResetWrites(tx, PlanOf(tx).invalidation, PlanOf(tx).resets)
  {
  }

  lemma ResetMovesOn(db: Db, tx: Tx, p: Plan, after: Db, log: seq<Tx>, id: Atom)
    requires ResetWrites(tx, p.invalidation, p.resets) && ResetsEffect(db, p, after)
    requires id in db.resets ==> ResetIs(db.resets[id], log, id)
    ensures id in after.resets ==> ResetIs(after.resets[id], log + [tx], id)
  {
    LastNext(ResetWrite(id), log, tx);
    assert (log + [tx])[..|log|] == log;
  }

  // All of them, over every run.

  ghost predicate AccountColumns(db: Db, log: seq<Tx>) {
    && (forall id :: id in db.users ==> UserIs(db.users[id], log, id))
    && (forall id :: id in db.credentials ==> CredentialIs(db.credentials[id], log, id))
    && (forall id :: id in db.accounts ==> AccountIs(db.accounts[id], log, id))
  }

  ghost predicate MfaColumns(db: Db, log: seq<Tx>) {
    && (forall user :: user in db.enrollments ==> EnrollmentIs(db.enrollments[user], log, user))
    && (forall user :: CodesAre(db.codes, log, user))
  }

  ghost predicate TokenColumns(db: Db, log: seq<Tx>) {
    && (forall id :: id in db.challenges ==> ChallengeIs(db.challenges[id], log, id))
    && (forall id :: id in db.resets ==> ResetIs(db.resets[id], log, id))
  }

  lemma AccountColumnsCommit(db: Db, tx: Tx, after: Db, log: seq<Tx>)
    requires UsersEffect(db, PlanOf(tx), after) && CredentialsEffect(db, PlanOf(tx), after)
    requires AccountsEffect(db, PlanOf(tx), after) && AccountColumns(db, log)
    ensures AccountColumns(after, log + [tx])
  {
    var p := PlanOf(tx);
    UserWritesOf(tx);
    CredentialWritesOf(tx);
    AccountWritesOf(tx);
    forall id | id in after.users ensures UserIs(after.users[id], log + [tx], id) {
      UserMovesOn(db.users, tx, p.users, log, id);
    }
    forall id | id in after.credentials ensures CredentialIs(after.credentials[id], log + [tx], id) {
      CredentialMovesOn(db.credentials, after.users.Keys, tx, p.credentials, log, id);
    }
    forall id | id in after.accounts ensures AccountIs(after.accounts[id], log + [tx], id) {
      AccountMovesOn(db.accounts, tx, p.accounts, log, id);
    }
  }

  lemma MfaColumnsCommit(db: Db, tx: Tx, after: Db, log: seq<Tx>)
    requires EnrollmentsEffect(db, PlanOf(tx), after) && CodesEffect(db, PlanOf(tx), after) && MfaColumns(db, log)
    ensures MfaColumns(after, log + [tx])
  {
    var p := PlanOf(tx);
    EnrollmentWritesOf(tx);
    CodesWritesOf(tx);
    forall user | user in after.enrollments ensures EnrollmentIs(after.enrollments[user], log + [tx], user) {
      EnrollmentMovesOn(db.enrollments, after.users.Keys, tx, p.enrollments, log, user);
    }
    forall user ensures CodesAre(after.codes, log + [tx], user) {
      CodesMoveOn(db.codes, after.users.Keys, tx, p.codes, log, user);
    }
  }

  lemma TokenColumnsCommit(db: Db, tx: Tx, after: Db, log: seq<Tx>)
    requires ChallengesEffect(db, PlanOf(tx), after) && ResetsEffect(db, PlanOf(tx), after) && TokenColumns(db, log)
    ensures TokenColumns(after, log + [tx])
  {
    var p := PlanOf(tx);
    ChallengeWritesOf(tx);
    ResetWritesOf(tx);
    forall id | id in after.challenges ensures ChallengeIs(after.challenges[id], log + [tx], id) {
      ChallengeMovesOn(db.challenges, after.users.Keys, tx, p.challenges, log, id);
    }
    forall id | id in after.resets ensures ResetIs(after.resets[id], log + [tx], id) {
      ResetMovesOn(db, tx, p, after, log, id);
    }
  }

  ghost predicate ColumnsHold(w: World) {
    AccountColumns(w.db, w.log) && MfaColumns(w.db, w.log) && TokenColumns(w.db, w.log)
  }

  lemma ColumnsStep(w: World, step: Step)
    requires ColumnsHold(w)
    ensures ColumnsHold(Next(w, step))
  {
    StepCases(w, step);
    if IsCommit(w, step) {
      CommitEffects(w.db, PlanOf(step.tx));
      AccountColumnsCommit(w.db, step.tx, Next(w, step).db, w.log);
      MfaColumnsCommit(w.db, step.tx, Next(w, step).db, w.log);
      TokenColumnsCommit(w.db, step.tx, Next(w, step).db, w.log);
    }
  }

  lemma {:induction false} ColumnsRun(config: Config, now: Time, steps: seq<Step>)
    ensures ColumnsHold(Run(Start(config, now), steps))
    decreases |steps|
  {
    if steps != [] {
      ColumnsRun(config, now, steps[..|steps| - 1]);
      ColumnsStep(Run(Start(config, now), steps[..|steps| - 1]), steps[|steps| - 1]);
    }
  }

  /** In every run: a user's name, profile and status, a credential's owner and secret, and a
      service account's secret, status and origin are the last ones the log wrote. */
  lemma AccountsFollowLog(config: Config, now: Time, steps: seq<Step>, id: Atom)
    ensures var w := Run(Start(config, now), steps);
      && (id in w.db.users ==> UserIs(w.db.users[id], w.log, id))
      && (id in w.db.credentials ==> CredentialIs(w.db.credentials[id], w.log, id))
      && (id in w.db.accounts ==> AccountIs(w.db.accounts[id], w.log, id))
  {
    ColumnsRun(config, now, steps);
  }

  /** In every run: an enrollment's secret, status, last step and enabling time, and a user's
      recovery codes and when each was used, are what the log last wrote. */
  lemma MfaFollowsLog(config: Config, now: Time, steps: seq<Step>, user: Atom)
    ensures var w := Run(Start(config, now), steps);
      && (user in w.db.enrollments ==> EnrollmentIs(w.db.enrollments[user], w.log, user))
      && CodesAre(w.db.codes, w.log, user)
  {
    ColumnsRun(config, now, steps);
  }

  /** In every run: the owner, client, reason and expiry of a login challenge or reset token
      are those it was issued with, and it was used up when the log says. */
  lemma TokensFollowLog(config: Config, now: Time, steps: seq<Step>, id: Atom)
    ensures var w := Run(Start(config, now), steps);
      && (id in w.db.challenges ==> ChallengeIs(w.db.challenges[id], w.log, id))
      && (id in w.db.resets ==> ResetIs(w.db.resets[id], w.log, id))
  {
    ColumnsRun(config, now, steps);
  }
}
