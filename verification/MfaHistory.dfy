/** One-time use of time steps (section 5.2 of RFC 6238), in every interleaving of setup,
    confirmation, verification, regeneration, removal and administrative reset. */
module MfaHistory {
  import opened Core
  import opened Database
  import opened Transactions
  import opened Calls
  import opened World
  import opened Versions
  import opened Enrollments

  /** The statement writes a new secret for the user. */
  predicate StartsEpoch(s: Option<Enrollments.Stmt>, user: Atom) {
    s.Some? && (s.value.Insert? || s.value.ResetPending?) && s.value.user == user
  }

  /** The statement records a time step whose code was accepted for the user:
      confirmation, removal, verification and regeneration. */
  predicate AcceptsStep(s: Option<Enrollments.Stmt>, user: Atom) {
    && s.Some?
    && (s.value.Enable? || s.value.Disable? || s.value.Advance? || s.value.AdvanceAtVersion?)
    && s.value.user == user
  }

  /** The time steps accepted for the user since the secret was last written. */
  function EpochSteps(log: seq<Tx>, user: Atom): seq<int> {
    if log == [] then []
    else
      var s, before := PlanOf(log[|log| - 1]).enrollments, EpochSteps(log[..|log| - 1], user);
      if StartsEpoch(s, user) then []
      else if AcceptsStep(s, user) then before + [s.value.step]
      else before
  }

  function WrittenSecret(s: Enrollments.Stmt): Atom
    requires s.Insert? || s.ResetPending?
  {
    if s.Insert? then s.row.secret else s.secret
  }

  /** The secret the current epoch started with. */
  function EpochSecret(log: seq<Tx>, user: Atom): Option<Atom> {
    if log == [] then None
    else
      var s := PlanOf(log[|log| - 1]).enrollments;
      if StartsEpoch(s, user) then Some(WrittenSecret(s.value)) else EpochSecret(log[..|log| - 1], user)
  }

  predicate Increasing(s: seq<int>) {
    forall i, j :: 0 <= i < j < |s| ==> s[i] < s[j]
  }

  /** How one enrollment moves when a transaction with statement `s` commits. */
  predicate EnrollmentStep(t: Enrollments.Table, s: Option<Enrollments.Stmt>, t': Enrollments.Table, user: Atom) {
    if StartsEpoch(s, user) then
      && user in t'
      && t'[user].status.Pending? && t'[user].lastUsedStep == -1
      && t'[user].secret == WrittenSecret(s.value)
      && (user in t ==> !t[user].status.Enabled?)
    else if AcceptsStep(s, user) then
      && user in t && user in t'
      && t'[user].lastUsedStep == s.value.step
      && t'[user].secret == t[user].secret
      && (if s.value.Enable? then t[user].status.Pending?
          else t[user].status.Enabled? && t[user].lastUsedStep < s.value.step)
      && (if s.value.Disable? then t'[user].status.Disabled? else t'[user].status.Enabled?)
    else if s.Some? && s.value.AdminReset? && s.value.user == user then
      && user in t && t[user].status.Enabled?
      && user in t' && t'[user].status.Disabled? && t'[user].secret == t[user].secret
    else
      (user in t <==> user in t') && (user in t ==> t'[user] == t[user])
  }

  /** The setup rows the service inserts are pending and have used no step. */
  lemma InsertedPending(tx: Tx)
    ensures var s := PlanOf(tx).enrollments;
      s.Some? && s.value.Insert? ==> s.value.row.status.Pending? && s.value.row.lastUsedStep == -1
  {
  }

  lemma EnrollmentMoves(t: Enrollments.Table, users: set<Atom>, s: Option<Enrollments.Stmt>, user: Atom)
    requires OnEnrollments(t, users, s).Effect?
    requires s.Some? && s.value.Insert? ==> s.value.row.status.Pending? && s.value.row.lastUsedStep == -1
    ensures EnrollmentStep(t, s, OnEnrollments(t, users, s).table, user)
  {
  }

  lemma AcceptedStepsNonNegative(config: Config, h: seq<Act>, tx: Tx, user: Atom)
    requires Permits(config, h, tx) && AcceptsStep(PlanOf(tx).enrollments, user)
    ensures PlanOf(tx).enrollments.value.step >= 0
  {
    StepStatement(tx, user);
    CheckedNonNegative(config, h, tx);
  }

  /** The transactions that record an accepted step. */
  predicate RecordsStep(tx: Tx) {
    tx.ConfirmSetup? || tx.DisableMfa? || tx.RegenerateCodes? || (tx.VerifyChallenge? && tx.factor.TotpStep?)
  }

  function RecordedStep(tx: Tx): int
    requires RecordsStep(tx)
  {
    if tx.VerifyChallenge? then tx.factor.step else tx.step
  }

  lemma StepStatement(tx: Tx, user: Atom)
    requires AcceptsStep(PlanOf(tx).enrollments, user)
    ensures RecordsStep(tx) && PlanOf(tx).enrollments.value.step == RecordedStep(tx)
  {
  }

  lemma CheckedNonNegative(config: Config, h: seq<Act>, tx: Tx)
    requires Permits(config, h, tx) && RecordsStep(tx)
    ensures RecordedStep(tx) >= 0
  {
  }

  lemma CommitMovesEnrollment(w: World, call: Atom, tx: Tx, user: Atom)
    requires Commits(w, call, tx)
    ensures var s := PlanOf(tx).enrollments;
      && EnrollmentStep(w.db.enrollments, s, AfterCommit(w, call, tx).db.enrollments, user)
      && (AcceptsStep(s, user) ==> s.value.step >= 0)
  {
    CommitEffects(w.db, PlanOf(tx));
    InsertedPending(tx);
    EnrollmentMoves(w.db.enrollments, AfterCommit(w, call, tx).db.users.Keys, PlanOf(tx).enrollments, user);
    if AcceptsStep(PlanOf(tx).enrollments, user) { AcceptedStepsNonNegative(w.config, History(w, call), tx, user); }
  }

  /** Pending means no step accepted yet; enabled means the last accepted one is on record. */
  predicate EpochAt(t: Enrollments.Table, steps: seq<int>, secret: Option<Atom>, user: Atom) {
    && Increasing(steps)
    && (forall i :: 0 <= i < |steps| ==> steps[i] >= 0)
    && (user !in t ==> steps == [])
    && (user in t ==>
          && secret == Some(t[user].secret)
          && (t[user].status.Pending? ==> steps == [] && t[user].lastUsedStep == -1)
          && (t[user].status.Enabled? ==> steps != [] && t[user].lastUsedStep == steps[|steps| - 1]))
  }

  ghost predicate EpochHolds(w: World, user: Atom) {
    EpochAt(w.db.enrollments, EpochSteps(w.log, user), EpochSecret(w.log, user), user)
  }

  function StepsNext(s: Option<Enrollments.Stmt>, steps: seq<int>, user: Atom): seq<int> {
    if StartsEpoch(s, user) then [] else if AcceptsStep(s, user) then steps + [s.value.step] else steps
  }

  function SecretNext(s: Option<Enrollments.Stmt>, secret: Option<Atom>, user: Atom): Option<Atom> {
    if StartsEpoch(s, user) then Some(WrittenSecret(s.value)) else secret
  }

  lemma EpochNext(log: seq<Tx>, tx: Tx, user: Atom)
    ensures EpochSteps(log + [tx], user) == StepsNext(PlanOf(tx).enrollments, EpochSteps(log, user), user)
    ensures EpochSecret(log + [tx], user) == SecretNext(PlanOf(tx).enrollments, EpochSecret(log, user), user)
  {
    assert (log + [tx])[..|log|] == log;
  }

  lemma EpochMoves(t: Enrollments.Table, s: Option<Enrollments.Stmt>, t': Enrollments.Table,
                   steps: seq<int>, secret: Option<Atom>, user: Atom)
    requires EpochAt(t, steps, secret, user) && EnrollmentStep(t, s, t', user)
    requires AcceptsStep(s, user) ==> s.value.step >= 0
    ensures EpochAt(t', StepsNext(s, steps, user), SecretNext(s, secret, user), user)
  {
  }

  lemma EpochRun(config: Config, now: Time, steps: seq<Step>, user: Atom)
    ensures EpochHolds(Run(Start(config, now), steps), user)
  {
    if steps != [] {
      var w, step := Run(Start(config, now), steps[..|steps| - 1]), steps[|steps| - 1];
      EpochRun(config, now, steps[..|steps| - 1], user);
      StepCases(w, step);
      if IsCommit(w, step) {
        CommitMovesEnrollment(w, step.call, step.tx, user);
        EpochNext(w.log, step.tx, user);
        EpochMoves(w.db.enrollments, PlanOf(step.tx).enrollments, Next(w, step).db.enrollments,
                   EpochSteps(w.log, user), EpochSecret(w.log, user), user);
      }
    }
  }

  /** Within one epoch the steps accepted by confirmation, verification, regeneration and
      removal are non-negative and increase strictly, so none is accepted twice; and the
      secret on record is the one the epoch started with. */
  lemma StepsAcceptedOnce(config: Config, now: Time, steps: seq<Step>, user: Atom)
    ensures var w := Run(Start(config, now), steps); var s := EpochSteps(w.log, user);
      && Increasing(s)
      && (forall i :: 0 <= i < |s| ==> s[i] >= 0)
      && (user in w.db.enrollments ==> EpochSecret(w.log, user) == Some(w.db.enrollments[user].secret))
  {
    EpochRun(config, now, steps, user);
  }
}
