/** Conservation across the MFA tables, measured by comparing the tables before and after
    every step of a run. */
module MfaLedger {
  import opened Core
  import opened Database
  import opened Transactions
  import opened Calls
  import opened World
  import opened Versions
  import Users
  import Sessions
  import Enrollments
  import RecoveryCodes
  import Challenges

  /** Login challenges that went from open to consumed. */
  function ConsumedChallenges(t: Challenges.Table, t': Challenges.Table): set<Atom> {
    set h | h in t && h in t' && t[h].consumedAt.None? && t'[h].consumedAt.Some?
  }

  /** Sessions that appeared, created on behalf of a verification. */
  function VerifiedSessions(t: Sessions.Table, t': Sessions.Table): set<Atom> {
    set id | id in t' && id !in t && t'[id].audit.createdBy == MFA_ACTOR
  }

  /** Enabled enrollments that a verification moved on. */
  function TotpAdvances(t: Enrollments.Table, t': Enrollments.Table): set<Atom> {
    set u | u in t && u in t' && t'[u] != t[u] && t[u].status.Enabled? && t'[u].status.Enabled?
            && t'[u].audit.updatedBy == MFA_ACTOR
  }

  /** Recovery codes that went from unused to consumed. */
  function SpentCodes(t: RecoveryCodes.Table, t': RecoveryCodes.Table): set<(Atom, Atom)> {
    set u, h | u in t && h in t[u] && u in t' && h in t'[u] && t[u][h].consumedAt.None? && t'[u][h].consumedAt.Some?
      :: (u, h)
  }

  datatype Tally = Tally(challenges: nat, sessions: nat, advances: nat, recoveries: nat) {
    predicate Balanced() {
      challenges == sessions == advances + recoveries
    }

    function Plus(t: Tally): Tally {
      Tally(challenges + t.challenges, sessions + t.sessions, advances + t.advances, recoveries + t.recoveries)
    }
  }

  function Measured(a: Db, b: Db): Tally {
    Tally(|ConsumedChallenges(a.challenges, b.challenges)|,
          |VerifiedSessions(a.sessions, b.sessions)|,
          |TotpAdvances(a.enrollments, b.enrollments)|,
          |SpentCodes(a.codes, b.codes)|)
  }

  /** The sum over a run of what `measure` finds between each database and the next. */
  function Total(measure: (Db, Db) -> Tally, w: World, steps: seq<Step>): Tally
    decreases |steps|
  {
    if steps == [] then Tally(0, 0, 0, 0)
    else
      var before := steps[..|steps| - 1];
      Total(measure, w, before).Plus(measure(Run(w, before).db, Run(w, steps).db))
  }

  /** Users are never one of the service's own actors, and every enrollment has its user. */
  ghost predicate Accountable(w: World) {
    && RESERVED <= w.used
    && (forall id :: id in w.db.users ==> id !in RESERVED)
    && w.db.enrollments.Keys <= w.db.users.Keys
  }

  lemma AccountableStep(w: World, step: Step)
    requires Accountable(w)
    ensures Accountable(Next(w, step))
  {
    StepCases(w, step);
    if IsCommit(w, step) {
      CommitEffects(w.db, PlanOf(step.tx));
      AccountableMoves(w, step.tx, Next(w, step));
    }
  }

  lemma AccountableRun(config: Config, now: Time, steps: seq<Step>)
    ensures Accountable(Run(Start(config, now), steps))
  {
    if steps != [] {
      AccountableRun(config, now, steps[..|steps| - 1]);
      AccountableStep(Run(Start(config, now), steps[..|steps| - 1]), steps[|steps| - 1]);
    }
  }

  lemma AccountableMoves(w: World, tx: Tx, w': World)
    requires Accountable(w) && Moves(w, tx, w') && EnrollmentsEffect(w.db, PlanOf(tx), w'.db)
    ensures Accountable(w')
  {
    var s := PlanOf(tx).users;
    forall id ensures (id in w'.db.users ==> id !in RESERVED) && (id in w.db.users ==> id in w'.db.users) {
      if s.Some? { assert Users.Evolves(w.db.users, s.value, w'.db.users, id); }
    }
    forall id | id in w'.db.enrollments ensures id in w'.db.users {
      if id in w.db.enrollments { assert id in w.db.users; }
    }
  }

  // One lemma per table: what the statement on it adds to the tally.

  lemma ChallengesMeasured(t: Challenges.Table, users: set<Atom>, s: Option<Challenges.Stmt>)
    requires OnChallenges(t, users, s).Effect?
    ensures |ConsumedChallenges(t, OnChallenges(t, users, s).table)| == if s.Some? && s.value.Consume? then 1 else 0
  {
    var c := ConsumedChallenges(t, OnChallenges(t, users, s).table);
    if s.Some? && s.value.Consume? {
      assert c == {s.value.token};
    } else {
      assert c == {};
    }
  }

  lemma SessionsMeasured(t: Sessions.Table, users: set<Atom>, s: Option<Sessions.Stmt>)
    requires OnSessions(t, users, s).Effect?
    ensures |VerifiedSessions(t, OnSessions(t, users, s).table)|
         == if s.Some? && s.value.Insert? && s.value.row.audit.createdBy == MFA_ACTOR then 1 else 0
  {
    var v := VerifiedSessions(t, OnSessions(t, users, s).table);
    if s.Some? && s.value.Insert? && s.value.row.audit.createdBy == MFA_ACTOR {
      assert v == {s.value.id};
    } else {
      assert v == {};
    }
  }

  lemma EnrollmentsMeasured(t: Enrollments.Table, users: set<Atom>, s: Option<Enrollments.Stmt>)
    requires OnEnrollments(t, users, s).Effect?
    requires s.Some? && s.value.AdvanceAtVersion? ==> s.value.actor != MFA_ACTOR
    requires s.Some? && s.value.Advance? ==> s.value.actor == MFA_ACTOR
    ensures |TotpAdvances(t, OnEnrollments(t, users, s).table)| == if s.Some? && s.value.Advance? then 1 else 0
  {
    var a := TotpAdvances(t, OnEnrollments(t, users, s).table);
    if s.Some? && s.value.Advance? {
      assert a == {s.value.user};
    } else {
      assert a == {};
    }
  }

  lemma CodesMeasured(t: RecoveryCodes.Table, users: set<Atom>, s: Option<RecoveryCodes.Stmt>)
    requires OnCodes(t, users, s).Effect?
    ensures |SpentCodes(t, OnCodes(t, users, s).table)| == if s.Some? && s.value.Consume? then 1 else 0
  {
    var c := SpentCodes(t, OnCodes(t, users, s).table);
    if s.Some? && s.value.Consume? {
      assert c == {(s.value.user, s.value.hash)};
    } else {
      assert c == {};
    }
  }

  /** The four statements counted appear together, in verifications only. */
  lemma VerificationStatements(tx: Tx)
    ensures var p := PlanOf(tx);
      && (tx.VerifyChallenge? <==> p.challenges.Some? && p.challenges.value.Consume?)
      && (tx.VerifyChallenge? <==>
            p.sessions.Some? && p.sessions.value.Insert? && p.sessions.value.row.audit.createdBy == MFA_ACTOR)
      && (tx.VerifyChallenge? && tx.factor.TotpStep? <==> p.enrollments.Some? && p.enrollments.value.Advance?)
      && (tx.VerifyChallenge? && tx.factor.RecoveryCode? <==> p.codes.Some? && p.codes.value.Consume?)
      && (p.enrollments.Some? && p.enrollments.value.Advance? ==> p.enrollments.value.actor == MFA_ACTOR)
      && (p.enrollments.Some? && p.enrollments.value.AdvanceAtVersion? ==>
            p.enrollments.value.actor == p.enrollments.value.user)
  {
  }

  lemma CommitMeasured(w: World, call: Atom, tx: Tx)
    requires Accountable(w) && Commits(w, call, tx)
    ensures Measured(w.db, AfterCommit(w, call, tx).db).Balanced()
  {
    var p, after := PlanOf(tx), AfterCommit(w, call, tx).db;
    var ids := after.users.Keys;
    CommitEffects(w.db, p);
    VerificationStatements(tx);
    if p.enrollments.Some? && p.enrollments.value.AdvanceAtVersion? { assert p.enrollments.value.user in w.db.users; }
    ChallengesMeasured(w.db.challenges, ids, p.challenges);
    SessionsMeasured(w.db.sessions, ids, p.sessions);
    EnrollmentsMeasured(w.db.enrollments, ids, p.enrollments);
    CodesMeasured(w.db.codes, ids, p.codes);
  }

  lemma IdleMeasured(db: Db)
    ensures Measured(db, db).Balanced()
  {
    assert ConsumedChallenges(db.challenges, db.challenges) == {};
    assert VerifiedSessions(db.sessions, db.sessions) == {};
    assert TotpAdvances(db.enrollments, db.enrollments) == {};
    assert SpentCodes(db.codes, db.codes) == {};
  }

  lemma StepMeasured(w: World, step: Step)
    requires Accountable(w)
    ensures Measured(w.db, Next(w, step).db).Balanced()
  {
    StepCases(w, step);
    if IsCommit(w, step) { CommitMeasured(w, step.call, step.tx); } else { IdleMeasured(w.db); }
  }

  ghost predicate EveryStepBalances(measure: (Db, Db) -> Tally) {
    forall w, step :: Accountable(w) ==> measure(w.db, Next(w, step).db).Balanced()
  }

  lemma {:induction false} TotalBalances(measure: (Db, Db) -> Tally, config: Config, now: Time, steps: seq<Step>)
    requires EveryStepBalances(measure)
    ensures Total(measure, Start(config, now), steps).Balanced()
  {
    if steps != [] {
      TotalBalances(measure, config, now, steps[..|steps| - 1]);
      AccountableRun(config, now, steps[..|steps| - 1]);
    }
  }

  /** Over every run: challenges ever consumed = sessions created by verification = time
      steps advanced by verification + recovery codes ever consumed. */
  lemma VerificationsConserved(config: Config, now: Time, steps: seq<Step>)
    ensures Total(Measured, Start(config, now), steps).Balanced()
  {
    forall w, step | Accountable(w) ensures Measured(w.db, Next(w, step).db).Balanced() { StepMeasured(w, step); }
    TotalBalances(Measured, config, now, steps);
  }
}
