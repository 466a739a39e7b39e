/** Recovery codes: ten while multi-factor authentication is enabled and none otherwise,
    each usable once, in every interleaving. */
module CodeHistory {
  import opened Core
  import opened Database
  import opened Transactions
  import opened Calls
  import opened World
  import opened Versions
  import opened MfaHistory
  import Enrollments
  import opened RecoveryCodes

  /** Recovery codes spent by the user since the codes were last replaced. */
  function Recoveries(log: seq<Tx>, user: Atom): nat {
    if log == [] then 0
    else
      var s := PlanOf(log[|log| - 1]).codes;
      if s.Some? && s.value.Replace? && s.value.user == user then 0
      else Recoveries(log[..|log| - 1], user) + if s.Some? && s.value.Consume? && s.value.user == user then 1 else 0
  }

  predicate Enabled(t: Enrollments.Table, user: Atom) {
    user in t && t[user].status.Enabled?
  }

  /** Which statement on the codes goes with which statement on the enrollment. */
  predicate Coupled(e: Option<Enrollments.Stmt>, c: Option<RecoveryCodes.Stmt>) {
    match c
    case None => e.None? || e.value.Insert? || e.value.Advance?
    case Some(Delete(user)) =>
      e.Some? && e.value.user == user && (e.value.ResetPending? || e.value.Disable? || e.value.AdminReset?)
    case Some(Replace(user, hashes, _, _)) =>
      && e.Some? && e.value.user == user && (e.value.Enable? || e.value.AdvanceAtVersion?)
      && |hashes| == 10
    case Some(Consume(_, _, _, _)) => e.None?
  }

  lemma CoupledPlan(config: Config, h: seq<Act>, tx: Tx)
    requires Permits(config, h, tx)
    ensures Coupled(PlanOf(tx).enrollments, PlanOf(tx).codes)
  {
    if tx.ConfirmSetup? || tx.RegenerateCodes? { TenHashes(config, h, tx); }
    CoupledStatements(tx);
  }

  lemma TenHashes(config: Config, h: seq<Act>, tx: Tx)
    requires Permits(config, h, tx) && (tx.ConfirmSetup? || tx.RegenerateCodes?)
    ensures |tx.hashes| == 10
  {
  }

  lemma CoupledStatements(tx: Tx)
    requires tx.ConfirmSetup? || tx.RegenerateCodes? ==> |tx.hashes| == 10
    ensures Coupled(PlanOf(tx).enrollments, PlanOf(tx).codes)
  {
  }

  lemma FreshCodesUnused(hashes: seq<Atom>, actor: Atom, now: Time)
    requires Distinct(hashes)
    ensures var c := FreshCodes(hashes, actor, now); |c| == |hashes| && |Unused(c)| == |hashes|
  {
    DistinctSize(hashes);
    var c := FreshCodes(hashes, actor, now);
    assert c.Keys == set h | h in hashes;
    assert Unused(c) == c.Keys;
  }

  /** How one user's codes move when a transaction with statement `s` commits. */
  predicate CodesStep(t: RecoveryCodes.Table, s: Option<RecoveryCodes.Stmt>, t': RecoveryCodes.Table, user: Atom) {
    if s.None? || s.value.user != user then
      (user in t <==> user in t') && (user in t ==> t'[user] == t[user])
    else if s.value.Delete? then user !in t'
    else if s.value.Replace? then
      user in t' && |t'[user]| == |s.value.hashes| && |Unused(t'[user])| == |s.value.hashes|
    else
      && user in t && user in t'
      && |t'[user]| == |t[user]|
      && |Unused(t'[user])| == |Unused(t[user])| - 1
  }

  lemma CodesMove(t: RecoveryCodes.Table, users: set<Atom>, s: Option<RecoveryCodes.Stmt>, user: Atom)
    requires OnCodes(t, users, s).Effect?
    ensures CodesStep(t, s, OnCodes(t, users, s).table, user)
  {
    if s.Some? && s.value.user == user {
      var t' := OnCodes(t, users, s).table;
      if s.value.Replace? { FreshCodesUnused(s.value.hashes, s.value.actor, s.value.now); }
      if s.value.Consume? {
        assert t'[user].Keys == t[user].Keys;
        assert Unused(t'[user]) == Unused(t[user]) - {s.value.hash};
      }
    }
  }

  predicate CodesCount(e: Enrollments.Table, t: RecoveryCodes.Table, spent: nat, user: Atom) {
    && (Enabled(e, user) <==> user in t)
    && (user in t ==> |t[user]| == 10 && |Unused(t[user])| == 10 - spent)
  }

  ghost predicate CodesHold(w: World, user: Atom) {
    CodesCount(w.db.enrollments, w.db.codes, Recoveries(w.log, user), user)
  }

  function SpentNext(c: Option<RecoveryCodes.Stmt>, spent: nat, user: Atom): nat {
    if c.Some? && c.value.Replace? && c.value.user == user then 0
    else if c.Some? && c.value.Consume? && c.value.user == user then spent + 1
    else spent
  }

  lemma RecoveriesNext(log: seq<Tx>, tx: Tx, user: Atom)
    ensures Recoveries(log + [tx], user) == SpentNext(PlanOf(tx).codes, Recoveries(log, user), user)
  {
    assert (log + [tx])[..|log|] == log;
  }

  lemma CodesCountMoves(e: Enrollments.Table, se: Option<Enrollments.Stmt>, e': Enrollments.Table,
                        t: RecoveryCodes.Table, st: Option<RecoveryCodes.Stmt>, t': RecoveryCodes.Table,
                        spent: nat, user: Atom)
    requires Coupled(se, st) && CodesCount(e, t, spent, user)
    requires EnrollmentStep(e, se, e', user) && CodesStep(t, st, t', user)
    ensures CodesCount(e', t', SpentNext(st, spent, user), user)
  {
  }

  lemma CommitMovesCodes(w: World, call: Atom, tx: Tx, user: Atom)
    requires Commits(w, call, tx)
    ensures CodesStep(w.db.codes, PlanOf(tx).codes, AfterCommit(w, call, tx).db.codes, user)
    ensures Coupled(PlanOf(tx).enrollments, PlanOf(tx).codes)
  {
    CommitEffects(w.db, PlanOf(tx));
    CodesMove(w.db.codes, AfterCommit(w, call, tx).db.users.Keys, PlanOf(tx).codes, user);
    CoupledPlan(w.config, History(w, call), tx);
  }

  lemma CodesRun(config: Config, now: Time, steps: seq<Step>, user: Atom)
    ensures CodesHold(Run(Start(config, now), steps), user)
  {
    if steps != [] {
      var w, step := Run(Start(config, now), steps[..|steps| - 1]), steps[|steps| - 1];
      CodesRun(config, now, steps[..|steps| - 1], user);
      StepCases(w, step);
      if IsCommit(w, step) {
        CommitMovesEnrollment(w, step.call, step.tx, user);
        CommitMovesCodes(w, step.call, step.tx, user);
        RecoveriesNext(w.log, step.tx, user);
        CodesCountMoves(w.db.enrollments, PlanOf(step.tx).enrollments, Next(w, step).db.enrollments,
                        w.db.codes, PlanOf(step.tx).codes, Next(w, step).db.codes, Recoveries(w.log, user), user);
      }
    }
  }

  /** A user has exactly ten recovery codes while enabled and none otherwise; the unused
      ones are ten minus the recovery logins since the last replacement, so never more
      than ten of them succeed. */
  lemma TenCodesWhileEnabled(config: Config, now: Time, steps: seq<Step>, user: Atom)
    ensures var w := Run(Start(config, now), steps);
      if Enabled(w.db.enrollments, user) then
        && user in w.db.codes && |w.db.codes[user]| == 10
        && |Unused(w.db.codes[user])| == 10 - Recoveries(w.log, user)
        && Recoveries(w.log, user) <= 10
      else user !in w.db.codes
  {
    CodesRun(config, now, steps, user);
  }

  /** Every verification commits while multi-factor authentication is enabled, even one by
      recovery code, whose statements never look at the enrollment. */
  lemma VerifiedWhileEnabled(config: Config, now: Time, steps: seq<Step>, call: Atom, tx: Tx)
    requires tx.VerifyChallenge? && Commits(Run(Start(config, now), steps), call, tx)
    ensures Enabled(Run(Start(config, now), steps).db.enrollments, tx.user)
  {
    var w := Run(Start(config, now), steps);
    CodesRun(config, now, steps, tx.user);
    CommitMovesEnrollment(w, call, tx, tx.user);
    CommitMovesCodes(w, call, tx, tx.user);
  }
}
