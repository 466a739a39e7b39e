/** What the service lets through: a property of every transaction in the log of any run. */
module LoggedInputs {
  import opened Core
  import opened Transactions
  import opened Calls
  import opened World
  import opened Versions
  import opened Writes
  import opened Columns

  /** Lifetimes and cutoffs are the configured ones, a service account is active or disabled,
      a tenant scope names tenant and membership, recovery codes come in tens, and what asks
      for a version, a reason or a session has one. */
  predicate Sensible(config: Config, tx: Tx) {
    match tx
    case OpenChallenge(_, _, _, ttl, _) => ttl == config.challengeTtl
    case SetAccountStatus(_, _, status, _, _, _) => status.Active? || status.Disabled?
    case ScopeTenant(session, user, tenant, membership, _, _) =>
      session != EMPTY && user != EMPTY && tenant != EMPTY && membership != EMPTY
    case ConfirmSetup(_, current, _, _, hashes, _) => current != EMPTY && |hashes| == 10
    case RegenerateCodes(_, _, _, _, hashes, _) => |hashes| == 10
    case DisableMfa(_, current, _, _, _, _) => current != EMPTY
    case ChangePassword(_, _, _, current, _, _, _) => current != EMPTY
    case UpdateProfile(_, _, _, _, _, version, _) => version >= 1
    case RotateAccountSecret(_, _, _, version, _) => version >= 1
    case ResetMfa(user, reason, _, version, _) => user != EMPTY && reason != EMPTY && version >= 1
    case IssueReset(_, user, reason, _, _) => user != EMPTY && reason != EMPTY
    case CleanSessions(_, before, now) => before == now - config.retention
    case CleanChallenges(_, before, now) => before == now - 86_400_000_000_000
    case CleanResets(_, before, now) => before == now - 86_400_000_000_000
    case _ => true
  }

  lemma PermittedSensible(config: Config, h: seq<Act>, tx: Tx)
    requires Permits(config, h, tx)
    ensures Sensible(config, tx)
  {
  }

  ghost predicate AllSensible(w: World, config: Config) {
    w.config == config && forall i :: 0 <= i < |w.log| ==> Sensible(config, w.log[i])
  }

  lemma {:induction false} LogSensible(config: Config, now: Time, steps: seq<Step>)
    ensures AllSensible(Run(Start(config, now), steps), config)
    decreases |steps|
  {
    if steps != [] {
      var w, step := Run(Start(config, now), steps[..|steps| - 1]), steps[|steps| - 1];
      LogSensible(config, now, steps[..|steps| - 1]);
      StepCases(w, step);
      if IsCommit(w, step) { PermittedSensible(config, History(w, step.call), step.tx); }
    }
  }

  /** So a service account is active or disabled, never locked or closed, in every run. */
  lemma AccountsActiveOrDisabled(config: Config, now: Time, steps: seq<Step>, id: Atom)
    requires id in Run(Start(config, now), steps).db.accounts
    ensures var a := Run(Start(config, now), steps).db.accounts[id]; a.status.Active? || a.status.Disabled?
  {
    var w := Run(Start(config, now), steps);
    LogSensible(config, now, steps);
    AccountsFollowLog(config, now, steps, id);
    var j := WhoWrote(AnyAccountWrite(id), w.log);
    assert Sensible(config, w.log[j]);
  }

  /** And a login challenge expires the configured lifetime after it was opened. */
  lemma ChallengeLifetime(config: Config, now: Time, steps: seq<Step>, id: Atom)
    requires id in Run(Start(config, now), steps).db.challenges
    ensures var w := Run(Start(config, now), steps);
      exists i: nat :: i < |w.log| && w.log[i].OpenChallenge? && w.log[i].challenge == id
        && w.db.challenges[id].expiresAt == w.log[i].now + config.challengeTtl
  {
    var w := Run(Start(config, now), steps);
    LogSensible(config, now, steps);
    TokensFollowLog(config, now, steps, id);
    var j := WhoWrote(ChallengeWrite(id), w.log);
    assert Sensible(config, w.log[j]);
  }
}
