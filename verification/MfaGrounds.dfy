/** The second factor over every run: what was seen before a verification, a confirmation, a
    removal or a new set of recovery codes commits. */
module MfaGrounds {
  import opened Core
  import opened Rows
  import opened Transactions
  import opened Calls
  import opened World
  import opened Writes
  import opened Columns
  import opened Moments
  import opened MfaHistory
  import opened Grounds
  import Totp
  import Enrollments

  /** The step is the thirty-second step of the moment or one of its neighbours, as section 5.2
      of RFC 6238 has it. */
  predicate Timely(step: int, now: Time) {
    step >= 0 && (now >= 0 ==> -1 <= step - now / 30_000_000_000 <= 1)
  }

  lemma WindowTimely(step: int, now: Time)
    requires Totp.InWindow(step, now / SECOND)
    ensures Timely(step, now)
  {
    if now >= 0 { NestedDivision(now); }
  }

  lemma NestedDivision(now: nat)
    ensures now / 1_000_000_000 / 30 == now / 30_000_000_000
  {
  }

  /** The enrollment read, by the log of that moment: pending since a set-up less than ten
      minutes old when it is confirmed, otherwise enabled and with an older last step. */
  predicate SawEnrollmentFor(w: World, steps: seq<Step>, k: nat, call: Atom, tx: Tx)
    requires RecordsStep(tx)
  {
    && k < |steps| && steps[k] == Read(call, EnrollmentKey(tx.user))
    && var log := At(w, steps, k).log;
       if tx.ConfirmSetup? then
         && Last(MfaWrite(tx.user), log) == Some(Enrollments.Pending)
         && Last(SetupWrite(tx.user), log).Some?
         && tx.now < Last(SetupWrite(tx.user), log).value + 600_000_000_000
       else
         && Last(MfaWrite(tx.user), log) == Some(Enrollments.Enabled)
         && Last(StepWrite(tx.user), log).Some?
         && Last(StepWrite(tx.user), log).value < RecordedStep(tx)
  }

  /** The steps of a call that has a time step accepted. */
  predicate StepAccepted(w: World, steps: seq<Step>, enrollment: nat, clock: nat, call: Atom, tx: Tx)
    requires RecordsStep(tx)
  {
    && SawEnrollmentFor(w, steps, enrollment, call, tx)
    && SawTime(w, steps, clock, call, tx.now)
    && Timely(RecordedStep(tx), tx.now)
  }

  lemma StepHistory(config: Config, h: seq<Act>, tx: Tx) returns (i: nat, j: nat)
    requires Permits(config, h, tx) && RecordsStep(tx)
    ensures i < |h| && j < |h| && SawEnrollment(h[i], tx.user) && h[j] == SawClock(tx.now)
    ensures Totp.InWindow(RecordedStep(tx), tx.now / SECOND)
    ensures var e := h[i].row.value.enrollment;
      if tx.ConfirmSetup? then e.status.Pending? && tx.now < e.audit.updatedAt + 600_000_000_000
      else e.status.Enabled? && e.lastUsedStep < RecordedStep(tx)
  {
    if tx.ConfirmSetup? {
      i, j := 0, 1;
    } else if tx.VerifyChallenge? {
      i, j := 3, 1;
    } else {
      i, j := 1, 2;
    }
  }

  lemma EnrollmentSeen(config: Config, now: Time, steps: seq<Step>, k: nat, call: Atom, a: Act, user: Atom)
    requires ActAt(Start(config, now), steps, k, call, a) && SawEnrollment(a, user)
    ensures k < |steps| && steps[k] == Read(call, EnrollmentKey(user))
    ensures EnrollmentIs(a.row.value.enrollment, At(Start(config, now), steps, k).log, user)
  {
    MfaFollowsLog(config, now, steps[..k], user);
  }

  /** In every interleaving, an accepted time step was within one of the current one at a clock
      reading of the call, and newer than the last step on record when the enrollment was read;
      a set-up was confirmed within ten minutes of being started. */
  lemma StepsAcceptedInTime(config: Config, now: Time, steps: seq<Step>, call: Atom, tx: Tx)
    requires RecordsStep(tx) && Ready(Run(Start(config, now), steps), call, tx)
    ensures exists enrollment: nat, clock: nat :: StepAccepted(Start(config, now), steps, enrollment, clock, call, tx)
  {
    var w0, w := Start(config, now), Run(Start(config, now), steps);
    var h := History(w, call);
    var ks := Chronicled(config, now, steps, call);
    var i, j := StepHistory(w.config, h, tx);
    WindowTimely(RecordedStep(tx), tx.now);
    EnrollmentSeen(config, now, steps, ks[i], call, h[i], tx.user);
    assert ActAt(w0, steps, ks[j], call, h[j]);
    assert StepAccepted(w0, steps, ks[i], ks[j], call, tx);
  }

  // Verification.

  /** Challenge, clock, user, enrollment, clock: the challenge was issued to this user and this
      client, unanswered and within its lifetime at the clock reading; the user was active and
      multi-factor authentication enabled. */
  predicate Verifies(
      w: World, steps: seq<Step>, a: nat, b: nat, c: nat, d: nat, e: nat, call: Atom, expiresAt: Time, tx: Tx)
    requires tx.VerifyChallenge?
  {
    && a < b < c < d < e < |steps|
    && steps[a] == Read(call, ChallengeKey(tx.challenge))
    && Last(ChallengeWrite(tx.challenge), At(w, steps, a).log) == Some((tx.user, tx.client, expiresAt))
    && Last(AnswerWrite(tx.challenge), At(w, steps, a).log) == Some(None)
    && SawTime(w, steps, b, call, tx.now) && tx.now < expiresAt
    && SawActive(w, steps, c, call, tx.user)
    && SawMfa(w, steps, d, call, tx.user, true)
    && SawTime(w, steps, e, call, tx.preparedAt)
  }

  lemma VerifyHistory(config: Config, h: seq<Act>, tx: Tx)
    requires Permits(config, h, tx) && tx.VerifyChallenge?
    ensures |h| == 5 && SawChallenge(h[0], tx.challenge) && h[1] == SawClock(tx.now) && SawUser(h[2], tx.user)
    ensures SawEnrollment(h[3], tx.user) && h[4] == SawClock(tx.preparedAt)
    ensures h[2].row.value.user.status.Active? && h[3].row.value.enrollment.status.Enabled?
    ensures var c := h[0].row.value.challenge;
      c.consumedAt.None? && c.expiresAt > tx.now && c.userId == tx.user && c.client == tx.client
  {
  }

  lemma ChallengeSeen(config: Config, now: Time, steps: seq<Step>, k: nat, call: Atom, a: Act, id: Atom)
    requires ActAt(Start(config, now), steps, k, call, a) && SawChallenge(a, id)
    ensures k < |steps| && steps[k] == Read(call, ChallengeKey(id))
    ensures ChallengeIs(a.row.value.challenge, At(Start(config, now), steps, k).log, id)
  {
    TokensFollowLog(config, now, steps[..k], id);
  }

  /** In every interleaving, a verification answers a challenge issued to its user and client,
      unanswered when read and unexpired by the clock of the call. */
  lemma VerifiedInTime(config: Config, now: Time, steps: seq<Step>, call: Atom, tx: Tx)
    requires tx.VerifyChallenge? && Ready(Run(Start(config, now), steps), call, tx)
    ensures exists a: nat, b: nat, c: nat, d: nat, e: nat, expiresAt ::
      Verifies(Start(config, now), steps, a, b, c, d, e, call, expiresAt, tx)
  {
    var w0, w := Start(config, now), Run(Start(config, now), steps);
    var h := History(w, call);
    var ks := Chronicled(config, now, steps, call);
    VerifyHistory(w.config, h, tx);
    ChallengeSeen(config, now, steps, ks[0], call, h[0], tx.challenge);
    UserSeen(w0, steps, ks[2], call, h[2], tx.user);
    MfaSeen(w0, steps, ks[3], call, h[3], tx.user);
    assert ActAt(w0, steps, ks[1], call, h[1]) && ActAt(w0, steps, ks[4], call, h[4]);
    assert Verifies(w0, steps, ks[0], ks[1], ks[2], ks[3], ks[4], call, h[0].row.value.challenge.expiresAt, tx);
  }
}
