/** What holds of the present, not of an earlier read, when every call is one atomic step. */
module WholeCalls {
  import opened Core
  import opened Rows
  import opened Transactions
  import opened Calls
  import opened World
  import opened Versions
  import opened LiveOwners
  import opened CodeHistory
  import opened Grounds
  import opened MfaGrounds
  import opened PasswordGrounds
  import opened MfaHistory
  import Refresh

  /** The call has run nothing but the record of a passed password. */
  predicate Quiet(h: seq<Act>) {
    forall i :: 0 <= i < |h| && h[i].Ran? ==> h[i].tx.LoginPassed?
  }

  predicate StillSo(w: World, a: Act) {
    && (a.SawClock? ==> a.now == w.now)
    && (a.Saw? && !a.key.UserKey? ==> a.row == Lookup(w.db, a.key))
  }

  /** What a quiet call has read is still so, users aside. */
  predicate QuietlyCurrent(w: World, call: Atom) {
    var h := History(w, call);
    Quiet(h) ==> forall i :: 0 <= i < |h| ==> StillSo(w, h[i])
  }

  lemma PassKeepsRows(w: World, tx: Tx, w': World, key: Key)
    requires Moves(w, tx, w') && tx.LoginPassed? && !key.UserKey?
    ensures Lookup(w'.db, key) == Lookup(w.db, key)
  {
  }

  lemma QuietCommit(w: World, call: Atom, tx: Tx, w': World)
    requires QuietlyCurrent(w, call) && Adds(w, call, Ran(tx, true), w') && Moves(w, tx, w')
    ensures QuietlyCurrent(w', call)
  {
    var h, h' := History(w, call), History(w', call);
    assert forall i :: 0 <= i < |h| ==> h'[i] == h[i];
    assert h'[|h|] == Ran(tx, true);
    if tx.LoginPassed? {
      forall i | 0 <= i < |h| && StillSo(w, h[i]) ensures StillSo(w', h'[i]) {
        if h[i].Saw? && !h[i].key.UserKey? { PassKeepsRows(w, tx, w', h[i].key); }
      }
    }
  }

  lemma QuietRead(w: World, call: Atom, a: Act, w': World)
    requires QuietlyCurrent(w, call) && Adds(w, call, a, w') && w'.db == w.db && w'.now == w.now && StillSo(w, a)
    ensures QuietlyCurrent(w', call)
  {
    var h, h' := History(w, call), History(w', call);
    assert forall i :: 0 <= i < |h| ==> h'[i] == h[i];
  }

  lemma QuietStep(w: World, call: Atom, step: Step)
    requires QuietlyCurrent(w, call) && !step.Tick? && step.call == call
    ensures QuietlyCurrent(Next(w, step), call)
  {
    var w' := Next(w, step);
    StepCases(w, step);
    if IsCommit(w, step) {
      QuietCommit(w, call, step.tx, w');
    } else if History(w', call) != History(w, call) {
      var a := match step
        case Read(_, key) => Saw(key, Lookup(w.db, key))
        case ReadClock(_) => SawClock(w.now)
        case Commit(_, tx) => Ran(tx, false);
      QuietRead(w, call, a, w');
    }
  }

  lemma {:induction false} QuietCall(w: World, call: Atom, steps: seq<Step>)
    requires Uninterrupted(w, call, steps)
    ensures QuietlyCurrent(Run(w, steps), call) && StatusesCurrent(Run(w, steps), call)
    decreases |steps|
  {
    if steps != [] {
      var n := |steps| - 1;
      QuietCall(w, call, steps[..n]);
      QuietStep(Run(w, steps[..n]), call, steps[n]);
      StatusesStayCurrent(Run(w, steps[..n]), call, steps[n]);
    }
  }

  /** All that the call at `v` has read is still so. */
  ghost predicate Current(v: World, call: Atom) {
    QuietlyCurrent(v, call) && StatusesCurrent(v, call)
  }

  lemma OwnerActive(v: World, call: Atom, i: nat, user: Atom)
    requires Current(v, call) && i < |History(v, call)| && SawUser(History(v, call)[i], user)
    requires Quiet(History(v, call)) && History(v, call)[i].row.value.user.status.Active?
    ensures ActiveUser(v.db, user)
  {
    assert ChangedNoStatus(History(v, call));
  }

  lemma LoginAt(v: World, call: Atom, tx: Tx)
    requires Current(v, call) && Ready(v, call, tx) && (tx.OpenSession? || tx.OpenChallenge?)
    ensures (Enabled(v.db.enrollments, tx.user) <==> tx.OpenChallenge?) && ActiveUser(v.db, tx.user)
  {
    var h := History(v, call);
    DecidedHistory(v.config, h, tx);
    assert StillSo(v, h[4]);
    OwnerActive(v, call, 0, tx.user);
  }

  lemma RefreshAt(v: World, call: Atom, tx: Tx)
    requires Current(v, call) && Ready(v, call, tx) && tx.Refresh?
    ensures Refresh.Accepts(v, tx.previous, tx.session) && v.now < v.db.sessions[tx.session].expiresAt
    ensures ActiveUser(v.db, tx.user)
  {
    var h := History(v, call);
    RefreshHistory(v.config, h, tx);
    assert StillSo(v, h[0]) && StillSo(v, h[1]);
    OwnerActive(v, call, 2, tx.user);
  }

  predicate Answerable(v: World, tx: Tx)
    requires tx.VerifyChallenge?
  {
    && tx.challenge in v.db.challenges
    && v.db.challenges[tx.challenge].consumedAt.None? && v.now < v.db.challenges[tx.challenge].expiresAt
    && v.db.challenges[tx.challenge].userId == tx.user
    && Enabled(v.db.enrollments, tx.user) && ActiveUser(v.db, tx.user)
  }

  lemma VerifyAt(v: World, call: Atom, tx: Tx)
    requires Current(v, call) && Ready(v, call, tx) && tx.VerifyChallenge?
    ensures Answerable(v, tx)
  {
    var h := History(v, call);
    VerifyHistory(v.config, h, tx);
    assert StillSo(v, h[0]) && StillSo(v, h[1]) && StillSo(v, h[3]);
    OwnerActive(v, call, 2, tx.user);
  }

  predicate Redeemable(v: World, tx: Tx)
    requires tx.ConfirmReset?
  {
    && tx.reset in v.db.resets
    && v.db.resets[tx.reset].consumedAt.None? && v.now < v.db.resets[tx.reset].expiresAt
    && v.db.resets[tx.reset].userId == tx.user && ActiveUser(v.db, tx.user)
  }

  lemma ResetAt(v: World, call: Atom, tx: Tx)
    requires Current(v, call) && Ready(v, call, tx) && tx.ConfirmReset?
    ensures Redeemable(v, tx)
  {
    var h := History(v, call);
    ResetHistoryOf(v.config, h, tx);
    assert StillSo(v, h[0]) && StillSo(v, h[1]);
    OwnerActive(v, call, 2, tx.user);
  }

  lemma StepAt(v: World, call: Atom, tx: Tx)
    requires Current(v, call) && Ready(v, call, tx) && RecordsStep(tx)
    ensures Timely(RecordedStep(tx), v.now)
  {
    var h := History(v, call);
    var i, j := StepHistory(v.config, h, tx);
    StepCallsQuiet(v.config, h, tx);
    WindowTimely(RecordedStep(tx), tx.now);
    assert StillSo(v, h[j]);
  }

  lemma StepCallsQuiet(config: Config, h: seq<Act>, tx: Tx)
    requires Permits(config, h, tx) && RecordsStep(tx)
    ensures Quiet(h)
  {
  }

  // Calls that run without interruption, from any world.

  /** No login opens a session for a user whose multi-factor authentication is enabled, and
      none opens a challenge for any other. */
  lemma NoFactorSkipped(w: World, call: Atom, steps: seq<Step>, tx: Tx)
    requires Uninterrupted(w, call, steps) && Ready(Run(w, steps), call, tx) && (tx.OpenSession? || tx.OpenChallenge?)
    ensures Enabled(Run(w, steps).db.enrollments, tx.user) <==> tx.OpenChallenge?
    ensures ActiveUser(Run(w, steps).db, tx.user)
  {
    QuietCall(w, call, steps);
    LoginAt(Run(w, steps), call, tx);
  }

  /** A refresh comes to its commit only when the session accepts the token at that moment and
      its owner is active. */
  lemma RefreshAccepted(w: World, call: Atom, steps: seq<Step>, tx: Tx)
    requires Uninterrupted(w, call, steps) && Ready(Run(w, steps), call, tx) && tx.Refresh?
    ensures var v := Run(w, steps);
      && Refresh.Accepts(v, tx.previous, tx.session)
      && v.now < v.db.sessions[tx.session].expiresAt
      && ActiveUser(v.db, tx.user)
  {
    QuietCall(w, call, steps);
    RefreshAt(Run(w, steps), call, tx);
  }

  /** A verification comes to its commit only while the challenge is open, unexpired and the
      user's, the user active and multi-factor authentication enabled. */
  lemma VerifiedNow(w: World, call: Atom, steps: seq<Step>, tx: Tx)
    requires Uninterrupted(w, call, steps) && Ready(Run(w, steps), call, tx) && tx.VerifyChallenge?
    ensures Answerable(Run(w, steps), tx)
  {
    QuietCall(w, call, steps);
    VerifyAt(Run(w, steps), call, tx);
  }

  /** A password reset comes to its commit only while the token is open, unexpired and the
      user's, and the user active. */
  lemma ResetNow(w: World, call: Atom, steps: seq<Step>, tx: Tx)
    requires Uninterrupted(w, call, steps) && Ready(Run(w, steps), call, tx) && tx.ConfirmReset?
    ensures Redeemable(Run(w, steps), tx)
  {
    QuietCall(w, call, steps);
    ResetAt(Run(w, steps), call, tx);
  }

  /** A time step is accepted only if it is within one of the present one. */
  lemma StepAcceptedNow(w: World, call: Atom, steps: seq<Step>, tx: Tx)
    requires Uninterrupted(w, call, steps) && Ready(Run(w, steps), call, tx) && RecordsStep(tx)
    ensures Timely(RecordedStep(tx), Run(w, steps).now)
  {
    QuietCall(w, call, steps);
    StepAt(Run(w, steps), call, tx);
  }
}
