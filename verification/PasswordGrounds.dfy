/** Passwords over every run: who had to know which, and which one counts afterwards. */
module PasswordGrounds {
  import opened Core
  import opened Database
  import opened Rows
  import opened Transactions
  import opened Calls
  import opened World
  import opened Locking
  import opened Writes
  import opened Columns
  import opened Moments
  import opened EventReads
  import opened Grounds
  import Credentials

  /** What a user may only do with the current password. */
  predicate NeedsPassword(tx: Tx) {
    tx.ChangePassword? || tx.StartSetup? || tx.RestartSetup? || tx.DisableMfa? || tx.RegenerateCodes?
  }

  lemma PasswordHistory(config: Config, h: seq<Act>, tx: Tx)
    requires Permits(config, h, tx) && NeedsPassword(tx)
    ensures |h| >= 2 && PasswordChecked(h[0], tx.user, tx.password) && SawClock(tx.now) in h
    ensures tx.ChangePassword? ==> h[0].key == CredentialKey(tx.credential)
  {
    if tx.ChangePassword? {
      assert h[1] == SawClock(tx.now);
    } else {
      assert h[2] == SawClock(tx.now);
    }
  }

  predicate PasswordGiven(w: World, steps: seq<Step>, k: nat, call: Atom, credential: Atom, tx: Tx)
    requires NeedsPassword(tx)
  {
    && SawPassword(w, steps, k, call, credential, tx.user, tx.password, true)
    && (tx.ChangePassword? ==> credential == tx.credential)
  }

  /** In every interleaving, a password change and every change of the second factor by its
      user followed a read at which the password given was the one last set for that user's
      credential. */
  lemma RightPasswordGiven(config: Config, now: Time, steps: seq<Step>, call: Atom, tx: Tx)
    requires NeedsPassword(tx) && Ready(Run(Start(config, now), steps), call, tx)
    ensures exists k: nat, credential :: PasswordGiven(Start(config, now), steps, k, call, credential, tx)
  {
    var w := Run(Start(config, now), steps);
    var h := History(w, call);
    var ks := Chronicled(config, now, steps, call);
    PasswordHistory(w.config, h, tx);
    PasswordSeen(config, now, steps, ks[0], call, h[0], tx.user, tx.password, true);
    assert PasswordGiven(Start(config, now), steps, ks[0], call, h[0].key.id, tx);
  }

  // Which password counts.

  /** The credential read is still the one in force at the commit. */
  lemma PasswordStillRead(config: Config, now: Time, steps: seq<Step>, call: Atom, tx: Tx)
    requires ChangesPassword(tx) && Commits(Run(Start(config, now), steps), call, tx)
    ensures var t := Run(Start(config, now), steps).db.credentials;
      && tx.credential in t && t[tx.credential].userId == tx.user
      && t[tx.credential].secret.password != tx.secret.password
      && (tx.ChangePassword? ==> t[tx.credential].secret.password == tx.password)
  {
    var h := History(Run(Start(config, now), steps), call);
    var c := PasswordReadFor(config, h, tx);
    PasswordGuard(tx);
    NoLostUpdate(config, now, steps, call, tx, CredentialKey(tx.credential), CredentialRow(c));
  }

  lemma PasswordReadFor(config: Config, h: seq<Act>, tx: Tx) returns (c: Credentials.Credential)
    requires ChangesPassword(tx) && Permits(config, h, tx)
    ensures Saw(CredentialKey(tx.credential), Some(CredentialRow(c))) in h
    ensures c.userId == tx.user && c.audit.version == GuardVersion(tx) && c.secret.password != tx.secret.password
    ensures tx.ChangePassword? ==> c.secret.password == tx.password
  {
    var i := if tx.ChangePassword? then 0 else 3;
    c := h[i].row.value.credential;
    assert h[i] == Saw(CredentialKey(tx.credential), Some(CredentialRow(c)));
  }

  /** Right after a password change or reset commits, in any interleaving, the new password is
      the one that verifies. The one that verified until then does not, and for a change that
      is the one the user had given. */
  lemma NewPasswordCounts(config: Config, now: Time, steps: seq<Step>, call: Atom, tx: Tx)
    requires ChangesPassword(tx) && Commits(Run(Start(config, now), steps), call, tx)
    ensures var w := Run(Start(config, now), steps);
      var t, t' := w.db.credentials, AfterCommit(w, call, tx).db.credentials;
      && tx.credential in t && tx.credential in t'
      && t'[tx.credential].secret == tx.secret
      && t'[tx.credential].userId == tx.user
      && Credentials.Verifies(tx.secret.password, t'[tx.credential].secret)
      && !Credentials.Verifies(t[tx.credential].secret.password, t'[tx.credential].secret)
      && (tx.ChangePassword? ==> t[tx.credential].secret.password == tx.password)
  {
    var w := Run(Start(config, now), steps);
    PasswordStillRead(config, now, steps, call, tx);
    CommitEffects(w.db, PlanOf(tx));
    PasswordWritten(w.db, tx, AfterCommit(w, call, tx).db);
  }

  lemma PasswordWritten(db: Db, tx: Tx, after: Db)
    requires ChangesPassword(tx) && CredentialsEffect(db, PlanOf(tx), after)
    ensures tx.credential in db.credentials && tx.credential in after.credentials
    ensures after.credentials[tx.credential].secret == tx.secret
    ensures after.credentials[tx.credential].userId == db.credentials[tx.credential].userId
  {
  }

  // Resets.

  /** Token, clock, user, credential: the token was issued to this user for this reason and not
      used up when read, less than thirty minutes old at the clock reading; the user was
      active. */
  predicate Resets(
      w: World, steps: seq<Step>, a: nat, b: nat, c: nat, d: nat, call: Atom, expiresAt: Time, tx: Tx)
    requires tx.ConfirmReset?
  {
    && a < b < c < d < |steps|
    && steps[a] == Read(call, ResetKey(tx.reset)) && steps[d] == Read(call, CredentialKey(tx.credential))
    && Last(ResetWrite(tx.reset), At(w, steps, a).log) == Some((tx.user, tx.reason, expiresAt))
    && UsedUp(At(w, steps, a).log, tx.reset, tx.user).None?
    && SawTime(w, steps, b, call, tx.now) && tx.now < expiresAt
    && SawActive(w, steps, c, call, tx.user)
  }

  lemma ResetHistoryOf(config: Config, h: seq<Act>, tx: Tx)
    requires Permits(config, h, tx) && tx.ConfirmReset?
    ensures |h| == 4 && SawReset(h[0], tx.reset) && h[1] == SawClock(tx.now) && SawUser(h[2], tx.user)
    ensures h[3].Saw? && h[3].key == CredentialKey(tx.credential) && h[2].row.value.user.status.Active?
    ensures var r := h[0].row.value.reset;
      r.consumedAt.None? && r.expiresAt > tx.now && r.userId == tx.user && r.reason == tx.reason
  {
  }

  lemma ResetSeen(config: Config, now: Time, steps: seq<Step>, k: nat, call: Atom, a: Act, id: Atom)
    requires ActAt(Start(config, now), steps, k, call, a) && SawReset(a, id)
    ensures k < |steps| && steps[k] == Read(call, ResetKey(id))
    ensures ResetIs(a.row.value.reset, At(Start(config, now), steps, k).log, id)
  {
    TokensFollowLog(config, now, steps[..k], id);
  }

  /** In every interleaving, a password is reset with a token issued to its user, unused when
      read and less than thirty minutes old by the clock of the call. */
  lemma ResetInTime(config: Config, now: Time, steps: seq<Step>, call: Atom, tx: Tx)
    requires tx.ConfirmReset? && Ready(Run(Start(config, now), steps), call, tx)
    ensures exists a: nat, b: nat, c: nat, d: nat, expiresAt ::
      Resets(Start(config, now), steps, a, b, c, d, call, expiresAt, tx)
  {
    var w0, w := Start(config, now), Run(Start(config, now), steps);
    var h := History(w, call);
    var ks := Chronicled(config, now, steps, call);
    ResetHistoryOf(w.config, h, tx);
    ResetSeen(config, now, steps, ks[0], call, h[0], tx.reset);
    UserSeen(w0, steps, ks[2], call, h[2], tx.user);
    assert ActAt(w0, steps, ks[1], call, h[1]) && ActAt(w0, steps, ks[3], call, h[3]);
    assert Resets(w0, steps, ks[0], ks[1], ks[2], ks[3], call, h[0].row.value.reset.expiresAt, tx);
  }

  /** A reset token is issued only to a user seen active. */
  lemma IssuedToActive(config: Config, now: Time, steps: seq<Step>, call: Atom, tx: Tx)
    requires tx.IssueReset? && Ready(Run(Start(config, now), steps), call, tx)
    ensures exists k: nat :: SawActive(Start(config, now), steps, k, call, tx.user)
  {
    var w := Run(Start(config, now), steps);
    var h := History(w, call);
    var ks := Chronicled(config, now, steps, call);
    IssueHistory(w.config, h, tx);
    UserSeen(Start(config, now), steps, ks[0], call, h[0], tx.user);
    assert SawActive(Start(config, now), steps, ks[0], call, tx.user);
  }

  lemma IssueHistory(config: Config, h: seq<Act>, tx: Tx)
    requires Permits(config, h, tx) && tx.IssueReset?
    ensures |h| == 2 && SawUser(h[0], tx.user) && h[0].row.value.user.status.Active?
  {
  }
}
