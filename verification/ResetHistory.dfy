/** Password reset: single-use, superseding tokens, and what a confirmation leaves behind. */
module ResetHistory {
  import opened Core
  import opened Database
  import opened Transactions
  import opened Calls
  import opened World
  import opened Versions
  import opened Locking
  import Sessions
  import Resets

  /** The token can never succeed again. */
  predicate Closed(w: World, token: Atom) {
    token in w.used && (token in w.db.resets ==> w.db.resets[token].consumedAt.Some?)
  }

  ghost predicate ResetsHold(w: World) {
    && (forall id :: id in w.db.resets ==> id in w.used)
    && (forall a, b, user ::
          && a in w.db.resets && Resets.Open(w.db.resets[a], user)
          && b in w.db.resets && Resets.Open(w.db.resets[b], user)
          ==> a == b)
    && (forall i :: 0 <= i < |w.log| && w.log[i].ConfirmReset? ==> Closed(w, w.log[i].reset))
    && (forall i :: 0 <= i < |w.log| && w.log[i].IssueReset? ==>
          && w.log[i].reset in w.used
          && (w.log[i].reset in w.db.resets ==> w.db.resets[w.log[i].reset].userId == w.log[i].user))
    && (forall i, j ::
          && 0 <= i < j < |w.log| && w.log[i].IssueReset? && w.log[j].IssueReset?
          && w.log[i].user == w.log[j].user
          ==> Closed(w, w.log[i].reset))
  }

  /** How one reset row moves when `tx` commits. */
  predicate ResetStep(t: Resets.Table, tx: Tx, t': Resets.Table, id: Atom) {
    && (id in t && id in t' ==> t'[id].userId == t[id].userId && (t[id].consumedAt.Some? ==> t'[id].consumedAt.Some?))
    && (id !in t && id in t' ==> tx.IssueReset? && tx.reset == id && t'[id].userId == tx.user)
    && (tx.IssueReset? && tx.reset == id ==> id !in t && id in t')
    && (tx.IssueReset? && id in t && id in t' && t[id].userId == tx.user ==> t'[id].consumedAt.Some?)
    && (tx.ConfirmReset? && tx.reset == id ==> id in t && t[id].consumedAt.None? && id in t' && t'[id].consumedAt.Some?)
  }

  /** The statements a transaction makes on the resets table. */
  predicate ResetStatements(tx: Tx, inv: Option<Resets.Stmt>, s: Option<Resets.Stmt>) {
    if tx.IssueReset? then
      && inv.Some? && inv.value.Invalidate? && inv.value.user == tx.user
      && s.Some? && s.value.Insert? && s.value.token == tx.reset
      && s.value.row.userId == tx.user
    else if tx.ConfirmReset? then inv.None? && s.Some? && s.value.Consume? && s.value.token == tx.reset
    else inv.None? && (s.None? || s.value.Delete?)
  }

  lemma ResetStatementsOf(tx: Tx)
    ensures ResetStatements(tx, PlanOf(tx).invalidation, PlanOf(tx).resets)
  {
  }

  lemma ResetMoves(db: Db, tx: Tx, p: Plan, after: Db, id: Atom)
    requires ResetsEffect(db, p, after) && ResetStatements(tx, p.invalidation, p.resets)
    ensures ResetStep(db.resets, tx, after.resets, id)
  {
  }

  lemma ClosedMoves(w: World, tx: Tx, w': World, token: Atom)
    requires Closed(w, token) && Generated(tx) !! w.used && w'.used == w.used + Generated(tx)
    requires ResetStep(w.db.resets, tx, w'.db.resets, token)
    ensures Closed(w', token)
  {
  }

  lemma OneOpenMoves(w: World, tx: Tx, w': World, a: Atom, b: Atom, user: Atom)
    requires ResetsHold(w)
    requires ResetStep(w.db.resets, tx, w'.db.resets, a) && ResetStep(w.db.resets, tx, w'.db.resets, b)
    requires a in w'.db.resets && Resets.Open(w'.db.resets[a], user)
    requires b in w'.db.resets && Resets.Open(w'.db.resets[b], user)
    ensures a == b
  {
    var t := w.db.resets;
    if a in t && b in t { assert Resets.Open(t[a], user) && Resets.Open(t[b], user); }
  }

  lemma ResetsHoldMoves(w: World, tx: Tx, w': World)
    requires ResetsHold(w) && Generated(tx) !! w.used && w'.used == w.used + Generated(tx) && w'.log == w.log + [tx]
    requires forall id :: ResetStep(w.db.resets, tx, w'.db.resets, id)
    ensures ResetsHold(w')
  {
    forall a, b, user | && a in w'.db.resets && Resets.Open(w'.db.resets[a], user)
                        && b in w'.db.resets && Resets.Open(w'.db.resets[b], user)
      ensures a == b
    {
      OneOpenMoves(w, tx, w', a, b, user);
    }
    forall id | id in w'.db.resets ensures id in w'.used { assert ResetStep(w.db.resets, tx, w'.db.resets, id); }
    forall token | Closed(w, token) ensures Closed(w', token) { ClosedMoves(w, tx, w', token); }
    forall i | 0 <= i < |w'.log| && w'.log[i].IssueReset?
      ensures w'.log[i].reset in w'.used
      ensures w'.log[i].reset in w'.db.resets ==> w'.db.resets[w'.log[i].reset].userId == w'.log[i].user
    {
      assert ResetStep(w.db.resets, tx, w'.db.resets, w'.log[i].reset);
      if i < |w.log| { assert w'.log[i] == w.log[i]; }
    }
    forall i | 0 <= i < |w'.log| && w'.log[i].ConfirmReset? ensures Closed(w', w'.log[i].reset) {
      if i < |w.log| { assert w'.log[i] == w.log[i]; } else { ClosesNow(w, tx, w'); }
    }
    forall i, j | && 0 <= i < j < |w'.log| && w'.log[i].IssueReset? && w'.log[j].IssueReset?
                  && w'.log[i].user == w'.log[j].user
      ensures Closed(w', w'.log[i].reset)
    {
      assert w'.log[i] == w.log[i];
      if j < |w.log| { assert w'.log[j] == w.log[j]; } else { Superseded(w, tx, w', i); }
    }
  }

  lemma ClosesNow(w: World, tx: Tx, w': World)
    requires ResetsHold(w) && tx.ConfirmReset? && w.used <= w'.used
    requires ResetStep(w.db.resets, tx, w'.db.resets, tx.reset)
    ensures Closed(w', tx.reset)
  {
  }

  lemma Superseded(w: World, tx: Tx, w': World, i: nat)
    requires ResetsHold(w) && Generated(tx) !! w.used && w'.used == w.used + Generated(tx)
    requires i < |w.log| && w.log[i].IssueReset? && tx.IssueReset? && tx.user == w.log[i].user
    requires ResetStep(w.db.resets, tx, w'.db.resets, w.log[i].reset)
    ensures Closed(w', w.log[i].reset)
  {
  }

  lemma CommitMovesResets(w: World, call: Atom, tx: Tx)
    requires Commits(w, call, tx)
    ensures forall id :: ResetStep(w.db.resets, tx, AfterCommit(w, call, tx).db.resets, id)
  {
    var after := AfterCommit(w, call, tx).db;
    CommitEffects(w.db, PlanOf(tx));
    ResetStatementsOf(tx);
    forall id ensures ResetStep(w.db.resets, tx, after.resets, id) { ResetMoves(w.db, tx, PlanOf(tx), after, id); }
  }

  lemma ResetsRun(config: Config, now: Time, steps: seq<Step>)
    ensures ResetsHold(Run(Start(config, now), steps))
  {
    if steps != [] {
      var w, step := Run(Start(config, now), steps[..|steps| - 1]), steps[|steps| - 1];
      ResetsRun(config, now, steps[..|steps| - 1]);
      StepCases(w, step);
      if IsCommit(w, step) {
        CommitMovesResets(w, step.call, step.tx);
        ResetsHoldMoves(w, step.tx, Next(w, step));
      }
    }
  }

  /** Each user has at most one open reset token. */
  lemma OneOpenReset(config: Config, now: Time, steps: seq<Step>, a: Atom, b: Atom, user: Atom)
    requires var t := Run(Start(config, now), steps).db.resets;
      a in t && b in t && Resets.Open(t[a], user) && Resets.Open(t[b], user)
    ensures a == b
  {
    ResetsRun(config, now, steps);
  }

  /** A token that resets a password now has never done so before, and no later token was
      issued for its user. */
  lemma ResetSucceedsOnce(config: Config, now: Time, steps: seq<Step>, call: Atom, tx: Tx)
    requires tx.ConfirmReset? && Commits(Run(Start(config, now), steps), call, tx)
    ensures var log := Run(Start(config, now), steps).log;
      && (forall i :: 0 <= i < |log| && log[i].ConfirmReset? ==> log[i].reset != tx.reset)
      && (forall i, j :: 0 <= i < j < |log| && log[i].IssueReset? && log[i].reset == tx.reset && log[j].IssueReset? ==>
            log[j].user != log[i].user)
  {
    var w := Run(Start(config, now), steps);
    ResetsRun(config, now, steps);
    CommitMovesResets(w, call, tx);
    assert ResetStep(w.db.resets, tx, AfterCommit(w, call, tx).db.resets, tx.reset);
    assert !Closed(w, tx.reset);
  }

  /** The sessions a transaction revoked. */
  function NewlyRevoked(t: Sessions.Table, t': Sessions.Table): set<Atom> {
    set id | id in t && id in t' && t[id].revokedAt.None? && t'[id].revokedAt.Some?
  }

  /** The user's only live session, if any, is the one that changed the password. */
  ghost predicate OthersEnded(t: Sessions.Table, tx: Tx, now: Time)
    requires tx.ConfirmReset? || tx.ChangePassword?
  {
    forall id :: id in t && t[id].userId == tx.user && Sessions.Live(t[id], now) ==>
      tx.ChangePassword? && id == tx.current
  }

  lemma PasswordEffect(db: Db, tx: Tx, after: Db)
    requires (tx.ConfirmReset? || tx.ChangePassword?) && SessionsEffect(db, PlanOf(tx), after)
    ensures OthersEnded(after.sessions, tx, tx.now)
    ensures |after.outbox| == |db.outbox| + 1 && after.outbox[|db.outbox|].PasswordChanged?
    ensures after.outbox[|db.outbox|].user == tx.user
    ensures after.outbox[|db.outbox|].revokedSessions == |NewlyRevoked(db.sessions, after.sessions)|
  {
    var s := PlanOf(tx).sessions.value;
    assert NewlyRevoked(db.sessions, after.sessions) == Sessions.Matching(db.sessions, s.filter);
  }

  /** The moment a reset or a password change commits, no session of the user is live
      except the one that changed the password itself, and the event carries the number of
      sessions this commit revoked. */
  lemma PasswordChangeRevokes(config: Config, now: Time, steps: seq<Step>, call: Atom, tx: Tx)
    requires (tx.ConfirmReset? || tx.ChangePassword?) && Commits(Run(Start(config, now), steps), call, tx)
    ensures var w := Run(Start(config, now), steps); var w' := AfterCommit(w, call, tx);
      && OthersEnded(w'.db.sessions, tx, w'.now)
      && |w'.db.outbox| == |w.db.outbox| + 1
      && w'.db.outbox[|w.db.outbox|].PasswordChanged?
      && w'.db.outbox[|w.db.outbox|].user == tx.user
      && w'.db.outbox[|w.db.outbox|].revokedSessions == |NewlyRevoked(w.db.sessions, w'.db.sessions)|
  {
    var w := Run(Start(config, now), steps);
    Reachable(config, now, steps);
    StampedInThePast(w, call, tx);
    CommitEffects(w.db, PlanOf(tx));
    PasswordEffect(w.db, tx, AfterCommit(w, call, tx).db);
  }
}
