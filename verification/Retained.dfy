/** What the cleaner may remove while everything else goes on: rows that ended a whole
    retention period ago, and nothing else. */
module Retained {
  import opened Core
  import opened Database
  import opened Transactions
  import opened Calls
  import opened World
  import opened Versions
  import opened Locking
  import opened Writes
  import opened Columns
  import opened SessionColumns
  import Sessions
  import Challenges
  import Resets

  /** The tables rows are ever deleted from for their age. */
  datatype Kind = SessionRows | ChallengeRows | ResetRows

  predicate Present(kind: Kind, db: Db, id: Atom) {
    match kind
    case SessionRows => id in db.sessions
    case ChallengeRows => id in db.challenges
    case ResetRows => id in db.resets
  }

  /** The row is there and had ended a retention period before `now`. */
  predicate Past(kind: Kind, w: World, now: Time, id: Atom) {
    && Present(kind, w.db, id)
    && match kind
       case SessionRows => Sessions.EndedAt(w.db.sessions[id]) < now - w.config.retention
       case ChallengeRows => w.db.challenges[id].expiresAt < now - CHALLENGE_RETENTION
       case ResetRows => w.db.resets[id].expiresAt < now - CHALLENGE_RETENTION
  }

  /** The deletions of a transaction carry cutoffs a retention period before `now`. */
  predicate CutoffsAt(config: Config, p: Plan, now: Time) {
    && (p.sessions.Some? && p.sessions.value.Delete? ==> p.sessions.value.before == now - config.retention)
    && (p.challenges.Some? && p.challenges.value.Delete? ==> p.challenges.value.before == now - CHALLENGE_RETENTION)
    && (p.resets.Some? && p.resets.value.Delete? ==> p.resets.value.before == now - CHALLENGE_RETENTION)
  }

  lemma OthersDeleteNothing(tx: Tx)
    requires !(tx.CleanSessions? || tx.CleanChallenges? || tx.CleanResets?)
    ensures var p := PlanOf(tx);
      && !(p.sessions.Some? && p.sessions.value.Delete?)
      && !(p.challenges.Some? && p.challenges.value.Delete?)
      && !(p.resets.Some? && p.resets.value.Delete?)
  {
  }

  lemma Cutoffs(config: Config, h: seq<Act>, tx: Tx)
    requires Permits(config, h, tx)
    ensures CutoffsAt(config, PlanOf(tx), tx.now)
  {
    if !(tx.CleanSessions? || tx.CleanChallenges? || tx.CleanResets?) { OthersDeleteNothing(tx); }
  }

  lemma RemovedByPlan(kind: Kind, w: World, p: Plan, stamp: Time, w': World, id: Atom)
    requires CutoffsAt(w.config, p, stamp) && stamp <= w.now && Evolution(w.db, p, w'.db)
    requires Present(kind, w.db, id) && !Present(kind, w'.db, id)
    ensures Past(kind, w, w.now, id)
  {
    match kind {
      case SessionRows => assert Sessions.Evolves(w.db.sessions, p.sessions.value, w'.db.sessions, id);
      case ChallengeRows => assert Challenges.Evolves(w.db.challenges, p.challenges.value, w'.db.challenges, id);
      case ResetRows => assert Resets.Evolves(w.db.resets, p.resets.value, w'.db.resets, id);
    }
  }

  /** One step removes a row only when the row is past retention. */
  lemma RemovedInAStep(kind: Kind, w: World, step: Step, id: Atom)
    requires Sound(w)
    ensures Present(kind, w.db, id) && !Present(kind, Next(w, step).db, id) ==> Past(kind, w, w.now, id)
  {
    StepCases(w, step);
    if IsCommit(w, step) && Present(kind, w.db, id) && !Present(kind, Next(w, step).db, id) {
      StampedInThePast(w, step.call, step.tx);
      Cutoffs(w.config, History(w, step.call), step.tx);
      RemovedByPlan(kind, w, PlanOf(step.tx), step.tx.now, Next(w, step), id);
    }
  }

  /** Step `i` of the run removes the row, which is past its retention at that moment. */
  predicate RemovedWhenPast(kind: Kind, w: World, later: seq<Step>, i: nat, id: Atom) {
    && i < |later|
    && !Present(kind, Run(w, later[..i + 1]).db, id)
    && Past(kind, Run(w, later[..i]), Run(w, later[..i]).now, id)
  }

  lemma {:induction false} RetainedRun(kind: Kind, w: World, later: seq<Step>, id: Atom)
    requires Sound(w) && Present(kind, w.db, id) && !Present(kind, Run(w, later).db, id)
    ensures exists i :: RemovedWhenPast(kind, w, later, i, id)
    decreases |later|
  {
    var n := |later| - 1;
    var mid := Run(w, later[..n]);
    if Present(kind, mid.db, id) {
      SoundRun(w, later[..n]);
      RemovedInAStep(kind, mid, later[n], id);
      assert later[..n + 1] == later;
      assert RemovedWhenPast(kind, w, later, n, id);
    } else {
      RetainedRun(kind, w, later[..n], id);
      var i: nat :| RemovedWhenPast(kind, w, later[..n], i, id);
      assert later[..n][..i] == later[..i] && later[..n][..i + 1] == later[..i + 1];
      assert RemovedWhenPast(kind, w, later, i, id);
    }
  }

  /** The log says the row ended a retention period ago: the session was ended by a logged
      transaction, or expired thirty days from its opening; the challenge or token expired at
      the end of the lifetime it was issued with. */
  predicate PastByLog(kind: Kind, w: World, id: Atom) {
    match kind
    case SessionRows =>
      var o := Last(OpeningWrite(id), w.log);
      && o.Some?
      && var expiresAt := o.value.at + 2_592_000_000_000_000;
         var ending := EndingIn(w.log, id, o.value.user, expiresAt);
         (if ending.Some? then ending.value.at else expiresAt) < w.now - w.config.retention
    case ChallengeRows =>
      var c := Last(ChallengeWrite(id), w.log);
      c.Some? && c.value.2 < w.now - 86_400_000_000_000
    case ResetRows =>
      var r := Last(ResetWrite(id), w.log);
      r.Some? && r.value.2 < w.now - 86_400_000_000_000
  }

  lemma PastInTheLog(kind: Kind, config: Config, now: Time, steps: seq<Step>, id: Atom)
    requires var w := Run(Start(config, now), steps); Past(kind, w, w.now, id)
    ensures PastByLog(kind, Run(Start(config, now), steps), id)
  {
    var w := Run(Start(config, now), steps);
    match kind {
      case SessionRows => SessionsFollowLog(config, now, steps, id); SessionPast(w, id);
      case ChallengeRows => TokensFollowLog(config, now, steps, id); TokenPast(kind, w, id);
      case ResetRows => TokensFollowLog(config, now, steps, id); TokenPast(kind, w, id);
    }
  }

  lemma SessionPast(w: World, id: Atom)
    requires Past(SessionRows, w, w.now, id) && SessionIs(w.db.sessions[id], w.log, id)
    ensures PastByLog(SessionRows, w, id)
  {
  }

  lemma TokenPast(kind: Kind, w: World, id: Atom)
    requires !kind.SessionRows? && Past(kind, w, w.now, id)
    requires kind.ChallengeRows? ==> ChallengeIs(w.db.challenges[id], w.log, id)
    requires kind.ResetRows? ==> ResetIs(w.db.resets[id], w.log, id)
    ensures PastByLog(kind, w, id)
  {
  }

  /** Step `i` of the run removes the row, long after its end. */
  predicate RemovedLate(kind: Kind, w: World, later: seq<Step>, i: nat, id: Atom) {
    && i < |later|
    && Present(kind, Run(w, later[..i]).db, id) && !Present(kind, Run(w, later[..i + 1]).db, id)
    && PastByLog(kind, Run(w, later[..i]), id)
  }

  /** In every run, with any calls interleaved, the cleaner removes nothing early: a row that
      was there and is gone was removed by a step at whose moment a whole retention period had
      passed since the row ended, as the log tells it. */
  lemma {:induction false} NothingRemovedEarly(
      kind: Kind, config: Config, now: Time, steps: seq<Step>, later: seq<Step>, id: Atom)
    ensures var w := Run(Start(config, now), steps);
      Present(kind, w.db, id) && !Present(kind, Run(w, later).db, id) ==>
        exists i :: RemovedLate(kind, w, later, i, id)
  {
    var w := Run(Start(config, now), steps);
    Reachable(config, now, steps);
    if Present(kind, w.db, id) && !Present(kind, Run(w, later).db, id) {
      RetainedRun(kind, w, later, id);
      var i: nat :| RemovedWhenPast(kind, w, later, i, id);
      RunAppend(Start(config, now), steps, later[..i]);
      PastInTheLog(kind, config, now, steps + later[..i], id);
      assert RemovedLate(kind, w, later, i, id);
    }
  }
}
