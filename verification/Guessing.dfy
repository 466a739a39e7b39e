/** How many wrong passwords are checked when every call is one atomic step. */
module Guessing {
  import opened Core
  import opened Rows
  import opened Transactions
  import opened Calls
  import opened World
  import opened Versions
  import opened LiveOwners
  import opened Lockout

  /** From the fifth failure on, failures are a lock duration apart. */
  predicate Spaced(s: seq<Time>) {
    forall i :: 5 <= i < |s| ==> s[i - 1] + 900_000_000_000 <= s[i]
  }

  ghost predicate AllSpaced(log: seq<Tx>) {
    forall user :: Spaced(Streak(log, user))
  }

  predicate Stamped(txs: seq<Tx>, from: Time, to: Time) {
    forall i :: 0 <= i < |txs| && txs[i].LoginFailed? ==> from <= txs[i].now <= to
  }

  /** Time and the log moved on, every new failure stamped in between. */
  predicate Grew(w: World, w': World) {
    w.now <= w'.now && w.log <= w'.log && Stamped(w'.log[|w.log|..], w.now, w'.now)
  }

  lemma GrewOn(a: World, b: World, c: World)
    requires Grew(a, b) && Grew(b, c)
    ensures Grew(a, c)
  {
    var n, m := |a.log|, |b.log|;
    forall i | 0 <= i < |c.log| - n && c.log[n..][i].LoginFailed? ensures a.now <= c.log[n..][i].now <= c.now {
      if n + i < m {
        assert c.log[n..][i] == b.log[n..][i];
      } else {
        assert c.log[n..][i] == c.log[m..][n + i - m];
      }
    }
  }

  predicate OnlyReads(h: seq<Act>) {
    forall i :: 0 <= i < |h| ==> !h[i].Ran?
  }

  predicate CurrentAct(w: World, a: Act) {
    (a.Saw? ==> a.row == Lookup(w.db, a.key)) && (a.SawClock? ==> a.now == w.now)
  }

  /** Until it runs its first transaction, all that an uninterrupted call has read is current. */
  predicate ReadsCurrent(w: World, call: Atom) {
    var h := History(w, call);
    OnlyReads(h) ==> forall i :: 0 <= i < |h| ==> CurrentAct(w, h[i])
  }

  lemma ReadsStayCurrent(w: World, call: Atom, step: Step)
    requires ReadsCurrent(w, call) && !step.Tick? && step.call == call
    ensures ReadsCurrent(Next(w, step), call)
  {
    var h, w' := History(w, call), Next(w, step);
    var h' := History(w', call);
    if !step.Commit? {
      assert forall i :: 0 <= i < |h| ==> h'[i] == h[i];
    } else if h' != h {
      assert h'[|h|].Ran?;
    }
  }

  /** A failure that is counted comes when the last lock has run out. */
  lemma FailureSpaced(w: World, call: Atom, tx: Tx)
    requires LocksFollow(w.db, w.log) && AllSpaced(w.log)
    requires ReadsCurrent(w, call) && Ready(w, call, tx) && tx.LoginFailed?
    ensures tx.now == w.now && Spaced(Streak(w.log, tx.user) + [tx.now])
  {
    var h := History(w, call);
    assert OnlyReads(h);
    assert CurrentAct(w, h[0]) && CurrentAct(w, h[2]);
    assert Locks(w.db.users[tx.user], Streak(w.log, tx.user));
  }

  lemma SpacedMoves(log: seq<Tx>, tx: Tx)
    requires AllSpaced(log) && (tx.LoginFailed? ==> Spaced(Streak(log, tx.user) + [tx.now]))
    ensures AllSpaced(log + [tx])
  {
    assert (log + [tx])[..|log|] == log;
  }

  ghost predicate Guarded(w: World) {
    LocksFollow(w.db, w.log) && AllSpaced(w.log)
  }

  lemma GuardedStep(w: World, call: Atom, step: Step)
    requires Guarded(w) && ReadsCurrent(w, call) && !step.Tick? && step.call == call
    ensures Guarded(Next(w, step)) && ReadsCurrent(Next(w, step), call) && Grew(w, Next(w, step))
    ensures Next(w, step).now == w.now
  {
    ReadsStayCurrent(w, call, step);
    LocksStep(w, step);
    StepCases(w, step);
    if IsCommit(w, step) {
      if step.tx.LoginFailed? { FailureSpaced(w, call, step.tx); }
      SpacedMoves(w.log, step.tx);
    }
  }

  lemma GuardedCall(w: World, call: Atom, steps: seq<Step>)
    requires Guarded(w) && Uninterrupted(w, call, steps)
    ensures var w' := Run(w, steps); Guarded(w') && ReadsCurrent(w', call) && Grew(w, w')
  {
    if steps != [] {
      var n := |steps| - 1;
      var mid := Run(w, steps[..n]);
      GuardedCall(w, call, steps[..n]);
      GuardedStep(mid, call, steps[n]);
      GrewOn(w, mid, Run(w, steps));
    }
  }

  lemma GuardedTurns(w: World, turns: seq<Turn>)
    requires Guarded(w)
    ensures var w' := TakeTurns(w, turns); Guarded(w') && Grew(w, w')
  {
    if turns != [] {
      var n := |turns| - 1;
      var mid := TakeTurns(w, turns[..n]);
      GuardedTurns(w, turns[..n]);
      match turns[n] {
        case Wait(_) =>
        case Whole(call, steps) => if Uninterrupted(mid, call, steps) { GuardedCall(mid, call, steps); }
      }
      GrewOn(mid, mid, TakeTurns(w, turns));
      GrewOn(w, mid, TakeTurns(w, turns));
    }
  }

  /** The failed password checks of the user in a stretch of the log. */
  function Failures(txs: seq<Tx>, user: Atom): seq<Time>
    decreases |txs|
  {
    if txs == [] then [] else
    var earlier := Failures(txs[..|txs| - 1], user);
    if Fails(txs[|txs| - 1], user) then earlier + [txs[|txs| - 1].now] else earlier
  }

  predicate NothingClears(txs: seq<Tx>, user: Atom) {
    forall i :: 0 <= i < |txs| ==> !Clears(txs[i], user)
  }

  lemma StreakGrows(log: seq<Tx>, txs: seq<Tx>, user: Atom, from: Time, to: Time)
    requires NothingClears(txs, user) && Stamped(txs, from, to)
    ensures Streak(log + txs, user) == Streak(log, user) + Failures(txs, user)
    ensures forall i :: 0 <= i < |Failures(txs, user)| ==> from <= Failures(txs, user)[i] <= to
  {
    if txs == [] {
      assert log + txs == log;
    } else {
      var n := |txs| - 1;
      StreakGrows(log, txs[..n], user, from, to);
      assert (log + txs)[..|log| + n] == log + txs[..n];
    }
  }

  /** Spaced failures stretch: k of them past the fourth take k locks. */
  lemma SpacedSpan(s: seq<Time>, first: nat, last: nat)
    requires Spaced(s) && 5 - 1 <= first <= last < |s|
    ensures s[first] + (last - first) * 900_000_000_000 <= s[last]
  {
    if first < last { SpacedSpan(s, first, last - 1); }
  }

  lemma SpacedCount(s: seq<Time>, t: seq<Time>, from: Time, to: Time)
    requires Spaced(s + t) && from <= to
    requires forall i :: 0 <= i < |t| ==> from <= t[i] <= to
    ensures |t| <= 5 + (to - from) / 900_000_000_000
  {
    if |t| > 5 {
      var all := s + t;
      var first := if |s| > 4 then |s| else 4;
      SpacedSpan(all, first, |all| - 1);
      assert all[first] == t[first - |s|] && all[|all| - 1] == t[|t| - 1];
    }
  }

  /** In a stretch of time with no successful password and no status change, at most five
      wrong passwords are checked, and one more for every quarter of an hour. */
  lemma {:induction false} GuessesBounded(config: Config, now: Time, turns: seq<Turn>, more: seq<Turn>, user: Atom)
    ensures var w := TakeTurns(Start(config, now), turns);
      var w' := TakeTurns(w, more);
      && w.log <= w'.log && w.now <= w'.now
      && (NothingClears(w'.log[|w.log|..], user) ==>
            |Failures(w'.log[|w.log|..], user)| <= 5 + (w'.now - w.now) / 900_000_000_000)
  {
    GuardedTurns(Start(config, now), turns);
    var w := TakeTurns(Start(config, now), turns);
    GuardedTurns(w, more);
    var w' := TakeTurns(w, more);
    var txs := w'.log[|w.log|..];
    if NothingClears(txs, user) {
      StreakGrows(w.log, txs, user, w.now, w'.now);
      assert w.log + txs == w'.log;
      SpacedCount(Streak(w.log, user), Failures(txs, user), w.now, w'.now);
    }
  }
}
