/** Optimistic locking over whole runs: no lost update and no ABA, in every interleaving. */
module Locking {
  import opened Core
  import opened Database
  import opened Rows
  import opened Transactions
  import opened Calls
  import opened World
  import opened Versions
  import Users
  import Credentials
  import Sessions
  import Enrollments
  import Challenges
  import Resets
  import Accounts

  /** The key names a row that has existed. */
  predicate Known(w: World, key: Key) {
    if key.EnrollmentKey? then key.id in w.db.enrollments else key.id in w.used
  }

  /** A row as read some time ago: what is there now, if anything, succeeds it. */
  predicate Snapshot(w: World, key: Key, row: Row) {
    && Known(w, key)
    && (Lookup(w.db, key).Some? ==> Succeeds(row, Lookup(w.db, key).value))
  }

  predicate ActHolds(w: World, a: Act) {
    match a
    case Saw(key, row) => row.Some? ==> Snapshot(w, key, row.value)
    case SawClock(now) => now <= w.now
    case Ran(_, _) => true
  }

  /** Every row present has a known key, and everything a call has read was true once. */
  ghost predicate Sound(w: World) {
    && (forall key :: Lookup(w.db, key).Some? ==> Known(w, key))
    && CallsSound(w)
  }

  lemma SnapshotMoves(w: World, tx: Tx, w': World, key: Key, row: Row)
    requires Moves(w, tx, w') && Snapshot(w, key, row)
    ensures Snapshot(w', key, row)
  {
    RowsStep(w.db, PlanOf(tx), Generated(tx), w'.db, key);
    SnapshotStep(w, Generated(tx), w', key, row);
  }

  lemma SnapshotStep(w: World, g: set<Atom>, w': World, key: Key, row: Row)
    requires Snapshot(w, key, row) && KeyStep(w.db, g, w'.db, key) && g !! w.used && w'.used == w.used + g
    ensures Snapshot(w', key, row)
  {
  }

  lemma KnownMoves(w: World, tx: Tx, w': World, key: Key)
    requires Moves(w, tx, w') && (Lookup(w.db, key).Some? ==> Known(w, key))
    ensures Lookup(w'.db, key).Some? ==> Known(w', key)
  {
    RowsStep(w.db, PlanOf(tx), Generated(tx), w'.db, key);
  }

  /** What was sound stays sound when the database only evolves. */
  lemma SoundMoves(w: World, tx: Tx, w': World)
    requires Sound(w) && Moves(w, tx, w')
    ensures forall key :: Lookup(w'.db, key).Some? ==> Known(w', key)
    ensures forall a :: ActHolds(w, a) ==> ActHolds(w', a)
  {
    forall key ensures Lookup(w'.db, key).Some? ==> Known(w', key) { KnownMoves(w, tx, w', key); }
    forall a | ActHolds(w, a) ensures ActHolds(w', a) {
      if a.Saw? && a.row.Some? { SnapshotMoves(w, tx, w', a.key, a.row.value); }
    }
  }

  lemma SoundStep(w: World, step: Step)
    requires Sound(w)
    ensures Sound(Next(w, step))
  {
    var w' := Next(w, step);
    StepCases(w, step);
    if IsCommit(w, step) { SoundMoves(w, step.tx, w'); }
    if w'.calls != w.calls {
      var a := match step
        case Tick(_) => SawClock(w.now)
        case Read(_, key) => Saw(key, Lookup(w.db, key))
        case ReadClock(_) => SawClock(w.now)
        case Commit(call, tx) => Ran(tx, Commits(w, call, tx));
      CallsStaySound(w, step.call, a, w');
    }
  }

  ghost predicate CallsSound(w: World) {
    forall call, i :: call in w.calls && 0 <= i < |w.calls[call]| ==> ActHolds(w, w.calls[call][i])
  }

  lemma CallsStaySound(w: World, call: Atom, a: Act, w': World)
    requires CallsSound(w) && w'.calls == Extended(w, call, a)
    requires ActHolds(w', a) && forall b :: ActHolds(w, b) ==> ActHolds(w', b)
    ensures CallsSound(w')
  {
  }

  lemma SoundRun(w: World, steps: seq<Step>)
    requires Sound(w)
    ensures Sound(Run(w, steps))
  {
    if steps != [] {
      SoundRun(w, steps[..|steps| - 1]);
      SoundStep(Run(w, steps[..|steps| - 1]), steps[|steps| - 1]);
    }
  }

  lemma Reachable(config: Config, now: Time, steps: seq<Step>)
    ensures Sound(Run(Start(config, now), steps))
  {
    SoundRun(Start(config, now), steps);
  }

  /** The time a transaction stamps was read from the clock before it commits. */
  lemma StampedInThePast(w: World, call: Atom, tx: Tx)
    requires Sound(w) && Ready(w, call, tx)
    ensures tx.now <= w.now
  {
    var h := History(w, call);
    assert SawClock(tx.now) in h;
    assert forall i :: 0 <= i < |h| ==> ActHolds(w, w.calls[call][i]);
  }

  lemma SnapshotRun(w: World, steps: seq<Step>, key: Key, row: Row)
    requires Snapshot(w, key, row)
    ensures Snapshot(Run(w, steps), key, row)
  {
    if steps != [] {
      var before := Run(w, steps[..|steps| - 1]);
      SnapshotRun(w, steps[..|steps| - 1], key, row);
      StepCases(before, steps[|steps| - 1]);
      if IsCommit(before, steps[|steps| - 1]) {
        SnapshotMoves(before, steps[|steps| - 1].tx, Run(w, steps), key, row);
      }
    }
  }

  /** No ABA: at any two moments of any run, a row with the same version is the same row. */
  lemma {:induction false} SameVersionSameRow(config: Config, now: Time, steps: seq<Step>, later: seq<Step>, key: Key)
    ensures var w := Run(Start(config, now), steps);
      var a, b := Lookup(w.db, key), Lookup(Run(w, later).db, key);
      a.Some? && b.Some? && a.value.Version() == b.value.Version() ==> a == b
  {
    var w := Run(Start(config, now), steps);
    Reachable(config, now, steps);
    if Lookup(w.db, key).Some? { SnapshotRun(w, later, key, Lookup(w.db, key).value); }
  }

  /** A call that read a row finds, at any later moment at which the version it read is
      still there, the whole row still as it read it. */
  lemma ReadAtVersionIsCurrent(config: Config, now: Time, steps: seq<Step>, call: Atom, i: nat)
    ensures var w := Run(Start(config, now), steps); var h := History(w, call);
      i < |h| && h[i].Saw? && h[i].row.Some? && Lookup(w.db, h[i].key).Some?
        && Lookup(w.db, h[i].key).value.Version() == h[i].row.value.Version()
      ==> Lookup(w.db, h[i].key) == h[i].row
  {
    Reachable(config, now, steps);
    var w := Run(Start(config, now), steps);
    if call in w.calls && i < |w.calls[call]| { assert ActHolds(w, w.calls[call][i]); }
  }

  /** How often a run has updated the row under `key`. */
  function Updates(w: World, steps: seq<Step>, key: Key): nat
    decreases |steps|
  {
    if steps == [] then 0 else
    var a, b := Lookup(Run(w, steps[..|steps| - 1]).db, key), Lookup(Run(w, steps).db, key);
    Updates(w, steps[..|steps| - 1], key) + if a.Some? && b.Some? && a != b then 1 else 0
  }

  predicate Counted(w: World, key: Key, updates: nat) {
    && (Lookup(w.db, key).Some? ==> Lookup(w.db, key).value.Version() == 1 + updates)
    && (!Known(w, key) ==> updates == 0)
  }

  lemma CountMoves(w: World, tx: Tx, w': World, key: Key, updates: nat)
    requires Sound(w) && Moves(w, tx, w') && Counted(w, key, updates)
    ensures var a, b := Lookup(w.db, key), Lookup(w'.db, key);
      Counted(w', key, updates + if a.Some? && b.Some? && a != b then 1 else 0)
  {
    RowsStep(w.db, PlanOf(tx), Generated(tx), w'.db, key);
  }

  /** A row's version is one plus the number of updates committed to it. */
  lemma {:induction false} VersionCountsUpdates(config: Config, now: Time, steps: seq<Step>, key: Key)
    ensures Counted(Run(Start(config, now), steps), key, Updates(Start(config, now), steps, key))
  {
    if steps != [] {
      var w0, before, step := Start(config, now), steps[..|steps| - 1], steps[|steps| - 1];
      VersionCountsUpdates(config, now, before, key);
      Reachable(config, now, before);
      StepCases(Run(w0, before), step);
      if IsCommit(Run(w0, before), step) {
        CountMoves(Run(w0, before), step.tx, Run(w0, steps), key, Updates(w0, before, key));
      }
    }
  }

  /** The transaction has a statement guarded on this version of this row. */
  predicate GuardedBy(p: Plan, key: Key, version: int) {
    match key
    case UserKey(id) => p.users.Some? && Users.GuardsOn(p.users.value, id, version)
    case CredentialKey(id) => p.credentials.Some? && Credentials.GuardsOn(p.credentials.value, id, version)
    case SessionKey(id) => p.sessions.Some? && Sessions.GuardsOn(p.sessions.value, id, version)
    case EnrollmentKey(id) => p.enrollments.Some? && Enrollments.GuardsOn(p.enrollments.value, id, version)
    case ChallengeKey(id) => p.challenges.Some? && Challenges.GuardsOn(p.challenges.value, id, version)
    case ResetKey(id) => p.resets.Some? && p.invalidation.None? && Resets.GuardsOn(p.resets.value, id, version)
    case AccountKey(id) => p.accounts.Some? && Accounts.GuardsOn(p.accounts.value, id, version)
  }

  lemma GuardHolds(db: Db, p: Plan, key: Key, version: int)
    requires Exec(db, p).Committed? && GuardedBy(p, key, version)
    ensures var a, b := Lookup(db, key), Lookup(Exec(db, p).db, key);
      a.Some? && a.value.Version() == version && b.Some? && b.value.Version() == version + 1
  {
    CommitEffects(db, p);
    var ids := Exec(db, p).db.users.Keys;
    match key {
      case UserKey(id) => Users.GuardHolds(db.users, p.users.value, id, version);
      case CredentialKey(id) => Credentials.GuardHolds(db.credentials, ids, p.credentials.value, id, version);
      case SessionKey(id) => Sessions.GuardHolds(db.sessions, ids, p.sessions.value, id, version);
      case EnrollmentKey(id) => Enrollments.GuardHolds(db.enrollments, ids, p.enrollments.value, id, version);
      case ChallengeKey(id) => Challenges.GuardHolds(db.challenges, ids, p.challenges.value, id, version);
      case ResetKey(id) => Resets.GuardHolds(db.resets, ids, p.resets.value, id, version);
      case AccountKey(id) => Accounts.GuardHolds(db.accounts, p.accounts.value, id, version);
    }
  }

  /** The version has been left behind for good. */
  predicate Passed(w: World, key: Key, version: int) {
    && Known(w, key)
    && (Lookup(w.db, key).Some? ==> Lookup(w.db, key).value.Version() > version)
  }

  ghost predicate GuardsPassed(w: World) {
    forall i, key, version ::
      0 <= i < |w.log| && GuardedBy(PlanOf(w.log[i]), key, version) ==> Passed(w, key, version)
  }

  lemma PassedMoves(w: World, tx: Tx, w': World, key: Key, version: int)
    requires Moves(w, tx, w') && Passed(w, key, version)
    ensures Passed(w', key, version)
  {
    RowsStep(w.db, PlanOf(tx), Generated(tx), w'.db, key);
  }

  lemma GuardsPassedRun(config: Config, now: Time, steps: seq<Step>)
    ensures GuardsPassed(Run(Start(config, now), steps))
  {
    if steps != [] {
      var w, step := Run(Start(config, now), steps[..|steps| - 1]), steps[|steps| - 1];
      GuardsPassedRun(config, now, steps[..|steps| - 1]);
      Reachable(config, now, steps[..|steps| - 1]);
      Reachable(config, now, steps);
      GuardsPassedStep(w, step);
    }
  }

  lemma GuardsPassedStep(w: World, step: Step)
    requires GuardsPassed(w) && Sound(w) && Sound(Next(w, step))
    ensures GuardsPassed(Next(w, step))
  {
    var w' := Next(w, step);
    StepCases(w, step);
    forall i, key, version | 0 <= i < |w'.log| && GuardedBy(PlanOf(w'.log[i]), key, version)
      ensures Passed(w', key, version)
    {
      if i == |w.log| {
        GuardPasses(w, step.call, step.tx, key, version);
      } else {
        assert w'.log[i] == w.log[i];
        assert Passed(w, key, version);
        if IsCommit(w, step) { PassedMoves(w, step.tx, w', key, version); }
      }
    }
  }

  lemma GuardPasses(w: World, call: Atom, tx: Tx, key: Key, version: int)
    requires Commits(w, call, tx) && GuardedBy(PlanOf(tx), key, version) && Sound(AfterCommit(w, call, tx))
    ensures Lookup(w.db, key).Some? && Lookup(w.db, key).value.Version() == version
    ensures Passed(AfterCommit(w, call, tx), key, version)
  {
    GuardHolds(w.db, PlanOf(tx), key, version);
  }

  /** Of all the writers that guard on one version of one row, at most one ever commits. */
  lemma OneWriterPerVersion(
      config: Config, now: Time, steps: seq<Step>, call: Atom, tx: Tx, key: Key, version: int, i: nat)
    requires Commits(Run(Start(config, now), steps), call, tx) && GuardedBy(PlanOf(tx), key, version)
    requires i < |Run(Start(config, now), steps).log|
    ensures !GuardedBy(PlanOf(Run(Start(config, now), steps).log[i]), key, version)
  {
    var w := Run(Start(config, now), steps);
    GuardsPassedRun(config, now, steps);
    GuardHolds(w.db, PlanOf(tx), key, version);
    assert !Passed(w, key, version);
  }

  /** No lost update: a writer that guards on the version it read commits only if the whole
      row is still what it read. */
  lemma NoLostUpdate(config: Config, now: Time, steps: seq<Step>, call: Atom, tx: Tx, key: Key, row: Row)
    requires Commits(Run(Start(config, now), steps), call, tx) && GuardedBy(PlanOf(tx), key, row.Version())
    requires Saw(key, Some(row)) in History(Run(Start(config, now), steps), call)
    ensures Lookup(Run(Start(config, now), steps).db, key) == Some(row)
  {
    var w := Run(Start(config, now), steps);
    GuardHolds(w.db, PlanOf(tx), key, row.Version());
    var h := History(w, call);
    var i :| 0 <= i < |h| && h[i] == Saw(key, Some(row));
    ReadAtVersionIsCurrent(config, now, steps, call, i);
  }
}
