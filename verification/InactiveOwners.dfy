/** Live sessions of users who are not active: exactly which of them an interleaved run leaves
    behind. */
module InactiveOwners {
  import opened Core
  import opened Database
  import opened Transactions
  import opened Calls
  import opened World
  import opened Versions
  import opened Locking
  import opened Owners
  import opened LiveOwners
  import opened Writes
  import opened Bearer
  import Users
  import Sessions

  /** The owner a session was opened for. */
  function OpenWrite(id: Atom): Tx -> Option<Atom> {
    (tx: Tx) => if Opens(tx) && tx.session == id then Some(tx.user) else None
  }

  predicate OpenedAtIndex(log: seq<Tx>, i: nat, id: Atom) {
    i < |log| && Opens(log[i]) && log[i].session == id
  }

  predicate Deactivates(tx: Tx, user: Atom) {
    tx.SetUserStatus? && tx.user == user && !tx.status.Active?
  }

  // What the log says of users and sessions.

  /** A status is the last one written, or active if none was. */
  predicate StatusFollows(w: World, user: Atom) {
    var last := Last(StatusWrite(user), w.log);
    if user in w.db.users then w.db.users[user].status == Or(last, Users.Active) else last.None?
  }

  /** A session was opened, for the user who owns it and who exists. */
  predicate SessionFollows(w: World, id: Atom) {
    id in w.db.sessions ==>
      && id in w.used && w.db.sessions[id].userId in w.db.users
      && Last(OpenWrite(id), w.log) == Some(w.db.sessions[id].userId)
  }

  /** What was opened before a deactivation of its user is over. */
  ghost predicate DeactivationHolds(w: World, i: int, j: int) {
    0 <= i < j < |w.log| && Opens(w.log[i]) && Deactivates(w.log[j], w.log[i].user) ==> Over(w, w.log[i].session)
  }

  /** Who opened a session owns it as long as it is there. */
  ghost predicate OpenerOwns(w: World, i: int) {
    0 <= i < |w.log| && Opens(w.log[i]) ==>
      && w.log[i].session in w.used
      && (w.log[i].session in w.db.sessions ==> w.db.sessions[w.log[i].session].userId == w.log[i].user)
  }

  ghost predicate Followed(w: World) {
    && (forall user :: StatusFollows(w, user))
    && (forall id :: SessionFollows(w, id))
    && (forall i :: OpenerOwns(w, i))
    && (forall i, j :: DeactivationHolds(w, i, j))
  }

  lemma RegisteredActive(tx: Tx)
    ensures var s := PlanOf(tx).users; s.Some? && s.value.Insert? ==> s.value.row.status.Active?
  {
  }

  lemma StatusFollowsMoves(w: World, tx: Tx, w': World, user: Atom)
    requires Moves(w, tx, w') && StatusFollows(w, user)
    ensures StatusFollows(w', user)
  {
    LastNext(StatusWrite(user), w.log, tx);
    WritingStatements(tx);
    RegisteredActive(tx);
    if user in w.db.users {
      UserMoves(w, tx, w', user);
    } else {
      var s := PlanOf(tx).users;
      if s.Some? { assert Users.Evolves(w.db.users, s.value, w'.db.users, user); }
    }
  }

  /** An opened session's user exists, because the table's foreign key says so. */
  lemma OpenedForUser(db: Db, tx: Tx, after: Db)
    requires Opens(tx) && SessionsEffect(db, PlanOf(tx), after)
    ensures tx.user in after.users
  {
    OpeningStatement(tx);
  }

  lemma SessionFollowsMoves(w: World, tx: Tx, w': World, id: Atom)
    requires Moves(w, tx, w') && SessionFollows(w, id)
    requires Opens(tx) ==> tx.user in w'.db.users
    ensures SessionFollows(w', id)
  {
    LastNext(OpenWrite(id), w.log, tx);
    OpeningStatement(tx);
    var s := PlanOf(tx).sessions;
    if s.Some? { assert Sessions.Evolves(w.db.sessions, s.value, w'.db.sessions, id); }
    if id in w.db.sessions && w.db.sessions[id].userId in w.db.users {
      StatusMoves(w, tx, w', w.db.sessions[id].userId);
    }
  }

  lemma OpenerOwnsMoves(w: World, tx: Tx, w': World, i: int)
    requires Moves(w, tx, w') && OpenerOwns(w, i)
    ensures OpenerOwns(w', i)
  {
    if 0 <= i < |w.log| && Opens(w.log[i]) {
      assert w'.log[i] == w.log[i];
      SessionMoves(w, tx, w', w.log[i].session);
    } else if i == |w.log| && Opens(tx) {
      OpeningStatement(tx);
      assert w'.log[i] == tx;
      assert Sessions.Evolves(w.db.sessions, PlanOf(tx).sessions.value, w'.db.sessions, tx.session);
    }
  }

  lemma DeactivationMoves(w: World, call: Atom, tx: Tx, i: int, j: int)
    requires Sound(w) && Commits(w, call, tx) && DeactivationHolds(w, i, j) && OpenerOwns(AfterCommit(w, call, tx), i)
    ensures DeactivationHolds(AfterCommit(w, call, tx), i, j)
  {
    var w' := AfterCommit(w, call, tx);
    CommitMoves(w, call, tx);
    if 0 <= i < j < |w.log| {
      assert w'.log[i] == w.log[i] && w'.log[j] == w.log[j];
      if Opens(w.log[i]) && Over(w, w.log[i].session) { OverMoves(w, tx, w', w.log[i].session); }
    } else if 0 <= i < j == |w.log| && Opens(w.log[i]) && Deactivates(tx, w.log[i].user) {
      assert w'.log[i] == w.log[i];
      CommitEffects(w.db, PlanOf(tx));
      StampedInThePast(w, call, tx);
      var id := w.log[i].session;
      if id in w'.db.sessions { StatusChangeRevokes(w.db, tx, w'.db, id); }
    }
  }

  lemma FollowedCommit(w: World, call: Atom, tx: Tx)
    requires Sound(w) && Followed(w) && Commits(w, call, tx)
    ensures Followed(AfterCommit(w, call, tx))
  {
    var w' := AfterCommit(w, call, tx);
    CommitMoves(w, call, tx);
    CommitEffects(w.db, PlanOf(tx));
    if Opens(tx) { OpenedForUser(w.db, tx, w'.db); }
    forall user ensures StatusFollows(w', user) { StatusFollowsMoves(w, tx, w', user); }
    forall id ensures SessionFollows(w', id) { SessionFollowsMoves(w, tx, w', id); }
    forall i ensures OpenerOwns(w', i) { OpenerOwnsMoves(w, tx, w', i); }
    forall i, j ensures DeactivationHolds(w', i, j) { DeactivationMoves(w, call, tx, i, j); }
  }

  lemma FollowedIdle(w: World, w': World)
    requires Followed(w) && Idles(w, w')
    ensures Followed(w')
  {
    forall user ensures StatusFollows(w', user) { assert StatusFollows(w, user); }
    forall id ensures SessionFollows(w', id) { assert SessionFollows(w, id); }
    forall i ensures OpenerOwns(w', i) { assert OpenerOwns(w, i); }
    forall i, j ensures DeactivationHolds(w', i, j) { assert DeactivationHolds(w, i, j); }
  }

  lemma {:induction false} FollowedRun(config: Config, now: Time, steps: seq<Step>)
    ensures Followed(Run(Start(config, now), steps))
    decreases |steps|
  {
    if steps != [] {
      var w, step := Run(Start(config, now), steps[..|steps| - 1]), steps[|steps| - 1];
      FollowedRun(config, now, steps[..|steps| - 1]);
      Reachable(config, now, steps[..|steps| - 1]);
      StepCases(w, step);
      if IsCommit(w, step) { FollowedCommit(w, step.call, step.tx); } else { FollowedIdle(w, Next(w, step)); }
    }
  }

  // The exact condition.

  /** The user was last made inactive before index `i`, and no status change has followed. */
  predicate InactiveSince(log: seq<Tx>, i: nat, user: Atom)
    requires i < |log|
  {
    var before := Last(StatusWrite(user), log[..i]);
    before.Some? && !before.value.Active? && Last(StatusWrite(user), log[i + 1..]).None?
  }

  lemma LastAround(log: seq<Tx>, i: nat, user: Atom)
    requires i < |log| && Opens(log[i])
    ensures var after := Last(StatusWrite(user), log[i + 1..]);
      Last(StatusWrite(user), log) == if after.Some? then after else Last(StatusWrite(user), log[..i])
  {
    assert log == log[..i] + [log[i]] + log[i + 1..];
    LastAppend(StatusWrite(user), log[..i] + [log[i]], log[i + 1..]);
    LastNext(StatusWrite(user), log[..i], log[i]);
  }

  /** A live session has seen no deactivation of its owner since it was opened. */
  lemma OnlyReactivated(w: World, i: nat, id: Atom)
    requires Followed(w) && OpenedAtIndex(w.log, i, id)
    requires id in w.db.sessions && Sessions.Live(w.db.sessions[id], w.now)
    ensures var last := Last(StatusWrite(w.log[i].user), w.log[i + 1..]); last.Some? ==> last.value.Active?
  {
    var user := w.log[i].user;
    if Last(StatusWrite(user), w.log[i + 1..]).Some? {
      var j := WhoWrote(StatusWrite(user), w.log[i + 1..]);
      assert w.log[i + 1..][j] == w.log[i + 1 + j];
      assert DeactivationHolds(w, i, i + 1 + j);
    }
  }

  /** In every interleaving, the owner of a live session is inactive exactly when the last
      status change before the session was opened made the owner inactive, and no status
      change has been committed since: the session was opened by a call that was past its
      reads when the status changed. */
  lemma InactiveOwnerExactly(config: Config, now: Time, steps: seq<Step>, i: nat, id: Atom)
    requires var w := Run(Start(config, now), steps);
      OpenedAtIndex(w.log, i, id) && id in w.db.sessions && Sessions.Live(w.db.sessions[id], w.now)
    ensures var w := Run(Start(config, now), steps);
      var user := w.db.sessions[id].userId;
      user == w.log[i].user && user in w.db.users
      && (!w.db.users[user].status.Active? <==> InactiveSince(w.log, i, user))
  {
    var w := Run(Start(config, now), steps);
    FollowedRun(config, now, steps);
    assert OpenerOwns(w, i) && SessionFollows(w, id) && StatusFollows(w, w.log[i].user);
    LastAround(w.log, i, w.log[i].user);
    OnlyReactivated(w, i, id);
  }

  /** Every session there is was opened by a logged transaction. */
  lemma EverySessionOpened(config: Config, now: Time, steps: seq<Step>, id: Atom)
    requires id in Run(Start(config, now), steps).db.sessions
    ensures exists i: nat :: OpenedAtIndex(Run(Start(config, now), steps).log, i, id)
  {
    var w := Run(Start(config, now), steps);
    FollowedRun(config, now, steps);
    assert SessionFollows(w, id);
    var j := WhoWrote(OpenWrite(id), w.log);
    assert OpenedAtIndex(w.log, j, id);
  }

  predicate LiveFrom(w: World, i: nat, id: Atom) {
    OpenedAtIndex(w.log, i, id) && id in w.db.sessions && Sessions.Live(w.db.sessions[id], w.now)
  }

  /** So all live sessions have active owners exactly when none of them was opened that way. */
  lemma OwnersActiveExactly(config: Config, now: Time, steps: seq<Step>)
    ensures var w := Run(Start(config, now), steps);
      LiveOwnersActive(w) <==>
        forall i: nat, id :: LiveFrom(w, i, id) ==> !InactiveSince(w.log, i, w.log[i].user)
  {
    var w := Run(Start(config, now), steps);
    forall i: nat, id | LiveFrom(w, i, id)
      ensures ActiveUser(w.db, w.db.sessions[id].userId) <==> !InactiveSince(w.log, i, w.log[i].user)
    {
      InactiveOwnerExactly(config, now, steps, i, id);
    }
    forall id | id in w.db.sessions && Sessions.Live(w.db.sessions[id], w.now)
      ensures exists i: nat :: LiveFrom(w, i, id)
    {
      EverySessionOpened(config, now, steps, id);
      var i: nat :| OpenedAtIndex(w.log, i, id);
      assert LiveFrom(w, i, id);
    }
  }
}
