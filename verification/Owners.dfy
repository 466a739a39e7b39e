/** A refresh commits only for an active owner or an expired session, in every interleaving. */
module Owners {
  import opened Core
  import opened Database
  import opened Rows
  import opened Transactions
  import opened Calls
  import opened World
  import opened Versions
  import opened Locking
  import Users
  import Sessions

  /** While the row is still as it was read, its owner is active or it has expired. */
  predicate Covered(w: World, id: Atom, s: Sessions.Session) {
    id in w.db.sessions && w.db.sessions[id] == s && s.revokedAt.None? ==>
      (s.userId in w.db.users && w.db.users[s.userId].status.Active?) || s.expiresAt <= w.now
  }

  /** The call read the session, unrevoked, and after that its owner, active. */
  predicate ReadOwner(h: seq<Act>, i: int, j: int, id: Atom) {
    && 0 <= i < j < |h|
    && SawSession(h[i], id)
    && SawUser(h[j], h[i].row.value.session.userId)
    && h[j].row.value.user.status.Active?
  }

  ghost predicate OwnersCovered(w: World) {
    forall call, i, j, id :: call in w.calls && ReadOwner(w.calls[call], i, j, id) ==>
      Covered(w, id, w.calls[call][i].row.value.session)
  }

  /** Only a status change writes the status column, and any but a reactivation revokes
      the user's unexpired sessions in the same transaction. */
  lemma StatusStatement(tx: Tx)
    ensures var p := PlanOf(tx);
      p.users.Some? && p.users.value.UpdateStatus? ==>
        && tx.SetUserStatus?
        && p.users.value.id == tx.user
        && p.users.value.status == tx.status
        && (!tx.status.Active? ==>
              p.sessions == Some(Sessions.Revoke(Sessions.AllOf(tx.user, tx.now), Sessions.StatusChangedTo(tx.status),
                                                 tx.actor, tx.now)))
  {
  }

  lemma StatusChangeRevokes(db: Db, tx: Tx, after: Db, id: Atom)
    requires tx.SetUserStatus? && !tx.status.Active? && SessionsEffect(db, PlanOf(tx), after)
    requires id in after.sessions && after.sessions[id].userId == tx.user
    ensures !Sessions.Live(after.sessions[id], tx.now)
  {
  }

  lemma CoveredMoves(w: World, call: Atom, tx: Tx, id: Atom, s: Sessions.Session)
    requires Sound(w) && Commits(w, call, tx)
    requires Snapshot(w, SessionKey(id), SessionRow(s)) && Covered(w, id, s)
    ensures Covered(AfterCommit(w, call, tx), id, s)
  {
    var w' := AfterCommit(w, call, tx);
    CommitMoves(w, call, tx);
    RowsStep(w.db, PlanOf(tx), Generated(tx), w'.db, SessionKey(id));
    if id in w'.db.sessions && w'.db.sessions[id] == s && s.revokedAt.None? {
      assert w.db.sessions[id] == s;
      StatusStatement(tx);
      var p := PlanOf(tx);
      if p.users.Some? { assert Users.Evolves(w.db.users, p.users.value, w'.db.users, s.userId); }
      if p.users.Some? && p.users.value.UpdateStatus? && p.users.value.id == s.userId && !p.users.value.status.Active? {
        CommitEffects(w.db, p);
        StatusChangeRevokes(w.db, tx, w'.db, id);
        StampedInThePast(w, call, tx);
      }
    }
  }

  /** Appending an interaction leaves earlier reads where they were. */
  lemma EarlierRead(w: World, call: Atom, a: Act, c: Atom, i: int, j: int, id: Atom)
    requires c in Extended(w, call, a) && ReadOwner(Extended(w, call, a)[c], i, j, id)
    ensures var h := Extended(w, call, a)[c];
      || (c in w.calls && ReadOwner(w.calls[c], i, j, id) && w.calls[c][i] == h[i])
      || (c == call && j == |h| - 1 && h[j] == a)
  {
  }

  lemma OwnersCoveredStep(w: World, step: Step)
    requires Sound(w) && OwnersCovered(w)
    ensures OwnersCovered(Next(w, step))
  {
    var w' := Next(w, step);
    forall c, i, j, id | c in w'.calls && ReadOwner(w'.calls[c], i, j, id)
      ensures Covered(w', id, w'.calls[c][i].row.value.session)
    {
      if w'.calls != w.calls {
        var a := match step
          case Tick(_) => SawClock(w.now)
          case Read(_, key) => Saw(key, Lookup(w.db, key))
          case ReadClock(_) => SawClock(w.now)
          case Commit(call, tx) => Ran(tx, Commits(w, call, tx));
        EarlierRead(w, step.call, a, c, i, j, id);
      }
      if c in w.calls && ReadOwner(w.calls[c], i, j, id) && w.calls[c][i] == w'.calls[c][i] {
        var s := w.calls[c][i].row.value.session;
        assert ActHolds(w, w.calls[c][i]);
        if step.Commit? && Commits(w, step.call, step.tx) { CoveredMoves(w, step.call, step.tx, id, s); }
      }
    }
  }

  lemma OwnersCoveredRun(config: Config, now: Time, steps: seq<Step>)
    ensures OwnersCovered(Run(Start(config, now), steps))
  {
    if steps != [] {
      OwnersCoveredRun(config, now, steps[..|steps| - 1]);
      Reachable(config, now, steps[..|steps| - 1]);
      OwnersCoveredStep(Run(Start(config, now), steps[..|steps| - 1]), steps[|steps| - 1]);
    }
  }

  /** Whenever a refresh commits, in any interleaving, the owner is active at that instant
      or the session has already expired, and the tenant and membership it signs into the
      access token are those of the session row at that instant. */
  lemma RefreshOwnerActive(config: Config, now: Time, steps: seq<Step>, call: Atom, tx: Tx)
    requires tx.Refresh? && Commits(Run(Start(config, now), steps), call, tx)
    ensures var w := Run(Start(config, now), steps);
      && tx.session in w.db.sessions
      && var s := w.db.sessions[tx.session];
         && s.userId == tx.user && s.tenant == tx.tenant && s.membership == tx.membership
         && ((tx.user in w.db.users && w.db.users[tx.user].status.Active?) || s.expiresAt <= w.now)
  {
    var w := Run(Start(config, now), steps);
    OwnersCoveredRun(config, now, steps);
    Reachable(config, now, steps);
    CommitEffects(w.db, PlanOf(tx));
    var h := History(w, call);
    assert ActHolds(w, w.calls[call][0]);
    assert ReadOwner(w.calls[call], 0, 2, tx.session);
  }
}
