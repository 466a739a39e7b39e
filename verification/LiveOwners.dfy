/** A user who is not active has no live session: true when every call runs atomically. */
module LiveOwners {
  import opened Core
  import opened Database
  import opened Rows
  import opened Transactions
  import opened Calls
  import opened World
  import opened Versions
  import opened Locking
  import opened Owners
  import Users
  import Sessions

  predicate ActiveUser(db: Db, user: Atom) {
    user in db.users && db.users[user].status.Active?
  }

  ghost predicate LiveOwnersActive(w: World) {
    forall id :: id in w.db.sessions && Sessions.Live(w.db.sessions[id], w.now) ==>
      ActiveUser(w.db, w.db.sessions[id].userId)
  }

  predicate Opens(tx: Tx) {
    tx.OpenSession? || tx.VerifyChallenge?
  }

  /** When a transaction that opens a session does so. */
  function OpenedAt(tx: Tx): Time
    requires Opens(tx)
  {
    if tx.OpenSession? then tx.now else tx.preparedAt
  }

  lemma OpeningStatement(tx: Tx)
    ensures var s := PlanOf(tx).sessions;
      && (Opens(tx) <==> s.Some? && s.value.Insert?)
      && (Opens(tx) ==>
            && s.value.id == tx.session
            && s.value.row.userId == tx.user
            && s.value.row.revokedAt.None?
            && s.value.row.expiresAt == OpenedAt(tx) + 2_592_000_000_000_000)
      && (Opens(tx) ==> PlanOf(tx).users.None?)
  {
  }

  /** Every status but that of the user a status change names stays as it was. */
  lemma StatusMoves(w: World, tx: Tx, w': World, user: Atom)
    requires Moves(w, tx, w')
    ensures user in w.db.users ==> user in w'.db.users
    ensures user in w.db.users && !(tx.SetUserStatus? && tx.user == user) ==>
      w'.db.users[user].status == w.db.users[user].status
  {
    StatusStatement(tx);
    var s := PlanOf(tx).users;
    if s.Some? { assert Users.Evolves(w.db.users, s.value, w'.db.users, user); }
  }

  lemma SetStatus(db: Db, tx: Tx, after: Db)
    requires tx.SetUserStatus? && UsersEffect(db, PlanOf(tx), after)
    ensures tx.user in after.users && after.users[tx.user].status == tx.status
  {
  }

  /** A live session after a commit was live before it, or is the one the commit opened. */
  lemma LiveBefore(w: World, tx: Tx, w': World, id: Atom)
    requires Moves(w, tx, w') && id in w'.db.sessions && Sessions.Live(w'.db.sessions[id], w'.now)
    ensures
      || (&& id in w.db.sessions && Sessions.Live(w.db.sessions[id], w.now)
          && w.db.sessions[id].userId == w'.db.sessions[id].userId)
      || (Opens(tx) && id == tx.session && w'.db.sessions[id].userId == tx.user)
  {
    OpeningStatement(tx);
    var s := PlanOf(tx).sessions;
    if s.Some? { assert Sessions.Evolves(w.db.sessions, s.value, w'.db.sessions, id); }
  }

  lemma OwnersStayActive(w: World, call: Atom, tx: Tx)
    requires Sound(w) && LiveOwnersActive(w) && Commits(w, call, tx)
    requires Opens(tx) ==> ActiveUser(w.db, tx.user)
    ensures LiveOwnersActive(AfterCommit(w, call, tx))
  {
    var w' := AfterCommit(w, call, tx);
    CommitMoves(w, call, tx);
    CommitEffects(w.db, PlanOf(tx));
    forall id | id in w'.db.sessions && Sessions.Live(w'.db.sessions[id], w'.now)
      ensures ActiveUser(w'.db, w'.db.sessions[id].userId)
    {
      LiveBefore(w, tx, w', id);
      StatusMoves(w, tx, w', w'.db.sessions[id].userId);
      if tx.SetUserStatus? && tx.user == w'.db.sessions[id].userId {
        SetStatus(w.db, tx, w'.db);
        StampedInThePast(w, call, tx);
        if !tx.status.Active? { StatusChangeRevokes(w.db, tx, w'.db, id); }
      }
    }
  }

  // Calls that run without interruption.

  /** Time passes, or one whole call runs with no other call and no tick in between. */
  datatype Turn = Wait(elapsed: nat) | Whole(call: Atom, steps: seq<Step>)

  predicate Uninterrupted(w: World, call: Atom, steps: seq<Step>) {
    History(w, call) == [] && forall i :: 0 <= i < |steps| ==> !steps[i].Tick? && steps[i].call == call
  }

  function TakeTurn(w: World, turn: Turn): World {
    match turn
    case Wait(elapsed) => Next(w, Tick(elapsed))
    case Whole(call, steps) => if Uninterrupted(w, call, steps) then Run(w, steps) else w
  }

  function TakeTurns(w: World, turns: seq<Turn>): World
    decreases |turns|
  {
    if turns == [] then w else TakeTurn(TakeTurns(w, turns[..|turns| - 1]), turns[|turns| - 1])
  }

  predicate ChangedNoStatus(h: seq<Act>) {
    forall i :: 0 <= i < |h| && h[i].Ran? && h[i].ok ==> !h[i].tx.SetUserStatus?
  }

  ghost predicate StatusesCurrentNow(w: World, h: seq<Act>) {
    forall i, user :: 0 <= i < |h| && SawUser(h[i], user) ==>
      user in w.db.users && w.db.users[user].status == h[i].row.value.user.status
  }

  /** Unless the call itself has changed a status, the statuses it read are current. */
  ghost predicate StatusesCurrent(w: World, call: Atom) {
    ChangedNoStatus(History(w, call)) ==> StatusesCurrentNow(w, History(w, call))
  }

  /** The interaction a step adds to its call, if it adds one. */
  predicate Adds(w: World, call: Atom, a: Act, w': World) {
    History(w', call) == History(w, call) + [a]
  }

  lemma ReadKeepsCurrent(w: World, call: Atom, a: Act, w': World)
    requires StatusesCurrent(w, call) && Adds(w, call, a, w') && w'.db == w.db
    requires a.Saw? ==> a.row == Lookup(w.db, a.key)
    ensures StatusesCurrent(w', call)
  {
    var h, h' := History(w, call), History(w', call);
    assert forall i :: 0 <= i < |h| ==> h'[i] == h[i];
  }

  lemma CommitKeepsCurrent(w: World, call: Atom, tx: Tx, w': World)
    requires StatusesCurrent(w, call) && Adds(w, call, Ran(tx, true), w') && Moves(w, tx, w')
    ensures StatusesCurrent(w', call)
  {
    var h, h' := History(w, call), History(w', call);
    assert forall i :: 0 <= i < |h| ==> h'[i] == h[i];
    assert h'[|h|] == Ran(tx, true);
    if !tx.SetUserStatus? {
      forall i, user | 0 <= i < |h| && SawUser(h[i], user)
        ensures StatusesCurrentNow(w, h) ==>
          user in w'.db.users && w'.db.users[user].status == h[i].row.value.user.status
      {
        StatusMoves(w, tx, w', user);
      }
    }
  }

  lemma StatusesStayCurrent(w: World, call: Atom, step: Step)
    requires StatusesCurrent(w, call) && !step.Tick? && step.call == call
    ensures StatusesCurrent(Next(w, step), call)
  {
    var w' := Next(w, step);
    StepCases(w, step);
    if IsCommit(w, step) {
      CommitKeepsCurrent(w, call, step.tx, w');
    } else if History(w', call) != History(w, call) {
      var a := match step
        case Read(_, key) => Saw(key, Lookup(w.db, key))
        case ReadClock(_) => SawClock(w.now)
        case Commit(_, tx) => Ran(tx, false);
      ReadKeepsCurrent(w, call, a, w');
    }
  }

  /** An uninterrupted call opens sessions only for a user it has just seen active. */
  lemma OpensForActive(w: World, call: Atom, tx: Tx)
    requires StatusesCurrent(w, call) && Ready(w, call, tx) && Opens(tx)
    ensures ActiveUser(w.db, tx.user)
  {
    var h := History(w, call);
    if tx.OpenSession? { assert SawUser(h[0], tx.user); } else { assert SawUser(h[2], tx.user); }
  }

  lemma WholeCall(w: World, call: Atom, steps: seq<Step>)
    requires Sound(w) && LiveOwnersActive(w) && Uninterrupted(w, call, steps)
    ensures var w' := Run(w, steps); Sound(w') && LiveOwnersActive(w') && StatusesCurrent(w', call)
  {
    if steps != [] {
      var before, step := steps[..|steps| - 1], steps[|steps| - 1];
      WholeCall(w, call, before);
      var v := Run(w, before);
      SoundStep(v, step);
      StatusesStayCurrent(v, call, step);
      StepCases(v, step);
      if IsCommit(v, step) {
        if Opens(step.tx) { OpensForActive(v, call, step.tx); }
        OwnersStayActive(v, call, step.tx);
      }
    }
  }

  lemma TurnsSound(config: Config, now: Time, turns: seq<Turn>)
    ensures var w := TakeTurns(Start(config, now), turns); Sound(w) && LiveOwnersActive(w)
  {
    if turns != [] {
      TurnsSound(config, now, turns[..|turns| - 1]);
      var w, turn := TakeTurns(Start(config, now), turns[..|turns| - 1]), turns[|turns| - 1];
      match turn {
        case Wait(elapsed) => SoundStep(w, Tick(elapsed));
        case Whole(call, steps) => if Uninterrupted(w, call, steps) { WholeCall(w, call, steps); }
      }
    }
  }

  /** When every call runs as one atomic step, a user whose status is not active never has a
      live session, although the gate that validates sessions never looks at the user. */
  lemma InactiveUsersHaveNoLiveSession(config: Config, now: Time, turns: seq<Turn>, id: Atom)
    requires id in TakeTurns(Start(config, now), turns).db.sessions
    ensures var w := TakeTurns(Start(config, now), turns);
      Sessions.Live(w.db.sessions[id], w.now) ==> ActiveUser(w.db, w.db.sessions[id].userId)
  {
    TurnsSound(config, now, turns);
  }
}
