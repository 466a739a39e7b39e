/** Password events count password changes: a credential's version is one plus the password
    events of its user. */
module PasswordLedger {
  import opened Core
  import opened Database
  import opened Transactions
  import opened Calls
  import opened World
  import opened Versions
  import opened EventReads
  import Credentials
  import Outbox

  function Changes(events: seq<Outbox.Event>, user: Atom): nat {
    if events == [] then 0
    else
      var e := events[|events| - 1];
      Changes(events[..|events| - 1], user) + if e.PasswordChanged? && e.user == user then 1 else 0
  }

  lemma ChangesNext(events: seq<Outbox.Event>, e: Outbox.Event, user: Atom)
    ensures Changes(events + [e], user) == Changes(events, user) + if e.PasswordChanged? && e.user == user then 1 else 0
  {
    assert (events + [e])[..|events|] == events;
  }

  /** The credential counts the events, and is its user's only one; a user without one has
      none. */
  predicate CountedIn(t: Credentials.Table, events: seq<Outbox.Event>, id: Atom) {
    id in t ==> t[id].audit.version == 1 + Changes(events, t[id].userId)
  }

  ghost predicate Counted(db: Db) {
    && (forall id :: CountedIn(db.credentials, db.outbox, id))
    && (forall a, b ::
          && a in db.credentials && b in db.credentials
          && db.credentials[a].userId == db.credentials[b].userId
          ==> a == b)
    && (forall user :: !Credentials.HasPassword(db.credentials, user) ==> Changes(db.outbox, user) == 0)
  }

  /** What a transaction does to passwords: nothing, the first one of a new user, or a change
      of the one credential of the user its event names. */
  lemma CredentialStatement(tx: Tx)
    ensures var s := PlanOf(tx).credentials;
      && (s.None? <==> !tx.Register? && !ChangesPassword(tx))
      && (tx.Register? ==> s.value.Insert? && s.value.row.audit.version == 1)
      && (ChangesPassword(tx) ==> s.value.UpdatePassword? && s.value.id == tx.credential)
      && (tx.Register? || ChangesPassword(tx) ==> PlanOf(tx).event.Some?)
  {
  }

  lemma InsertCounted(t: Credentials.Table, users: set<Atom>, s: Credentials.Stmt, db: Db, after: Db)
    requires Counted(db) && t == db.credentials && s.Insert? && s.row.audit.version == 1
    requires Credentials.Apply(t, users, s).Effect? && after.credentials == Credentials.Apply(t, users, s).table
    requires forall user :: Changes(after.outbox, user) == Changes(db.outbox, user)
    ensures Counted(after)
  {
    forall id ensures CountedIn(after.credentials, after.outbox, id) { assert CountedIn(t, db.outbox, id); }
    forall user | !Credentials.HasPassword(after.credentials, user) ensures Changes(after.outbox, user) == 0 {
      assert forall k :: k in t ==> k in after.credentials && after.credentials[k] == t[k];
    }
  }

  lemma ChangeCounted(db: Db, id: Atom, user: Atom, after: Db)
    requires Counted(db) && id in db.credentials && db.credentials[id].userId == user
    requires after.credentials.Keys == db.credentials.Keys
    requires forall k :: k in db.credentials ==> after.credentials[k].userId == db.credentials[k].userId
    requires forall k :: k in db.credentials && k != id ==> after.credentials[k] == db.credentials[k]
    requires after.credentials[id].audit.version == db.credentials[id].audit.version + 1
    requires forall u :: Changes(after.outbox, u) == Changes(db.outbox, u) + if u == user then 1 else 0
    ensures Counted(after)
  {
    forall k ensures CountedIn(after.credentials, after.outbox, k) { assert CountedIn(db.credentials, db.outbox, k); }
    forall u | !Credentials.HasPassword(after.credentials, u) ensures Changes(after.outbox, u) == 0 {
      assert !Credentials.HasPassword(db.credentials, u);
    }
  }

  lemma EventCounts(db: Db, tx: Tx, user: Atom)
    requires Exec(db, PlanOf(tx)).Committed?
    ensures Changes(Exec(db, PlanOf(tx)).db.outbox, user) ==
      Changes(db.outbox, user) + if ChangesPassword(tx) && tx.user == user then 1 else 0
  {
    var after := Exec(db, PlanOf(tx)).db;
    CommitEffects(db, PlanOf(tx));
    CredentialStatement(tx);
    if PlanOf(tx).event.Some? {
      EventAppended(db, tx);
      assert after.outbox == db.outbox + [NewEvent(db, after)];
      ChangesNext(db.outbox, NewEvent(db, after), user);
    }
  }

  lemma ChangedOnly(t: Credentials.Table, users: set<Atom>, s: Credentials.Stmt)
    requires s.UpdatePassword? && Credentials.Apply(t, users, s).Effect?
    ensures var t' := Credentials.Apply(t, users, s).table;
      && s.id in t && t'.Keys == t.Keys
      && (forall k :: k in t ==> t'[k].userId == t[k].userId)
      && (forall k :: k in t && k != s.id ==> t'[k] == t[k])
      && t'[s.id].audit.version == t[s.id].audit.version + 1
  {
  }

  lemma CountedCommit(config: Config, now: Time, steps: seq<Step>, call: Atom, tx: Tx)
    requires Counted(Run(Start(config, now), steps).db) && Commits(Run(Start(config, now), steps), call, tx)
    ensures Counted(Exec(Run(Start(config, now), steps).db, PlanOf(tx)).db)
  {
    var w := Run(Start(config, now), steps);
    var after := Exec(w.db, PlanOf(tx)).db;
    CommitEffects(w.db, PlanOf(tx));
    CredentialStatement(tx);
    forall user { EventCounts(w.db, tx, user); }
    if tx.Register? {
      InsertCounted(w.db.credentials, after.users.Keys, PlanOf(tx).credentials.value, w.db, after);
    } else if ChangesPassword(tx) {
      PasswordIsOwn(config, now, steps, call, tx);
      ChangedOnly(w.db.credentials, after.users.Keys, PlanOf(tx).credentials.value);
      ChangeCounted(w.db, tx.credential, tx.user, after);
    } else {
      SameCounted(w.db, after);
    }
  }

  lemma SameCounted(db: Db, after: Db)
    requires Counted(db) && after.credentials == db.credentials
    requires forall user :: Changes(after.outbox, user) == Changes(db.outbox, user)
    ensures Counted(after)
  {
    forall id ensures CountedIn(after.credentials, after.outbox, id) {
      assert CountedIn(db.credentials, db.outbox, id);
    }
  }

  lemma {:induction false} CountedRun(config: Config, now: Time, steps: seq<Step>)
    ensures Counted(Run(Start(config, now), steps).db)
    decreases |steps|
  {
    if steps != [] {
      var w, step := Run(Start(config, now), steps[..|steps| - 1]), steps[|steps| - 1];
      CountedRun(config, now, steps[..|steps| - 1]);
      StepCases(w, step);
      if IsCommit(w, step) { CountedCommit(config, now, steps[..|steps| - 1], step.call, step.tx); }
    }
  }

  /** At every reachable state a consumer that counts password events knows every
      credential's version. */
  lemma VersionCountsPasswordEvents(config: Config, now: Time, steps: seq<Step>, id: Atom)
    requires id in Run(Start(config, now), steps).db.credentials
    ensures var db := Run(Start(config, now), steps).db;
      db.credentials[id].audit.version == 1 + Changes(db.outbox, db.credentials[id].userId)
  {
    CountedRun(config, now, steps);
    assert CountedIn(Run(Start(config, now), steps).db.credentials, Run(Start(config, now), steps).db.outbox, id);
  }
}
