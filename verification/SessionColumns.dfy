/** What every column of a session holds, read off the log: who opened it and when, its last
    token and tenant, and the transaction that ended it. */
module SessionColumns {
  import opened Core
  import opened Database
  import opened Transactions
  import opened Calls
  import opened World
  import opened Versions
  import opened LiveOwners
  import opened Writes
  import Sessions

  datatype Opening = Opening(user: Atom, client: Client, at: Time)

  function OpeningWrite(id: Atom): Tx -> Option<Opening> {
    (tx: Tx) => if Opens(tx) && tx.session == id then Some(Opening(tx.user, tx.client, OpenedAt(tx))) else None
  }

  function TokenWrite(id: Atom): Tx -> Option<Atom> {
    (tx: Tx) => if (Opens(tx) || tx.Refresh?) && tx.session == id then Some(tx.token) else None
  }

  function UseWrite(id: Atom): Tx -> Option<Time> {
    (tx: Tx) =>
      if Opens(tx) && tx.session == id then Some(OpenedAt(tx))
      else if tx.Refresh? && tx.session == id then Some(tx.now)
      else None
  }

  /** Tenant and membership: none when opened. */
  function TenantWrite(id: Atom): Tx -> Option<(Atom, Atom)> {
    (tx: Tx) =>
      if Opens(tx) && tx.session == id then Some((EMPTY, EMPTY))
      else if tx.ScopeTenant? && tx.session == id then Some((tx.tenant, tx.membership))
      else None
  }

  // Endings.

  /** The transaction revokes a session of this owner, tenant and expiry, if still unrevoked. */
  predicate Ends(tx: Tx, id: Atom, user: Atom, tenant: Atom, expiresAt: Time) {
    match tx
    case Logout(session, u, _, _, _) => session == id && u == user
    case RevokeOwn(session, u, _, _, _, _) => session == id && u == user
    case RevokeAny(session, _, _, _, _, _, _) => session == id
    case RevokeTenant(u, t, _, _, _) => u == user && t == tenant
    case ChangePassword(_, _, u, current, _, _, at) => u == user && id != current && expiresAt > at
    case ConfirmSetup(u, current, _, _, _, at) => u == user && id != current && expiresAt > at
    case DisableMfa(u, current, _, _, _, at) => u == user && id != current && expiresAt > at
    case SetUserStatus(u, _, status, _, _, _, at) => !status.Active? && u == user && expiresAt > at
    case ResetMfa(u, _, _, _, at) => u == user && expiresAt > at
    case ConfirmReset(_, _, u, _, _, _, _, at) => u == user && expiresAt > at
    case _ => false
  }

  /** The reason it leaves in the row. */
  function EndReason(tx: Tx): Sessions.Reason {
    match tx
    case Logout(_, _, _, reason, _) => if reason == EMPTY then Sessions.LoggedOut else Sessions.Given(reason)
    case RevokeOwn(_, _, _, reason, _, _) => if reason == EMPTY then Sessions.OwnRevocation else Sessions.Given(reason)
    case RevokeAny(_, _, _, reason, _, _, _) =>
      if reason == EMPTY then Sessions.AdminRevocation else Sessions.Given(reason)
    case RevokeTenant(_, _, reason, _, _) => Sessions.Given(reason)
    case ChangePassword(_, _, _, _, _, _, _) => Sessions.PasswordChanged
    case ConfirmSetup(_, _, _, _, _, _) => Sessions.MfaEnabled
    case DisableMfa(_, _, _, _, _, _) => Sessions.MfaDisabled
    case SetUserStatus(_, _, status, _, _, _, _) => Sessions.StatusChangedTo(status)
    case ResetMfa(_, reason, _, _, _) => Sessions.MfaReset(reason)
    case ConfirmReset(_, _, _, _, _, _, _, _) => Sessions.PasswordRecovered
    case _ => Sessions.NotRevoked
  }

  datatype Ending = Ending(at: Time, reason: Sessions.Reason)

  function TenantIn(log: seq<Tx>, id: Atom): Atom {
    Or(Last(TenantWrite(id), log), (EMPTY, EMPTY)).0
  }

  /** The first transaction since the opening that ends the session. */
  function EndingIn(log: seq<Tx>, id: Atom, user: Atom, expiresAt: Time): Option<Ending>
    decreases |log|
  {
    if log == [] then None
    else
      var tx, before := log[|log| - 1], log[..|log| - 1];
      var earlier := EndingIn(before, id, user, expiresAt);
      if Opens(tx) && tx.session == id then None
      else if earlier.Some? then earlier
      else if Ends(tx, id, user, TenantIn(before, id), expiresAt) then Some(Ending(tx.now, EndReason(tx)))
      else None
  }

  predicate EndedAs(s: Sessions.Session, ending: Option<Ending>) {
    match ending
    case None => s.revokedAt.None? && s.revokeReason.NotRevoked?
    case Some(e) => s.revokedAt == Some(e.at) && s.revokeReason == e.reason
  }

  predicate SessionIs(s: Sessions.Session, log: seq<Tx>, id: Atom) {
    && Last(OpeningWrite(id), log) == Some(Opening(s.userId, s.client, s.expiresAt - 2_592_000_000_000_000))
    && Last(TokenWrite(id), log) == Some(s.token)
    && Last(UseWrite(id), log) == Some(s.lastUsedAt)
    && Last(TenantWrite(id), log) == Some((s.tenant, s.membership))
    && EndedAs(s, EndingIn(log, id, s.userId, s.expiresAt))
  }

  // One commit.

  predicate InsertsSession(tx: Tx, id: Atom, row: Sessions.Session) {
    && Opens(tx) && tx.session == id
    && row.userId == tx.user && row.client == tx.client && row.token == tx.token
    && row.expiresAt == OpenedAt(tx) + 2_592_000_000_000_000 && row.lastUsedAt == OpenedAt(tx)
    && row.tenant == EMPTY && row.membership == EMPTY
    && row.revokedAt.None? && row.revokeReason.NotRevoked?
  }

  /** The filter selects only sessions the transaction ends, and all of them, unless it names
      one row, which it must then hit. */
  ghost predicate RevokesAs(tx: Tx, f: Sessions.Filter, reason: Sessions.Reason, now: Time) {
    && now == tx.now && reason == EndReason(tx)
    && (forall id, s: Sessions.Session ::
          Sessions.Matches(f, id, s) ==> s.revokedAt.None? && Ends(tx, id, s.userId, s.tenant, s.expiresAt))
    && (forall id, s: Sessions.Session ::
          s.revokedAt.None? && Ends(tx, id, s.userId, s.tenant, s.expiresAt) ==>
            if Sessions.MustAffect(f) then id == f.id else Sessions.Matches(f, id, s))
  }

  predicate EndsNothing(tx: Tx) {
    match tx
    case Logout(_, _, _, _, _) => false
    case RevokeOwn(_, _, _, _, _, _) => false
    case RevokeAny(_, _, _, _, _, _, _) => false
    case RevokeTenant(_, _, _, _, _) => false
    case ChangePassword(_, _, _, _, _, _, _) => false
    case ConfirmSetup(_, _, _, _, _, _) => false
    case DisableMfa(_, _, _, _, _, _) => false
    case SetUserStatus(_, _, status, _, _, _, _) => status.Active?
    case ResetMfa(_, _, _, _, _) => false
    case ConfirmReset(_, _, _, _, _, _, _, _) => false
    case _ => true
  }

  ghost predicate SessionWrites(tx: Tx, s: Option<Sessions.Stmt>) {
    && (!(s.Some? && s.value.Revoke?) ==> EndsNothing(tx))
    && match s
       case None => !Opens(tx) && !tx.Refresh? && !tx.ScopeTenant?
       case Some(Insert(id, row)) => InsertsSession(tx, id, row)
       case Some(Rotate(id, _, _, token, _, now)) =>
         tx.Refresh? && tx.session == id && tx.token == token && tx.now == now
       case Some(Scope(id, _, tenant, membership, _, _)) =>
         tx.ScopeTenant? && tx.session == id && tx.tenant == tenant && tx.membership == membership
       case Some(Revoke(f, reason, _, now)) =>
         !Opens(tx) && !tx.Refresh? && !tx.ScopeTenant? && RevokesAs(tx, f, reason, now)
       case Some(Delete(_, _)) => tx.CleanSessions?
  }

  lemma SingleRevocations(tx: Tx)
    requires tx.Logout? || tx.RevokeOwn? || tx.RevokeAny? || tx.RevokeTenant?
    ensures SessionWrites(tx, PlanOf(tx).sessions)
  {
  }

  lemma BulkRevocations(tx: Tx)
    requires ChangesPassword(tx) || tx.ConfirmSetup? || tx.DisableMfa? || tx.ResetMfa?
      || (tx.SetUserStatus? && !tx.status.Active?)
    ensures SessionWrites(tx, PlanOf(tx).sessions)
  {
  }

  lemma OtherSessionWrites(tx: Tx)
    requires EndsNothing(tx)
    ensures SessionWrites(tx, PlanOf(tx).sessions)
  {
  }

  lemma SessionWritesOf(tx: Tx)
    ensures SessionWrites(tx, PlanOf(tx).sessions)
  {
    if EndsNothing(tx) {
      OtherSessionWrites(tx);
    } else if tx.Logout? || tx.RevokeOwn? || tx.RevokeAny? || tx.RevokeTenant? {
      SingleRevocations(tx);
    } else {
      BulkRevocations(tx);
    }
  }

  lemma EndsNothingAtAll(tx: Tx, id: Atom, user: Atom, tenant: Atom, expiresAt: Time)
    requires EndsNothing(tx)
    ensures !Ends(tx, id, user, tenant, expiresAt)
  {
  }

  lemma EndingNext(log: seq<Tx>, tx: Tx, id: Atom, user: Atom, expiresAt: Time)
    ensures EndingIn(log + [tx], id, user, expiresAt) ==
      var earlier := EndingIn(log, id, user, expiresAt);
      if Opens(tx) && tx.session == id then None
      else if earlier.Some? then earlier
      else if Ends(tx, id, user, TenantIn(log, id), expiresAt) then Some(Ending(tx.now, EndReason(tx)))
      else None
  {
    assert (log + [tx])[..|log|] == log;
  }

  lemma RevokedRow(t: Sessions.Table, users: set<Atom>, tx: Tx, s: Sessions.Stmt, id: Atom)
    requires s.Revoke? && RevokesAs(tx, s.filter, s.reason, s.now) && Sessions.Apply(t, users, s).Effect? && id in t
    ensures var r := Sessions.Apply(t, users, s).table;
      && id in r
      && r[id] == if t[id].revokedAt.None? && Ends(tx, id, t[id].userId, t[id].tenant, t[id].expiresAt)
                  then t[id].(revokedAt := Some(tx.now), revokeReason := EndReason(tx), audit := r[id].audit)
                  else t[id]
  {
    if Sessions.MustAffect(s.filter) {
      var k :| k in Sessions.Matching(t, s.filter);
      assert k == s.filter.id;
    }
  }

  lemma SessionMovesOn(
      t: Sessions.Table, users: set<Atom>, tx: Tx, s: Option<Sessions.Stmt>, log: seq<Tx>, id: Atom)
    requires SessionWrites(tx, s) && OnSessions(t, users, s).Effect? && (id in t ==> SessionIs(t[id], log, id))
    ensures var t' := OnSessions(t, users, s).table; id in t' ==> SessionIs(t'[id], log + [tx], id)
  {
    var t' := OnSessions(t, users, s).table;
    LastNext(OpeningWrite(id), log, tx);
    LastNext(TokenWrite(id), log, tx);
    LastNext(UseWrite(id), log, tx);
    LastNext(TenantWrite(id), log, tx);
    if id in t' {
      var user, expiresAt := t'[id].userId, t'[id].expiresAt;
      EndingNext(log, tx, id, user, expiresAt);
      if s.Some? && s.value.Revoke? {
        RevokedRow(t, users, tx, s.value, id);
      } else {
        EndsNothingAtAll(tx, id, user, TenantIn(log, id), expiresAt);
      }
    }
  }

  ghost predicate SessionsHold(w: World) {
    forall id :: id in w.db.sessions ==> SessionIs(w.db.sessions[id], w.log, id)
  }

  lemma SessionsCommit(w: World, call: Atom, tx: Tx)
    requires SessionsHold(w) && Commits(w, call, tx)
    ensures SessionsHold(AfterCommit(w, call, tx))
  {
    var after := AfterCommit(w, call, tx).db;
    CommitEffects(w.db, PlanOf(tx));
    SessionWritesOf(tx);
    forall id | id in after.sessions ensures SessionIs(after.sessions[id], w.log + [tx], id) {
      SessionMovesOn(w.db.sessions, after.users.Keys, tx, PlanOf(tx).sessions, w.log, id);
    }
  }

  lemma {:induction false} SessionsRun(config: Config, now: Time, steps: seq<Step>)
    ensures SessionsHold(Run(Start(config, now), steps))
    decreases |steps|
  {
    if steps != [] {
      var w, step := Run(Start(config, now), steps[..|steps| - 1]), steps[|steps| - 1];
      SessionsRun(config, now, steps[..|steps| - 1]);
      StepCases(w, step);
      if IsCommit(w, step) { SessionsCommit(w, step.call, step.tx); }
    }
  }

  /** In every run, every column of a session is what the log says: its owner, client and
      thirty days from its opening; the last token, use, tenant and membership written since;
      and, if revoked, the time and reason of the first transaction since that ends it. */
  lemma SessionsFollowLog(config: Config, now: Time, steps: seq<Step>, id: Atom)
    ensures var w := Run(Start(config, now), steps);
      id in w.db.sessions ==> SessionIs(w.db.sessions[id], w.log, id)
  {
    SessionsRun(config, now, steps);
  }

  /** The transaction at index `i` of the log ended the session. */
  predicate EndedBy(log: seq<Tx>, i: nat, id: Atom, user: Atom, expiresAt: Time, ending: Ending) {
    && i < |log|
    && Ends(log[i], id, user, TenantIn(log[..i], id), expiresAt)
    && ending == Ending(log[i].now, EndReason(log[i]))
  }

  lemma {:induction false} WhoEnded(log: seq<Tx>, id: Atom, user: Atom, expiresAt: Time)
    requires EndingIn(log, id, user, expiresAt).Some?
    ensures exists i: nat :: EndedBy(log, i, id, user, expiresAt, EndingIn(log, id, user, expiresAt).value)
    decreases |log|
  {
    var n := |log| - 1;
    var earlier := EndingIn(log[..n], id, user, expiresAt);
    if earlier.Some? {
      WhoEnded(log[..n], id, user, expiresAt);
      var i: nat :| EndedBy(log[..n], i, id, user, expiresAt, earlier.value);
      assert log[..n][..i] == log[..i];
      assert EndedBy(log, i, id, user, expiresAt, earlier.value);
    } else {
      assert EndedBy(log, n, id, user, expiresAt, EndingIn(log, id, user, expiresAt).value);
    }
  }

  lemma RevokedByTheLog(config: Config, now: Time, steps: seq<Step>, id: Atom)
    requires var w := Run(Start(config, now), steps);
      id in w.db.sessions && w.db.sessions[id].revokedAt.Some?
    ensures var w := Run(Start(config, now), steps);
      var s := w.db.sessions[id];
      exists i: nat :: EndedBy(w.log, i, id, s.userId, s.expiresAt, Ending(s.revokedAt.value, s.revokeReason))
  {
    var w := Run(Start(config, now), steps);
    SessionsRun(config, now, steps);
    WhoEnded(w.log, id, w.db.sessions[id].userId, w.db.sessions[id].expiresAt);
  }
}
