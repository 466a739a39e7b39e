/** The bearer gate: access tokens, the session behind them, and revocation. */
module Bearer {
  import opened Core
  import opened Database
  import opened Rows
  import opened Transactions
  import opened Calls
  import opened World
  import opened Versions
  import opened SessionColumns
  import Owners
  import Sessions

  datatype SubjectType = User | ServiceAccount

  /** The claims of a token that parsed and whose signature and lifetime are good. */
  datatype Claims = Claims(subject: Atom, subjectType: SubjectType, session: Atom, tenant: Atom, membership: Atom)

  datatype Principal = Principal(id: Atom, subjectType: SubjectType, tenant: Atom, membership: Atom, session: Atom)

  predicate ValidateSession(db: Db, id: Atom, user: Atom, now: Time) {
    id in db.sessions && db.sessions[id].userId == user && Sessions.Live(db.sessions[id], now)
  }

  /** `parsed` is what the token parser returned. Without an identity store the gate
      knows service accounts only. */
  function VerifyBearer(identities: bool, parsed: Option<Claims>, db: Db, now: Time): Option<Principal> {
    if parsed.None? then None
    else
      var c := parsed.value;
      if !identities then Some(Principal(c.subject, ServiceAccount, EMPTY, EMPTY, EMPTY))
      else if c.subjectType.User? && c.session != EMPTY && !ValidateSession(db, c.session, c.subject, now) then None
      else Some(Principal(c.subject, c.subjectType, c.tenant, c.membership, c.session))
  }

  /** The access token a committed transaction hands to a user. */
  function Issued(tx: Tx): Option<Claims> {
    match tx
    case OpenSession(session, user, _, _, _) => Some(Claims(user, User, session, EMPTY, EMPTY))
    case VerifyChallenge(_, _, user, _, session, _, _, _, _) => Some(Claims(user, User, session, EMPTY, EMPTY))
    case Refresh(session, _, _, _, user, tenant, membership, _) => Some(Claims(user, User, session, tenant, membership))
    case ScopeTenant(session, user, tenant, membership, _, _) => Some(Claims(user, User, session, tenant, membership))
    case _ => None
  }

  /** The token's session is real, and as long as its row is there it is the subject's. */
  predicate Backed(w: World, c: Claims) {
    && c.session != EMPTY
    && c.session in w.used
    && (c.session in w.db.sessions ==> w.db.sessions[c.session].userId == c.subject)
  }

  ghost predicate TokensHold(w: World) {
    && EMPTY in w.used
    && (forall id :: id in w.db.sessions ==> id != EMPTY && id in w.used)
    && (forall i :: 0 <= i < |w.log| && Issued(w.log[i]).Some? ==> Backed(w, Issued(w.log[i]).value))
  }

  /** A token is issued in the same commit that leaves its session in place, owned by the
      token's subject. */
  lemma IssuedForSession(db: Db, tx: Tx, after: Db)
    requires Issued(tx).Some? && SessionsEffect(db, PlanOf(tx), after)
    requires tx.Refresh? && tx.session in db.sessions ==> db.sessions[tx.session].userId == tx.user
    ensures var c := Issued(tx).value; c.session in after.sessions && after.sessions[c.session].userId == c.subject
  {
  }

  lemma SessionsKnown(w: World, tx: Tx, w': World, id: Atom)
    requires TokensHold(w) && Moves(w, tx, w') && id in w'.db.sessions
    ensures id != EMPTY && id in w'.used
  {
    RowsStep(w.db, PlanOf(tx), Generated(tx), w'.db, SessionKey(id));
  }

  lemma BackedMoves(w: World, tx: Tx, w': World, c: Claims)
    requires Moves(w, tx, w') && Backed(w, c)
    ensures Backed(w', c)
  {
    var s := PlanOf(tx).sessions;
    if s.Some? { assert Sessions.Evolves(w.db.sessions, s.value, w'.db.sessions, c.session); }
  }

  lemma TokensMove(w: World, tx: Tx, w': World)
    requires TokensHold(w) && Moves(w, tx, w')
    requires Issued(tx).Some? ==>
      var c := Issued(tx).value; c.session in w'.db.sessions && w'.db.sessions[c.session].userId == c.subject
    ensures TokensHold(w')
  {
    forall id | id in w'.db.sessions ensures id != EMPTY && id in w'.used { SessionsKnown(w, tx, w', id); }
    forall i | 0 <= i < |w'.log| && Issued(w'.log[i]).Some? ensures Backed(w', Issued(w'.log[i]).value) {
      if i < |w.log| {
        assert w'.log[i] == w.log[i];
        BackedMoves(w, tx, w', Issued(w.log[i]).value);
      }
    }
  }

  lemma TokensRun(config: Config, now: Time, steps: seq<Step>)
    ensures TokensHold(Run(Start(config, now), steps))
  {
    if steps != [] {
      var before, step := steps[..|steps| - 1], steps[|steps| - 1];
      var w := Run(Start(config, now), before);
      TokensRun(config, now, before);
      StepCases(w, step);
      if IsCommit(w, step) {
        if step.tx.Refresh? { Owners.RefreshOwnerActive(config, now, before, step.call, step.tx); }
        CommitEffects(w.db, PlanOf(step.tx));
        if Issued(step.tx).Some? { IssuedForSession(w.db, step.tx, Next(w, step).db); }
        TokensMove(w, step.tx, Next(w, step));
      }
    }
  }

  /** The transactions that hand a user an access token. */
  predicate HandsOut(tx: Tx) {
    tx.OpenSession? || tx.VerifyChallenge? || tx.Refresh? || tx.ScopeTenant?
  }

  /** Who the bearer of the token handed out by `tx` is. */
  predicate Bears(p: Principal, tx: Tx, s: Sessions.Session)
    requires HandsOut(tx)
  {
    && p.subjectType.User?
    && p.id == s.userId == tx.user
    && p.session == tx.session
    && p.tenant == (if tx.Refresh? || tx.ScopeTenant? then tx.tenant else EMPTY)
    && p.membership == (if tx.Refresh? || tx.ScopeTenant? then tx.membership else EMPTY)
  }

  /** Every user token ever issued names a session of its subject, so the gate looks at that
      session: it accepts the token exactly while the session is there, unrevoked and
      unexpired. The bearer is then the owner of that session, in the tenant and membership of
      the refresh or scoping that issued the token, or in none after a login. */
  lemma IssuedTokenGated(config: Config, now: Time, steps: seq<Step>, i: nat)
    requires i < |Run(Start(config, now), steps).log| && HandsOut(Run(Start(config, now), steps).log[i])
    ensures var w := Run(Start(config, now), steps); var tx := w.log[i];
      var p := VerifyBearer(true, Issued(tx), w.db, w.now);
      && (p.Some? <==>
            && tx.session in w.db.sessions
            && w.db.sessions[tx.session].revokedAt.None? && w.now < w.db.sessions[tx.session].expiresAt)
      && (p.Some? ==> Bears(p.value, tx, w.db.sessions[tx.session]))
  {
    TokensRun(config, now, steps);
    var w := Run(Start(config, now), steps);
    assert Issued(w.log[i]).Some?;
    assert Backed(w, Issued(w.log[i]).value);
  }

  /** Any claims at all. A user's token with a session is accepted exactly while that session
      is the subject's, unrevoked and unexpired; any other token that parses is accepted. The
      principal repeats the claims one by one. */
  lemma AnyTokenGated(c: Claims, db: Db, now: Time)
    ensures var p := VerifyBearer(true, Some(c), db, now);
      && (p.None? <==>
            && c.subjectType.User? && c.session != EMPTY
            && !(&& c.session in db.sessions && db.sessions[c.session].userId == c.subject
                 && db.sessions[c.session].revokedAt.None? && now < db.sessions[c.session].expiresAt))
      && (p.Some? ==>
            && p.value.id == c.subject && p.value.subjectType == c.subjectType && p.value.session == c.session
            && p.value.tenant == c.tenant && p.value.membership == c.membership)
    ensures VerifyBearer(true, None, db, now).None? && VerifyBearer(false, None, db, now).None?
    ensures var q := VerifyBearer(false, Some(c), db, now);
      && q.Some? && q.value.id == c.subject && q.value.subjectType.ServiceAccount?
      && q.value.tenant == EMPTY && q.value.membership == EMPTY && q.value.session == EMPTY
  {
  }

  /** The session existed once and is gone, revoked or expired. */
  predicate Over(w: World, session: Atom) {
    session in w.used && (session in w.db.sessions ==> !Sessions.Live(w.db.sessions[session], w.now))
  }

  lemma OverMoves(w: World, tx: Tx, w': World, session: Atom)
    requires Moves(w, tx, w') && Over(w, session)
    ensures Over(w', session)
  {
    var s := PlanOf(tx).sessions;
    if s.Some? { assert Sessions.Evolves(w.db.sessions, s.value, w'.db.sessions, session); }
  }

  lemma OverRun(w: World, steps: seq<Step>, session: Atom)
    requires Over(w, session)
    ensures Over(Run(w, steps), session)
  {
    if steps != [] {
      var before, step := Run(w, steps[..|steps| - 1]), steps[|steps| - 1];
      OverRun(w, steps[..|steps| - 1], session);
      StepCases(before, step);
      if IsCommit(before, step) { OverMoves(before, step.tx, Run(w, steps), session); }
    }
  }

  /** Once a user token is refused because its session is revoked, expired or cleaned up,
      it is refused for ever, whether or not the cleaner later deletes the row. */
  lemma RefusedForever(config: Config, now: Time, steps: seq<Step>, later: seq<Step>, c: Claims)
    requires c.subjectType.User? && c.session != EMPTY && Over(Run(Start(config, now), steps), c.session)
    ensures var w := Run(Run(Start(config, now), steps), later); VerifyBearer(true, Some(c), w.db, w.now).None?
  {
    OverRun(Run(Start(config, now), steps), later, c.session);
  }

  /** A session that is present and not live is over. */
  lemma EndedIsOver(config: Config, now: Time, steps: seq<Step>, session: Atom)
    requires var w := Run(Start(config, now), steps);
      session in w.db.sessions && !Sessions.Live(w.db.sessions[session], w.now)
    ensures Over(Run(Start(config, now), steps), session)
  {
    TokensRun(config, now, steps);
  }

  predicate Frozen(w: World, session: Atom, row: Sessions.Session) {
    session in w.used && (session in w.db.sessions ==> w.db.sessions[session] == row)
  }

  lemma FrozenRun(w: World, steps: seq<Step>, session: Atom, row: Sessions.Session)
    requires Frozen(w, session, row) && row.revokedAt.Some?
    ensures Frozen(Run(w, steps), session, row)
  {
    if steps != [] {
      var before, step := Run(w, steps[..|steps| - 1]), steps[|steps| - 1];
      FrozenRun(w, steps[..|steps| - 1], session, row);
      StepCases(before, step);
      if IsCommit(before, step) {
        var s := PlanOf(step.tx).sessions;
        if s.Some? { assert Sessions.Evolves(before.db.sessions, s.value, Run(w, steps).db.sessions, session); }
      }
    }
  }

  /** Revocation time and reason are written at most once, by a logged transaction that ends
      sessions like this one; nothing of a revoked row ever changes again. */
  lemma RevokedOnce(config: Config, now: Time, steps: seq<Step>, later: seq<Step>, session: Atom)
    requires var w := Run(Start(config, now), steps);
      session in w.db.sessions && w.db.sessions[session].revokedAt.Some?
    ensures var w := Run(Start(config, now), steps); var w' := Run(w, later);
      session in w'.db.sessions ==> w'.db.sessions[session] == w.db.sessions[session]
    ensures var w := Run(Start(config, now), steps); var s := w.db.sessions[session];
      exists i: nat :: EndedBy(w.log, i, session, s.userId, s.expiresAt, Ending(s.revokedAt.value, s.revokeReason))
  {
    TokensRun(config, now, steps);
    var w := Run(Start(config, now), steps);
    FrozenRun(w, later, session, w.db.sessions[session]);
    RevokedByTheLog(config, now, steps, session);
  }
}
