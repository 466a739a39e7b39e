/** Refresh tokens: rotation and lineage, in every interleaving. */
module Refresh {
  import opened Core
  import opened Transactions
  import opened Calls
  import opened World
  import opened Versions
  import Sessions

  /** The refresh token a transaction hands out, and the session it is for. */
  predicate Issues(tx: Tx) {
    tx.OpenSession? || tx.VerifyChallenge? || tx.Refresh?
  }

  /** The statement each transaction runs on the sessions table, as far as tokens go. */
  lemma SessionStatement(tx: Tx)
    ensures var s := PlanOf(tx).sessions;
      && (Issues(tx) <==> s.Some? && (s.value.Insert? || s.value.Rotate?))
      && (Issues(tx) ==> s.value.id == tx.session && tx.token in Generated(tx))
      && (tx.Refresh? <==> s.Some? && s.value.Rotate?)
      && (tx.Refresh? ==> s.value.previous == tx.previous && s.value.token == tx.token)
      && (Issues(tx) && !tx.Refresh? ==>
            && s.value.row.token == tx.token
            && s.value.row.expiresAt == s.value.row.audit.createdAt + 2_592_000_000_000_000)
  {
  }

  /** The latest refresh token handed out for a session. */
  function LastIssued(log: seq<Tx>, session: Atom): Option<Atom> {
    if log == [] then None
    else
      var tx := log[|log| - 1];
      if Issues(tx) && tx.session == session then Some(tx.token) else LastIssued(log[..|log| - 1], session)
  }

  /** Each session accepts the last token issued for it, tokens are never shared, a spent
      token is no session's token, and expiry is fixed at thirty days from creation. */
  ghost predicate Lineage(w: World) {
    && (forall id :: id in w.db.sessions ==>
          && w.db.sessions[id].token in w.used
          && LastIssued(w.log, id) == Some(w.db.sessions[id].token)
          && w.db.sessions[id].expiresAt == w.db.sessions[id].audit.createdAt + 2_592_000_000_000_000)
    && (forall a, b ::
          a in w.db.sessions && b in w.db.sessions && w.db.sessions[a].token == w.db.sessions[b].token ==> a == b)
    && (forall i :: 0 <= i < |w.log| && w.log[i].Refresh? ==> Spent(w, w.log[i].previous))
  }

  predicate Spent(w: World, token: Atom) {
    token in w.used && forall id :: id in w.db.sessions ==> w.db.sessions[id].token != token
  }

  /** What a commit may do to one session's token. */
  lemma TokenMoves(w: World, tx: Tx, w': World, id: Atom)
    requires Moves(w, tx, w')
    ensures var t, t' := w.db.sessions, w'.db.sessions;
      && (id in t && id in t' && !(Issues(tx) && tx.session == id) ==>
            t'[id].token == t[id].token)
      && (id !in t && id in t' ==> Issues(tx) && !tx.Refresh? && tx.session == id)
      && (Issues(tx) && tx.session == id ==> id in t' && t'[id].token == tx.token && tx.token !in w.used)
      && (tx.Refresh? && tx.session == id ==> id in t && t[id].token == tx.previous)
      && (id in t' ==>
            if id in t then t'[id].expiresAt == t[id].expiresAt && t'[id].audit.createdAt == t[id].audit.createdAt
            else t'[id].expiresAt == t'[id].audit.createdAt + 2_592_000_000_000_000)
  {
    SessionStatement(tx);
    var s := PlanOf(tx).sessions;
    if s.Some? { assert Sessions.Evolves(w.db.sessions, s.value, w'.db.sessions, id); }
  }

  lemma LineageMoves(w: World, tx: Tx, w': World)
    requires Lineage(w) && Moves(w, tx, w')
    ensures Lineage(w')
  {
    var t, t' := w.db.sessions, w'.db.sessions;
    assert w'.log[..|w'.log| - 1] == w.log;
    forall id | id in t'
      ensures t'[id].token in w'.used && LastIssued(w'.log, id) == Some(t'[id].token)
      ensures t'[id].expiresAt == t'[id].audit.createdAt + 2_592_000_000_000_000
    {
      TokenMoves(w, tx, w', id);
    }
    forall a, b | a in t' && b in t' && t'[a].token == t'[b].token ensures a == b {
      TokenMoves(w, tx, w', a);
      TokenMoves(w, tx, w', b);
    }
    forall i | 0 <= i < |w'.log| && w'.log[i].Refresh? ensures Spent(w', w'.log[i].previous) {
      if i < |w.log| {
        assert w'.log[i] == w.log[i];
        SpentMoves(w, tx, w', w.log[i].previous);
      } else {
        NowSpent(w, tx, w');
      }
    }
  }

  lemma SpentMoves(w: World, tx: Tx, w': World, token: Atom)
    requires Moves(w, tx, w') && Spent(w, token)
    ensures Spent(w', token)
  {
    forall id | id in w'.db.sessions ensures w'.db.sessions[id].token != token { TokenMoves(w, tx, w', id); }
  }

  lemma NowSpent(w: World, tx: Tx, w': World)
    requires Lineage(w) && Moves(w, tx, w') && tx.Refresh?
    ensures Spent(w', tx.previous)
  {
    TokenMoves(w, tx, w', tx.session);
    forall id | id in w'.db.sessions ensures w'.db.sessions[id].token != tx.previous { TokenMoves(w, tx, w', id); }
  }

  lemma LineageRun(config: Config, now: Time, steps: seq<Step>)
    ensures Lineage(Run(Start(config, now), steps))
  {
    if steps != [] {
      var w, step := Run(Start(config, now), steps[..|steps| - 1]), steps[|steps| - 1];
      LineageRun(config, now, steps[..|steps| - 1]);
      StepCases(w, step);
      if IsCommit(w, step) { LineageMoves(w, step.tx, Next(w, step)); }
    }
  }

  /** A refresh call presenting `token` now would find this session usable. */
  predicate Accepts(w: World, token: Atom, session: Atom) {
    session in w.db.sessions && w.db.sessions[session].token == token && Sessions.Live(w.db.sessions[session], w.now)
  }

  /** Each issued token is spent at most once: of any number of refreshes presenting the
      same token, however they interleave, at most one commits. The one that does was
      presenting the latest token issued for its session. */
  lemma TokenSpentOnce(config: Config, now: Time, steps: seq<Step>, call: Atom, tx: Tx)
    requires tx.Refresh? && Commits(Run(Start(config, now), steps), call, tx)
    ensures var w := Run(Start(config, now), steps);
      && (forall i :: 0 <= i < |w.log| && w.log[i].Refresh? ==> w.log[i].previous != tx.previous)
      && LastIssued(w.log, tx.session) == Some(tx.previous)
      && Spent(AfterCommit(w, call, tx), tx.previous)
  {
    var w := Run(Start(config, now), steps);
    LineageRun(config, now, steps);
    CommitMoves(w, call, tx);
    TokenMoves(w, tx, AfterCommit(w, call, tx), tx.session);
    NowSpent(w, tx, AfterCommit(w, call, tx));
  }

  lemma SpentRun(w: World, steps: seq<Step>, token: Atom)
    requires Spent(w, token)
    ensures Spent(Run(w, steps), token)
  {
    if steps != [] {
      var before, step := Run(w, steps[..|steps| - 1]), steps[|steps| - 1];
      SpentRun(w, steps[..|steps| - 1], token);
      StepCases(before, step);
      if IsCommit(before, step) { SpentMoves(before, step.tx, Run(w, steps), token); }
    }
  }

  /** Once spent, a token is refused by every session for ever after. */
  lemma SpentTokenRefused(config: Config, now: Time, steps: seq<Step>, later: seq<Step>, i: nat, session: Atom)
    requires i < |Run(Start(config, now), steps).log| && Run(Start(config, now), steps).log[i].Refresh?
    ensures var w := Run(Start(config, now), steps); !Accepts(Run(w, later), w.log[i].previous, session)
  {
    LineageRun(config, now, steps);
    var w := Run(Start(config, now), steps);
    SpentRun(w, later, w.log[i].previous);
  }

  /** A live session has exactly one acceptable token, the last one issued for it; no
      other session accepts it, and the session is less than thirty days old however
      often it was refreshed. */
  lemma LiveSessionToken(config: Config, now: Time, steps: seq<Step>, session: Atom, token: Atom, other: Atom)
    requires var w := Run(Start(config, now), steps);
      session in w.db.sessions && Sessions.Live(w.db.sessions[session], w.now)
    ensures var w := Run(Start(config, now), steps);
      && (Accepts(w, token, session) <==> LastIssued(w.log, session) == Some(token))
      && (Accepts(w, token, session) && Accepts(w, token, other) ==> other == session)
      && w.now < w.db.sessions[session].audit.createdAt + 2_592_000_000_000_000
  {
    LineageRun(config, now, steps);
  }
}
