/** The user_mfa table: one enrollment per user. */
module Enrollments {
  import opened Core

  datatype Status = Pending | Enabled | Disabled

  datatype Enrollment = Enrollment(
    secret: Atom,
    status: Status,
    lastUsedStep: int,
    enabledAt: Option<Time>,
    audit: Audit)

  type Table = map<Atom, Enrollment>

  datatype Stmt =
    | Insert(user: Atom, row: Enrollment)
    | ResetPending(user: Atom, secret: Atom, actor: Atom, version: int, now: Time)
    | Enable(user: Atom, step: int, actor: Atom, version: int, now: Time)
    | Disable(user: Atom, step: int, actor: Atom, version: int, now: Time)
    | AdminReset(user: Atom, actor: Atom, version: int, now: Time)
    | Advance(user: Atom, step: int, actor: Atom, now: Time)
    | AdvanceAtVersion(user: Atom, step: int, actor: Atom, version: int, now: Time)

  /** The WHERE clause; an enrollment is only ever reached through its user id. */
  predicate Guard(e: Enrollment, s: Stmt)
    requires !s.Insert?
  {
    match s
    case ResetPending(_, _, _, version, _) => !e.status.Enabled? && e.audit.version == version
    case Enable(_, _, _, version, _) => e.status.Pending? && e.audit.version == version
    case Disable(_, step, _, version, _) => e.status.Enabled? && e.lastUsedStep < step && e.audit.version == version
    case AdminReset(_, _, version, _) => e.status.Enabled? && e.audit.version == version
    case Advance(_, step, _, _) => e.status.Enabled? && e.lastUsedStep < step
    case AdvanceAtVersion(_, step, _, version, _) =>
      e.status.Enabled? && e.lastUsedStep < step && e.audit.version == version
  }

  function Updated(e: Enrollment, s: Stmt): Enrollment
    requires !s.Insert?
  {
    match s
    case ResetPending(_, secret, actor, _, now) =>
      Enrollment(secret, Pending, -1, None, e.audit.Touched(actor, now))
    case Enable(_, step, actor, _, now) =>
      e.(status := Enabled, lastUsedStep := step, enabledAt := Some(now), audit := e.audit.Touched(actor, now))
    case Disable(_, step, actor, _, now) =>
      e.(status := Disabled, lastUsedStep := step, audit := e.audit.Touched(actor, now))
    case AdminReset(_, actor, _, now) =>
      e.(status := Disabled, lastUsedStep := -1, enabledAt := None, audit := e.audit.Touched(actor, now))
    case Advance(_, step, actor, now) =>
      e.(lastUsedStep := step, audit := e.audit.Touched(actor, now))
    case AdvanceAtVersion(_, step, actor, _, now) =>
      e.(lastUsedStep := step, audit := e.audit.Touched(actor, now))
  }

  function Apply(t: Table, users: set<Atom>, s: Stmt): Effect<Table> {
    if s.Insert? then
      if s.user in t || s.user !in users then Abort(Internal) else Effect(t[s.user := s.row], 1)
    else
      if s.user in t && Guard(t[s.user], s) then Effect(t[s.user := Updated(t[s.user], s)], 1) else Abort(Stale)
  }

  predicate Evolves(t: Table, s: Stmt, t': Table, user: Atom) {
    && (user in t ==>
          && user in t'
          && (t'[user] == t[user] || t'[user].audit.version == t[user].audit.version + 1)
          && (t[user].status.Enabled? ==> t'[user].secret == t[user].secret))
    && (user !in t && user in t' ==> s.Insert? && s.user == user && t'[user] == s.row)
  }

  /** In particular, the secret never changes while the enrollment is enabled. */
  lemma RowsEvolve(t: Table, users: set<Atom>, s: Stmt)
    requires Apply(t, users, s).Effect?
    ensures forall id :: Evolves(t, s, Apply(t, users, s).table, id)
  {
  }

  predicate GuardsOn(s: Stmt, user: Atom, version: int) {
    !s.Insert? && !s.Advance? && s.user == user && s.version == version
  }

  lemma GuardHolds(t: Table, users: set<Atom>, s: Stmt, user: Atom, version: int)
    requires Apply(t, users, s).Effect? && GuardsOn(s, user, version)
    ensures var t' := Apply(t, users, s).table;
      user in t && t[user].audit.version == version && user in t' && t'[user].audit.version == version + 1
  {
  }
}

/** The mfa_recovery_codes table, grouped by user: hash to row, for the users that have codes. */
module RecoveryCodes {
  import opened Core

  datatype Code = Code(consumedAt: Option<Time>, audit: Audit)

  type Table = map<Atom, map<Atom, Code>>

  datatype Stmt =
    | Delete(user: Atom)
    | Replace(user: Atom, hashes: seq<Atom>, actor: Atom, now: Time)
    | Consume(user: Atom, hash: Atom, actor: Atom, now: Time)

  function FreshCodes(hashes: seq<Atom>, actor: Atom, now: Time): map<Atom, Code> {
    map h | h in hashes :: Code(None, NewAudit(actor, now))
  }

  function Spent(c: Code, actor: Atom, now: Time): Code {
    c.(consumedAt := Some(now), audit := c.audit.Touched(actor, now))
  }

  function Apply(t: Table, users: set<Atom>, s: Stmt): Effect<Table> {
    match s
    case Delete(user) => Effect(t - {user}, if user in t then |t[user]| else 0)
    case Replace(user, hashes, actor, now) =>
      // An empty list is refused; a repeated hash breaks UNIQUE (user_id, code_hash).
      if hashes == [] || !Distinct(hashes) || user !in users then Abort(Internal)
      else Effect(t[user := FreshCodes(hashes, actor, now)], |hashes|)
    case Consume(user, hash, actor, now) =>
      if user in t && hash in t[user] && t[user][hash].consumedAt.None? then
        Effect(t[user := t[user][hash := Spent(t[user][hash], actor, now)]], 1)
      else Abort(Stale)
  }

  /** One more code of a replacement. */
  lemma FreshOneMore(hashes: seq<Atom>, i: nat, actor: Atom, now: Time)
    requires i < |hashes|
    ensures hashes[i] in FreshCodes(hashes[..i], actor, now) <==> hashes[i] in hashes[..i]
    ensures FreshCodes(hashes[..i + 1], actor, now) ==
      FreshCodes(hashes[..i], actor, now)[hashes[i] := Code(None, NewAudit(actor, now))]
    ensures Distinct(hashes[..i]) && hashes[i] !in hashes[..i] <==> Distinct(hashes[..i + 1])
  {
    assert hashes[..i + 1] == hashes[..i] + [hashes[i]];
    if hashes[i] in hashes[..i] {
      var k :| 0 <= k < i && hashes[..i][k] == hashes[i];
      assert hashes[..i + 1][k] == hashes[..i + 1][i];
    }
    if Distinct(hashes[..i + 1]) {
      forall k, l | 0 <= k < l < i ensures hashes[..i][k] != hashes[..i][l] {
        assert hashes[..i + 1][k] != hashes[..i + 1][l];
      }
    }
  }

  lemma RepeatedHash(hashes: seq<Atom>, i: nat)
    requires i <= |hashes| && !Distinct(hashes[..i])
    ensures !Distinct(hashes)
  {
    var k, l :| 0 <= k < l < i && hashes[..i][k] == hashes[..i][l];
    assert hashes[k] == hashes[l];
  }

  /** The hashes up to `k` are distinct and the one at `k` repeats one of them. */
  predicate FirstRepetition(hashes: seq<Atom>, k: nat) {
    k < |hashes| && Distinct(hashes[..k]) && hashes[k] in hashes[..k]
  }

  /** A replacement that stopped at its first repeated hash. */
  ghost predicate HalfDone(t: Table, user: Atom, hashes: seq<Atom>, actor: Atom, now: Time, t': Table) {
    exists k: nat :: FirstRepetition(hashes, k) && t' == t[user := FreshCodes(hashes[..k], actor, now)]
  }

  function Unused(codes: map<Atom, Code>): set<Atom> {
    set h | h in codes && codes[h].consumedAt.None?
  }
}

/** The mfa_login_challenges table. */
module Challenges {
  import opened Core
  import Retention

  datatype Challenge = Challenge(
    userId: Atom,
    client: Client,
    expiresAt: Time,
    consumedAt: Option<Time>,
    audit: Audit)

  type Table = map<Atom, Challenge>

  datatype Stmt =
    | Insert(token: Atom, row: Challenge)
    | Consume(token: Atom, actor: Atom, version: int, now: Time)
    | Delete(tokens: seq<Atom>, before: Time)

  function ExpiryOf(c: Challenge): Time {
    c.expiresAt
  }

  function Apply(t: Table, users: set<Atom>, s: Stmt): Effect<Table> {
    match s
    case Insert(token, row) =>
      if token in t || row.userId !in users then Abort(Internal) else Effect(t[token := row], 1)
    case Consume(token, actor, version, now) =>
      if token in t && t[token].consumedAt.None? && t[token].expiresAt > now && t[token].audit.version == version then
        Effect(t[token := t[token].(consumedAt := Some(now), audit := t[token].audit.Touched(actor, now))], 1)
      else Abort(Stale)
    case Delete(tokens, before) =>
      Effect(t - Retention.Hit(t, ExpiryOf, tokens, before), |Retention.Hit(t, ExpiryOf, tokens, before)|)
  }

  /** Consumption is final. */
  predicate Succeeds(a: Challenge, b: Challenge) {
    || b == a
    || (&& b.audit.version == a.audit.version + 1
        && a.consumedAt.None? && b.consumedAt.Some?
        && b.userId == a.userId
        && b.expiresAt == a.expiresAt)
  }

  predicate Evolves(t: Table, s: Stmt, t': Table, id: Atom) {
    && (id in t && id in t' ==> Succeeds(t[id], t'[id]))
    && (id in t && id !in t' ==> s.Delete? && t[id].expiresAt < s.before)
    && (id !in t && id in t' ==> s.Insert? && s.token == id && t'[id] == s.row)
    && (s.Insert? && s.token == id ==> id !in t && id in t')
    && (s.Consume? && s.token == id ==> id in t && t[id].consumedAt.None? && id in t' && t'[id].consumedAt.Some?)
  }

  lemma RowsEvolve(t: Table, users: set<Atom>, s: Stmt)
    requires Apply(t, users, s).Effect?
    ensures forall id :: Evolves(t, s, Apply(t, users, s).table, id)
  {
  }

  predicate GuardsOn(s: Stmt, id: Atom, version: int) {
    s.Consume? && s.token == id && s.version == version
  }

  lemma GuardHolds(t: Table, users: set<Atom>, s: Stmt, id: Atom, version: int)
    requires Apply(t, users, s).Effect? && GuardsOn(s, id, version)
    ensures var t' := Apply(t, users, s).table;
      id in t && t[id].audit.version == version && id in t' && t'[id].audit.version == version + 1
  {
  }
}
