/** The sessions table: creation, rotation, tenant scoping, revocation, cleanup. */
module Sessions {
  import opened Core
  import Users
  import Retention

  /** The texts that end up in revoke_reason: the caller's own, or one of the service's. */
  datatype Reason =
    | NotRevoked
    | Given(text: Atom)
    | LoggedOut
    | OwnRevocation
    | AdminRevocation
    | PasswordChanged
    | PasswordRecovered
    | MfaEnabled
    | MfaDisabled
    | MfaReset(text: Atom)
    | StatusChangedTo(status: Users.Status)

  datatype Session = Session(
    userId: Atom,
    token: Atom,
    tenant: Atom,
    membership: Atom,
    expiresAt: Time,
    revokedAt: Option<Time>,
    revokeReason: Reason,
    lastUsedAt: Time,
    client: Client,
    audit: Audit)

  type Table = map<Atom, Session>

  /** The WHERE clauses of the six revoking updates; each also asks `revoked_at IS NULL`. */
  datatype Filter =
    | OwnId(id: Atom, user: Atom)
    | OthersOf(user: Atom, current: Atom, at: Time)
    | AllOf(user: Atom, at: Time)
    | AtVersion(id: Atom, version: int)
    | OwnAtVersion(id: Atom, user: Atom, version: int)
    | InTenant(user: Atom, tenant: Atom)

  datatype Stmt =
    | Insert(id: Atom, row: Session)
    | Rotate(id: Atom, previous: Atom, version: int, token: Atom, actor: Atom, now: Time)
    | Scope(id: Atom, user: Atom, tenant: Atom, membership: Atom, actor: Atom, now: Time)
    | Revoke(filter: Filter, reason: Reason, actor: Atom, now: Time)
    | Delete(ids: seq<Atom>, before: Time)

  predicate Live(s: Session, now: Time) {
    s.revokedAt.None? && s.expiresAt > now
  }

  /** COALESCE(revoked_at, expires_at), the instant retention is counted from. */
  function EndedAt(s: Session): Time {
    if s.revokedAt.Some? then s.revokedAt.value else s.expiresAt
  }

  predicate Matches(f: Filter, id: Atom, s: Session) {
    && s.revokedAt.None?
    && match f
       case OwnId(i, user) => id == i && s.userId == user
       case OthersOf(user, current, at) => s.userId == user && id != current && s.expiresAt > at
       case AllOf(user, at) => s.userId == user && s.expiresAt > at
       case AtVersion(i, version) => id == i && s.audit.version == version
       case OwnAtVersion(i, user, version) => id == i && s.userId == user && s.audit.version == version
       case InTenant(user, tenant) => s.userId == user && s.tenant == tenant
  }

  /** The single-row revocations go through requireAffected, the bulk ones do not. */
  predicate MustAffect(f: Filter) {
    f.OwnId? || f.AtVersion? || f.OwnAtVersion?
  }

  function Revoked(s: Session, reason: Reason, actor: Atom, now: Time): Session {
    s.(revokedAt := Some(now), revokeReason := reason, audit := s.audit.Touched(actor, now))
  }

  function Matching(t: Table, f: Filter): set<Atom> {
    set id | id in t && Matches(f, id, t[id])
  }

  function RevokeAll(t: Table, hits: set<Atom>, reason: Reason, actor: Atom, now: Time): Table {
    map id | id in t :: if id in hits then Revoked(t[id], reason, actor, now) else t[id]
  }

  function RevokeWhere(t: Table, f: Filter, reason: Reason, actor: Atom, now: Time): Table {
    RevokeAll(t, Matching(t, f), reason, actor, now)
  }

  predicate TokenTaken(t: Table, id: Atom, token: Atom) {
    exists k :: k in t && k != id && t[k].token == token
  }

  function Apply(t: Table, users: set<Atom>, s: Stmt): Effect<Table> {
    match s
    case Insert(id, row) =>
      if id in t || row.userId !in users || TokenTaken(t, id, row.token) then Abort(Internal)
      else Effect(t[id := row], 1)
    case Rotate(id, previous, version, token, actor, now) =>
      if !(id in t && t[id].token == previous && t[id].revokedAt.None? && t[id].audit.version == version)
      then Abort(Stale)
      else if TokenTaken(t, id, token) then Abort(Internal)
      else Effect(t[id := t[id].(token := token, lastUsedAt := now, audit := t[id].audit.Touched(actor, now))], 1)
    case Scope(id, user, tenant, membership, actor, now) =>
      if id in t && t[id].userId == user && Live(t[id], now) then
        Effect(t[id := t[id].(tenant := tenant, membership := membership, audit := t[id].audit.Touched(actor, now))], 1)
      else Abort(Stale)
    case Revoke(f, reason, actor, now) =>
      if MustAffect(f) && Matching(t, f) == {} then Abort(Stale)
      else Effect(RevokeWhere(t, f, reason, actor, now), |Matching(t, f)|)
    case Delete(ids, before) =>
      Effect(t - Retention.Hit(t, EndedAt, ids, before), |Retention.Hit(t, EndedAt, ids, before)|)
  }

  /** An update never changes the owner, the expiry, the origin or a revoked row. */
  predicate Succeeds(a: Session, b: Session) {
    || b == a
    || (&& b.audit.version == a.audit.version + 1
        && a.revokedAt.None?
        && b.userId == a.userId
        && b.expiresAt == a.expiresAt
        && b.client == a.client
        && b.audit.createdAt == a.audit.createdAt
        && b.audit.createdBy == a.audit.createdBy)
  }

  predicate Evolves(t: Table, s: Stmt, t': Table, id: Atom) {
    && (id in t && id in t' ==>
          && Succeeds(t[id], t'[id])
          && (t'[id].token != t[id].token ==>
                s.Rotate? && s.id == id && s.previous == t[id].token && s.token == t'[id].token)
          && t'[id].tenant == (if s.Scope? && s.id == id then s.tenant else t[id].tenant))
    && (id in t && id !in t' ==> s.Delete? && EndedAt(t[id]) < s.before)
    && (id !in t && id in t' ==> s.Insert? && s.id == id && t'[id] == s.row)
    && (s.Insert? && s.id == id ==> id !in t && id in t')
    && (s.Scope? && s.id == id ==> id in t && id in t')
    && (s.Rotate? && s.id == id ==> id in t && t[id].token == s.previous && id in t' && t'[id].token == s.token)
  }

  lemma RowsEvolve(t: Table, users: set<Atom>, s: Stmt)
    requires Apply(t, users, s).Effect?
    ensures forall id :: Evolves(t, s, Apply(t, users, s).table, id)
  {
  }

  predicate GuardsOn(s: Stmt, id: Atom, version: int) {
    || (s.Rotate? && s.id == id && s.version == version)
    || (&& s.Revoke? && (s.filter.AtVersion? || s.filter.OwnAtVersion?)
        && s.filter.id == id && s.filter.version == version)
  }

  lemma GuardHolds(t: Table, users: set<Atom>, s: Stmt, id: Atom, version: int)
    requires Apply(t, users, s).Effect? && GuardsOn(s, id, version)
    ensures var t' := Apply(t, users, s).table;
      id in t && t[id].audit.version == version && id in t' && t'[id].audit.version == version + 1
  {
    if s.Revoke? {
      var k :| k in Matching(t, s.filter);
      assert k == id;
    }
  }
}
