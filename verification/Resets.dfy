/** The password_reset_challenges table. */
module Resets {
  import opened Core
  import Retention

  datatype Reset = Reset(
    userId: Atom,
    reason: Atom,
    expiresAt: Time,
    consumedAt: Option<Time>,
    audit: Audit)

  type Table = map<Atom, Reset>

  datatype Stmt =
    | Invalidate(user: Atom, actor: Atom, now: Time)
    | Insert(token: Atom, row: Reset)
    | Consume(token: Atom, actor: Atom, version: int, now: Time)
    | Delete(tokens: seq<Atom>, before: Time)

  function ExpiryOf(r: Reset): Time {
    r.expiresAt
  }

  function Consumed(r: Reset, actor: Atom, now: Time): Reset {
    r.(consumedAt := Some(now), audit := r.audit.Touched(actor, now))
  }

  predicate Open(r: Reset, user: Atom) {
    r.userId == user && r.consumedAt.None?
  }

  function OpenOf(t: Table, user: Atom): set<Atom> {
    set h | h in t && Open(t[h], user)
  }

  function ConsumeAll(t: Table, hits: set<Atom>, actor: Atom, now: Time): Table {
    map h | h in t :: if h in hits then Consumed(t[h], actor, now) else t[h]
  }

  function InvalidateAll(t: Table, user: Atom, actor: Atom, now: Time): Table {
    ConsumeAll(t, OpenOf(t, user), actor, now)
  }

  function Apply(t: Table, users: set<Atom>, s: Stmt): Effect<Table> {
    match s
    case Invalidate(user, actor, now) =>
      Effect(InvalidateAll(t, user, actor, now), |OpenOf(t, user)|)
    case Insert(token, row) =>
      if token in t || row.userId !in users then Abort(Internal) else Effect(t[token := row], 1)
    case Consume(token, actor, version, now) =>
      if token in t && t[token].consumedAt.None? && t[token].expiresAt > now && t[token].audit.version == version then
        Effect(t[token := Consumed(t[token], actor, now)], 1)
      else Abort(Stale)
    case Delete(tokens, before) =>
      Effect(t - Retention.Hit(t, ExpiryOf, tokens, before), |Retention.Hit(t, ExpiryOf, tokens, before)|)
  }

  /** Consumption is final. */
  predicate Succeeds(a: Reset, b: Reset) {
    || b == a
    || (&& b.audit.version == a.audit.version + 1
        && a.consumedAt.None? && b.consumedAt.Some?
        && b.userId == a.userId
        && b.expiresAt == a.expiresAt)
  }

  predicate Evolves(t: Table, s: Stmt, t': Table, id: Atom) {
    && (id in t && id in t' ==> Succeeds(t[id], t'[id]))
    && (id in t && id !in t' ==> s.Delete? && t[id].expiresAt < s.before)
    && (id !in t && id in t' ==> s.Insert? && s.token == id && t'[id] == s.row)
    && (s.Insert? && s.token == id ==> id !in t && id in t')
    && (s.Consume? && s.token == id ==> id in t && t[id].consumedAt.None? && id in t' && t'[id].consumedAt.Some?)
  }

  lemma RowsEvolve(t: Table, users: set<Atom>, s: Stmt)
    requires Apply(t, users, s).Effect?
    ensures forall id :: Evolves(t, s, Apply(t, users, s).table, id)
  {
  }

  predicate GuardsOn(s: Stmt, id: Atom, version: int) {
    s.Consume? && s.token == id && s.version == version
  }

  lemma GuardHolds(t: Table, users: set<Atom>, s: Stmt, id: Atom, version: int)
    requires Apply(t, users, s).Effect? && GuardsOn(s, id, version)
    ensures var t' := Apply(t, users, s).table;
      id in t && t[id].audit.version == version && id in t' && t'[id].audit.version == version + 1
  {
  }
}
