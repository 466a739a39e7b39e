/** The service_accounts table. */
module Accounts {
  import opened Core
  import Users
  import Credentials

  datatype Account = Account(
    clientId: Atom,
    name: Atom,
    secret: Credentials.Secret,
    status: Users.Status,
    audiences: Atom,
    audit: Audit)

  type Table = map<Atom, Account>

  datatype Stmt =
    | Insert(id: Atom, row: Account)
    | UpdateStatus(id: Atom, status: Users.Status, actor: Atom, version: int, now: Time)
    | RotateSecret(id: Atom, secret: Credentials.Secret, actor: Atom, version: int, now: Time)

  predicate ClientTaken(t: Table, id: Atom, clientId: Atom) {
    exists k :: k in t && k != id && t[k].clientId == clientId
  }

  function Apply(t: Table, s: Stmt): Effect<Table> {
    match s
    case Insert(id, row) =>
      if id in t || ClientTaken(t, id, row.clientId) then Abort(Conflict) else Effect(t[id := row], 1)
    case UpdateStatus(id, status, actor, version, now) =>
      if id in t && t[id].audit.version == version then
        Effect(t[id := t[id].(status := status, audit := t[id].audit.Touched(actor, now))], 1)
      else Abort(Stale)
    case RotateSecret(id, secret, actor, version, now) =>
      if id in t && t[id].audit.version == version then
        Effect(t[id := t[id].(secret := secret, audit := t[id].audit.Touched(actor, now))], 1)
      else Abort(Stale)
  }

  predicate Evolves(t: Table, s: Stmt, t': Table, id: Atom) {
    && (id in t ==>
          && id in t'
          && (t'[id] == t[id] || t'[id].audit.version == t[id].audit.version + 1)
          && t'[id].status == if s.UpdateStatus? && s.id == id then s.status else t[id].status)
    && (s.UpdateStatus? && s.id == id ==> id in t)
    && (id !in t && id in t' ==> s.Insert? && s.id == id && t'[id] == s.row)
  }

  lemma RowsEvolve(t: Table, s: Stmt)
    requires Apply(t, s).Effect?
    ensures forall id :: Evolves(t, s, Apply(t, s).table, id)
  {
  }

  predicate GuardsOn(s: Stmt, id: Atom, version: int) {
    !s.Insert? && s.id == id && s.version == version
  }

  lemma GuardHolds(t: Table, s: Stmt, id: Atom, version: int)
    requires Apply(t, s).Effect? && GuardsOn(s, id, version)
    ensures var t' := Apply(t, s).table;
      id in t && t[id].audit.version == version && id in t' && t'[id].audit.version == version + 1
  {
  }
}
