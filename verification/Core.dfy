/** Values shared by every table of the identity database. */
module Core {
  /** Identifiers, token hashes and free text. They are only ever compared, so the
      model draws them from an unbounded set of atoms. A random token and its
      SHA-256 hash are the same atom, because the hash is taken to be injective. */
  type Atom = int

  /** Nanoseconds since the Unix epoch. */
  type Time = int

  const SECOND: Time := 1_000_000_000
  const MINUTE: Time := 60 * SECOND
  const DAY: Time := 24 * 60 * MINUTE

  /** The empty string, and the actors the service writes on its own behalf. */
  const EMPTY: Atom := 0
  const LOGIN_ACTOR: Atom := 1
  const MFA_ACTOR: Atom := 2
  const RESET_ACTOR: Atom := 3
  const RESERVED: set<Atom> := {EMPTY, LOGIN_ACTOR, MFA_ACTOR, RESET_ACTOR}

  datatype Option<+T> = None | Some(value: T)

  /** `Stale` is ErrStale, `Conflict` is ErrConflict, `Internal` any other failure. */
  datatype Error = Stale | Conflict | Internal

  /** What one statement did to its table: the new table and the affected-row count. */
  datatype Effect<+T> = Effect(table: T, affected: nat) | Abort(error: Error)

  datatype Client = Client(ip: Atom, userAgent: Atom)

  /** The audit columns every versioned row carries. */
  datatype Audit = Audit(version: int, createdAt: Time, updatedAt: Time, createdBy: Atom, updatedBy: Atom) {
    function Touched(actor: Atom, now: Time): Audit {
      this.(version := version + 1, updatedAt := now, updatedBy := actor)
    }
  }

  function NewAudit(actor: Atom, now: Time): Audit {
    Audit(1, now, now, actor, actor)
  }

  predicate Distinct(s: seq<Atom>) {
    forall i, j :: 0 <= i < j < |s| ==> s[i] != s[j]
  }

  lemma DistinctSize(s: seq<Atom>)
    requires Distinct(s)
    ensures |set x | x in s| == |s|
  {
    if s != [] {
      var last, rest := s[|s| - 1], s[..|s| - 1];
      DistinctSize(rest);
      assert (set x | x in s) == (set x | x in rest) + {last};
    }
  }

  method Pick<T>(s: set<T>) returns (x: T)
    requires |s| > 0
    ensures x in s
  {
    x :| x in s;
  }
}
