/** The repository: tables updated in place, one method per SQL statement, and the
    transaction that runs several of them or undoes them all. */
module Repositories {
  import opened Core
  import opened Database
  import Users
  import Credentials
  import Sessions
  import Enrollments
  import RecoveryCodes
  import Challenges
  import Resets
  import Accounts
  import Outbox
  import Retention
  import Sql

  /** What a statement reports: its affected-row count, or why it failed. */
  datatype Reply = Ok(affected: nat) | Err(error: Error)

  /** The method did to its table what the statement says: the table it leaves and its
      reply are those of the statement, and a failed statement leaves the table alone. */
  ghost predicate Performs<T(!new)>(e: Effect<T>, before: T, after: T, r: Reply) {
    match e
    case Effect(table, affected) => after == table && r == Ok(affected)
    case Abort(error) => after == before && r == Err(error)
  }

  function RequireAffected(count: nat): Reply {
    if count == 0 then Err(Stale) else Ok(count)
  }

  // A transaction in two halves, as its statements run.

  ghost function ExecTokens(db: Db, p: Plan): Outcome {
    var u := OnUsers(db.users, p.users);
    if u.Abort? then RolledBack(u.error) else
    var ch := OnChallenges(db.challenges, u.table.Keys, p.challenges);
    if ch.Abort? then RolledBack(ch.error) else
    var iv := OnResets(db.resets, u.table.Keys, p.invalidation);
    if iv.Abort? then RolledBack(iv.error) else
    var rs := OnResets(iv.table, u.table.Keys, p.resets);
    if rs.Abort? then RolledBack(rs.error) else
    Committed(db.(users := u.table, challenges := ch.table, resets := rs.table))
  }

  ghost function ExecRest(db: Db, p: Plan): Outcome {
    var cr := OnCredentials(db.credentials, db.users.Keys, p.credentials);
    if cr.Abort? then RolledBack(cr.error) else
    var en := OnEnrollments(db.enrollments, db.users.Keys, p.enrollments);
    if en.Abort? then RolledBack(en.error) else
    var cd := OnCodes(db.codes, db.users.Keys, p.codes);
    if cd.Abort? then RolledBack(cd.error) else
    var ss := OnSessions(db.sessions, db.users.Keys, p.sessions);
    if ss.Abort? then RolledBack(ss.error) else
    var ac := OnAccounts(db.accounts, p.accounts);
    if ac.Abort? then RolledBack(ac.error) else
    Committed(db.(credentials := cr.table, enrollments := en.table, codes := cd.table, sessions := ss.table,
                  accounts := ac.table, outbox := OnOutbox(db.outbox, p.event, ss.affected)))
  }

  lemma ExecInTwo(db: Db, p: Plan)
    ensures Exec(db, p) == match ExecTokens(db, p)
                           case Committed(mid) => ExecRest(mid, p)
                           case RolledBack(error) => RolledBack(error)
  {
  }

  class Repository {
    var users: Users.Table
    var credentials: Credentials.Table
    var sessions: Sessions.Table
    var enrollments: Enrollments.Table
    var codes: RecoveryCodes.Table
    var challenges: Challenges.Table
    var resets: Resets.Table
    var accounts: Accounts.Table
    var outbox: Outbox.Table

    ghost function View(): Db
      reads this
    {
      Db(users, credentials, sessions, enrollments, codes, challenges, resets, accounts, outbox)
    }

    constructor ()
      ensures View() == EMPTY_DB
    {
      users, credentials, sessions, enrollments, codes := map[], map[], map[], map[], map[];
      challenges, resets, accounts, outbox := map[], map[], map[], [];
    }

    // Users and credentials. An UPDATE scans its table; that the scan changes at most one row
    // follows from its WHERE clause.

    method InsertUser(id: Atom, row: Users.User) returns (r: Reply)
      modifies this`users
      ensures Performs(Users.Apply(old(users), Users.Insert(id, row)), old(users), users, r)
    {
      if id in users || Users.UsernameTaken(users, id, row.username) { return Err(Conflict); }
      if Users.EmailTaken(users, id, row.profile.email) { return Err(Conflict); }
      users := users[id := row];
      r := Ok(1);
    }

    method RecordFailedLogin(id: Atom, threshold: int, until: Time, now: Time) returns (r: Reply)
      modifies this`users
      ensures Performs(Users.Apply(old(users), Users.RecordFailedLogin(id, threshold, until, now)),
                       old(users), users, r)
    {
      var count;
      users, count := Sql.UpdateOne(users, id, (k, _: Users.User) => k == id,
        (u: Users.User) =>
          u.(failedLogins := u.failedLogins + 1,
             lockedUntil := if u.failedLogins + 1 >= threshold then Some(until) else u.lockedUntil,
             audit := u.audit.Touched(LOGIN_ACTOR, now)));
      r := Ok(count);
    }

    method ResetFailedLogin(id: Atom, now: Time) returns (r: Reply)
      modifies this`users
      ensures Performs(Users.Apply(old(users), Users.ResetFailedLogin(id, now)), old(users), users, r)
    {
      var count;
      users, count := Sql.UpdateOne(users, id,
        (k, u: Users.User) => k == id && (u.failedLogins != 0 || u.lockedUntil.Some?),
        (u: Users.User) => u.(failedLogins := 0, lockedUntil := None, audit := u.audit.Touched(LOGIN_ACTOR, now)));
      r := Ok(count);
    }

    method UpdateUserStatus(id: Atom, status: Users.Status, actor: Atom, version: int, now: Time) returns (r: Reply)
      modifies this`users
      ensures Performs(Users.Apply(old(users), Users.UpdateStatus(id, status, actor, version, now)),
                       old(users), users, r)
    {
      var count;
      users, count := Sql.UpdateOne(users, id, (k, u: Users.User) => k == id && u.audit.version == version,
        (u: Users.User) =>
          u.(status := status, failedLogins := 0, lockedUntil := None, audit := u.audit.Touched(actor, now)));
      r := RequireAffected(count);
    }

    method UpdateUserProfile(id: Atom, profile: Users.Profile, actor: Atom, version: int, now: Time) returns (r: Reply)
      modifies this`users
      ensures Performs(Users.Apply(old(users), Users.UpdateProfile(id, profile, actor, version, now)),
                       old(users), users, r)
    {
      var after, count := Sql.UpdateOne(users, id, (k, u: Users.User) => k == id && u.audit.version == version,
        (u: Users.User) => u.(profile := profile, audit := u.audit.Touched(actor, now)));
      if count > 0 && Users.EmailTaken(users, id, profile.email) { return Err(Conflict); }
      users := after;
      r := RequireAffected(count);
    }

    method InsertCredential(id: Atom, row: Credentials.Credential) returns (r: Reply)
      modifies this`credentials
      ensures Performs(Credentials.Apply(old(credentials), users.Keys, Credentials.Insert(id, row)),
                       old(credentials), credentials, r)
    {
      if id in credentials || Credentials.HasPassword(credentials, row.userId) { return Err(Internal); }
      if row.userId !in users { return Err(Internal); }
      credentials := credentials[id := row];
      r := Ok(1);
    }

    method UpdatePasswordCredential(id: Atom, secret: Credentials.Secret, actor: Atom, version: int, now: Time)
      returns (r: Reply)
      modifies this`credentials
      ensures Performs(Credentials.Apply(old(credentials), users.Keys,
                                         Credentials.UpdatePassword(id, secret, actor, version, now)),
                       old(credentials), credentials, r)
    {
      var count;
      credentials, count := Sql.UpdateOne(credentials, id,
        (k, c: Credentials.Credential) => k == id && c.status.Active? && c.audit.version == version,
        (c: Credentials.Credential) => c.(secret := secret, audit := c.audit.Touched(actor, now)));
      r := RequireAffected(count);
    }

    // Sessions.

    method CreateSession(id: Atom, row: Sessions.Session) returns (r: Reply)
      modifies this`sessions
      ensures Performs(Sessions.Apply(old(sessions), users.Keys, Sessions.Insert(id, row)), old(sessions), sessions, r)
    {
      if id in sessions || row.userId !in users { return Err(Internal); }
      if Sessions.TokenTaken(sessions, id, row.token) { return Err(Internal); }
      sessions := sessions[id := row];
      r := Ok(1);
    }

    method RotateSession(id: Atom, previous: Atom, version: int, token: Atom, actor: Atom, now: Time) returns (r: Reply)
      modifies this`sessions
      ensures Performs(Sessions.Apply(old(sessions), users.Keys,
                                      Sessions.Rotate(id, previous, version, token, actor, now)),
                       old(sessions), sessions, r)
    {
      var after, count := Sql.UpdateOne(sessions, id,
        (k, s: Sessions.Session) => k == id && s.token == previous && s.revokedAt.None? && s.audit.version == version,
        (s: Sessions.Session) => s.(token := token, lastUsedAt := now, audit := s.audit.Touched(actor, now)));
      if count > 0 && Sessions.TokenTaken(sessions, id, token) { return Err(Internal); }
      sessions := after;
      r := RequireAffected(count);
    }

    method ScopeSession(id: Atom, user: Atom, tenant: Atom, membership: Atom, actor: Atom, now: Time)
      returns (r: Reply)
      modifies this`sessions
      ensures Performs(Sessions.Apply(old(sessions), users.Keys,
                                      Sessions.Scope(id, user, tenant, membership, actor, now)),
                       old(sessions), sessions, r)
    {
      var count;
      sessions, count := Sql.UpdateOne(sessions, id,
        (k, s: Sessions.Session) => k == id && s.userId == user && s.revokedAt.None? && s.expiresAt > now,
        (s: Sessions.Session) => s.(tenant := tenant, membership := membership, audit := s.audit.Touched(actor, now)));
      r := RequireAffected(count);
    }

    /** The six revocations share one SET clause. */
    method RevokeMatching(f: Sessions.Filter, reason: Sessions.Reason, actor: Atom, now: Time) returns (count: nat)
      modifies this`sessions
      ensures sessions == Sessions.RevokeWhere(old(sessions), f, reason, actor, now)
      ensures count == |Sessions.Matching(old(sessions), f)|
    {
      var where := (k, s: Sessions.Session) => Sessions.Matches(f, k, s);
      assert Sql.Hits(sessions, where) == Sessions.Matching(sessions, f);
      sessions, count := Sql.Update(sessions, where,
        (s: Sessions.Session) =>
          s.(revokedAt := Some(now), revokeReason := reason, audit := s.audit.Touched(actor, now)));
    }

    method Revoke(f: Sessions.Filter, reason: Sessions.Reason, actor: Atom, now: Time) returns (r: Reply)
      modifies this`sessions
      ensures Performs(Sessions.Apply(old(sessions), users.Keys, Sessions.Revoke(f, reason, actor, now)),
                       old(sessions), sessions, r)
    {
      var count := RevokeMatching(f, reason, actor, now);
      r := if Sessions.MustAffect(f) then RequireAffected(count) else Ok(count);
      assert Sessions.RevokeAll(old(sessions), {}, reason, actor, now) == old(sessions);
    }

    method DeleteSessions(ids: seq<Atom>, before: Time) returns (deleted: nat)
      modifies this`sessions
      ensures sessions == old(sessions) - Retention.Hit(old(sessions), Sessions.EndedAt, ids, before)
      ensures deleted == |Retention.Hit(old(sessions), Sessions.EndedAt, ids, before)|
    {
      sessions, deleted := Retention.Delete(sessions, Sessions.EndedAt, ids, before);
    }

    // Enrollments, recovery codes and login challenges.

    method InsertMFA(user: Atom, row: Enrollments.Enrollment) returns (r: Reply)
      modifies this`enrollments
      ensures Performs(Enrollments.Apply(old(enrollments), users.Keys, Enrollments.Insert(user, row)),
                       old(enrollments), enrollments, r)
    {
      if user in enrollments || user !in users { return Err(Internal); }
      enrollments := enrollments[user := row];
      r := Ok(1);
    }

    method ResetPendingMFA(user: Atom, secret: Atom, actor: Atom, version: int, now: Time) returns (r: Reply)
      modifies this`enrollments
      ensures Performs(Enrollments.Apply(old(enrollments), users.Keys,
                                         Enrollments.ResetPending(user, secret, actor, version, now)),
                       old(enrollments), enrollments, r)
    {
      var count;
      enrollments, count := Sql.UpdateOne(enrollments, user,
        (k, e: Enrollments.Enrollment) => k == user && !e.status.Enabled? && e.audit.version == version,
        (e: Enrollments.Enrollment) =>
          e.(secret := secret, status := Enrollments.Pending, lastUsedStep := -1, enabledAt := None,
             audit := e.audit.Touched(actor, now)));
      r := RequireAffected(count);
    }

    method EnableMFA(user: Atom, step: int, actor: Atom, version: int, now: Time) returns (r: Reply)
      modifies this`enrollments
      ensures Performs(Enrollments.Apply(old(enrollments), users.Keys,
                                         Enrollments.Enable(user, step, actor, version, now)),
                       old(enrollments), enrollments, r)
    {
      var count;
      enrollments, count := Sql.UpdateOne(enrollments, user,
        (k, e: Enrollments.Enrollment) => k == user && e.status.Pending? && e.audit.version == version,
        (e: Enrollments.Enrollment) =>
          e.(status := Enrollments.Enabled, lastUsedStep := step, enabledAt := Some(now),
             audit := e.audit.Touched(actor, now)));
      r := RequireAffected(count);
    }

    method DisableMFA(user: Atom, step: int, actor: Atom, version: int, now: Time) returns (r: Reply)
      modifies this`enrollments
      ensures Performs(Enrollments.Apply(old(enrollments), users.Keys,
                                         Enrollments.Disable(user, step, actor, version, now)),
                       old(enrollments), enrollments, r)
    {
      var count;
      enrollments, count := Sql.UpdateOne(enrollments, user,
        (k, e: Enrollments.Enrollment) =>
          k == user && e.status.Enabled? && e.lastUsedStep < step && e.audit.version == version,
        (e: Enrollments.Enrollment) =>
          e.(status := Enrollments.Disabled, lastUsedStep := step, audit := e.audit.Touched(actor, now)));
      r := RequireAffected(count);
    }

    method AdminResetMFA(user: Atom, actor: Atom, version: int, now: Time) returns (r: Reply)
      modifies this`enrollments
      ensures Performs(Enrollments.Apply(old(enrollments), users.Keys,
                                         Enrollments.AdminReset(user, actor, version, now)),
                       old(enrollments), enrollments, r)
    {
      var count;
      enrollments, count := Sql.UpdateOne(enrollments, user,
        (k, e: Enrollments.Enrollment) => k == user && e.status.Enabled? && e.audit.version == version,
        (e: Enrollments.Enrollment) =>
          e.(status := Enrollments.Disabled, lastUsedStep := -1, enabledAt := None,
             audit := e.audit.Touched(actor, now)));
      r := RequireAffected(count);
    }

    method AdvanceMFAStep(user: Atom, step: int, actor: Atom, now: Time) returns (r: Reply)
      modifies this`enrollments
      ensures Performs(Enrollments.Apply(old(enrollments), users.Keys, Enrollments.Advance(user, step, actor, now)),
                       old(enrollments), enrollments, r)
    {
      var count;
      enrollments, count := Sql.UpdateOne(enrollments, user,
        (k, e: Enrollments.Enrollment) => k == user && e.status.Enabled? && e.lastUsedStep < step,
        (e: Enrollments.Enrollment) => e.(lastUsedStep := step, audit := e.audit.Touched(actor, now)));
      r := RequireAffected(count);
    }

    method AdvanceMFAStepAtVersion(user: Atom, step: int, actor: Atom, version: int, now: Time) returns (r: Reply)
      modifies this`enrollments
      ensures Performs(Enrollments.Apply(old(enrollments), users.Keys,
                                         Enrollments.AdvanceAtVersion(user, step, actor, version, now)),
                       old(enrollments), enrollments, r)
    {
      var count;
      enrollments, count := Sql.UpdateOne(enrollments, user,
        (k, e: Enrollments.Enrollment) =>
          k == user && e.status.Enabled? && e.lastUsedStep < step && e.audit.version == version,
        (e: Enrollments.Enrollment) => e.(lastUsedStep := step, audit := e.audit.Touched(actor, now)));
      r := RequireAffected(count);
    }

    method DeleteRecoveryCodes(user: Atom) returns (r: Reply)
      modifies this`codes
      ensures Performs(RecoveryCodes.Apply(old(codes), users.Keys, RecoveryCodes.Delete(user)), old(codes), codes, r)
    {
      var count := if user in codes then |codes[user]| else 0;
      codes := codes - {user};
      r := Ok(count);
    }

    /** Delete, then insert one by one. A failed insert leaves the old codes gone and the new
        ones before the first repetition in place: it is the enclosing transaction that takes
        them back. */
    method ReplaceRecoveryCodes(user: Atom, hashes: seq<Atom>, actor: Atom, now: Time) returns (r: Reply)
      modifies this`codes
      ensures match RecoveryCodes.Apply(old(codes), users.Keys, RecoveryCodes.Replace(user, hashes, actor, now))
              case Effect(table, affected) => codes == table && r == Ok(affected)
              case Abort(error) =>
                && r == Err(error)
                && (hashes == [] ==> codes == old(codes))
                && (hashes != [] && user !in users ==> codes == old(codes) - {user})
                && (hashes != [] && user in users ==>
                      RecoveryCodes.HalfDone(old(codes), user, hashes, actor, now, codes))
    {
      if hashes == [] { return Err(Internal); }
      codes := codes - {user};
      if user !in users { return Err(Internal); }
      r := InsertCodes(user, hashes, actor, now);
    }

    /** The inserts of a replacement, for a user who exists and has no codes. */
    method InsertCodes(user: Atom, hashes: seq<Atom>, actor: Atom, now: Time) returns (r: Reply)
      requires hashes != [] && user !in codes
      modifies this`codes
      ensures r == if Distinct(hashes) then Ok(|hashes|) else Err(Internal)
      ensures r.Ok? ==> codes == old(codes)[user := RecoveryCodes.FreshCodes(hashes, actor, now)]
      ensures r.Err? ==> RecoveryCodes.HalfDone(old(codes), user, hashes, actor, now, codes)
    {
      var mine: map<Atom, RecoveryCodes.Code> := map[];
      for i := 0 to |hashes|
        invariant Distinct(hashes[..i]) && mine == RecoveryCodes.FreshCodes(hashes[..i], actor, now)
        invariant codes == if i == 0 then old(codes) else old(codes)[user := mine]
      {
        RecoveryCodes.FreshOneMore(hashes, i, actor, now);
        if hashes[i] in mine {
          RecoveryCodes.RepeatedHash(hashes, i + 1);
          assert RecoveryCodes.FirstRepetition(hashes, i);
          return Err(Internal);
        }
        mine := mine[hashes[i] := RecoveryCodes.Code(None, NewAudit(actor, now))];
        codes := codes[user := mine];
      }
      assert hashes[..|hashes|] == hashes;
      r := Ok(|hashes|);
    }

    method ConsumeRecoveryCode(user: Atom, hash: Atom, actor: Atom, now: Time) returns (r: Reply)
      modifies this`codes
      ensures Performs(RecoveryCodes.Apply(old(codes), users.Keys, RecoveryCodes.Consume(user, hash, actor, now)),
                       old(codes), codes, r)
    {
      if user !in codes { return Err(Stale); }
      var mine, count := Sql.UpdateOne(codes[user], hash,
        (k, c: RecoveryCodes.Code) => k == hash && c.consumedAt.None?,
        (c: RecoveryCodes.Code) => c.(consumedAt := Some(now), audit := c.audit.Touched(actor, now)));
      if count > 0 { codes := codes[user := mine]; }
      r := RequireAffected(count);
    }

    method InsertMFAChallenge(token: Atom, row: Challenges.Challenge) returns (r: Reply)
      modifies this`challenges
      ensures Performs(Challenges.Apply(old(challenges), users.Keys, Challenges.Insert(token, row)),
                       old(challenges), challenges, r)
    {
      if token in challenges || row.userId !in users { return Err(Internal); }
      challenges := challenges[token := row];
      r := Ok(1);
    }

    method ConsumeMFAChallenge(token: Atom, actor: Atom, version: int, now: Time) returns (r: Reply)
      modifies this`challenges
      ensures Performs(Challenges.Apply(old(challenges), users.Keys, Challenges.Consume(token, actor, version, now)),
                       old(challenges), challenges, r)
    {
      var count;
      challenges, count := Sql.UpdateOne(challenges, token,
        (k, c: Challenges.Challenge) =>
          k == token && c.consumedAt.None? && c.expiresAt > now && c.audit.version == version,
        (c: Challenges.Challenge) => c.(consumedAt := Some(now), audit := c.audit.Touched(actor, now)));
      r := RequireAffected(count);
    }

    method DeleteChallenges(tokens: seq<Atom>, before: Time) returns (deleted: nat)
      modifies this`challenges
      ensures challenges == old(challenges) - Retention.Hit(old(challenges), Challenges.ExpiryOf, tokens, before)
      ensures deleted == |Retention.Hit(old(challenges), Challenges.ExpiryOf, tokens, before)|
    {
      challenges, deleted := Retention.Delete(challenges, Challenges.ExpiryOf, tokens, before);
    }

    // Password resets.

    method InvalidatePasswordResetChallenges(user: Atom, actor: Atom, now: Time) returns (count: nat)
      modifies this`resets
      ensures resets == Resets.InvalidateAll(old(resets), user, actor, now)
      ensures count == |Resets.OpenOf(old(resets), user)|
    {
      ghost var before := resets;
      var where := (_: Atom, c: Resets.Reset) => Resets.Open(c, user);
      assert Sql.Hits(resets, where) == Resets.OpenOf(resets, user);
      resets, count := Sql.Update(resets, where, (c: Resets.Reset) => Resets.Consumed(c, actor, now));
      assert resets == Resets.ConsumeAll(before, Resets.OpenOf(before, user), actor, now);
    }

    method InsertPasswordResetChallenge(token: Atom, row: Resets.Reset) returns (r: Reply)
      modifies this`resets
      ensures Performs(Resets.Apply(old(resets), users.Keys, Resets.Insert(token, row)), old(resets), resets, r)
    {
      if token in resets || row.userId !in users { return Err(Internal); }
      resets := resets[token := row];
      r := Ok(1);
    }

    method ConsumePasswordResetChallenge(token: Atom, actor: Atom, version: int, now: Time) returns (r: Reply)
      modifies this`resets
      ensures Performs(Resets.Apply(old(resets), users.Keys, Resets.Consume(token, actor, version, now)),
                       old(resets), resets, r)
    {
      var count;
      resets, count := Sql.UpdateOne(resets, token,
        (k, c: Resets.Reset) => k == token && c.consumedAt.None? && c.expiresAt > now && c.audit.version == version,
        (c: Resets.Reset) => c.(consumedAt := Some(now), audit := c.audit.Touched(actor, now)));
      r := RequireAffected(count);
    }

    method DeleteResets(tokens: seq<Atom>, before: Time) returns (deleted: nat)
      modifies this`resets
      ensures resets == old(resets) - Retention.Hit(old(resets), Resets.ExpiryOf, tokens, before)
      ensures deleted == |Retention.Hit(old(resets), Resets.ExpiryOf, tokens, before)|
    {
      resets, deleted := Retention.Delete(resets, Resets.ExpiryOf, tokens, before);
    }

    // Service accounts and the outbox.

    method CreateServiceAccount(id: Atom, row: Accounts.Account) returns (r: Reply)
      modifies this`accounts
      ensures Performs(Accounts.Apply(old(accounts), Accounts.Insert(id, row)), old(accounts), accounts, r)
    {
      if id in accounts || Accounts.ClientTaken(accounts, id, row.clientId) { return Err(Conflict); }
      accounts := accounts[id := row];
      r := Ok(1);
    }

    method UpdateServiceAccountStatus(id: Atom, status: Users.Status, actor: Atom, version: int, now: Time)
      returns (r: Reply)
      modifies this`accounts
      ensures Performs(Accounts.Apply(old(accounts), Accounts.UpdateStatus(id, status, actor, version, now)),
                       old(accounts), accounts, r)
    {
      var count;
      accounts, count := Sql.UpdateOne(accounts, id,
        (k, a: Accounts.Account) => k == id && a.audit.version == version,
        (a: Accounts.Account) => a.(status := status, audit := a.audit.Touched(actor, now)));
      r := RequireAffected(count);
    }

    method RotateServiceAccountSecret(id: Atom, secret: Credentials.Secret, actor: Atom, version: int, now: Time)
      returns (r: Reply)
      modifies this`accounts
      ensures Performs(Accounts.Apply(old(accounts), Accounts.RotateSecret(id, secret, actor, version, now)),
                       old(accounts), accounts, r)
    {
      var count;
      accounts, count := Sql.UpdateOne(accounts, id,
        (k, a: Accounts.Account) => k == id && a.audit.version == version,
        (a: Accounts.Account) => a.(secret := secret, audit := a.audit.Touched(actor, now)));
      r := RequireAffected(count);
    }

    method InsertOutbox(event: Outbox.Event)
      modifies this`outbox
      ensures outbox == old(outbox) + [event]
    {
      outbox := outbox + [event];
    }

    // Statements by name, as a transaction issues them.

    method RunUsers(s: Option<Users.Stmt>) returns (r: Reply)
      modifies this`users
      ensures Performs(OnUsers(old(users), s), old(users), users, r)
    {
      match s
      case None => r := Ok(0);
      case Some(Insert(id, row)) => r := InsertUser(id, row);
      case Some(RecordFailedLogin(id, threshold, until, now)) => r := RecordFailedLogin(id, threshold, until, now);
      case Some(ResetFailedLogin(id, now)) => r := ResetFailedLogin(id, now);
      case Some(UpdateStatus(id, status, actor, version, now)) =>
        r := UpdateUserStatus(id, status, actor, version, now);
      case Some(UpdateProfile(id, profile, actor, version, now)) =>
        r := UpdateUserProfile(id, profile, actor, version, now);
    }

    method RunChallenges(s: Option<Challenges.Stmt>) returns (r: Reply)
      modifies this`challenges
      ensures Performs(OnChallenges(old(challenges), users.Keys, s), old(challenges), challenges, r)
    {
      match s
      case None => r := Ok(0);
      case Some(Insert(token, row)) => r := InsertMFAChallenge(token, row);
      case Some(Consume(token, actor, version, now)) => r := ConsumeMFAChallenge(token, actor, version, now);
      case Some(Delete(tokens, before)) => var n := DeleteChallenges(tokens, before); r := Ok(n);
    }

    method RunResets(s: Option<Resets.Stmt>) returns (r: Reply)
      modifies this`resets
      ensures Performs(OnResets(old(resets), users.Keys, s), old(resets), resets, r)
    {
      match s
      case None => r := Ok(0);
      case Some(Invalidate(user, actor, now)) =>
        var n := InvalidatePasswordResetChallenges(user, actor, now); r := Ok(n);
      case Some(Insert(token, row)) => r := InsertPasswordResetChallenge(token, row);
      case Some(Consume(token, actor, version, now)) => r := ConsumePasswordResetChallenge(token, actor, version, now);
      case Some(Delete(tokens, before)) => var n := DeleteResets(tokens, before); r := Ok(n);
    }

    method RunCredentials(s: Option<Credentials.Stmt>) returns (r: Reply)
      modifies this`credentials
      ensures Performs(OnCredentials(old(credentials), users.Keys, s), old(credentials), credentials, r)
    {
      match s
      case None => r := Ok(0);
      case Some(Insert(id, row)) => r := InsertCredential(id, row);
      case Some(UpdatePassword(id, secret, actor, version, now)) =>
        r := UpdatePasswordCredential(id, secret, actor, version, now);
    }

    method RunEnrollments(s: Option<Enrollments.Stmt>) returns (r: Reply)
      modifies this`enrollments
      ensures Performs(OnEnrollments(old(enrollments), users.Keys, s), old(enrollments), enrollments, r)
    {
      match s
      case None => r := Ok(0);
      case Some(Insert(user, row)) => r := InsertMFA(user, row);
      case Some(ResetPending(user, secret, actor, version, now)) =>
        r := ResetPendingMFA(user, secret, actor, version, now);
      case Some(Enable(user, step, actor, version, now)) => r := EnableMFA(user, step, actor, version, now);
      case Some(Disable(user, step, actor, version, now)) => r := DisableMFA(user, step, actor, version, now);
      case Some(AdminReset(user, actor, version, now)) => r := AdminResetMFA(user, actor, version, now);
      case Some(Advance(user, step, actor, now)) => r := AdvanceMFAStep(user, step, actor, now);
      case Some(AdvanceAtVersion(user, step, actor, version, now)) =>
        r := AdvanceMFAStepAtVersion(user, step, actor, version, now);
    }

    /** A failed replacement may leave the table half done. */
    method RunCodes(s: Option<RecoveryCodes.Stmt>) returns (r: Reply)
      modifies this`codes
      ensures match OnCodes(old(codes), users.Keys, s)
              case Effect(table, affected) => codes == table && r == Ok(affected)
              case Abort(error) => r == Err(error)
    {
      match s
      case None => r := Ok(0);
      case Some(Delete(user)) => r := DeleteRecoveryCodes(user);
      case Some(Replace(user, hashes, actor, now)) => r := ReplaceRecoveryCodes(user, hashes, actor, now);
      case Some(Consume(user, hash, actor, now)) => r := ConsumeRecoveryCode(user, hash, actor, now);
    }

    method RunSessions(s: Option<Sessions.Stmt>) returns (r: Reply)
      modifies this`sessions
      ensures Performs(OnSessions(old(sessions), users.Keys, s), old(sessions), sessions, r)
    {
      match s
      case None => r := Ok(0);
      case Some(Insert(id, row)) => r := CreateSession(id, row);
      case Some(Rotate(id, previous, version, token, actor, now)) =>
        r := RotateSession(id, previous, version, token, actor, now);
      case Some(Scope(id, user, tenant, membership, actor, now)) =>
        r := ScopeSession(id, user, tenant, membership, actor, now);
      case Some(Revoke(f, reason, actor, now)) => r := Revoke(f, reason, actor, now);
      case Some(Delete(ids, before)) => var n := DeleteSessions(ids, before); r := Ok(n);
    }

    method RunAccounts(s: Option<Accounts.Stmt>) returns (r: Reply)
      modifies this`accounts
      ensures Performs(OnAccounts(old(accounts), s), old(accounts), accounts, r)
    {
      match s
      case None => r := Ok(0);
      case Some(Insert(id, row)) => r := CreateServiceAccount(id, row);
      case Some(UpdateStatus(id, status, actor, version, now)) =>
        r := UpdateServiceAccountStatus(id, status, actor, version, now);
      case Some(RotateSecret(id, secret, actor, version, now)) =>
        r := RotateServiceAccountSecret(id, secret, actor, version, now);
    }

    /** The body of a transaction: statement after statement until one fails. What the
        earlier ones did is then still in the tables. */
    method RunStatements(p: Plan) returns (r: Reply)
      modifies this
      ensures match Exec(old(View()), p)
              case Committed(db) => r.Ok? && View() == db
              case RolledBack(error) => r == Err(error)
    {
      ExecInTwo(View(), p);
      r := RunTokens(p);
      if r.Ok? { r := RunRest(p); }
    }

    method RunTokens(p: Plan) returns (r: Reply)
      modifies this`users, this`challenges, this`resets
      ensures match ExecTokens(old(View()), p)
              case Committed(db) => r.Ok? && View() == db
              case RolledBack(error) => r == Err(error)
    {
      r := RunUsers(p.users);
      if r.Err? { return; }
      r := RunChallenges(p.challenges);
      if r.Err? { return; }
      r := RunResets(p.invalidation);
      if r.Err? { return; }
      r := RunResets(p.resets);
    }

    method RunRest(p: Plan) returns (r: Reply)
      modifies this`credentials, this`enrollments, this`codes, this`sessions, this`accounts, this`outbox
      ensures match ExecRest(old(View()), p)
              case Committed(db) => r.Ok? && View() == db
              case RolledBack(error) => r == Err(error)
    {
      r := RunCredentials(p.credentials);
      if r.Err? { return; }
      r := RunEnrollments(p.enrollments);
      if r.Err? { return; }
      r := RunCodes(p.codes);
      if r.Err? { return; }
      r := RunSessions(p.sessions);
      if r.Err? { return; }
      var revoked := r.affected;
      r := RunAccounts(p.accounts);
      if r.Err? { return; }
      if p.event.Some? { InsertOutbox(Outbox.Written(p.event.value, revoked)); }
    }

    /** Begin, run, then commit or roll back: the database ends up as the atomic step says,
        and after a rollback exactly as it was before, outbox included. */
    method Within(p: Plan) returns (r: Reply)
      modifies this
      ensures match Exec(old(View()), p)
              case Committed(db) => r.Ok? && View() == db
              case RolledBack(error) => r == Err(error) && View() == old(View())
    {
      var users0, credentials0, sessions0, enrollments0, codes0 := users, credentials, sessions, enrollments, codes;
      var challenges0, resets0, accounts0, outbox0 := challenges, resets, accounts, outbox;
      r := RunStatements(p);
      if r.Err? {
        users, credentials, sessions, enrollments, codes := users0, credentials0, sessions0, enrollments0, codes0;
        challenges, resets, accounts, outbox := challenges0, resets0, accounts0, outbox0;
      }
    }
  }
}
