/** The retention cleaner: one sweep of the three tables it tends. */
module Cleaner {
  import opened Core
  import opened Repositories
  import Sessions
  import Challenges
  import Resets
  import Retention
  import Transactions

  const DEFAULT_RETENTION: Time := 30 * DAY
  const DEFAULT_BATCH: nat := 500

  class SessionCleaner {
    const store: Repository
    const retention: Time
    const batchSize: int

    /** A full batch asks for another, so a batch size of zero would never end. The
        defaults rule that out for every configuration. */
    constructor (store: Repository, retention: Time, batchSize: int)
      ensures this.store == store
      ensures this.retention > 0 && this.batchSize > 0
      ensures this.retention == if retention > 0 then retention else 2_592_000_000_000_000
      ensures this.batchSize == if batchSize > 0 then batchSize else 500
    {
      this.store := store;
      this.retention := if retention <= 0 then DEFAULT_RETENTION else retention;
      this.batchSize := if batchSize <= 0 then DEFAULT_BATCH else batchSize;
    }

    /** With `clock` the successive readings of the clock, the sweep ends and leaves in
        each table what one filter would leave at the cutoff of the last batch there. */
    method Clean(clock: nat -> Time) returns (ghost a: nat, ghost b: nat, ghost c: nat)
      requires batchSize > 0
      requires forall i, j :: 0 <= i <= j ==> clock(i) <= clock(j)
      modifies store`sessions, store`challenges, store`resets
      ensures a < b < c
      ensures store.sessions == Retention.Kept(old(store.sessions), Sessions.EndedAt, clock(a) - retention)
      ensures store.challenges ==
        Retention.Kept(old(store.challenges), Challenges.ExpiryOf, clock(b) - 86_400_000_000_000)
      ensures store.resets ==
        Retention.Kept(old(store.resets), Resets.ExpiryOf, clock(c) - 86_400_000_000_000)
    {
      var last;
      store.sessions, last := Retention.Clean(store.sessions, Sessions.EndedAt, clock, 0, retention, batchSize);
      a := last;
      store.challenges, last :=
        Retention.Clean(store.challenges, Challenges.ExpiryOf, clock, last + 1,
                        Transactions.CHALLENGE_RETENTION, batchSize);
      b := last;
      store.resets, last :=
        Retention.Clean(store.resets, Resets.ExpiryOf, clock, last + 1, Transactions.CHALLENGE_RETENTION, batchSize);
      c := last;
    }
  }
}
