/** The service as a state machine: any number of calls in flight, their reads and
    transactions interleaved in any order, over one database and one clock. */
module World {
  import opened Core
  import opened Database
  import opened Rows
  import opened Transactions
  import opened Calls

  /** `calls` holds every call's interactions so far; `used` the random values drawn so
      far; `log` the committed transactions in commit order. */
  datatype World = World(
    config: Config,
    db: Db,
    now: Time,
    calls: map<Atom, seq<Act>>,
    used: set<Atom>,
    log: seq<Tx>)

  datatype Step =
    | Tick(elapsed: nat)
    | Read(call: Atom, key: Key)
    | ReadClock(call: Atom)
    | Commit(call: Atom, tx: Tx)

  function Start(config: Config, now: Time): World {
    World(config, EMPTY_DB, now, map[], RESERVED, [])
  }

  function History(w: World, call: Atom): seq<Act> {
    if call in w.calls then w.calls[call] else []
  }

  function Extended(w: World, call: Atom, a: Act): map<Atom, seq<Act>> {
    w.calls[call := History(w, call) + [a]]
  }

  /** The call has come to this transaction, with fresh random values. */
  predicate Ready(w: World, call: Atom, tx: Tx) {
    Permits(w.config, History(w, call), tx) && Generated(tx) !! w.used
  }

  predicate Commits(w: World, call: Atom, tx: Tx) {
    Ready(w, call, tx) && Exec(w.db, PlanOf(tx)).Committed?
  }

  function AfterCommit(w: World, call: Atom, tx: Tx): World
    requires Commits(w, call, tx)
  {
    w.(db := Exec(w.db, PlanOf(tx)).db,
       calls := Extended(w, call, Ran(tx, true)),
       used := w.used + Generated(tx),
       log := w.log + [tx])
  }

  /** A step that is not enabled, or whose transaction rolls back, changes no table. */
  function Next(w: World, step: Step): World {
    match step
    case Tick(elapsed) => w.(now := w.now + elapsed)
    case Read(call, key) => w.(calls := Extended(w, call, Saw(key, Lookup(w.db, key))))
    case ReadClock(call) => w.(calls := Extended(w, call, SawClock(w.now)))
    case Commit(call, tx) =>
      if Commits(w, call, tx) then AfterCommit(w, call, tx)
      else if Ready(w, call, tx) then
        w.(calls := Extended(w, call, Ran(tx, false)), used := w.used + Generated(tx))
      else w
  }

  function Run(w: World, steps: seq<Step>): World
    decreases |steps|
  {
    if steps == [] then w else Next(Run(w, steps[..|steps| - 1]), steps[|steps| - 1])
  }

  lemma RunAppend(w: World, a: seq<Step>, b: seq<Step>)
    ensures Run(w, a + b) == Run(Run(w, a), b)
  {
    if b == [] {
      assert a + b == a;
    } else {
      assert (a + b)[..|a + b| - 1] == a + b[..|b| - 1];
      RunAppend(w, a, b[..|b| - 1]);
    }
  }
}
