/** The repository under the service: driven by any schedule of calls, the tables updated in
    place are those of the state machine. What is proved of its runs holds of the tables. */
module Replay {
  import opened Core
  import opened Transactions
  import opened Calls
  import opened World
  import opened Repositories

  /** A transaction a call has come to leaves the tables as the step of the world does. */
  method RunTransaction(repository: Repository, w: World, call: Atom, tx: Tx)
    requires repository.View() == w.db
    modifies repository
    ensures repository.View() == Next(w, Commit(call, tx)).db
  {
    if Ready(w, call, tx) {
      var _ := repository.Within(PlanOf(tx));
    }
  }

  method Drive(config: Config, now: Time, steps: seq<Step>) returns (repository: Repository)
    ensures repository.View() == Run(Start(config, now), steps).db
  {
    repository := new Repository();
    var w := Start(config, now);
    for i := 0 to |steps|
      invariant fresh(repository) && repository.View() == w.db
      invariant w == Run(Start(config, now), steps[..i])
    {
      if steps[i].Commit? { RunTransaction(repository, w, steps[i].call, steps[i].tx); }
      w := Next(w, steps[i]);
      assert steps[..i + 1][..i] == steps[..i];
    }
    assert steps[..|steps|] == steps;
  }
}
