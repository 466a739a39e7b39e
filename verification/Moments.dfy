/** When a call did what it did: each of its interactions is a step of the run. */
module Moments {
  import opened Core
  import opened Rows
  import opened Calls
  import opened World

  /** The world before step `k`. */
  function At(w: World, steps: seq<Step>, k: nat): World
    requires k <= |steps|
  {
    Run(w, steps[..k])
  }

  /** Step `k` is where the call saw the row or the clock, or ran the transaction. */
  predicate ActAt(w: World, steps: seq<Step>, k: nat, call: Atom, a: Act) {
    && k < |steps|
    && match a
       case Saw(key, row) => steps[k] == Read(call, key) && Lookup(At(w, steps, k).db, key) == row
       case SawClock(now) => steps[k] == ReadClock(call) && At(w, steps, k).now == now
       case Ran(tx, ok) => steps[k] == Commit(call, tx) && ok == Commits(At(w, steps, k), call, tx)
  }

  /** The steps at which the call did all it has done, in order. */
  ghost predicate Chronicle(w: World, steps: seq<Step>, call: Atom, ks: seq<nat>) {
    var h := History(Run(w, steps), call);
    && |ks| == |h|
    && (forall i :: 0 <= i < |ks| ==> ActAt(w, steps, ks[i], call, h[i]))
    && (forall i, j :: 0 <= i < j < |ks| ==> ks[i] < ks[j])
  }

  /** A step adds at most one interaction, and only to its own call. */
  lemma NewAct(w: World, step: Step, call: Atom)
    ensures var h, h' := History(w, call), History(Next(w, step), call);
      || h' == h
      || (&& !step.Tick? && step.call == call && |h'| == |h| + 1 && h'[..|h|] == h
          && match h'[|h|]
             case Saw(key, row) => step == Read(call, key) && row == Lookup(w.db, key)
             case SawClock(now) => step == ReadClock(call) && now == w.now
             case Ran(tx, ok) => step == Commit(call, tx) && ok == Commits(w, call, tx))
  {
  }

  lemma LaterAct(w: World, steps: seq<Step>, k: nat, call: Atom, a: Act)
    requires steps != [] && ActAt(w, steps[..|steps| - 1], k, call, a)
    ensures ActAt(w, steps, k, call, a)
  {
    assert steps[..|steps| - 1][..k] == steps[..k];
  }

  /** A chronicle stays one when a step adds nothing to the call, or is added to it. */
  lemma ChronicleGrows(w: World, steps: seq<Step>, call: Atom, ks: seq<nat>) returns (ks': seq<nat>)
    requires steps != [] && Chronicle(w, steps[..|steps| - 1], call, ks)
    ensures Chronicle(w, steps, call, ks')
  {
    var n := |steps| - 1;
    var v := Run(w, steps[..n]);
    var h, h' := History(v, call), History(Run(w, steps), call);
    NewAct(v, steps[n], call);
    forall i | 0 <= i < |ks| ensures ks[i] < n && ActAt(w, steps, ks[i], call, h[i]) {
      LaterAct(w, steps, ks[i], call, h[i]);
    }
    ks' := ks;
    if h' != h {
      assert ActAt(w, steps, n, call, h'[|h|]);
      assert forall i :: 0 <= i < |h| ==> h'[..|h|][i] == h'[i];
      ks' := ks + [n];
    }
  }

  lemma {:induction false} Chronicled(config: Config, now: Time, steps: seq<Step>, call: Atom) returns (ks: seq<nat>)
    ensures Chronicle(Start(config, now), steps, call, ks)
    decreases |steps|
  {
    ks := [];
    if steps != [] {
      ks := Chronicled(config, now, steps[..|steps| - 1], call);
      ks := ChronicleGrows(Start(config, now), steps, call, ks);
    }
  }
}
