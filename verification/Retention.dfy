/** Batched deletion of rows past their retention: SELECT the oldest, DELETE what is still
    due, repeat until a batch comes back short. Generic in the table. */
module Retention {
  import opened Core

  /** The rows whose retention is counted from an instant before the cutoff. */
  function Due<V>(t: map<Atom, V>, ended: V -> Time, before: Time): set<Atom> {
    set id | id in t && ended(t[id]) < before
  }

  /** ORDER BY the instant, then the id. */
  predicate Precedes<V>(t: map<Atom, V>, ended: V -> Time, a: Atom, b: Atom)
    requires a in t && b in t
  {
    ended(t[a]) < ended(t[b]) || (ended(t[a]) == ended(t[b]) && a < b)
  }

  /** What ORDER BY … LIMIT returns: the first rows of the due ones, in order. */
  ghost predicate IsBatch<V(!new)>(t: map<Atom, V>, ended: V -> Time, before: Time, limit: nat, ids: seq<Atom>) {
    var due := Due(t, ended, before);
    && (forall i :: 0 <= i < |ids| ==> ids[i] in due)
    && (forall i, j :: 0 <= i < j < |ids| ==> ids[i] != ids[j] && Precedes(t, ended, ids[i], ids[j]))
    && |ids| == (if |due| < limit then |due| else limit)
    && (forall i, id :: 0 <= i < |ids| && id in due && id !in ids ==> Precedes(t, ended, ids[i], id))
  }

  method Least<V>(t: map<Atom, V>, ended: V -> Time, ids: set<Atom>) returns (least: Atom)
    requires |ids| > 0 && ids <= t.Keys
    ensures least in ids
    ensures forall id :: id in ids && id != least ==> Precedes(t, ended, least, id)
  {
    least := Pick(ids);
    var pending := ids - {least};
    while |pending| > 0
      invariant pending <= ids && least in ids && least !in pending
      invariant forall id :: id in ids && id !in pending && id != least ==> Precedes(t, ended, least, id)
      decreases pending
    {
      var id := Pick(pending);
      pending := pending - {id};
      if Precedes(t, ended, id, least) { least := id; }
    }
  }

  method Select<V(!new)>(t: map<Atom, V>, ended: V -> Time, before: Time, limit: nat) returns (ids: seq<Atom>)
    ensures IsBatch(t, ended, before, limit, ids)
    ensures forall i, j :: 0 <= i < j < |ids| ==> ended(t[ids[i]]) <= ended(t[ids[j]]) < before
    ensures forall i, id :: 0 <= i < |ids| && id in t && ended(t[id]) < before && id !in ids ==>
      ended(t[ids[i]]) <= ended(t[id])
  {
    ghost var due := Due(t, ended, before);
    var pending := Due(t, ended, before);
    ids := [];
    while |pending| > 0 && |ids| < limit
      invariant pending <= due && |ids| <= limit
      invariant |ids| + |pending| == |due|
      invariant forall id :: id in due ==> (id in ids <==> id !in pending)
      invariant forall i :: 0 <= i < |ids| ==> ids[i] in due
      invariant forall i, id :: 0 <= i < |ids| && id in pending ==> Precedes(t, ended, ids[i], id)
      invariant forall i, j :: 0 <= i < j < |ids| ==> ids[i] != ids[j] && Precedes(t, ended, ids[i], ids[j])
      decreases pending
    {
      var id := Least(t, ended, pending);
      ids := ids + [id];
      pending := pending - {id};
    }
  }

  /** The rows a DELETE … WHERE id IN (…) with the cutoff repeated removes. */
  function Hit<V>(t: map<Atom, V>, ended: V -> Time, ids: seq<Atom>, before: Time): set<Atom> {
    set id | id in ids && id in t && ended(t[id]) < before
  }

  method Delete<V(!new)>(t: map<Atom, V>, ended: V -> Time, ids: seq<Atom>, before: Time)
    returns (rest: map<Atom, V>, deleted: nat)
    ensures rest == t - Hit(t, ended, ids, before)
    ensures deleted == |Hit(t, ended, ids, before)|
  {
    rest, deleted := t, 0;
    assert Hit(t, ended, ids[..0], before) == {};
    for i := 0 to |ids|
      invariant rest == t - Hit(t, ended, ids[..i], before)
      invariant deleted == |Hit(t, ended, ids[..i], before)|
    {
      ghost var hit, hit' := Hit(t, ended, ids[..i], before), Hit(t, ended, ids[..i + 1], before);
      assert ids[..i + 1] == ids[..i] + [ids[i]];
      if ids[i] in rest && ended(rest[ids[i]]) < before {
        assert hit' == hit + {ids[i]};
        rest, deleted := rest - {ids[i]}, deleted + 1;
      } else {
        assert hit' == hit;
      }
    }
    assert ids[..|ids|] == ids;
  }

  lemma BatchSize<V(!new)>(t: map<Atom, V>, ended: V -> Time, before: Time, limit: nat, ids: seq<Atom>)
    requires IsBatch(t, ended, before, limit, ids)
    ensures |Hit(t, ended, ids, before)| == |ids|
    ensures Hit(t, ended, ids, before) <= Due(t, ended, before)
  {
    DistinctSize(ids);
    assert Hit(t, ended, ids, before) == set id | id in ids;
  }

  /** The one-shot filter: what is not yet due stays. */
  function Kept<V>(t: map<Atom, V>, ended: V -> Time, before: Time): map<Atom, V> {
    t - Due(t, ended, before)
  }

  /** A short batch leaves nothing due at its cutoff, and what earlier batches removed at
      earlier cutoffs is due at this one too. */
  lemma ShortBatch<V(!new)>(
      start: map<Atom, V>, t: map<Atom, V>, ended: V -> Time, before: Time, limit: nat, ids: seq<Atom>)
    requires IsBatch(t, ended, before, limit, ids) && |ids| < limit
    requires t.Keys <= start.Keys && (forall id :: id in t ==> t[id] == start[id])
    requires forall id :: id in start && id !in t ==> ended(start[id]) < before
    ensures t - Hit(t, ended, ids, before) == Kept(start, ended, before)
  {
    BatchSize(t, ended, before, limit, ids);
    SameSize(Hit(t, ended, ids, before), Due(t, ended, before));
    var rest, kept := t - Hit(t, ended, ids, before), Kept(start, ended, before);
    forall id ensures id in rest <==> id in kept {
      assert id in t ==> (id in Due(t, ended, before) <==> id in Due(start, ended, before));
      assert id in start && id !in t ==> id in Due(start, ended, before);
    }
    assert forall id :: id in rest ==> rest[id] == kept[id];
    assert rest.Keys == kept.Keys;
  }

  lemma SameSize(a: set<Atom>, b: set<Atom>)
    requires a <= b && |a| == |b|
    ensures a == b
  {
    assert |b - a| == |b| - |a|;
  }

  /** Batches until one comes back short, the cutoff moving with the clock. With nobody else
      writing this ends, and leaves what one filter at the last cutoff would leave. */
  method Clean<V(!new)>(t: map<Atom, V>, ended: V -> Time, clock: nat -> Time, from: nat, age: Time, limit: nat)
    returns (rest: map<Atom, V>, last: nat)
    requires limit > 0
    requires forall i, j :: 0 <= i <= j ==> clock(i) <= clock(j)
    ensures last >= from
    ensures rest == Kept(t, ended, clock(last) - age)
  {
    rest, last := t, from;
    while true
      invariant last >= from
      invariant rest.Keys <= t.Keys && forall id :: id in rest ==> rest[id] == t[id]
      invariant forall id :: id in t && id !in rest ==> ended(t[id]) < clock(last) - age
      decreases |rest|
    {
      ghost var current := rest;
      var before := clock(last) - age;
      var ids := Select(rest, ended, before, limit);
      var deleted;
      rest, deleted := Delete(rest, ended, ids, before);
      BatchSize(current, ended, before, limit, ids);
      if deleted < limit {
        ShortBatch(t, current, ended, before, limit, ids);
        return;
      }
      assert current.Keys == rest.Keys + Hit(current, ended, ids, before);
      last := last + 1;
    }
  }
}
