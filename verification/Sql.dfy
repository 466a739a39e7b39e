/** UPDATE … SET … WHERE …, as a scan of the table that counts the rows it changes. */
module Sql {
  import opened Core

  /** The rows a WHERE clause selects. */
  function Hits<K, V>(t: map<K, V>, where: (K, V) -> bool): set<K> {
    set id | id in t && where(id, t[id])
  }

  /** The table with the SET clause applied to those rows. */
  function Changed<K, V>(t: map<K, V>, hits: set<K>, change: V -> V): map<K, V> {
    map id | id in t :: if id in hits then change(t[id]) else t[id]
  }

  /** One row of a scan, the `pending` rows being still to come. */
  lemma ChangeOne<K, V>(t: map<K, V>, hits: set<K>, pending: set<K>, id: K, change: V -> V)
    requires id in pending && id in t
    ensures var a, b := Changed(t, hits - pending, change), Changed(t, hits - (pending - {id}), change);
      a[id] == t[id] && b == if id in hits then a[id := change(t[id])] else a
    ensures |hits - (pending - {id})| == |hits - pending| + if id in hits then 1 else 0
  {
    if id in hits {
      assert hits - (pending - {id}) == hits - pending + {id};
    } else {
      assert hits - (pending - {id}) == hits - pending;
    }
  }

  /** Row by row in any order, each row tested as it stands when the scan comes to it: the
      result is the set-wise update, and the count is the number of rows selected. */
  method Update<K(!new), V(!new)>(t: map<K, V>, where: (K, V) -> bool, change: V -> V)
    returns (after: map<K, V>, count: nat)
    ensures after == Changed(t, Hits(t, where), change)
    ensures count == |Hits(t, where)|
  {
    ghost var hits := Hits(t, where);
    var pending := t.Keys;
    after, count := t, 0;
    assert hits - pending == {} && Changed(t, {}, change) == t;
    while |pending| > 0
      invariant pending <= t.Keys
      invariant after == Changed(t, hits - pending, change)
      invariant count == |hits - pending|
      decreases pending
    {
      var id := Pick(pending);
      ChangeOne(t, hits, pending, id, change);
      if where(id, after[id]) {
        after, count := after[id := change(after[id])], count + 1;
      }
      pending := pending - {id};
    }
    assert hits - pending == hits;
  }

  /** A WHERE clause that pins the primary key selects at most that row. */
  lemma Pinned<K, V>(t: map<K, V>, where: (K, V) -> bool, change: V -> V, id: K)
    requires forall k :: k in t && where(k, t[k]) ==> k == id
    ensures Hits(t, where) == if id in t && where(id, t[id]) then {id} else {}
    ensures Changed(t, Hits(t, where), change) == if id in t && where(id, t[id]) then t[id := change(t[id])] else t
  {
    if id in t && where(id, t[id]) {
      assert Hits(t, where) == {id};
    } else {
      assert forall k :: k !in Hits(t, where);
    }
  }

  /** Such an update changes that one row and reports one, or changes nothing and reports
      none, which the caller takes for staleness. */
  method UpdateOne<K(!new), V(!new)>(t: map<K, V>, ghost id: K, where: (K, V) -> bool, change: V -> V)
    returns (after: map<K, V>, count: nat)
    requires forall k :: k in t && where(k, t[k]) ==> k == id
    ensures if id in t && where(id, t[id]) then after == t[id := change(t[id])] && count == 1
            else after == t && count == 0
  {
    after, count := Update(t, where, change);
    Pinned(t, where, change, id);
  }
}
