/** A secondary index: ids grouped by an owner, each group a set in insertion order. */
module Buckets {
  function Bucket<K, I>(m: map<K, seq<I>>, k: K): seq<I> { if k in m then m[k] else [] }

  /** `Set.add` */
  function Added<I(==)>(q: seq<I>, id: I): seq<I> { if id in q then q else q + [id] }

  /** `Set.delete` */
  function Deleted<I(==)>(q: seq<I>, id: I): seq<I> {
    if q == [] then [] else if q[0] == id then Deleted(q[1..], id) else [q[0]] + Deleted(q[1..], id)
  }

  /** The bucket is created on first use. */
  function Insert<K, I(==)>(m: map<K, seq<I>>, k: K, id: I): map<K, seq<I>> {
    m[k := Added(Bucket(m, k), id)]
  }

  /** The two statements that add to a bucket. */
  method AddToBucket<K(==), I(==)>(m: map<K, seq<I>>, k: K, id: I) returns (r: map<K, seq<I>>)
    ensures r == Insert(m, k, id)
  {
    r := m;
    if k !in r {
      r := r[k := []];
    }
    r := r[k := Added(r[k], id)];
    assert r == m[k := Added(Bucket(m, k), id)];
  }

  /** An emptied bucket stays in the map. */
  function Remove<K, I(==)>(m: map<K, seq<I>>, k: K, id: I): map<K, seq<I>> {
    if k in m then m[k := Deleted(m[k], id)] else m
  }

  ghost predicate NoDuplicates<I>(q: seq<I>) {
    forall i, j | 0 <= i < j < |q| :: q[i] != q[j]
  }

  /** Each bucket holds exactly the ids it owns, once each. */
  ghost predicate Indexes<K, I>(m: map<K, seq<I>>, ids: set<I>, owner: I -> K) {
    && (forall k | k in m :: NoDuplicates(m[k]) && forall id <- m[k] :: id in ids && owner(id) == k)
    && (forall id | id in ids :: id in Bucket(m, owner(id)))
  }

  lemma {:induction false} DeletedIs<I(!new)>(q: seq<I>, id: I)
    requires NoDuplicates(q)
    ensures NoDuplicates(Deleted(q, id)) && |Deleted(q, id)| == |q| - (if id in q then 1 else 0)
    ensures forall x :: x in Deleted(q, id) <==> x in q && x != id
  {
    if q != [] {
      DeletedIs(q[1..], id);
      assert q == [q[0]] + q[1..];
      assert forall i | 0 <= i < |q| - 1 :: q[i + 1] == q[1..][i];
      assert q[0] !in q[1..];
      var d := Deleted(q[1..], id);
      assert forall x :: x in [q[0]] + d <==> x == q[0] || x in d;
    }
  }

  /** Deleting the first element leaves the others in order. */
  lemma {:induction false} DeletedAbsent<I>(q: seq<I>, id: I)
    requires id !in q
    ensures Deleted(q, id) == q
  {
    if q != [] {
      DeletedAbsent(q[1..], id);
      assert q == [q[0]] + q[1..];
    }
  }

  lemma InsertIndexes<K, I(!new)>(m: map<K, seq<I>>, ids: set<I>, owner: I -> K, id: I)
    requires Indexes(m, ids, owner)
    ensures Indexes(Insert(m, owner(id), id), ids + {id}, owner)
  {
    var q := Bucket(m, owner(id));
    assert forall x :: x in Added(q, id) <==> x == id || x in q;
  }

  lemma RemoveIndexes<K, I(!new)>(m: map<K, seq<I>>, ids: set<I>, owner: I -> K, id: I)
    requires Indexes(m, ids, owner)
    ensures Indexes(Remove(m, owner(id), id), ids - {id}, owner)
  {
    var k := owner(id);
    if k in m {
      DeletedIs(m[k], id);
    }
  }

  // ---------- Groups in the order of the main table ----------

  /** The ids of one owner, in the order of the main table. */
  function Restrict<K(==), I>(order: seq<I>, owner: I -> K, k: K): seq<I> {
    if order == [] then []
    else
      var last := order[|order| - 1];
      Restrict(order[..|order| - 1], owner, k) + (if owner(last) == k then [last] else [])
  }

  /** Each bucket is the main table restricted to its owner, order included; missing and empty buckets count alike. */
  ghost predicate Mirrors<K(!new), I>(m: map<K, seq<I>>, order: seq<I>, owner: I -> K) {
    forall k :: Bucket(m, k) == Restrict(order, owner, k)
  }

  lemma {:induction false} RestrictMembers<K, I(!new)>(order: seq<I>, owner: I -> K, k: K)
    ensures forall x :: x in Restrict(order, owner, k) <==> x in order && owner(x) == k
  {
    if order != [] {
      RestrictMembers(order[..|order| - 1], owner, k);
      assert order == order[..|order| - 1] + [order[|order| - 1]];
    }
  }

  lemma {:induction false} RestrictDistinct<K, I(!new)>(order: seq<I>, owner: I -> K, k: K)
    requires NoDuplicates(order)
    ensures NoDuplicates(Restrict(order, owner, k))
  {
    if order != [] {
      var front := order[..|order| - 1];
      RestrictDistinct(front, owner, k);
      RestrictMembers(front, owner, k);
    }
  }

  lemma {:induction false} RestrictNone<K, I(!new)>(order: seq<I>, owner: I -> K, k: K)
    requires forall i | 0 <= i < |order| :: owner(order[i]) != k
    ensures Restrict(order, owner, k) == []
  {
    if order != [] {
      RestrictNone(order[..|order| - 1], owner, k);
    }
  }

  lemma RestrictAppend<K, I>(order: seq<I>, owner: I -> K, k: K, id: I)
    ensures Restrict(order + [id], owner, k) == Restrict(order, owner, k) + (if owner(id) == k then [id] else [])
  {
    assert (order + [id])[..|order|] == order;
  }

  lemma {:induction false} DeletedAppend<I>(q: seq<I>, x: I, id: I)
    ensures Deleted(q + [x], id) == Deleted(q, id) + (if x == id then [] else [x])
  {
    if q == [] {
      assert [] + [x] == [x] && [x][1..] == [];
    } else {
      DeletedAppend(q[1..], x, id);
      assert (q + [x])[1..] == q[1..] + [x];
    }
  }

  lemma {:induction false} RestrictDeleted<K, I>(order: seq<I>, owner: I -> K, k: K, id: I)
    ensures var r := Restrict(order, owner, k);
            Restrict(Deleted(order, id), owner, k) == if owner(id) == k then Deleted(r, id) else r
  {
    if order != [] {
      var front, last := order[..|order| - 1], order[|order| - 1];
      RestrictDeleted(front, owner, k, id);
      assert order == front + [last];
      DeletedAppend(front, last, id);
      RestrictAppend(Deleted(front, id), owner, k, last);
      DeletedAppend(Restrict(front, owner, k), last, id);
      if last == id {
        assert Deleted(order, id) == Deleted(front, id);
      } else {
        assert Deleted(order, id) == Deleted(front, id) + [last];
      }
      assert owner(last) != k ==> Restrict(order, owner, k) == Restrict(front, owner, k);
    }
  }

  lemma InsertMirrors<K(!new), I(!new)>(m: map<K, seq<I>>, order: seq<I>, owner: I -> K, id: I)
    requires Mirrors(m, order, owner) && id !in order
    ensures Mirrors(Insert(m, owner(id), id), order + [id], owner)
  {
    forall k ensures Bucket(Insert(m, owner(id), id), k) == Restrict(order + [id], owner, k) {
      assert Bucket(m, k) == Restrict(order, owner, k);
      RestrictAppend(order, owner, k, id);
      RestrictMembers(order, owner, k);
    }
  }

  /** Adding an id that is already there changes no bucket. */
  lemma ReinsertMirrors<K(!new), I(!new)>(m: map<K, seq<I>>, order: seq<I>, owner: I -> K, id: I)
    requires Mirrors(m, order, owner) && id in order
    ensures Mirrors(Insert(m, owner(id), id), order, owner)
  {
    forall k ensures Bucket(Insert(m, owner(id), id), k) == Restrict(order, owner, k) {
      assert Bucket(m, k) == Restrict(order, owner, k);
      RestrictMembers(order, owner, k);
    }
  }

  lemma RemoveMirrors<K(!new), I(!new)>(m: map<K, seq<I>>, order: seq<I>, owner: I -> K, id: I)
    requires Mirrors(m, order, owner)
    ensures Mirrors(Remove(m, owner(id), id), Deleted(order, id), owner)
  {
    forall k ensures Bucket(Remove(m, owner(id), id), k) == Restrict(Deleted(order, id), owner, k) {
      assert Bucket(m, k) == Restrict(order, owner, k);
      RestrictDeleted(order, owner, k, id);
    }
  }
}