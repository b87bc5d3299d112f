/** A JavaScript `Map`: a table together with the order its keys were first inserted in. */
module OrderedMaps {
  import opened Buckets

  datatype OrderedMap<K, V> = OrderedMap(table: map<K, V>, order: seq<K>)

  ghost predicate WellFormed<K(!new), V>(m: OrderedMap<K, V>) {
    NoDuplicates(m.order) && forall k :: k in m.order <==> k in m.table
  }

  function NoEntries<K, V>(): OrderedMap<K, V> { OrderedMap(map[], []) }

  /** Setting a present key keeps its place. */
  function Set<K(==), V>(m: OrderedMap<K, V>, k: K, v: V): OrderedMap<K, V> {
    OrderedMap(m.table[k := v], if k in m.table then m.order else m.order + [k])
  }

  function Delete<K(==), V>(m: OrderedMap<K, V>, k: K): OrderedMap<K, V> {
    OrderedMap(m.table - {k}, Deleted(m.order, k))
  }

  function Values<K, V>(m: OrderedMap<K, V>): seq<V> { ValuesOf(m.table, m.order) }

  function ValuesOf<K, V>(table: map<K, V>, order: seq<K>): seq<V> {
    if order == [] then []
    else
      var last := order[|order| - 1];
      ValuesOf(table, order[..|order| - 1]) + (if last in table then [table[last]] else [])
  }

  function Entries<K, V>(m: OrderedMap<K, V>): seq<(K, V)> { EntriesOf(m.table, m.order) }

  function EntriesOf<K, V>(table: map<K, V>, order: seq<K>): seq<(K, V)> {
    if order == [] then []
    else
      var last := order[|order| - 1];
      EntriesOf(table, order[..|order| - 1]) + (if last in table then [(last, table[last])] else [])
  }

  function SetAll<K(==), V>(entries: seq<(K, V)>): OrderedMap<K, V> {
    if entries == [] then NoEntries()
    else
      var last := entries[|entries| - 1];
      Set(SetAll(entries[..|entries| - 1]), last.0, last.1)
  }

  lemma SetKeeps<K(!new), V>(m: OrderedMap<K, V>, k: K, v: V)
    requires WellFormed(m)
    ensures WellFormed(Set(m, k, v))
  {
  }

  lemma DeleteKeeps<K(!new), V>(m: OrderedMap<K, V>, k: K)
    requires WellFormed(m)
    ensures WellFormed(Delete(m, k))
  {
    DeletedIs(m.order, k);
  }

  lemma SetAllAppend<K, V>(entries: seq<(K, V)>, e: (K, V))
    ensures SetAll(entries + [e]) == Set(SetAll(entries), e.0, e.1)
  {
    assert (entries + [e])[..|entries|] == entries;
  }

  lemma EntriesAppend<K, V>(table: map<K, V>, order: seq<K>, k: K)
    requires k in table
    ensures EntriesOf(table, order + [k]) == EntriesOf(table, order) + [(k, table[k])]
  {
    assert (order + [k])[..|order|] == order;
  }

  /** `m` holds the part of the table that `order` lists. */
  ghost predicate Holds<K(!new), V>(m: OrderedMap<K, V>, table: map<K, V>, order: seq<K>) {
    && m.order == order && (forall k :: k in m.table <==> k in order)
    && forall k <- order :: k in table && m.table[k] == table[k]
  }

  lemma HoldsMore<K(!new), V>(m: OrderedMap<K, V>, table: map<K, V>, order: seq<K>, k: K)
    requires Holds(m, table, order) && k in table && k !in order
    ensures Holds(Set(m, k, table[k]), table, order + [k])
  {
  }

  lemma {:induction false} SetAllPrefix<K(!new), V>(table: map<K, V>, order: seq<K>)
    requires NoDuplicates(order) && forall k <- order :: k in table
    ensures Holds(SetAll(EntriesOf(table, order)), table, order)
  {
    assert SetAll(EntriesOf(table, [])) == NoEntries();
    hide SetAll, EntriesOf, Set;
    if order == [] {
    } else {
      hide Holds;
      var front, last := order[..|order| - 1], order[|order| - 1];
      assert order == front + [last];
      SetAllPrefix(table, front);
      EntriesAppend(table, front, last);
      SetAllAppend(EntriesOf(table, front), (last, table[last]));
      HoldsMore(SetAll(EntriesOf(table, front)), table, front, last);
    }
  }

  /** Re-inserting the entries in order rebuilds the map. */
  lemma SetAllOfEntries<K(!new), V>(m: OrderedMap<K, V>)
    requires WellFormed(m)
    ensures SetAll(Entries(m)) == m
  {
    SetAllPrefix(m.table, m.order);
    assert SetAll(Entries(m)).table == m.table;
  }
}
