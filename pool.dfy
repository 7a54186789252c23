/**
 * The connection pool the proxy draws from: a keyed container with a fixed
 * capacity, where capacity 0 means unbounded. Operations are taken to be
 * atomic; the pool's locking is not modelled.
 */
module Pools {

  import opened Wrappers

  datatype Pool<K, V> = Pool(entries: map<K, V>, capacity: nat) {

    function Size(): (n: nat) {
      |entries|
    }

    function Cap(): (n: nat) {
      capacity
    }

    /** The capacity bound holds: a bounded pool holds at most `capacity` entries. */
    predicate WithinCapacity() {
      capacity > 0 ==> |entries| <= capacity
    }

    /**
     * Stores `v` under `k`, replacing what `k` held. Fails (None) exactly when the
     * pool is bounded and already holds `capacity` entries.
     */
    function Put(k: K, v: V): (r: Option<Pool<K, V>>)
      ensures r.None? <==> capacity > 0 && |entries| >= capacity
      ensures r.Some? ==> r.value.capacity == capacity
      ensures r.Some? ==> k in r.value.entries && r.value.entries[k] == v
      ensures r.Some? ==> r.value.entries.Keys == entries.Keys + {k}
      ensures r.Some? ==> forall j | j in entries && j != k :: r.value.entries[j] == entries[j]
      ensures r.Some? ==> r.value.Size() == if k in entries then Size() else Size() + 1
    {
      if capacity > 0 && |entries| >= capacity then None
      else Some(Pool(entries[k := v], capacity))
    }

    /** Removes `k` and returns what it held, or None when `k` is absent. */
    function Pop(k: K): (r: (Option<V>, Pool<K, V>))
      ensures r.0.Some? <==> k in entries
      ensures r.0.Some? ==> r.0.value == entries[k]
      ensures r.1.capacity == capacity
      ensures r.1.entries.Keys == entries.Keys - {k}
      ensures forall j | j in r.1.entries :: r.1.entries[j] == entries[j]
      ensures r.1.Size() == if k in entries then Size() - 1 else Size()
    {
      if k in entries then (Some(entries[k]), Pool(entries - {k}, capacity))
      else (None, this)
    }

    /** Reads what `k` holds without removing it. */
    function Get(k: K): (r: Option<V>)
      ensures r.Some? <==> k in entries
      ensures r.Some? ==> r.value == entries[k]
    {
      if k in entries then Some(entries[k]) else None
    }

    /** Removes `k`; a missing key leaves the pool as it is. */
    function Remove(k: K): (r: Pool<K, V>)
      ensures r.capacity == capacity
      ensures r.entries.Keys == entries.Keys - {k}
      ensures forall j | j in r.entries :: r.entries[j] == entries[j]
      ensures k !in entries ==> r == this
    {
      Pop(k).1
    }

    /** Drops every entry and keeps the capacity. */
    function Clear(): (r: Pool<K, V>)
      ensures r.Size() == 0 && r.capacity == capacity
    {
      Pool(map[], capacity)
    }
  }

  /** What Put stored, Pop gives back, and the pool it leaves is the one Put started from minus `k`. */
  lemma PutThenPop<K, V>(p: Pool<K, V>, k: K, v: V)
    requires p.Put(k, v).Some?
    ensures p.Put(k, v).value.Pop(k) == (Some(v), Pool(p.entries - {k}, p.capacity))
    ensures k !in p.entries ==> p.Put(k, v).value.Pop(k).1 == p
  {
    var q := p.Put(k, v).value;
    assert q.entries - {k} == p.entries - {k};
  }

  /** Putting back what Pop removed restores the pool, so long as the capacity bound held. */
  lemma {:induction false} PopThenPut<K, V>(p: Pool<K, V>, k: K)
    requires p.WithinCapacity()
    requires k in p.entries
    ensures p.Pop(k).1.Put(k, p.entries[k]) == Some(p)
  {
    var q := p.Pop(k).1;
    assert q.Size() < p.Size();
    assert q.entries[k := p.entries[k]] == p.entries;
  }
}
