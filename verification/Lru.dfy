/** The `lru::LruCache` the repository relies on: a bounded table with a recency order. */
module Lru {
  import Sets

  /** `order` lists the keys, most recently used first. */
  datatype Cache<K(==, !new), V> = Cache(capacity: nat, order: seq<K>, table: map<K, V>) {

    ghost predicate Valid() {
      && capacity >= 1
      && |order| <= capacity
      && (forall k :: k in order <==> k in table)
      && Distinct(order)
    }

    /** `LruCache::get` and `get_mut`: a hit becomes the most recent entry. */
    function Touch(k: K): Cache<K, V> {
      if k in table then this.(order := [k] + Without(order, k)) else this
    }

    /** `LruCache::pop`. */
    function Pop(k: K): Cache<K, V> {
      if k in table then this.(order := Without(order, k), table := table - {k}) else this
    }

    /** `LruCache::put`: replaces or inserts as most recent, evicting the oldest entry when full. */
    function Put(k: K, v: V): Cache<K, V> {
      if k in table then Touch(k).(table := table[k := v])
      else if |order| < capacity || order == [] then
        this.(order := [k] + order, table := table[k := v])
      else
        var oldest := order[|order| - 1];
        this.(order := [k] + order[..|order| - 1], table := (table - {oldest})[k := v])
    }

    /** `LruCache::get_or_insert_mut`, before the returned reference is used. */
    function GetOrInsert(k: K, v: V): Cache<K, V> {
      if k in table then Touch(k) else Put(k, v)
    }

    /** Writing through the reference returned for a present key. */
    function Write(k: K, v: V): Cache<K, V>
      requires k in table
    {
      this.(table := table[k := v])
    }
  }

  function Empty<K(==, !new), V>(capacity: nat): Cache<K, V> { Cache(capacity, [], map[]) }

  function Without<K(==, !new)>(order: seq<K>, k: K): (r: seq<K>)
    ensures |r| <= |order|
    ensures forall x :: x in r <==> x in order && x != k
    ensures k in order ==> |r| < |order|
    ensures Distinct(order) ==> Distinct(r)
  {
    if order == [] then []
    else if order[0] == k then Without(order[1..], k)
    else
      assert Distinct(order) ==> order[0] !in order[1..];
      [order[0]] + Without(order[1..], k)
  }

  ghost predicate Distinct<K>(order: seq<K>) {
    forall i, j :: 0 <= i < j < |order| ==> order[i] != order[j]
  }

  lemma {:induction false} DistinctCount<T>(order: seq<T>)
    requires Distinct(order)
    ensures |set x | x in order| == |order|
  {
    if order != [] {
      var front := order[..|order| - 1];
      DistinctCount(front);
      assert (set x | x in order) == (set x | x in front) + {order[|order| - 1]};
    }
  }

  /** The entry just put is present with its value; any other entry keeps its value or is evicted. */
  lemma PutKeepsOrEvicts<K(!new), V>(c: Cache<K, V>, k: K, v: V)
    requires c.Valid()
    ensures c.Put(k, v).Valid() && c.Put(k, v).capacity == c.capacity
    ensures k in c.Put(k, v).table && c.Put(k, v).table[k] == v
    ensures forall x :: x in c.Put(k, v).table && x != k ==> x in c.table && c.Put(k, v).table[x] == c.table[x]
    ensures forall x :: x in c.table ==>
              (x !in c.Put(k, v).table <==> k !in c.table && |c.order| == c.capacity && x == c.order[|c.order| - 1])
  {
    if k !in c.table && |c.order| == c.capacity {
      var oldest := c.order[|c.order| - 1];
      var kept := c.order[..|c.order| - 1];
      assert c.order == kept + [oldest];
      assert forall x :: x in kept <==> x in c.table && x != oldest;
    }
  }

  lemma TouchKeeps<K(!new), V>(c: Cache<K, V>, k: K)
    requires c.Valid()
    ensures c.Touch(k).Valid() && c.Touch(k).table == c.table && c.Touch(k).capacity == c.capacity
  {
  }

  lemma PopRemoves<K(!new), V>(c: Cache<K, V>, k: K)
    requires c.Valid()
    ensures c.Pop(k).Valid() && c.Pop(k).table == c.table - {k} && c.Pop(k).capacity == c.capacity
  {
  }

  // ----- What an entry outlives -----

  /** The keys used more recently than `k`. */
  function Newer<K(==, !new)>(order: seq<K>, k: K): set<K> {
    if order == [] || order[0] == k then {} else {order[0]} + Newer(order[1..], k)
  }

  lemma {:induction false} NewerIsBefore<K(!new)>(order: seq<K>, k: K, i: nat)
    requires i < |order| && order[i] == k && k !in order[..i]
    ensures Newer(order, k) == set x | x in order[..i]
  {
    if i > 0 {
      assert order[..i][0] == order[0] && order[..i] == [order[0]] + order[1..][..i - 1];
      NewerIsBefore(order[1..], k, i - 1);
    }
  }

  /** How many keys have been used more recently is the key's place in the order. */
  lemma NewerCount<K(!new)>(order: seq<K>, k: K, i: nat)
    requires Distinct(order) && i < |order| && order[i] == k
    ensures |Newer(order, k)| == i && forall x :: x in Newer(order, k) ==> x in order && x != k
  {
    NewerIsBefore(order, k, i);
    DistinctCount(order[..i]);
  }

  lemma {:induction false} NewerWithout<K(!new)>(order: seq<K>, k: K, x: K)
    requires x != k
    ensures Newer(Without(order, x), k) == Newer(order, k) - {x}
  {
    if order != [] {
      NewerWithout(order[1..], k, x);
    }
  }

  lemma {:induction false} NewerPrefix<K(!new)>(order: seq<K>, k: K)
    requires order != [] && k in order[..|order| - 1]
    ensures Newer(order[..|order| - 1], k) == Newer(order, k)
  {
    if order[0] != k {
      var front := order[..|order| - 1];
      assert order[1..][..|order| - 2] == front[1..];
      assert k in front[1..];
      NewerPrefix(order[1..], k);
    }
  }

  lemma TouchAges<K(!new), V>(c: Cache<K, V>, x: K, k: K)
    requires c.Valid() && k in c.table && x != k
    ensures Newer(c.Touch(x).order, k) <= Newer(c.order, k) + {x}
    ensures x in c.table ==> Newer(c.Touch(x).order, k) == Newer(c.order, k) + {x}
  {
    NewerWithout(c.order, k, x);
    assert ([x] + Without(c.order, x))[1..] == Without(c.order, x);
  }

  lemma PopAges<K(!new), V>(c: Cache<K, V>, x: K, k: K)
    requires c.Valid() && k in c.table && x != k
    ensures k in c.Pop(x).table && c.Pop(x).table[k] == c.table[k] && Newer(c.Pop(x).order, k) <= Newer(c.order, k)
  {
    NewerWithout(c.order, k, x);
  }

  lemma HitAges<K(!new), V>(c: Cache<K, V>, x: K, v: V, k: K)
    requires c.Valid() && k in c.table && x != k && x in c.table
    ensures k in c.Put(x, v).table && |Newer(c.order, k) + {x}| < c.capacity
    ensures c.Put(x, v).table[k] == c.table[k] && Newer(c.Put(x, v).order, k) == Newer(c.order, k) + {x}
  {
    var i :| 0 <= i < |c.order| && c.order[i] == k;
    NewerCount(c.order, k, i);
    TouchAges(c, x, k);
    DistinctCount(c.order);
    assert (set y | y in c.order) == c.table.Keys;
    Sets.ProperSubsetSize(Newer(c.order, k) + {x}, c.table.Keys, k);
  }

  lemma MissAges<K(!new), V>(c: Cache<K, V>, x: K, v: V, k: K)
    requires c.Valid() && k in c.table && x !in c.table
    ensures k in c.Put(x, v).table <==> |Newer(c.order, k)| + 1 < c.capacity
    ensures k in c.Put(x, v).table ==>
              c.Put(x, v).table[k] == c.table[k] && Newer(c.Put(x, v).order, k) == Newer(c.order, k) + {x}
  {
    var i :| 0 <= i < |c.order| && c.order[i] == k;
    NewerCount(c.order, k, i);
    if |c.order| < c.capacity {
      RoomMissAges(c, x, v, k);
    } else {
      FullMissAges(c, x, v, k, i);
    }
  }

  lemma RoomMissAges<K(!new), V>(c: Cache<K, V>, x: K, v: V, k: K)
    requires c.Valid() && |c.order| < c.capacity && x !in c.table && k in c.table
    ensures k in c.Put(x, v).table && c.Put(x, v).table[k] == c.table[k]
    ensures Newer(c.Put(x, v).order, k) == Newer(c.order, k) + {x}
  {
    assert c.Put(x, v).order == [x] + c.order && ([x] + c.order)[1..] == c.order;
  }

  lemma FullMissAges<K(!new), V>(c: Cache<K, V>, x: K, v: V, k: K, i: nat)
    requires c.Valid() && |c.order| == c.capacity && x !in c.table && i < |c.order| && c.order[i] == k
    ensures k in c.Put(x, v).table <==> i + 1 < c.capacity
    ensures k in c.Put(x, v).table ==>
              c.Put(x, v).table[k] == c.table[k] && Newer(c.Put(x, v).order, k) == Newer(c.order, k) + {x}
  {
    assert k in c.order && x !in c.order;
    if i < |c.order| - 1 {
      var front := c.order[..|c.order| - 1];
      assert front[i] == k;
      NewerPrefix(c.order, k);
      assert ([x] + front)[1..] == front;
      assert c.Put(x, v).order == [x] + front;
    }
  }

  /** An entry outlives the use of another key exactly when the keys used since leave it room. */
  lemma PutAges<K(!new), V>(c: Cache<K, V>, x: K, v: V, k: K)
    requires c.Valid() && k in c.table && x != k
    ensures var newer := Newer(c.order, k) + {x};
            && (k in c.Put(x, v).table <==> |newer| < c.capacity)
            && (k in c.Put(x, v).table ==> c.Put(x, v).table[k] == c.table[k] && Newer(c.Put(x, v).order, k) == newer)
  {
    if x in c.table {
      HitAges(c, x, v, k);
    } else {
      var i :| 0 <= i < |c.order| && c.order[i] == k;
      NewerCount(c.order, k, i);
      MissAges(c, x, v, k);
    }
  }
}
