/**
 * A Python dictionary keyed by page index, as `balloons_by_page` and
 * `rotation_by_page` use it: lookups, and assignment `d[k] = v`, which
 * overwrites an existing key in place and appends a new key at the end of
 * the iteration order.
 */
module PageDict {
  import opened Wrappers

  datatype Entry<V> = Entry(key: nat, value: V)

  /** The keys in iteration order. */
  function Keys<V>(d: seq<Entry<V>>): (ks: seq<nat>)
    ensures |ks| == |d|
    ensures forall i :: 0 <= i < |d| ==> ks[i] == d[i].key
  {
    if d == [] then [] else [d[0].key] + Keys(d[1..])
  }

  lemma KeysCons<V>(e: Entry<V>, d: seq<Entry<V>>)
    ensures Keys([e] + d) == [e.key] + Keys(d)
  {
    assert ([e] + d)[1..] == d;
  }

  /** No key occurs twice. */
  predicate Distinct<V>(d: seq<Entry<V>>) {
    d == [] || (d[0].key !in Keys(d[1..]) && Distinct(d[1..]))
  }

  /** `d.get(k)`: the value stored under `k`, if any. */
  function Get<V>(d: seq<Entry<V>>, k: nat): Option<V> {
    if d == [] then None
    else if d[0].key == k then Some(d[0].value)
    else Get(d[1..], k)
  }

  /** A key has a value exactly when it is one of the keys. */
  lemma {:induction false} GetKeys<V>(d: seq<Entry<V>>, k: nat)
    ensures Get(d, k).Some? <==> k in Keys(d)
  {
    if d != [] {
      GetKeys(d[1..], k);
      KeysCons(d[0], d[1..]);
      assert d == [d[0]] + d[1..];
    }
  }

  /** A value found is one of the stored entries. */
  lemma {:induction false} GetFound<V>(d: seq<Entry<V>>, k: nat)
    requires Get(d, k).Some?
    ensures exists i :: 0 <= i < |d| && d[i] == Entry(k, Get(d, k).value)
  {
    if d[0].key != k {
      GetFound(d[1..], k);
      var i :| 0 <= i < |d[1..]| && d[1..][i] == Entry(k, Get(d, k).value);
      assert d[i + 1] == d[1..][i];
    }
  }

  /** `d[k] = v`. */
  function Put<V>(d: seq<Entry<V>>, k: nat, v: V): seq<Entry<V>> {
    if d == [] then [Entry(k, v)]
    else if d[0].key == k then [Entry(k, v)] + d[1..]
    else [d[0]] + Put(d[1..], k, v)
  }

  /** After `d[k] = v`, `d.get(k)` is `v`. */
  lemma {:induction false} PutGet<V>(d: seq<Entry<V>>, k: nat, v: V)
    ensures Get(Put(d, k, v), k) == Some(v)
  {
    if d != [] && d[0].key != k {
      PutGet(d[1..], k, v);
      assert Put(d, k, v)[1..] == Put(d[1..], k, v);
    }
  }

  /** An existing key keeps its place; a new key comes last. */
  lemma {:induction false} PutKeys<V>(d: seq<Entry<V>>, k: nat, v: V)
    ensures Keys(Put(d, k, v)) == if k in Keys(d) then Keys(d) else Keys(d) + [k]
  {
    if d == [] {
    } else if d[0].key == k {
      KeysCons(Entry(k, v), d[1..]);
      KeysCons(d[0], d[1..]);
      assert d == [d[0]] + d[1..];
    } else {
      PutKeys(d[1..], k, v);
      KeysCons(d[0], Put(d[1..], k, v));
      KeysCons(d[0], d[1..]);
      assert d == [d[0]] + d[1..];
    }
  }

  /** Assigning `k` leaves every other key's value as it was. */
  lemma {:induction false} PutOther<V>(d: seq<Entry<V>>, k: nat, v: V, j: nat)
    requires j != k
    ensures Get(Put(d, k, v), j) == Get(d, j)
  {
    if d != [] && d[0].key != k {
      PutOther(d[1..], k, v, j);
      assert Put(d, k, v)[1..] == Put(d[1..], k, v);
    }
  }

  /** Assignment keeps the keys distinct. */
  lemma {:induction false} PutDistinct<V>(d: seq<Entry<V>>, k: nat, v: V)
    requires Distinct(d)
    ensures Distinct(Put(d, k, v))
  {
    if d != [] && d[0].key != k {
      PutDistinct(d[1..], k, v);
      PutKeys(d[1..], k, v);
      assert Put(d, k, v)[1..] == Put(d[1..], k, v);
    }
  }

  /** Assigning the value already stored changes nothing, order included. */
  lemma {:induction false} PutExisting<V>(d: seq<Entry<V>>, k: nat, v: V)
    requires Get(d, k) == Some(v)
    requires Distinct(d)
    ensures Put(d, k, v) == d
  {
    if d != [] && d[0].key != k {
      PutExisting(d[1..], k, v);
    } else if d != [] {
      assert d[0] == Entry(k, v);
    }
  }

  /** Only the last assignment to a key is kept. */
  lemma {:induction false} PutPut<V>(d: seq<Entry<V>>, k: nat, v: V, w: V)
    ensures Put(Put(d, k, v), k, w) == Put(d, k, w)
  {
    if d != [] && d[0].key != k {
      PutPut(d[1..], k, v, w);
      assert Put(d, k, v)[1..] == Put(d[1..], k, v);
    }
  }

  /** Every stored value satisfies `p`. */
  predicate AllValues<V>(d: seq<Entry<V>>, p: V -> bool) {
    forall i :: 0 <= i < |d| ==> p(d[i].value)
  }

  /** A value found under a key is one of the stored values. */
  lemma GetAllValues<V>(d: seq<Entry<V>>, p: V -> bool, k: nat)
    requires AllValues(d, p) && Get(d, k).Some?
    ensures p(Get(d, k).value)
  {
    GetFound(d, k);
  }

  /** Assigning a value that satisfies `p` keeps every stored value satisfying it. */
  lemma {:induction false} PutAllValues<V>(d: seq<Entry<V>>, p: V -> bool, k: nat, v: V)
    requires AllValues(d, p) && p(v)
    ensures AllValues(Put(d, k, v), p)
  {
    if d != [] && d[0].key != k {
      PutAllValues(d[1..], p, k, v);
      assert Put(d, k, v)[1..] == Put(d[1..], k, v);
    }
  }
}
