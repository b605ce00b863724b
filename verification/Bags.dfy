/** The values of a map with their multiplicities. */
module Bags {
  ghost function Bag<K, V>(m: map<K, V>): multiset<V>
    decreases m.Keys
  {
    if m == map[] then multiset{}
    else
      var k :| k in m;
      Bag(m - {k}) + multiset{m[k]}
  }

  lemma BagChoice<K, V>(m: map<K, V>) returns (k: K)
    requires m != map[]
    ensures k in m && Bag(m) == Bag(m - {k}) + multiset{m[k]}
  {
    k :| k in m && Bag(m) == Bag(m - {k}) + multiset{m[k]};
  }

  /** Any key may be taken first. */
  lemma {:induction false} BagRemove<K, V>(m: map<K, V>, k: K)
    requires k in m
    ensures Bag(m) == Bag(m - {k}) + multiset{m[k]}
    decreases m.Keys
  {
    hide Bag;
    var j := BagChoice(m);
    if j != k {
      BagRemove(m - {j}, k);
      BagRemove(m - {k}, j);
      assert m - {j} - {k} == m - {k} - {j};
    }
  }

  lemma BagInsert<K, V>(m: map<K, V>, k: K, v: V)
    requires k !in m
    ensures Bag(m[k := v]) == Bag(m) + multiset{v}
  {
    BagRemove(m[k := v], k);
    assert m[k := v] - {k} == m;
  }

  lemma {:induction false} BagSize<K, V>(m: map<K, V>)
    ensures |Bag(m)| == |m|
    decreases m.Keys
  {
    if m != map[] {
      var k :| k in m;
      BagRemove(m, k);
      BagSize(m - {k});
      assert m.Keys == (m - {k}).Keys + {k};
    }
  }

  lemma {:induction false} BagMember<K, V>(m: map<K, V>, v: V) returns (k: K)
    requires v in Bag(m)
    ensures k in m && m[k] == v
    decreases m.Keys
  {
    var j :| j in m;
    BagRemove(m, j);
    if m[j] == v {
      k := j;
    } else {
      k := BagMember(m - {j}, v);
    }
  }
}
