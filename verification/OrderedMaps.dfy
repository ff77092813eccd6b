/** A map that remembers the order in which its keys were first set, as the Map of ECMAScript does. */
module OrderedMaps {
  predicate Distinct<K(==)>(s: seq<K>) {
    forall i, j :: 0 <= i < j < |s| ==> s[i] != s[j]
  }

  function Without<K(==)>(s: seq<K>, k: K): (r: seq<K>)
    ensures |r| <= |s|
    ensures k !in r
    ensures forall x | x in s && x != k :: x in r
    ensures forall x | x in r :: x in s
    ensures k !in s ==> r == s
  {
    if s == [] then [] else (if s[0] == k then [] else [s[0]]) + Without(s[1..], k)
  }

  lemma {:induction false} WithoutDistinct<K>(s: seq<K>, k: K)
    requires Distinct(s)
    ensures Distinct(Without(s, k))
    ensures k in s ==> |Without(s, k)| == |s| - 1
  {
    if s != [] {
      WithoutDistinct(s[1..], k);
      assert s == [s[0]] + s[1..];
      assert s[0] !in s[1..];
    }
  }

  /** The keys of a list outside a set, in order. */
  function Minus<K(==)>(s: seq<K>, ks: set<K>): (r: seq<K>)
    ensures |r| <= |s|
    ensures forall x | x in r :: x in s && x !in ks
    ensures forall x | x in s :: x in ks || x in r
  {
    if s == [] then [] else (if s[0] in ks then [] else [s[0]]) + Minus(s[1..], ks)
  }

  lemma {:induction false} MinusDistinct<K>(s: seq<K>, ks: set<K>)
    requires Distinct(s)
    ensures Distinct(Minus(s, ks))
  {
    if s != [] {
      MinusDistinct(s[1..], ks);
      assert s[0] !in s[1..];
    }
  }

  lemma {:induction false} MinusStep<K>(s: seq<K>, ks: set<K>, k: K)
    ensures Minus(s, ks + {k}) == Without(Minus(s, ks), k)
  {
    if s != [] {
      MinusStep(s[1..], ks, k);
      if s[0] !in ks { assert ([s[0]] + Minus(s[1..], ks))[1..] == Minus(s[1..], ks); }
      else { assert Minus(s, ks) == Minus(s[1..], ks); }
      assert [] + Minus(s[1..], ks + {k}) == Minus(s[1..], ks + {k});
    }
  }

  lemma {:induction false} MinusAgree<K>(s: seq<K>, ks: set<K>, ks': set<K>)
    requires forall x | x in s :: x in ks <==> x in ks'
    ensures Minus(s, ks) == Minus(s, ks')
  {
    if s != [] { MinusAgree(s[1..], ks, ks'); }
  }

  lemma {:induction false} MinusNone<K>(s: seq<K>)
    ensures Minus(s, {}) == s
  {
    if s != [] { MinusNone(s[1..]); }
  }

  lemma RemoveNone<K, V>(m: OrderedMap<K, V>)
    ensures m.RemoveAll({}) == m
  {
    MinusNone(m.order);
    assert m.RemoveAll({}).at == m.at;
  }

  lemma RemoveOneMore<K, V>(m: OrderedMap<K, V>, ks: set<K>, k: K)
    ensures m.RemoveAll(ks).Remove(k) == m.RemoveAll(ks + {k})
  {
    MinusStep(m.order, ks, k);
    assert m.RemoveAll(ks).Remove(k).at == m.RemoveAll(ks + {k}).at;
  }

  /** Only the keys that are there matter. */
  lemma RemoveAgree<K, V>(m: OrderedMap<K, V>, ks: set<K>, ks': set<K>)
    requires m.Valid() && forall x | x in m.order :: x in ks <==> x in ks'
    ensures m.RemoveAll(ks) == m.RemoveAll(ks')
  {
    MinusAgree(m.order, ks, ks');
    assert m.RemoveAll(ks).at == m.RemoveAll(ks').at;
  }

  datatype OrderedMap<K(==), +V> = OrderedMap(order: seq<K>, at: map<K, V>) {
    ghost predicate Valid() {
      && Distinct(order)
      && (forall k | k in order :: k in at)
      && (forall k | k in at :: k in order)
    }

    predicate Has(k: K) { k in at }

    function Size(): nat { |order| }

    /** A key that is already there keeps its place. */
    function Put(k: K, v: V): (r: OrderedMap<K, V>)
      ensures Valid() ==> r.Valid()
    {
      OrderedMap(if k in at then order else order + [k], at[k := v])
    }

    function Remove(k: K): (r: OrderedMap<K, V>)
      ensures Valid() ==> r.Valid()
      ensures Valid() ==> r.Size() == Size() - if k in at then 1 else 0
    {
      assert Valid() ==> Distinct(Without(order, k)) && |Without(order, k)| == |order| - (if k in at then 1 else 0) by {
        if Valid() { WithoutDistinct(order, k); if k !in at { assert k !in order; } }
      }
      OrderedMap(Without(order, k), map x | x in at && x != k :: at[x])
    }

    function RemoveAll(ks: set<K>): (r: OrderedMap<K, V>)
      ensures Valid() ==> r.Valid()
      ensures r.Size() <= Size()
    {
      assert Valid() ==> Distinct(Minus(order, ks)) by { if Valid() { MinusDistinct(order, ks); } }
      OrderedMap(Minus(order, ks), map x | x in at && x !in ks :: at[x])
    }

    /** Moves or adds a key at the young end. */
    function Renew(k: K, v: V): (r: OrderedMap<K, V>)
      ensures Valid() ==> r.Valid()
      ensures r.at == at[k := v] && r.order == Without(order, k) + [k]
    {
      Remove(k).Put(k, v)
    }
  }

  /** Renewing a key with its own value only moves it to the young end. */
  lemma RenewKeeps<K, V>(m: OrderedMap<K, V>, k: K)
    requires m.Valid() && k in m.at
    ensures m.Renew(k, m.at[k]).Valid() && m.Renew(k, m.at[k]).at == m.at && m.Renew(k, m.at[k]).Size() == m.Size()
  {
    assert m.Renew(k, m.at[k]).Size() == m.Remove(k).Size() + 1;
  }

  /** The oldest keys go while there are too many. */
  function Trimmed<K(==), V>(m: OrderedMap<K, V>, limit: nat): OrderedMap<K, V>
    requires m.Valid()
    decreases m.Size()
  {
    if m.Size() > limit then
      assert m.order[0] in m.at;
      Trimmed(m.Remove(m.order[0]), limit)
    else m
  }

  /** A new key in a map that is full pushes out the oldest one, and no other. */
  lemma TrimmedPut<K, V>(m: OrderedMap<K, V>, k: K, v: V, limit: nat)
    requires m.Valid() && m.Size() <= limit && k !in m.at && limit > 0
    ensures var r := Trimmed(m.Put(k, v), limit);
            && r.Valid() && r.Size() <= limit && k in r.at && r.at[k] == v
            && r == (if m.Size() == limit then m.Put(k, v).Remove(m.order[0]) else m.Put(k, v))
            && forall x | x in r.at && x != k :: x in m.at && r.at[x] == m.at[x]
  {
    var p := m.Put(k, v);
    if m.Size() == limit {
      assert p.order[0] == m.order[0] && m.order[0] in m.order;
    }
  }

  function Empty<K(==), V>(): (r: OrderedMap<K, V>)
    ensures r.Valid()
  {
    OrderedMap([], map[])
  }
}
