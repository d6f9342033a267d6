/** Python's dict: a map that remembers the order in which keys were inserted. */
module OrderedDict {

  datatype Dict<K(==), V> = Dict(keys: seq<K>, at: map<K, V>) {
    ghost predicate Ok() {
      && Distinct(keys)
      && (forall k :: k in keys ==> k in at)
      && (forall k :: k in at ==> k in keys)
    }
  }

  function Get<K(==), V>(d: Dict<K, V>, k: K, absent: V): V {
    if k in d.at then d.at[k] else absent
  }

  /** `d[k] = v`: in place when the key is there, at the end when it is new. */
  function Put<K(==), V>(d: Dict<K, V>, k: K, v: V): (r: Dict<K, V>)
    ensures r.at == d.at[k := v]
  {
    if k in d.at then Dict(d.keys, d.at[k := v]) else Dict(d.keys + [k], d.at[k := v])
  }

  ghost predicate Distinct<K>(keys: seq<K>) {
    forall i, j :: 0 <= i < j < |keys| ==> keys[i] != keys[j]
  }

  function Without<K(==)>(keys: seq<K>, k: K): (r: seq<K>)
    ensures forall x :: x in r ==> x in keys && x != k
    ensures forall x :: x in keys && x != k ==> x in r
    ensures Distinct(keys) ==> Distinct(r)
  {
    if keys == [] then []
    else
      var init, last := keys[..|keys| - 1], keys[|keys| - 1];
      assert keys == init + [last];
      var rest := Without(init, k);
      assert Distinct(keys) ==> last !in init;
      if last == k then rest else rest + [last]
  }

  /** `d.pop(k, None)`. */
  function Drop<K(==), V>(d: Dict<K, V>, k: K): (r: Dict<K, V>)
    ensures r.at == d.at - {k}
  {
    if k in d.at then Dict(Without(d.keys, k), d.at - {k}) else d
  }

  /** A key set again keeps its place and a new one comes last; what is dropped leaves the
      others in their order. */
  lemma {:induction false} OrderIsInsertion<K, V>(d: Dict<K, V>, k: K, v: V)
    requires d.Ok()
    ensures d.keys <= Put(d, k, v).keys && |Put(d, k, v).keys| <= |d.keys| + 1
    ensures Drop(d, k).keys == Without(d.keys, k)
  {
    if k !in d.at {
      AllStay(d.keys, k);
    }
  }

  lemma {:induction false} AllStay<K>(keys: seq<K>, k: K)
    requires k !in keys
    ensures Without(keys, k) == keys
  {
    if keys != [] {
      assert keys == keys[..|keys| - 1] + [keys[|keys| - 1]];
      AllStay(keys[..|keys| - 1], k);
    }
  }

  /** Updates keep a dictionary well formed. */
  lemma {:induction false} UpdatesAreOk<K, V>(d: Dict<K, V>, k: K, v: V)
    requires d.Ok()
    ensures Put(d, k, v).Ok() && Drop(d, k).Ok()
  {
  }

  /** The sum of a weight over the values of the listed keys. */
  ghost function Total<K, V>(keys: seq<K>, at: map<K, V>, w: V -> int): int {
    if keys == [] then 0
    else
      var last := keys[|keys| - 1];
      Total(keys[..|keys| - 1], at, w) + (if last in at then w(at[last]) else 0)
  }

  lemma {:induction false} TotalFrame<K, V>(keys: seq<K>, at: map<K, V>, at': map<K, V>, w: V -> int)
    requires forall k :: k in keys ==> (k in at <==> k in at') && (k in at ==> at[k] == at'[k])
    ensures Total(keys, at, w) == Total(keys, at', w)
  {
    if keys != [] {
      TotalFrame(keys[..|keys| - 1], at, at', w);
    }
  }

  lemma {:induction false} TotalUpdate<K, V>(keys: seq<K>, at: map<K, V>, k: K, v: V, w: V -> int)
    requires Distinct(keys)
    requires k in keys && k in at
    ensures Total(keys, at[k := v], w) == Total(keys, at, w) - w(at[k]) + w(v)
  {
    var init, last := keys[..|keys| - 1], keys[|keys| - 1];
    assert keys == init + [last];
    if last == k {
      TotalFrame(init, at, at[k := v], w);
    } else {
      TotalUpdate(init, at, k, v, w);
    }
  }

  lemma {:induction false} TotalPut<K, V>(d: Dict<K, V>, k: K, v: V, w: V -> int)
    requires d.Ok()
    ensures Total(Put(d, k, v).keys, Put(d, k, v).at, w)
         == Total(d.keys, d.at, w) - (if k in d.at then w(d.at[k]) else 0) + w(v)
  {
    if k in d.at {
      TotalUpdate(d.keys, d.at, k, v, w);
    } else {
      var keys := d.keys + [k];
      assert keys[..|keys| - 1] == d.keys;
      TotalFrame(d.keys, d.at, d.at[k := v], w);
    }
  }

  lemma {:induction false} TotalWithout<K, V>(keys: seq<K>, at: map<K, V>, k: K, w: V -> int)
    requires Distinct(keys)
    requires k in at
    ensures Total(Without(keys, k), at - {k}, w)
         == Total(keys, at, w) - (if k in keys then w(at[k]) else 0)
  {
    if keys != [] {
      var init, last := keys[..|keys| - 1], keys[|keys| - 1];
      assert keys == init + [last];
      TotalWithout(init, at, k, w);
      if last != k {
        var r := Without(init, k) + [last];
        assert r[..|r| - 1] == Without(init, k);
      }
    }
  }

  lemma {:induction false} TotalDrop<K, V>(d: Dict<K, V>, k: K, w: V -> int)
    requires d.Ok()
    ensures Total(Drop(d, k).keys, Drop(d, k).at, w)
         == Total(d.keys, d.at, w) - (if k in d.at then w(d.at[k]) else 0)
  {
    if k in d.at {
      TotalWithout(d.keys, d.at, k, w);
    }
  }
}
