/**
 * Python's built-in `dict`, as the template stores use it: an
 * insertion-ordered association list whose keys are distinct.
 * `ToMap` is its abstract value; the functions below are the dict
 * operations the stores call (`d[k]`, `d[k] = v`, `d.update(e)`,
 * `d.pop(k)`, and rebuilding a dict from a filtered `d.items()`),
 * and the lemmas after each say what it does to the mapping and to
 * the iteration order.
 */
module PyDict {
  import opened Wrappers

  type Dict<K, V> = seq<(K, V)>

  /** The keys of `d` in iteration order. */
  function Keys<K, V>(d: Dict<K, V>): (ks: seq<K>)
    ensures |ks| == |d|
    ensures forall i :: 0 <= i < |d| ==> ks[i] == d[i].0
  {
    if d == [] then [] else [d[0].0] + Keys(d[1..])
  }

  /** A Python dict never holds the same key twice. */
  predicate UniqueKeys<K(==), V>(d: Dict<K, V>)
  {
    forall i, j :: 0 <= i < j < |d| ==> d[i].0 != d[j].0
  }

  /** The mapping the dict stands for. */
  function ToMap<K(==), V>(d: Dict<K, V>): (m: map<K, V>)
    ensures m.Keys == set k | k in Keys(d)
  {
    if d == [] then map[] else ToMap(d[1..])[d[0].0 := d[0].1]
  }

  /** `s` is `t` with some elements deleted: the relative order is kept. */
  predicate Subsequence<T(==)>(s: seq<T>, t: seq<T>)
    decreases |t|
  {
    if s == [] then true
    else if t == [] then false
    else (s[0] == t[0] && Subsequence(s[1..], t[1..])) || Subsequence(s, t[1..])
  }

  lemma {:induction false} SubsequenceReflexive<T>(s: seq<T>)
    ensures Subsequence(s, s)
  {
    if s != [] {
      SubsequenceReflexive(s[1..]);
    }
  }

  /** `d[k]`: the value stored under `k`, or None where Python raises KeyError. */
  function Find<K(==), V>(d: Dict<K, V>, k: K): (r: Option<V>)
    ensures r.Some? <==> k in ToMap(d)
    ensures r.Some? ==> r.value == ToMap(d)[k]
  {
    if d == [] then None
    else if d[0].0 == k then Some(d[0].1)
    else Find(d[1..], k)
  }

  /** `d[k] = v`: an existing key keeps its position, a new key goes last. */
  function Assign<K(==), V>(d: Dict<K, V>, k: K, v: V): Dict<K, V>
  {
    if d == [] then [(k, v)]
    else if d[0].0 == k then [(k, v)] + d[1..]
    else [d[0]] + Assign(d[1..], k, v)
  }

  lemma {:induction false} AssignMap<K, V>(d: Dict<K, V>, k: K, v: V)
    ensures ToMap(Assign(d, k, v)) == ToMap(d)[k := v]
  {
    var r := Assign(d, k, v);
    if d == [] {
    } else if d[0].0 == k {
      assert r[1..] == d[1..];
    } else {
      assert r[1..] == Assign(d[1..], k, v);
      AssignMap(d[1..], k, v);
    }
  }

  lemma {:induction false} AssignKeys<K, V>(d: Dict<K, V>, k: K, v: V)
    ensures Keys(Assign(d, k, v)) == if k in Keys(d) then Keys(d) else Keys(d) + [k]
  {
    var r := Assign(d, k, v);
    if d == [] {
    } else if d[0].0 == k {
      assert r[1..] == d[1..];
    } else {
      assert r[1..] == Assign(d[1..], k, v);
      AssignKeys(d[1..], k, v);
      assert k in Keys(d) <==> k in Keys(d[1..]);
    }
  }

  lemma {:induction false} AssignUnique<K, V>(d: Dict<K, V>, k: K, v: V)
    requires UniqueKeys(d)
    ensures UniqueKeys(Assign(d, k, v))
  {
    var r := Assign(d, k, v);
    if d == [] {
    } else if d[0].0 == k {
      assert r[1..] == d[1..];
    } else {
      assert r[1..] == Assign(d[1..], k, v);
      AssignUnique(d[1..], k, v);
      AssignKeys(d[1..], k, v);
    }
  }

  /** Map fact used by `UpdateMap`, kept apart so that its proof sees only its own context. */
  lemma UnionUpdateSwap<K, V>(m: map<K, V>, tail: map<K, V>, k: K, v: V)
    requires k !in tail
    ensures m[k := v] + tail == m + tail[k := v]
  {
  }

  /** `d.update(e)`: assigns every entry of `e`, in `e`'s order. */
  function Update<K(==), V>(d: Dict<K, V>, e: Dict<K, V>): Dict<K, V>
    decreases |e|
  {
    if e == [] then d else Update(Assign(d, e[0].0, e[0].1), e[1..])
  }

  lemma {:induction false} UpdateUnique<K, V>(d: Dict<K, V>, e: Dict<K, V>)
    requires UniqueKeys(d)
    ensures UniqueKeys(Update(d, e))
    decreases |e|
  {
    if e != [] {
      AssignUnique(d, e[0].0, e[0].1);
      UpdateUnique(Assign(d, e[0].0, e[0].1), e[1..]);
    }
  }

  lemma {:induction false} UpdateMap<K, V>(d: Dict<K, V>, e: Dict<K, V>)
    requires UniqueKeys(e)
    ensures ToMap(Update(d, e)) == ToMap(d) + ToMap(e)
    decreases |e|
  {
    if e != [] {
      var k, v := e[0].0, e[0].1;
      var m, tail := ToMap(d), ToMap(e[1..]);
      assert UniqueKeys(e[1..]) by {
        forall i, j | 0 <= i < j < |e[1..]| ensures e[1..][i].0 != e[1..][j].0 {
          assert e[1..][i] == e[i + 1] && e[1..][j] == e[j + 1];
        }
      }
      assert k !in tail by {
        forall i | 0 <= i < |e[1..]| ensures Keys(e[1..])[i] != k {
          assert e[1..][i] == e[i + 1];
        }
      }
      AssignMap(d, k, v);
      UpdateMap(Assign(d, k, v), e[1..]);
      assert ToMap(e) == tail[k := v];
      UnionUpdateSwap(m, tail, k, v);
    }
  }

  lemma {:induction false} UpdateKeepsOrder<K, V>(d: Dict<K, V>, e: Dict<K, V>)
    ensures Keys(d) <= Keys(Update(d, e))
    decreases |e|
  {
    if e != [] {
      AssignKeys(d, e[0].0, e[0].1);
      UpdateKeepsOrder(Assign(d, e[0].0, e[0].1), e[1..]);
    }
  }

  /** Keys new to `d` are appended in `e`'s order. */
  lemma {:induction false} UpdateFreshKeys<K, V>(d: Dict<K, V>, e: Dict<K, V>)
    requires UniqueKeys(d + e)
    ensures Update(d, e) == d + e
    decreases |e|
  {
    if e != [] {
      var k, v := e[0].0, e[0].1;
      forall i | 0 <= i < |d| ensures Keys(d)[i] != k {
        assert (d + e)[i] == d[i] && (d + e)[|d|] == e[0];
      }
      AssignFresh(d, k, v);
      assert d + e == (d + [(k, v)]) + e[1..];
      UpdateFreshKeys(d + [(k, v)], e[1..]);
    }
  }

  lemma {:induction false} AssignFresh<K, V>(d: Dict<K, V>, k: K, v: V)
    requires k !in Keys(d)
    ensures Assign(d, k, v) == d + [(k, v)]
  {
    if d != [] {
      assert k !in Keys(d[1..]);
      AssignFresh(d[1..], k, v);
      assert d == [d[0]] + d[1..];
    }
  }

  /** `d.pop(k)` without its result: drops the entry for `k`. */
  function Delete<K(==), V>(d: Dict<K, V>, k: K): Dict<K, V>
  {
    if d == [] then []
    else if d[0].0 == k then d[1..]
    else [d[0]] + Delete(d[1..], k)
  }

  lemma {:induction false} DeleteMap<K, V>(d: Dict<K, V>, k: K)
    requires UniqueKeys(d)
    ensures ToMap(Delete(d, k)) == ToMap(d) - {k}
  {
    if d != [] {
      var r := Delete(d, k);
      if d[0].0 == k {
        assert k !in Keys(d[1..]);
        assert ToMap(d[1..])[k := d[0].1] - {k} == ToMap(d[1..]);
      } else {
        assert r[1..] == Delete(d[1..], k);
        DeleteMap(d[1..], k);
        assert (ToMap(d[1..]) - {k})[d[0].0 := d[0].1] == ToMap(d[1..])[d[0].0 := d[0].1] - {k};
      }
    }
  }

  lemma {:induction false} DeleteAbsent<K, V>(d: Dict<K, V>, k: K)
    requires k !in Keys(d)
    ensures Delete(d, k) == d
  {
    if d != [] {
      assert k !in Keys(d[1..]);
      DeleteAbsent(d[1..], k);
      assert d == [d[0]] + d[1..];
    }
  }

  lemma {:induction false} DeleteSubsequence<K, V>(d: Dict<K, V>, k: K)
    ensures Subsequence(Delete(d, k), d)
  {
    if d != [] {
      var r := Delete(d, k);
      if d[0].0 == k {
        SubsequenceReflexive(d[1..]);
        if r != [] {
          assert Subsequence(r, d[1..]);
        }
      } else {
        assert r[1..] == Delete(d[1..], k);
        DeleteSubsequence(d[1..], k);
      }
    }
  }

  /** `dict([(k, v) for k, v in d.items() if k not in names])`. */
  function FilterOut<K(==), V>(d: Dict<K, V>, names: seq<K>): Dict<K, V>
  {
    if d == [] then []
    else (if d[0].0 in names then [] else [d[0]]) + FilterOut(d[1..], names)
  }

  /** The filter keeps exactly the entries whose key is not listed. */
  lemma {:induction false} FilterOutEntries<K, V>(d: Dict<K, V>, names: seq<K>)
    ensures forall i :: 0 <= i < |d| ==> (d[i] in FilterOut(d, names) <==> d[i].0 !in names)
    ensures forall i :: 0 <= i < |FilterOut(d, names)| ==>
      FilterOut(d, names)[i] in d && FilterOut(d, names)[i].0 !in names
  {
    if d != [] {
      FilterOutEntries(d[1..], names);
      var r := FilterOut(d, names);
      var rest := FilterOut(d[1..], names);
      assert r == (if d[0].0 in names then [] else [d[0]]) + rest;
      forall i | 0 <= i < |d|
        ensures d[i] in r <==> d[i].0 !in names
      {
        if i > 0 {
          assert d[i] == d[1..][i - 1];
        }
      }
    }
  }

  lemma {:induction false} FilterOutMap<K, V>(d: Dict<K, V>, names: seq<K>)
    ensures ToMap(FilterOut(d, names)) == ToMap(d) - (set n | n in names)
  {
    if d != [] {
      var r := FilterOut(d, names);
      var rest := FilterOut(d[1..], names);
      var gone := set n | n in names;
      FilterOutMap(d[1..], names);
      assert ToMap(d) == ToMap(d[1..])[d[0].0 := d[0].1];
      if d[0].0 in names {
        assert r == rest;
        assert ToMap(d) - gone == ToMap(d[1..]) - gone;
      } else {
        assert r[0] == d[0] && r[1..] == rest;
        assert ToMap(d) - gone == (ToMap(d[1..]) - gone)[d[0].0 := d[0].1];
      }
    }
  }

  lemma {:induction false} FilterOutUnique<K, V>(d: Dict<K, V>, names: seq<K>)
    requires UniqueKeys(d)
    ensures UniqueKeys(FilterOut(d, names))
  {
    if d != [] {
      var r := FilterOut(d, names);
      var rest := FilterOut(d[1..], names);
      FilterOutUnique(d[1..], names);
      FilterOutEntries(d[1..], names);
      if d[0].0 !in names {
        assert r[0] == d[0] && r[1..] == rest;
        forall j | 0 < j < |r|
          ensures r[0].0 != r[j].0
        {
          assert rest[j - 1] in d[1..];
        }
      } else {
        assert r == rest;
      }
    }
  }

  lemma {:induction false} FilterOutSubsequence<K, V>(d: Dict<K, V>, names: seq<K>)
    ensures Subsequence(FilterOut(d, names), d)
  {
    if d != [] {
      var r := FilterOut(d, names);
      var rest := FilterOut(d[1..], names);
      FilterOutSubsequence(d[1..], names);
      if d[0].0 in names {
        assert r == rest;
      } else {
        assert r[0] == d[0] && r[1..] == rest;
      }
    }
  }

  /** Removing the same names a second time changes nothing. */
  lemma {:induction false} FilterOutIdempotent<K, V>(d: Dict<K, V>, names: seq<K>)
    ensures FilterOut(FilterOut(d, names), names) == FilterOut(d, names)
  {
    if d != [] {
      var rest := FilterOut(d[1..], names);
      FilterOutIdempotent(d[1..], names);
      if d[0].0 in names {
        assert FilterOut(d, names) == rest;
      } else {
        var r := [d[0]] + rest;
        assert r[0] == d[0] && r[1..] == rest;
      }
    }
  }

  /** Removing names that are not keys changes nothing, order included. */
  lemma {:induction false} FilterOutAbsent<K, V>(d: Dict<K, V>, names: seq<K>)
    requires forall n :: n in names ==> n !in ToMap(d)
    ensures FilterOut(d, names) == d
  {
    if d != [] {
      assert d[0].0 in ToMap(d);
      FilterOutAbsent(d[1..], names);
      assert d == [d[0]] + d[1..];
    }
  }

  /** `pop` of one key and filtering out the one-name list agree on a dict. */
  lemma {:induction false} DeleteIsFilterOut<K, V>(d: Dict<K, V>, k: K)
    requires UniqueKeys(d)
    ensures Delete(d, k) == FilterOut(d, [k])
  {
    if d != [] {
      if d[0].0 == k {
        assert k !in Keys(d[1..]);
        FilterOutAbsent(d[1..], [k]);
      } else {
        DeleteIsFilterOut(d[1..], k);
      }
    }
  }
}
