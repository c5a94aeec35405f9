/** Python's insertion-ordered dictionary, as the sequence of its entries, oldest first. */
module OrderedDict {
  import opened Common

  datatype Entry<K, V> = Entry(key: K, val: V)

  type Dict<K, V> = seq<Entry<K, V>>

  ghost predicate Unique<K, V>(d: Dict<K, V>) {
    forall i, j :: 0 <= i < j < |d| ==> d[i].key != d[j].key
  }

  predicate Has<K(==), V>(d: Dict<K, V>, k: K) {
    exists i :: 0 <= i < |d| && d[i].key == k
  }

  /** `d.get(k)`: with unique keys there is only one entry to find. */
  function Find<K(==), V>(d: Dict<K, V>, k: K): (r: Option<V>)
    ensures r.Some? <==> Has(d, k)
    ensures r.Some? ==> Entry(k, r.value) in d
  {
    if d == [] then None
    else if d[0].key == k then Some(d[0].val)
    else
      assert forall i :: 0 < i < |d| ==> d[i] == d[1..][i - 1];
      Find(d[1..], k)
  }

  /** The entries satisfying `p`, in order: what deleting all the others leaves. */
  function Keep<K(!new), V(!new)>(d: Dict<K, V>, p: Entry<K, V> -> bool): (r: Dict<K, V>)
    ensures |r| <= |d|
  {
    if d == [] then []
    else Keep(d[..|d| - 1], p) + (if p(d[|d| - 1]) then [d[|d| - 1]] else [])
  }

  function Other<K(==), V>(k: K): Entry<K, V> -> bool {
    (e: Entry<K, V>) => e.key != k
  }

  /** `d.pop(k, None)`, as what is left. */
  function Remove<K(==, !new), V(!new)>(d: Dict<K, V>, k: K): (r: Dict<K, V>) {
    Keep(d, Other(k))
  }

  /** `d[k] = v` for a key that is present: its position does not change. */
  function Replace<K(==), V>(d: Dict<K, V>, k: K, v: V): (r: Dict<K, V>) {
    seq(|d|, i requires 0 <= i < |d| => if d[i].key == k then Entry(k, v) else d[i])
  }

  lemma {:induction false} KeepMembers<K(!new), V(!new)>(d: Dict<K, V>, p: Entry<K, V> -> bool)
    ensures forall e :: e in Keep(d, p) <==> e in d && p(e)
  {
    if d != [] {
      KeepMembers(d[..|d| - 1], p);
      assert d == d[..|d| - 1] + [d[|d| - 1]];
    }
  }

  lemma {:induction false} KeepUnique<K(!new), V(!new)>(d: Dict<K, V>, p: Entry<K, V> -> bool)
    requires Unique(d)
    ensures Unique(Keep(d, p))
  {
    if d != [] {
      var front := d[..|d| - 1];
      KeepUnique(front, p);
      KeepMembers(front, p);
      forall i | 0 <= i < |Keep(front, p)| ensures Keep(front, p)[i].key != d[|d| - 1].key {
        assert Keep(front, p)[i] in front;
      }
    }
  }

  lemma {:induction false} KeepAppend<K(!new), V(!new)>(a: Dict<K, V>, b: Dict<K, V>, p: Entry<K, V> -> bool)
    ensures Keep(a + b, p) == Keep(a, p) + Keep(b, p)
  {
    if b == [] {
      assert a + b == a;
    } else {
      assert (a + b)[..|a + b| - 1] == a + b[..|b| - 1];
      KeepAppend(a, b[..|b| - 1], p);
    }
  }

  lemma {:induction false} KeepAll<K(!new), V(!new)>(d: Dict<K, V>, p: Entry<K, V> -> bool)
    requires forall e :: e in d ==> p(e)
    ensures Keep(d, p) == d
  {
    if d != [] {
      assert d == d[..|d| - 1] + [d[|d| - 1]];
      KeepAll(d[..|d| - 1], p);
    }
  }

  lemma {:induction false} KeepNone<K(!new), V(!new)>(d: Dict<K, V>, p: Entry<K, V> -> bool)
    requires forall e :: e in d ==> !p(e)
    ensures Keep(d, p) == []
  {
    if d != [] {
      assert d == d[..|d| - 1] + [d[|d| - 1]];
      KeepNone(d[..|d| - 1], p);
    }
  }

  /** In a dictionary, the entry between `a` and `b` is among the newest `n` exactly when `b` is shorter. */
  lemma NewestSplit<K(!new), V(!new)>(a: Dict<K, V>, e: Entry<K, V>, b: Dict<K, V>, n: nat)
    requires Unique(a + [e] + b)
    ensures e in Newest(a + [e] + b, n) <==> |b| < n
  {
    var all := a + [e] + b;
    var cut := |all| - |Newest(all, n)|;
    assert all[|a|] == e;
    if |b| < n {
      assert Newest(all, n)[|a| - cut] == e;
    } else {
      forall j | 0 <= j < |Newest(all, n)| ensures Newest(all, n)[j] != e {
        assert Newest(all, n)[j] == all[j + cut];
      }
    }
  }

  /** Keeping the newest `n` survivors keeps exactly the survivors followed by fewer than `n` others. */
  lemma NewestSurvivors<K(!new), V(!new)>(d: Dict<K, V>, p: Entry<K, V> -> bool, n: nat, i: nat)
    requires Unique(d) && i < |d|
    ensures d[i] in Newest(Keep(d, p), n) <==> p(d[i]) && |Keep(d[i + 1..], p)| < n
  {
    KeepUnique(d, p);
    var before, after := Keep(d[..i], p), Keep(d[i + 1..], p);
    assert d == d[..i] + [d[i]] + d[i + 1..];
    KeepAppend(d[..i] + [d[i]], d[i + 1..], p);
    KeepAppend(d[..i], [d[i]], p);
    if p(d[i]) {
      KeepAll([d[i]], p);
      NewestSplit(before, d[i], after, n);
    } else {
      KeepMembers(d, p);
      assert forall e :: e in Newest(Keep(d, p), n) ==> e in Keep(d, p);
    }
  }
}
