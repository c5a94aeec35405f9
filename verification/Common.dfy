/** Value types shared by the models. */
module Common {

  datatype Option<+T> = None | Some(value: T)

  datatype Result<+T, +E> = Ok(value: T) | Err(error: E)

  /** Python's `mapping.get(key)`. */
  function Get<K, V>(m: map<K, V>, k: K): (r: Option<V>) {
    if k in m then Some(m[k]) else None
  }

  /** Python's `mapping.pop(key, None)`, as the mapping that is left. */
  function Pop<K, V>(m: map<K, V>, k: K): (r: map<K, V>) {
    map x | x in m && x != k :: m[x]
  }

  /** The last `n` elements, or all of them when there are no more than `n`. */
  function Newest<T>(s: seq<T>, n: nat): (r: seq<T>)
    ensures |r| == if |s| <= n then |s| else n
  {
    if |s| <= n then s else s[|s| - n..]
  }

  lemma Assoc<T>(a: seq<T>, b: seq<T>, c: seq<T>)
    ensures (a + b) + c == a + (b + c)
  {
  }

  /** Concatenation of a sequence of sequences, left to right. */
  function Concat<T>(parts: seq<seq<T>>): (r: seq<T>) {
    if parts == [] then [] else Concat(parts[..|parts| - 1]) + parts[|parts| - 1]
  }

  lemma {:induction false} ConcatAppend<T>(xs: seq<seq<T>>, ys: seq<seq<T>>)
    ensures Concat(xs + ys) == Concat(xs) + Concat(ys)
  {
    if ys == [] {
      assert xs + ys == xs;
    } else {
      var front, last := ys[..|ys| - 1], ys[|ys| - 1];
      ConcatAppend(xs, front);
      ConcatSnoc(xs + front, last);
      ConcatSnoc(front, last);
      assert xs + ys == (xs + front) + [last];
      assert ys == front + [last];
    }
  }

  lemma ConcatSnoc<T>(xs: seq<seq<T>>, last: seq<T>)
    ensures Concat(xs + [last]) == Concat(xs) + last
  {
    assert (xs + [last])[..|xs + [last]| - 1] == xs;
  }

  lemma ConcatOne<T>(s: seq<T>)
    ensures Concat([s]) == s
  {
    ConcatSnoc([], s);
    assert [] + [s] == [s];
  }
}
