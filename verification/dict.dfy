/** Python's `dict` as the editor registry uses it: a sequence of key/value
    pairs in insertion order. Assigning to an existing key replaces its
    value where it stands; a new key goes to the end; `del` removes the
    entry and closes the gap. */
module Dict {
  import opened Optional

  type Dict<K, V> = seq<(K, V)>

  function Keys<K, V>(d: Dict<K, V>): (r: seq<K>)
    ensures |r| == |d|
    ensures forall i :: 0 <= i < |d| ==> r[i] == d[i].0
  {
    seq(|d|, i requires 0 <= i < |d| => d[i].0)
  }

  /** `list(d.values())`. */
  function Values<K, V>(d: Dict<K, V>): (r: seq<V>)
    ensures |r| == |d|
    ensures forall i :: 0 <= i < |d| ==> r[i] == d[i].1
  {
    seq(|d|, i requires 0 <= i < |d| => d[i].1)
  }

  /** No key occurs twice. */
  ghost predicate Wf<K, V>(d: Dict<K, V>) {
    forall i, j :: 0 <= i < j < |d| ==> d[i].0 != d[j].0
  }

  /** `d.get(k)`. */
  function Get<K(==), V>(d: Dict<K, V>, k: K): (r: Option<V>)
    ensures r.Some? <==> k in Keys(d)
    ensures r.Some? ==> r.value == d[IndexOf(d, k)].1
  {
    if d == [] then None
    else if d[0].0 == k then Some(d[0].1)
    else
      assert Keys(d) == [d[0].0] + Keys(d[1..]);
      Get(d[1..], k)
  }

  /** `d[k] = v`. */
  function Put<K(==), V>(d: Dict<K, V>, k: K, v: V): (r: Dict<K, V>)
    ensures k !in Keys(d) ==> r == d + [(k, v)]
    ensures k in Keys(d) ==> Keys(r) == Keys(d)
  {
    if d == [] then [(k, v)]
    else if d[0].0 == k then [(k, v)] + d[1..]
    else [d[0]] + Put(d[1..], k, v)
  }

  /** `del d[k]` when `k` is present; otherwise `d` unchanged. */
  function Remove<K(==), V>(d: Dict<K, V>, k: K): (r: Dict<K, V>)
    ensures |r| <= |d|
    ensures k !in Keys(r)
  {
    if d == [] then []
    else if d[0].0 == k then Remove(d[1..], k)
    else [d[0]] + Remove(d[1..], k)
  }

  /** The position of `k`, when present. */
  function IndexOf<K(==), V>(d: Dict<K, V>, k: K): (r: nat)
    requires k in Keys(d)
    ensures r < |d| && d[r].0 == k
    ensures forall i :: 0 <= i < r ==> d[i].0 != k
  {
    if d[0].0 == k then 0 else 1 + IndexOf(d[1..], k)
  }

  /** After `d[k] = v`, looking up `k` gives `v` and every other key keeps
      its value. */
  lemma {:induction false} GetPut<K, V>(d: Dict<K, V>, k: K, v: V, k': K)
    ensures Get(Put(d, k, v), k') == if k' == k then Some(v) else Get(d, k')
  {
    if d != [] && d[0].0 != k {
      GetPut(d[1..], k, v, k');
    }
  }

  /** `GetPut` for every key at once. */
  lemma GetPutAll<K, V>(d: Dict<K, V>, k: K, v: V)
    ensures Get(Put(d, k, v), k) == Some(v)
    ensures forall k' :: k' != k ==> Get(Put(d, k, v), k') == Get(d, k')
  {
    GetPut(d, k, v, k);
    forall k' | k' != k ensures Get(Put(d, k, v), k') == Get(d, k') {
      GetPut(d, k, v, k');
    }
  }

  /** `d[k] = v` keeps keys distinct. */
  lemma {:induction false} PutWf<K, V>(d: Dict<K, V>, k: K, v: V)
    requires Wf(d)
    ensures Wf(Put(d, k, v))
  {
    if d != [] && d[0].0 != k {
      PutWf(d[1..], k, v);
      var r := Put(d, k, v);
      assert Keys(r) == [d[0].0] + Keys(Put(d[1..], k, v));
      KeysPut(d[1..], k, v);
    }
  }

  /** `d[k] = v` adds at most `k` to the keys. */
  lemma {:induction false} KeysPut<K, V>(d: Dict<K, V>, k: K, v: V)
    ensures forall x :: x in Keys(Put(d, k, v)) <==> x == k || x in Keys(d)
  {
    if d == [] {
      assert Keys(Put(d, k, v)) == [k];
    } else if d[0].0 == k {
      assert Keys(d)[0] == k;
    } else {
      KeysPut(d[1..], k, v);
      assert Keys(Put(d, k, v)) == [d[0].0] + Keys(Put(d[1..], k, v));
      assert Keys(d) == [d[0].0] + Keys(d[1..]);
    }
  }

  /** With distinct keys, `del d[k]` removes exactly the entry at `k`'s
      position and keeps the others in order. */
  lemma {:induction false} RemoveAt<K, V>(d: Dict<K, V>, k: K)
    requires Wf(d) && k in Keys(d)
    ensures var i := IndexOf(d, k);
            Remove(d, k) == d[..i] + d[i + 1..]
  {
    if d[0].0 == k {
      RemoveAbsent(d[1..], k);
    } else {
      IndexOfTail(d, k);
      RemoveAt(d[1..], k);
      var j := IndexOf(d[1..], k);
      assert Remove(d, k) == [d[0]] + (d[1..][..j] + d[1..][j + 1..]);
      ConsSplice(d, j);
    }
  }

  /** A key not in front is found one place further on in the tail. */
  lemma IndexOfTail<K, V>(d: Dict<K, V>, k: K)
    requires k in Keys(d) && d[0].0 != k
    ensures k in Keys(d[1..]) && IndexOf(d, k) == IndexOf(d[1..], k) + 1
  {
    var j := IndexOf(d, k);
    assert Keys(d[1..])[j - 1] == k;
  }

  /** With distinct keys, `del d[k]` shortens `d` by one and shifts the
      entries after `k`'s position down by one. */
  lemma RemoveShape<K, V>(d: Dict<K, V>, k: K)
    requires Wf(d) && k in Keys(d)
    ensures var p := IndexOf(d, k);
            var r := Remove(d, k);
            && |r| == |d| - 1
            && (forall i :: 0 <= i < |r| ==> r[i] == d[if i < p then i else i + 1])
  {
    RemoveAt(d, k);
  }

  /** `del d[k]` keeps keys distinct, and the remaining keys are the old
      ones other than `k`. */
  lemma RemoveWf<K, V>(d: Dict<K, V>, k: K)
    requires Wf(d)
    ensures Wf(Remove(d, k))
    ensures forall x :: x in Keys(Remove(d, k)) <==> x in Keys(d) && x != k
  {
    if k in Keys(d) {
      RemoveShape(d, k);
      var p := IndexOf(d, k);
      var r := Remove(d, k);
      forall x | x in Keys(d) && x != k ensures x in Keys(r) {
        var j :| 0 <= j < |d| && Keys(d)[j] == x;
        assert j != p;
        assert Keys(r)[if j < p then j else j - 1] == x;
      }
    } else {
      RemoveAbsent(d, k);
    }
  }

  /** `d[k] = v` on a present key replaces the entry where it stands. */
  lemma {:induction false} PutPresent<K, V>(d: Dict<K, V>, k: K, v: V)
    requires k in Keys(d)
    ensures Put(d, k, v) == d[IndexOf(d, k) := (k, v)]
  {
    if d[0].0 != k {
      IndexOfTail(d, k);
      PutPresent(d[1..], k, v);
      var j := IndexOf(d[1..], k);
      assert Put(d, k, v) == [d[0]] + d[1..][j := (k, v)];
      ConsUpdate(d, j, (k, v));
    }
  }

  /** Cutting the tail at `j` is cutting the whole at `j + 1`. */
  lemma ConsSplice<T>(s: seq<T>, j: nat)
    requires j + 1 < |s|
    ensures [s[0]] + (s[1..][..j] + s[1..][j + 1..]) == s[..j + 1] + s[j + 2..]
  {
    assert s[1..][..j] == s[1..j + 1];
    assert s[1..][j + 1..] == s[j + 2..];
  }

  /** Updating the tail at `j` is updating the whole at `j + 1`. */
  lemma ConsUpdate<T>(s: seq<T>, j: nat, x: T)
    requires j + 1 < |s|
    ensures [s[0]] + s[1..][j := x] == s[j + 1 := x]
  {
  }

  /** Appending an entry appends its key and its value. */
  lemma KeysSnoc<K, V>(d: Dict<K, V>, k: K, v: V)
    ensures Keys(d + [(k, v)]) == Keys(d) + [k]
    ensures Values(d + [(k, v)]) == Values(d) + [v]
  {
  }

  /** When the keys of `b` are the values of `a`, deleting entries at the
      same position of both keeps them so. */
  lemma RemovePaired<K, V, W>(a: Dict<K, V>, b: Dict<V, W>, ka: K, kb: V)
    requires Wf(a) && Wf(b) && ka in Keys(a) && kb in Keys(b)
    requires IndexOf(a, ka) == IndexOf(b, kb) && Keys(b) == Values(a)
    ensures Keys(Remove(b, kb)) == Values(Remove(a, ka))
  {
    var p := IndexOf(a, ka);
    RemoveShape(a, ka);
    RemoveShape(b, kb);
    var ra := Remove(a, ka);
    var rb := Remove(b, kb);
    forall i | 0 <= i < |rb| ensures Keys(rb)[i] == Values(ra)[i] {
      var j := if i < p then i else i + 1;
      assert rb[i] == b[j] && ra[i] == a[j];
      assert Keys(b)[j] == Values(a)[j];
    }
  }

  /** `del` of an absent key changes nothing. */
  lemma {:induction false} RemoveAbsent<K, V>(d: Dict<K, V>, k: K)
    requires k !in Keys(d)
    ensures Remove(d, k) == d
  {
    if d != [] {
      assert Keys(d) == [d[0].0] + Keys(d[1..]);
      RemoveAbsent(d[1..], k);
    }
  }
}
