/**
 * Python's insertion-ordered `dict` with string keys, as a sequence of key/value pairs.
 * Assigning to a key that is already present keeps its position.
 */
module Dict {
  import opened Wrappers

  type Dict<V> = seq<(string, V)>

  function Keys<V>(d: Dict<V>): (r: seq<string>)
    ensures |r| == |d|
  {
    if d == [] then [] else [d[0].0] + Keys(d[1..])
  }

  predicate Distinct(ks: seq<string>)
  {
    forall i, j :: 0 <= i < j < |ks| ==> ks[i] != ks[j]
  }

  /** Entry `i` is the first one with key `k`. */
  predicate FirstWithKey<V>(d: Dict<V>, i: int, k: string)
  {
    0 <= i < |d| && d[i].0 == k && forall j :: 0 <= j < i ==> d[j].0 != k
  }

  /** `d.get(k)`: the value of the entry holding `k`, or `None`. */
  function Get<V>(d: Dict<V>, k: string): (r: Option<V>)
    ensures r.Some? <==> k in Keys(d)
    ensures r.Some? ==> exists i :: FirstWithKey(d, i, k) && d[i].1 == r.value
  {
    if d == [] then None
    else if d[0].0 == k then
      assert FirstWithKey(d, 0, k);
      Some(d[0].1)
    else
      var r := Get(d[1..], k);
      assert r.Some? ==> exists i :: FirstWithKey(d, i, k) && d[i].1 == r.value by {
        if r.Some? {
          var i :| FirstWithKey(d[1..], i, k) && d[1..][i].1 == r.value;
          assert FirstWithKey(d, i + 1, k);
        }
      }
      r
  }

  /** `d[k] = v`: the new value is found under `k`, every other key keeps its value. */
  function Put<V>(d: Dict<V>, k: string, v: V): (r: Dict<V>)
    ensures Get(r, k) == Some(v)
    ensures forall k' :: k' != k ==> Get(r, k') == Get(d, k')
  {
    if d == [] then [(k, v)]
    else if d[0].0 == k then [(k, v)] + d[1..]
    else
      var r := [d[0]] + Put(d[1..], k, v);
      assert r[1..] == Put(d[1..], k, v);
      r
  }

  /** A present key keeps its place; a new key goes last. */
  lemma {:induction false} PutKeys<V>(d: Dict<V>, k: string, v: V)
    ensures k in Keys(d) ==> Keys(Put(d, k, v)) == Keys(d)
    ensures k !in Keys(d) ==> Keys(Put(d, k, v)) == Keys(d) + [k]
  {
    if d != [] && d[0].0 != k {
      PutKeys(d[1..], k, v);
      assert Put(d, k, v)[1..] == Put(d[1..], k, v);
    }
  }

  /** Assignment never duplicates a key. */
  lemma PutDistinct<V>(d: Dict<V>, k: string, v: V)
    requires Distinct(Keys(d))
    ensures Distinct(Keys(Put(d, k, v)))
  {
    PutKeys(d, k, v);
  }
}
