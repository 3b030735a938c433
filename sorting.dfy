/**
 * Python's `sorted(xs, key=key)` for a natural-number key: a stable sort,
 * modelled as insertion sort.
 */
module Sorting {
  predicate SortedBy<T>(s: seq<(nat, T)>)
  {
    forall i, j :: 0 <= i < j < |s| ==> s[i].0 <= s[j].0
  }

  /** Puts `x` after every element whose key is not larger. */
  function Insert<T>(x: (nat, T), t: seq<(nat, T)>): (r: seq<(nat, T)>)
    ensures |r| == |t| + 1
  {
    if t == [] then [x]
    else if x.0 < t[0].0 then [x] + t
    else [t[0]] + Insert(x, t[1..])
  }

  lemma {:induction false} InsertPermutes<T>(x: (nat, T), t: seq<(nat, T)>)
    ensures multiset(Insert(x, t)) == multiset(t) + multiset{x}
  {
    if t != [] && x.0 >= t[0].0 {
      InsertPermutes(x, t[1..]);
      assert t == [t[0]] + t[1..];
    }
  }

  /** A lower bound on the keys of `x` and of `t` bounds the keys of the result. */
  lemma {:induction false} InsertBound<T>(x: (nat, T), t: seq<(nat, T)>, b: nat)
    requires b <= x.0 && forall i :: 0 <= i < |t| ==> b <= t[i].0
    ensures forall i :: 0 <= i < |Insert(x, t)| ==> b <= Insert(x, t)[i].0
  {
    if t != [] && x.0 >= t[0].0 {
      InsertBound(x, t[1..], b);
    }
  }

  lemma {:induction false} InsertSorted<T>(x: (nat, T), t: seq<(nat, T)>)
    requires SortedBy(t)
    ensures SortedBy(Insert(x, t))
  {
    if t != [] && x.0 >= t[0].0 {
      InsertSorted(x, t[1..]);
      InsertBound(x, t[1..], t[0].0);
      var r := Insert(x, t);
      assert r == [t[0]] + Insert(x, t[1..]);
    }
  }

  /** `sorted(s, key=key)`. */
  function SortBy<T>(s: seq<(nat, T)>): (r: seq<(nat, T)>)
    ensures |r| == |s|
  {
    if s == [] then [] else Insert(s[|s| - 1], SortBy(s[..|s| - 1]))
  }

  /** The result is a permutation of the input. */
  lemma {:induction false} SortByPermutes<T>(s: seq<(nat, T)>)
    ensures multiset(SortBy(s)) == multiset(s)
  {
    if s != [] {
      SortByPermutes(s[..|s| - 1]);
      InsertPermutes(s[|s| - 1], SortBy(s[..|s| - 1]));
      assert s == s[..|s| - 1] + [s[|s| - 1]];
    }
  }

  /** The result is ordered by key. */
  lemma {:induction false} SortBySorted<T>(s: seq<(nat, T)>)
    ensures SortedBy(SortBy(s))
  {
    if s != [] {
      SortBySorted(s[..|s| - 1]);
      InsertSorted(s[|s| - 1], SortBy(s[..|s| - 1]));
    }
  }

  /** The elements with key `k`, in order. */
  function WithKey<T>(s: seq<(nat, T)>, k: nat): seq<(nat, T)>
  {
    if s == [] then []
    else (if s[0].0 == k then [s[0]] else []) + WithKey(s[1..], k)
  }

  lemma {:induction false} WithKeyAppend<T>(a: seq<(nat, T)>, b: seq<(nat, T)>, k: nat)
    ensures WithKey(a + b, k) == WithKey(a, k) + WithKey(b, k)
  {
    if a == [] {
      assert a + b == b;
    } else {
      var h := if a[0].0 == k then [a[0]] else [];
      assert (a + b)[0] == a[0];
      assert (a + b)[1..] == a[1..] + b;
      assert WithKey(a + b, k) == h + WithKey(a[1..] + b, k);
      WithKeyAppend(a[1..], b, k);
      assert h + (WithKey(a[1..], k) + WithKey(b, k)) == (h + WithKey(a[1..], k)) + WithKey(b, k);
    }
  }

  lemma WithKeyOne<T>(x: (nat, T), k: nat)
    ensures WithKey([x], k) == if x.0 == k then [x] else []
  {
    assert [x][1..] == [];
  }

  lemma {:induction false} WithKeyNone<T>(s: seq<(nat, T)>, k: nat)
    requires forall i :: 0 <= i < |s| ==> s[i].0 != k
    ensures WithKey(s, k) == []
  {
    if s != [] {
      WithKeyNone(s[1..], k);
    }
  }

  lemma {:induction false} InsertWithKey<T>(x: (nat, T), t: seq<(nat, T)>, k: nat)
    requires SortedBy(t)
    ensures WithKey(Insert(x, t), k) == WithKey(t, k) + (if x.0 == k then [x] else [])
  {
    if t == [] {
      WithKeyOne(x, k);
    } else if x.0 < t[0].0 {
      var r := [x] + t;
      assert r[1..] == t;
      if x.0 == k {
        WithKeyNone(t, k);
      }
    } else {
      InsertWithKey(x, t[1..], k);
      var r := [t[0]] + Insert(x, t[1..]);
      assert r[1..] == Insert(x, t[1..]);
    }
  }

  /**
   * The sort is stable: the elements sharing a key keep their input order.
   * With sortedness and the permutation property this fixes the output.
   */
  lemma {:induction false} SortStable<T>(s: seq<(nat, T)>, k: nat)
    ensures WithKey(SortBy(s), k) == WithKey(s, k)
  {
    if s != [] {
      var front, last := s[..|s| - 1], s[|s| - 1];
      var sorted := SortBy(front);
      SortStable(front, k);
      SortBySorted(front);
      InsertWithKey(last, sorted, k);
      assert s == front + [last];
      WithKeyAppend(front, [last], k);
      WithKeyOne(last, k);
    }
  }

  /** The elements whose payload satisfies `p`, in order. */
  function Filter<T>(s: seq<(nat, T)>, p: T -> bool): (r: seq<(nat, T)>)
    ensures |r| <= |s|
  {
    if s == [] then [] else (if p(s[0].1) then [s[0]] else []) + Filter(s[1..], p)
  }

  lemma {:induction false} FilterAppend<T>(a: seq<(nat, T)>, b: seq<(nat, T)>, p: T -> bool)
    ensures Filter(a + b, p) == Filter(a, p) + Filter(b, p)
  {
    if a == [] {
      assert a + b == b;
    } else {
      var h := if p(a[0].1) then [a[0]] else [];
      assert (a + b)[0] == a[0];
      assert (a + b)[1..] == a[1..] + b;
      assert Filter(a + b, p) == h + Filter(a[1..] + b, p);
      FilterAppend(a[1..], b, p);
      assert h + (Filter(a[1..], p) + Filter(b, p)) == (h + Filter(a[1..], p)) + Filter(b, p);
    }
  }

  /** A lower bound on the keys survives filtering. */
  lemma {:induction false} FilterBound<T>(s: seq<(nat, T)>, p: T -> bool, b: nat)
    requires forall i :: 0 <= i < |s| ==> b <= s[i].0
    ensures forall i :: 0 <= i < |Filter(s, p)| ==> b <= Filter(s, p)[i].0
  {
    if s != [] {
      FilterBound(s[1..], p, b);
    }
  }

  /** Filtering after an insertion is inserting into the filtered sequence. */
  lemma {:induction false} InsertFilter<T>(x: (nat, T), t: seq<(nat, T)>, p: T -> bool)
    requires SortedBy(t)
    ensures Filter(Insert(x, t), p) == if p(x.1) then Insert(x, Filter(t, p)) else Filter(t, p)
  {
    if t == [] {
    } else if x.0 < t[0].0 {
      var f := Filter(t, p);
      assert ([x] + t)[1..] == t;
      FilterBound(t, p, t[0].0);
    } else {
      InsertFilter(x, t[1..], p);
      var i := Insert(x, t);
      assert i == [t[0]] + Insert(x, t[1..]);
      assert i[0] == t[0] && i[1..] == Insert(x, t[1..]);
      var f := Filter(t[1..], p);
      if p(t[0].1) {
        assert Filter(t, p) == [t[0]] + f;
        if p(x.1) {
          assert Insert(x, [t[0]] + f) == [t[0]] + Insert(x, f) by {
            assert ([t[0]] + f)[0] == t[0] && ([t[0]] + f)[1..] == f;
          }
        }
      } else {
        assert Filter(t, p) == f;
      }
    }
  }

  /** Filtering commutes with the stable sort. */
  lemma {:induction false} SortByFilter<T>(s: seq<(nat, T)>, p: T -> bool)
    ensures Filter(SortBy(s), p) == SortBy(Filter(s, p))
  {
    if s != [] {
      var front, last := s[..|s| - 1], s[|s| - 1];
      assert s == front + [last];
      SortByFilter(front, p);
      SortBySorted(front);
      InsertFilter(last, SortBy(front), p);
      FilterAppend(front, [last], p);
      var one: seq<(nat, T)> := [last];
      assert one[1..] == [];
      var f := Filter(s, p);
      if p(last.1) {
        assert f[..|f| - 1] == Filter(front, p);
      } else {
        assert f == Filter(front, p);
      }
    }
  }
}
