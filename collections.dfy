/**
 * The JavaScript array and object built-ins the components rely on:
 * `Array.prototype.find`, `Array.prototype.filter`, the stable
 * `Array.prototype.sort`, and `Object.entries(o).reduce` summing one
 * number per entry.
 */
module Collections {
  import opened Wrappers

  /** `s.find(p)`: the first element satisfying `p`, if any. */
  function Find<T>(s: seq<T>, p: T -> bool): (r: Option<T>)
    ensures r.None? <==> forall i :: 0 <= i < |s| ==> !p(s[i])
    ensures r.Some? ==> exists i :: 0 <= i < |s| && s[i] == r.value && p(s[i]) &&
                                    forall j :: 0 <= j < i ==> !p(s[j])
  {
    if s == [] then None
    else if p(s[0]) then Some(s[0])
    else
      var r := Find(s[1..], p);
      assert r.Some? ==> exists i :: 0 < i < |s| && s[i] == r.value && p(s[i]) &&
                                     forall j :: 0 <= j < i ==> !p(s[j]) by {
        if r.Some? {
          var i :| 0 <= i < |s| - 1 && s[1..][i] == r.value && p(s[1..][i]) &&
                   forall j :: 0 <= j < i ==> !p(s[1..][j]);
          assert forall j :: 1 <= j < i + 1 ==> s[j] == s[1..][j - 1];
        }
      }
      r
  }

  /** `r` is an order-preserving subsequence of `s`. */
  ghost predicate IsSubsequence<T>(r: seq<T>, s: seq<T>)
    decreases |s|
  {
    r == [] ||
    (s != [] && ((r[0] == s[0] && IsSubsequence(r[1..], s[1..])) || IsSubsequence(r, s[1..])))
  }

  /** `s.filter(keep)`. */
  function Filter<T(==, !new)>(s: seq<T>, keep: T -> bool): (r: seq<T>)
    ensures forall x :: x in r <==> x in s && keep(x)
    ensures IsSubsequence(r, s)
    ensures (forall x :: x in s ==> keep(x)) ==> r == s
    ensures |r| <= |s|
    ensures forall x :: multiset(r)[x] == if keep(x) then multiset(s)[x] else 0
  {
    if s == [] then []
    else
      var tail := Filter(s[1..], keep);
      assert s == [s[0]] + s[1..];
      assert forall x :: x in s <==> x == s[0] || x in s[1..];
      assert multiset(s) == multiset{s[0]} + multiset(s[1..]);
      if keep(s[0]) then
        assert ([s[0]] + tail)[1..] == tail;
        assert multiset([s[0]] + tail) == multiset{s[0]} + multiset(tail);
        [s[0]] + tail
      else tail
  }

  /** A sequence is a subsequence of itself. */
  lemma {:induction false} SubsequenceOfItself<T>(s: seq<T>)
    ensures IsSubsequence(s, s)
    decreases |s|
  {
    if s != [] {
      SubsequenceOfItself(s[1..]);
    }
  }

  /** Every element of a subsequence is an element of the sequence. */
  lemma {:induction false} SubsequenceMembers<T>(r: seq<T>, s: seq<T>)
    requires IsSubsequence(r, s)
    ensures forall x :: x in r ==> x in s
    decreases |s|
  {
    if r != [] {
      if r[0] == s[0] && IsSubsequence(r[1..], s[1..]) {
        SubsequenceMembers(r[1..], s[1..]);
        assert forall x :: x in r ==> x == r[0] || x in r[1..];
      } else {
        SubsequenceMembers(r, s[1..]);
      }
    }
  }

  /** `rel` holds of every two elements of `s` taken in order. */
  ghost predicate Pairwise<T>(s: seq<T>, rel: (T, T) -> bool) {
    forall i, j :: 0 <= i < j < |s| ==> rel(s[i], s[j])
  }

  /** A subsequence keeps every in-order relation of the sequence. */
  lemma {:induction false} SubsequencePairwise<T>(r: seq<T>, s: seq<T>, rel: (T, T) -> bool)
    requires IsSubsequence(r, s) && Pairwise(s, rel)
    ensures Pairwise(r, rel)
    decreases |s|
  {
    if r != [] {
      assert Pairwise(s[1..], rel) by {
        forall i, j | 0 <= i < j < |s| - 1 ensures rel(s[1..][i], s[1..][j]) {
          assert s[1..][i] == s[i + 1] && s[1..][j] == s[j + 1];
        }
      }
      if r[0] == s[0] && IsSubsequence(r[1..], s[1..]) {
        SubsequencePairwise(r[1..], s[1..], rel);
        SubsequenceMembers(r[1..], s[1..]);
        forall i, j | 0 <= i < j < |r| ensures rel(r[i], r[j]) {
          if i == 0 {
            assert r[j] == r[1..][j - 1] && r[1..][j - 1] in r[1..];
            assert r[j] in s[1..];
            var k :| 0 <= k < |s| - 1 && s[1..][k] == r[j];
            assert s[k + 1] == r[j];
          } else {
            assert r[i] == r[1..][i - 1] && r[j] == r[1..][j - 1];
          }
        }
      } else {
        SubsequencePairwise(r, s[1..], rel);
      }
    }
  }

  /** `Filter` on a non-empty sequence: the head, if kept, ahead of the filtered tail. */
  lemma FilterCons<T(!new)>(s: seq<T>, keep: T -> bool)
    requires s != []
    ensures Filter(s, keep) == if keep(s[0]) then [s[0]] + Filter(s[1..], keep) else Filter(s[1..], keep)
  {
  }

  /**
   * Inserting `x` keeps the order of the elements `same` selects, when `x`
   * goes ahead of every element `same` groups with it: `x` lands behind only
   * elements `same` rejects.
   */
  lemma {:induction false} InsertKeepsTies<T(!new)>(x: T, t: seq<T>, before: (T, T) -> bool, same: T -> bool)
    requires same(x) ==> forall y :: same(y) ==> before(x, y)
    ensures Filter(Insert(x, t, before), same) == if same(x) then [x] + Filter(t, same) else Filter(t, same)
  {
    if t == [] || before(x, t[0]) {
      assert ([x] + t)[1..] == t;
    } else {
      var rest := Insert(x, t[1..], before);
      InsertKeepsTies(x, t[1..], before, same);
      assert ([t[0]] + rest)[1..] == rest;
      FilterCons(t, same);
    }
  }

  /**
   * Stability: the elements `same` selects, when `before` holds between any
   * two of them, appear in the sorted sequence in their input order.
   */
  lemma {:induction false} SortByKeepsTies<T(!new)>(s: seq<T>, before: (T, T) -> bool, same: T -> bool)
    requires forall a, b :: same(a) && same(b) ==> before(a, b)
    ensures Filter(SortBy(s, before), same) == Filter(s, same)
  {
    if s != [] {
      var t := SortBy(s[1..], before);
      SortByKeepsTies(s[1..], before, same);
      InsertKeepsTies(s[0], t, before, same);
      assert SortBy(s, before) == Insert(s[0], t, before);
      FilterCons(s, same);
    }
  }

  /** `before(a, b)` relates every two elements one way or the other. */
  ghost predicate Total<T(!new)>(before: (T, T) -> bool) {
    forall a, b :: before(a, b) || before(b, a)
  }

  /** Consecutive elements of `s` are in `before` order. */
  ghost predicate Ordered<T>(s: seq<T>, before: (T, T) -> bool) {
    forall i :: 0 < i < |s| ==> before(s[i - 1], s[i])
  }

  /**
   * Places `x` ahead of the first element it may precede. Inserting the
   * earlier input element ahead of its equals keeps the sort stable.
   */
  function Insert<T>(x: T, s: seq<T>, before: (T, T) -> bool): (r: seq<T>)
    ensures multiset(r) == multiset(s) + multiset{x}
    ensures |r| == |s| + 1
  {
    if s == [] || before(x, s[0]) then [x] + s
    else
      assert s == [s[0]] + s[1..];
      [s[0]] + Insert(x, s[1..], before)
  }

  /** Inserting into an ordered sequence under a total order keeps it ordered. */
  lemma {:induction false} InsertOrdered<T(!new)>(x: T, s: seq<T>, before: (T, T) -> bool)
    requires Total(before) && Ordered(s, before)
    ensures Ordered(Insert(x, s, before), before)
    ensures Insert(x, s, before)[0] == x || Insert(x, s, before)[0] == s[0]
  {
    if s == [] || before(x, s[0]) {
      if s != [] {
        OrderedCons(x, s, before);
      }
    } else {
      var tail := Insert(x, s[1..], before);
      OrderedTail(s, before);
      InsertOrdered(x, s[1..], before);
      assert before(s[0], tail[0]) by {
        assert before(s[0], x);
        if tail[0] != x {
          assert tail[0] == s[1];
        }
      }
      OrderedCons(s[0], tail, before);
    }
  }

  /** The tail of an ordered sequence is ordered. */
  lemma OrderedTail<T>(s: seq<T>, before: (T, T) -> bool)
    requires s != [] && Ordered(s, before)
    ensures Ordered(s[1..], before)
  {
    forall i | 0 < i < |s| - 1 ensures before(s[1..][i - 1], s[1..][i]) {
      assert s[1..][i - 1] == s[i] && s[1..][i] == s[i + 1];
    }
  }

  /** An element ahead of the head of an ordered sequence keeps it ordered. */
  lemma OrderedCons<T>(y: T, t: seq<T>, before: (T, T) -> bool)
    requires t != [] && before(y, t[0]) && Ordered(t, before)
    ensures Ordered([y] + t, before)
  {
    var r := [y] + t;
    forall i | 0 < i < |r| ensures before(r[i - 1], r[i]) {
      if i > 1 {
        assert r[i - 1] == t[i - 2] && r[i] == t[i - 1];
      }
    }
  }

  /**
   * `s.sort(cmp)` where `before(a, b)` is `cmp(a, b) <= 0`: a stable
   * insertion sort.
   */
  function SortBy<T>(s: seq<T>, before: (T, T) -> bool): (r: seq<T>)
    ensures multiset(r) == multiset(s)
    ensures |r| == |s|
  {
    if s == [] then []
    else
      assert s == [s[0]] + s[1..];
      Insert(s[0], SortBy(s[1..], before), before)
  }

  /** Under a total `before` the sorted sequence is ordered. */
  lemma {:induction false} SortByOrdered<T(!new)>(s: seq<T>, before: (T, T) -> bool)
    requires Total(before)
    ensures Ordered(SortBy(s, before), before)
  {
    if s != [] {
      SortByOrdered(s[1..], before);
      InsertOrdered(s[0], SortBy(s[1..], before), before);
    }
  }

  /**
   * When `before` orders its arguments by a numeric key, an ordered
   * sequence is ordered by that key between any two positions.
   */
  lemma {:induction false} OrderedByKey<T>(s: seq<T>, before: (T, T) -> bool, key: T -> real, i: int, j: int)
    requires Ordered(s, before)
    requires forall a, b :: before(a, b) ==> key(a) <= key(b)
    requires 0 <= i <= j < |s|
    ensures key(s[i]) <= key(s[j])
    decreases j - i
  {
    if i < j {
      OrderedByKey(s, before, key, i + 1, j);
      assert before(s[i], s[i + 1]);
    }
  }

  /**
   * `Object.entries(m).reduce((total, [k, v]) => total + f(k, v), 0)`. The
   * order in which the entries are visited does not matter for exact sums.
   */
  ghost function Sum<K, V>(m: map<K, V>, f: (K, V) -> real): real
    decreases |m|
  {
    if m == map[] then 0.0
    else
      var k :| k in m;
      assert |m - {k}| < |m| by { assert m.Keys - {k} < m.Keys; }
      f(k, m[k]) + Sum(m - {k}, f)
  }

  /** Any one entry can be taken out of the sum first. */
  lemma {:induction false} SumRemove<K, V>(m: map<K, V>, f: (K, V) -> real, k: K)
    requires k in m
    ensures Sum(m, f) == f(k, m[k]) + Sum(m - {k}, f)
    decreases |m|
  {
    var j :| j in m && Sum(m, f) == f(j, m[j]) + Sum(m - {j}, f);
    if j != k {
      var mj, mk := m - {j}, m - {k};
      assert |mj| < |m| by { assert mj.Keys < m.Keys; }
      assert |mk| < |m| by { assert mk.Keys < m.Keys; }
      SumRemove(mj, f, k);
      SumRemove(mk, f, j);
      assert mj - {k} == mk - {j};
    }
  }

  /** Replacing or adding one entry changes only that entry's term. */
  lemma SumUpdate<K, V>(m: map<K, V>, f: (K, V) -> real, k: K, v: V)
    ensures Sum(m[k := v], f) == f(k, v) + Sum(m - {k}, f)
  {
    SumRemove(m[k := v], f, k);
    assert m[k := v] - {k} == m - {k};
  }

  /** Replacing (or adding) the entry at `k` changes the sum by the change in its term. */
  lemma SumReplace<K, V>(m: map<K, V>, f: (K, V) -> real, k: K, v: V, delta: real)
    requires f(k, v) == (if k in m then f(k, m[k]) else 0.0) + delta
    ensures Sum(m[k := v], f) == Sum(m, f) + delta
  {
    SumUpdate(m, f, k, v);
    if k in m {
      SumRemove(m, f, k);
    } else {
      assert m - {k} == m;
    }
  }

  /** Sums over the same map of entrywise-equal terms are equal. */
  lemma {:induction false} SumCongruent<K, V>(m: map<K, V>, f: (K, V) -> real, g: (K, V) -> real)
    requires forall k :: k in m ==> f(k, m[k]) == g(k, m[k])
    ensures Sum(m, f) == Sum(m, g)
    decreases |m|
  {
    if m != map[] {
      var k :| k in m;
      SumRemove(m, f, k);
      SumRemove(m, g, k);
      assert |m - {k}| < |m| by { assert (m - {k}).Keys < m.Keys; }
      SumCongruent(m - {k}, f, g);
    }
  }

  /** Entries whose term is zero can be dropped from the sum. */
  lemma {:induction false} SumRestrict<K, V>(m: map<K, V>, f: (K, V) -> real, keep: set<K>)
    requires forall k :: k in m && k !in keep ==> f(k, m[k]) == 0.0
    ensures Sum(m, f) == Sum(map k | k in m && k in keep :: m[k], f)
    decreases |m|
  {
    var r := map k | k in m && k in keep :: m[k];
    if m != map[] {
      var k :| k in m;
      var m' := m - {k};
      assert |m'| < |m| by { assert m'.Keys < m.Keys; }
      SumRemove(m, f, k);
      SumRestrict(m', f, keep);
      var r' := map j | j in m' && j in keep :: m'[j];
      if k in keep {
        SumRemove(r, f, k);
        assert r - {k} == r';
      } else {
        assert r == r';
      }
    }
  }
}
