/** Finite sums over sequences, maps and sets: the algebra every book-keeping view rests on. */
module Sums {

  // ---------------------------------------------------------------- sequences

  /** Sum of f over a sequence, peeled from the end so that loops can follow it. */
  ghost function SeqSum<T>(s: seq<T>, f: T -> int): int
  {
    if |s| == 0 then 0 else SeqSum(s[..|s| - 1], f) + f(s[|s| - 1])
  }

  lemma {:induction false} SeqSumConcat<T>(s: seq<T>, t: seq<T>, f: T -> int)
    ensures SeqSum(s + t, f) == SeqSum(s, f) + SeqSum(t, f)
    decreases |t|
  {
    if |t| == 0 {
      assert s + t == s;
    } else {
      assert (s + t)[..|s + t| - 1] == s + t[..|t| - 1];
      SeqSumConcat(s, t[..|t| - 1], f);
    }
  }

  lemma SeqSumOfOne<T>(x: T, f: T -> int)
    ensures SeqSum([x], f) == f(x)
  {
    assert [x][..0] == [];
    assert SeqSum([x][..0], f) == 0;
  }

  lemma SeqSumCut<T>(s: seq<T>, n: nat, f: T -> int)
    requires n <= |s|
    ensures SeqSum(s, f) == SeqSum(s[..n], f) + SeqSum(s[n..], f)
  {
    assert s == s[..n] + s[n..];
    SeqSumConcat(s[..n], s[n..], f);
  }

  lemma SeqSumSplit<T>(s: seq<T>, i: nat, f: T -> int)
    requires i < |s|
    ensures SeqSum(s, f) == SeqSum(s[..i] + s[i + 1..], f) + f(s[i])
  {
    SeqSumCut(s, i + 1, f);
    assert s[..i + 1][..i] == s[..i];
    SeqSumConcat(s[..i], s[i + 1..], f);
  }

  lemma RowsAndLast<T>(s: seq<T>, x: T)
    ensures multiset(s + [x]) == multiset(s) + multiset{x}
  {
  }

  lemma AllButLast<T>(s: seq<T>)
    requires |s| > 0
    ensures multiset(s) == multiset(s[..|s| - 1]) + multiset{s[|s| - 1]}
  {
    RowsAndLast(s[..|s| - 1], s[|s| - 1]);
    assert s == s[..|s| - 1] + [s[|s| - 1]];
  }

  /** A sum does not depend on the order of its terms. */
  lemma {:induction false} SeqSumPermutation<T>(s: seq<T>, t: seq<T>, f: T -> int)
    requires multiset(s) == multiset(t)
    ensures SeqSum(s, f) == SeqSum(t, f)
    decreases |s|
  {
    if |s| == 0 {
      assert |multiset(t)| == 0;
    } else {
      var x := s[|s| - 1];
      assert x in multiset(t);
      var i :| 0 <= i < |t| && t[i] == x;
      var rest := t[..i] + t[i + 1..];
      assert t == t[..i] + [x] + t[i + 1..];
      assert s == s[..|s| - 1] + [x];
      assert multiset(t) == multiset(rest) + multiset{x};
      assert multiset(s) == multiset(s[..|s| - 1]) + multiset{x};
      assert multiset(rest) == multiset(t) - multiset{x} == multiset(s[..|s| - 1]);
      SeqSumPermutation(s[..|s| - 1], rest, f);
      SeqSumSplit(t, i, f);
    }
  }

  // ---------------------------------------------------------------- maps

  /** Some row of a non-empty table. */
  ghost function Pick<K, V>(m: map<K, V>): (k: K)
    requires |m| > 0
    ensures k in m
  {
    var k :| k in m;
    k
  }

  /** Sum of f over the rows of a table, in no particular order. */
  ghost function MapSum<K, V>(m: map<K, V>, f: (K, V) -> int): int
    decreases |m|
  {
    if |m| == 0 then 0 else
      f(Pick(m), m[Pick(m)]) + MapSum(m - {Pick(m)}, f)
  }

  /** Any row can be taken out first. */
  lemma {:induction false} MapSumRemove<K, V>(m: map<K, V>, k: K, f: (K, V) -> int)
    requires k in m
    ensures MapSum(m, f) == f(k, m[k]) + MapSum(m - {k}, f)
    decreases |m|
  {
    var j := Pick(m);
    if j != k {
      MapSumRemove(m - {j}, k, f);
      MapSumRemove(m - {k}, j, f);
      assert m - {j} - {k} == m - {k} - {j};
    }
  }

  lemma MapSumInsert<K, V>(m: map<K, V>, k: K, v: V, f: (K, V) -> int)
    requires k !in m
    ensures MapSum(m[k := v], f) == MapSum(m, f) + f(k, v)
  {
    MapSumRemove(m[k := v], k, f);
    assert m[k := v] - {k} == m;
  }

  lemma MapSumReplace<K, V>(m: map<K, V>, k: K, v: V, f: (K, V) -> int)
    requires k in m
    ensures MapSum(m[k := v], f) == MapSum(m, f) + f(k, v) - f(k, m[k])
  {
    MapSumRemove(m, k, f);
    MapSumRemove(m[k := v], k, f);
    assert m[k := v] - {k} == m - {k};
  }

  /** Writing one row replaces its contribution. */
  lemma MapSumUpdate<K, V>(m: map<K, V>, k: K, v: V, f: (K, V) -> int)
    ensures MapSum(m[k := v], f) == MapSum(m, f) + f(k, v) - (if k in m then f(k, m[k]) else 0)
  {
    if k in m {
      MapSumReplace(m, k, v, f);
    } else {
      MapSumInsert(m, k, v, f);
    }
  }

  lemma {:induction false} MapSumZero<K, V>(m: map<K, V>, f: (K, V) -> int)
    requires forall k :: k in m ==> f(k, m[k]) == 0
    ensures MapSum(m, f) == 0
    decreases |m|
  {
    if |m| > 0 {
      var k :| k in m;
      MapSumRemove(m, k, f);
      MapSumZero(m - {k}, f);
    }
  }

  lemma {:induction false} MapSumNonneg<K, V>(m: map<K, V>, f: (K, V) -> int)
    requires forall k :: k in m ==> f(k, m[k]) >= 0
    ensures MapSum(m, f) >= 0
    decreases |m|
  {
    if |m| > 0 {
      var k :| k in m;
      MapSumRemove(m, k, f);
      MapSumNonneg(m - {k}, f);
    }
  }

  lemma {:induction false} MapSumAdd<K, V>(m: map<K, V>, f: (K, V) -> int, g: (K, V) -> int, h: (K, V) -> int)
    requires forall k :: k in m ==> h(k, m[k]) == f(k, m[k]) + g(k, m[k])
    ensures MapSum(m, h) == MapSum(m, f) + MapSum(m, g)
    decreases |m|
  {
    if |m| > 0 {
      var k :| k in m;
      MapSumRemove(m, k, f);
      MapSumRemove(m, k, g);
      MapSumRemove(m, k, h);
      MapSumAdd(m - {k}, f, g, h);
    }
  }

  lemma MapSumSame<K, V>(m: map<K, V>, f: (K, V) -> int, g: (K, V) -> int)
    requires forall k :: k in m ==> f(k, m[k]) == g(k, m[k])
    ensures MapSum(m, f) == MapSum(m, g)
  {
    var zero := (k: K, v: V) => 0;
    MapSumZero(m, zero);
    MapSumAdd(m, g, zero, f);
  }

  // ---------------------------------------------------------------- sets

  ghost function Member<T>(s: set<T>): (x: T)
    requires s != {}
    ensures x in s
  {
    var x :| x in s;
    x
  }

  /** Sum of f over a set. */
  ghost function SetSum<T>(s: set<T>, f: T -> int): int
    decreases |s|
  {
    if s == {} then 0 else f(Member(s)) + SetSum(s - {Member(s)}, f)
  }

  lemma {:induction false} SetSumRemove<T>(s: set<T>, x: T, f: T -> int)
    requires x in s
    ensures SetSum(s, f) == f(x) + SetSum(s - {x}, f)
    decreases |s|
  {
    var y := Member(s);
    if y != x {
      SetSumRemove(s - {y}, x, f);
      SetSumRemove(s - {x}, y, f);
      assert s - {y} - {x} == s - {x} - {y};
    }
  }

  /** Disjoint parts sum separately. */
  lemma {:induction false} SetSumUnion<T>(s: set<T>, t: set<T>, f: T -> int)
    requires s !! t
    ensures SetSum(s + t, f) == SetSum(s, f) + SetSum(t, f)
    decreases |t|
  {
    if t == {} {
      assert s + t == s;
    } else {
      var x := Member(t);
      SetSumRemove(s + t, x, f);
      assert s + t - {x} == s + (t - {x});
      SetSumUnion(s, t - {x}, f);
    }
  }
}
