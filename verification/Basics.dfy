/** Shared vocabulary: optional values, results, and the sequence and set facts
    that several of the models below rely on. */
module Basics {

  datatype Option<+T> = None | Some(value: T)

  datatype Result<+T, +E> = Ok(value: T) | Err(error: E) {
    predicate IsFailure() {
      Err?
    }

    function PropagateFailure<U>(): Result<U, E>
      requires Err?
    {
      Err(error)
    }

    function Extract(): T
      requires Ok?
    {
      value
    }

    function Map<U>(f: T -> U): Result<U, E> {
      match this
      case Ok(value) => Ok(f(value))
      case Err(error) => Err(error)
    }
  }

  ghost predicate Distinct<T>(s: seq<T>) {
    forall i, j :: 0 <= i < j < |s| ==> s[i] != s[j]
  }

  function Elements<T>(s: seq<T>): set<T> {
    set x | x in s
  }

  /** The elements of `s` outside `gone`, in their old order. */
  function Without<T(==)>(s: seq<T>, gone: set<T>): seq<T> {
    if s == [] then []
    else (if s[0] in gone then [] else [s[0]]) + Without(s[1..], gone)
  }

  lemma WithoutAppend<T>(a: seq<T>, b: seq<T>, gone: set<T>)
    ensures Without(a + b, gone) == Without(a, gone) + Without(b, gone)
  {
    if a == [] {
      assert a + b == b;
    } else {
      assert (a + b)[1..] == a[1..] + b;
      WithoutAppend(a[1..], b, gone);
    }
  }

  lemma WithoutElements<T>(s: seq<T>, gone: set<T>)
    ensures forall x :: x in Without(s, gone) <==> x in s && x !in gone
    ensures |Without(s, gone)| <= |s|
  {
    if s == [] {
    } else {
      WithoutElements(s[1..], gone);
      assert s == [s[0]] + s[1..];
    }
  }

  lemma WithoutNone<T>(s: seq<T>, gone: set<T>)
    requires forall x :: x in s ==> x !in gone
    ensures Without(s, gone) == s
  {
    if s == [] {
    } else {
      WithoutNone(s[1..], gone);
      assert s == [s[0]] + s[1..];
    }
  }

  lemma WithoutAll<T>(s: seq<T>, gone: set<T>)
    requires forall x :: x in s ==> x in gone
    ensures Without(s, gone) == []
  {
    if s == [] {
    } else {
      WithoutAll(s[1..], gone);
    }
  }

  lemma DistinctCons<T>(x: T, s: seq<T>)
    requires Distinct(s) && x !in s
    ensures Distinct([x] + s)
    ensures Elements([x] + s) == {x} + Elements(s)
  {
  }

  /** The cardinality of the elements of a sequence without repeats. */
  lemma DistinctCardinality<T>(s: seq<T>)
    requires Distinct(s)
    ensures |Elements(s)| == |s|
  {
    if s == [] {
    } else {
      var last := |s| - 1;
      DistinctCardinality(s[..last]);
      assert s == s[..last] + [s[last]];
      assert Elements(s) == Elements(s[..last]) + {s[last]};
    }
  }

  lemma SubsetCardinality<T>(a: set<T>, b: set<T>)
    requires a <= b
    ensures |a| <= |b|
    ensures |a| == |b| ==> a == b
  {
    assert b == a + (b - a);
  }

  /** A sequence without repeats, no longer than the set it is drawn from,
      that covers the set is an enumeration of it. */
  lemma DistinctOfSize<T>(s: seq<T>, all: set<T>)
    requires Distinct(s) && Elements(s) <= all && |s| == |all|
    ensures Elements(s) == all
  {
    DistinctCardinality(s);
    SubsetCardinality(Elements(s), all);
  }

  /** The sum of the values of a finite map. */
  ghost function Sum<K(!new)>(m: map<K, int>): int {
    if m.Keys == {} then 0
    else
      var k :| k in m;
      m[k] + Sum(m - {k})
  }

  lemma {:induction false} SumTake<K(!new)>(m: map<K, int>, k: K)
    requires k in m
    ensures Sum(m) == m[k] + Sum(m - {k})
    decreases |m|
  {
    var j :| j in m && Sum(m) == m[j] + Sum(m - {j});
    if j == k {
    } else {
      SumTake(m - {j}, k);
      SumTake(m - {k}, j);
      assert m - {k} - {j} == m - {j} - {k};
    }
  }

  lemma {:induction false} SumEmpty<K(!new)>(m: map<K, int>)
    requires m.Keys == {}
    ensures Sum(m) == 0
  {
  }

  lemma {:induction false} SumPut<K(!new)>(m: map<K, int>, k: K, v: int)
    ensures Sum(m[k := v]) == Sum(m) + v - (if k in m then m[k] else 0)
  {
    SumTake(m[k := v], k);
    assert m[k := v] - {k} == m - {k};
    if k in m {
      SumTake(m, k);
    } else {
      assert m - {k} == m;
    }
  }

  function Restrict<K, V>(m: map<K, V>, keys: set<K>): map<K, V> {
    map k | k in m && k in keys :: m[k]
  }

  lemma {:induction false} SumSplit<K(!new)>(m: map<K, int>, keys: set<K>)
    ensures Sum(m) == Sum(m - keys) + Sum(Restrict(m, keys))
    decreases |m|
  {
    hide Sum;
    if k :| k in m {
      var rest := m - {k};
      SumTake(m, k);
      SumSplit(rest, keys);
      if k in keys {
        SumTake(Restrict(m, keys), k);
        assert Restrict(m, keys) - {k} == Restrict(rest, keys);
        assert m - keys == rest - keys;
      } else {
        SumTake(m - keys, k);
        assert (m - keys) - {k} == rest - keys;
        assert Restrict(m, keys) == Restrict(rest, keys);
      }
    } else {
      SumEmpty(m);
      SumEmpty(m - keys);
      SumEmpty(Restrict(m, keys));
    }
  }

  lemma {:induction false} SumNonNegative<K(!new)>(m: map<K, int>)
    requires forall k :: k in m ==> m[k] >= 0
    ensures Sum(m) >= 0
    decreases |m|
  {
    if m == map[] {
    } else {
      var k :| k in m;
      SumTake(m, k);
      SumNonNegative(m - {k});
    }
  }
}
