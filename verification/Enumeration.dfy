/** Sorted enumerations of finite sets: what ORDER BY yields when the order tells all rows apart. */
module Enumeration {
  import opened Basics

  ghost predicate TotalOn<T(!new)>(less: (T, T) -> bool, s: set<T>) {
    && (forall a :: a in s ==> !less(a, a))
    && (forall a, b :: a in s && b in s && a != b ==> less(a, b) || less(b, a))
    && (forall a, b, c :: a in s && b in s && c in s && less(a, b) && less(b, c) ==> less(a, c))
  }

  ghost predicate Ascending<T(!new)>(less: (T, T) -> bool, rows: seq<T>) {
    forall i, j :: 0 <= i < j < |rows| ==> less(rows[i], rows[j])
  }

  ghost predicate IsFirst<T(!new)>(less: (T, T) -> bool, s: set<T>, first: T) {
    first in s && forall x :: x in s && x != first ==> less(first, x)
  }

  lemma FirstExists<T(!new)>(less: (T, T) -> bool, s: set<T>) returns (first: T)
    requires s != {} && TotalOn(less, s)
    ensures IsFirst(less, s, first)
  {
    var pick :| pick in s;
    var rest := s - {pick};
    assert forall x :: x in s && x != pick ==> x in rest;
    if rest == {} {
      first := pick;
    } else {
      var best := FirstExists(less, rest);
      first := if less(pick, best) then pick else best;
    }
  }

  ghost function First<T(!new)>(less: (T, T) -> bool, s: set<T>): (first: T)
    requires s != {} && TotalOn(less, s)
    ensures IsFirst(less, s, first)
  {
    assert exists first :: IsFirst(less, s, first) by {
      var first := FirstExists(less, s);
      assert IsFirst(less, s, first);
    }
    var first :| IsFirst(less, s, first);
    first
  }

  /** The elements of `s` in ascending order. */
  ghost function Listing<T(!new)>(less: (T, T) -> bool, s: set<T>): seq<T>
    requires TotalOn(less, s)
    decreases |s|
  {
    if s == {} then []
    else
      var first := First(less, s);
      [first] + Listing(less, s - {first})
  }

  lemma {:induction false} AscendingCons<T(!new)>(less: (T, T) -> bool, first: T, rest: seq<T>)
    requires Ascending(less, rest) && forall i :: 0 <= i < |rest| ==> less(first, rest[i])
    ensures Ascending(less, [first] + rest)
    ensures Elements([first] + rest) == {first} + Elements(rest)
  {
    var rows := [first] + rest;
    forall i, j | 0 <= i < j < |rows|
      ensures less(rows[i], rows[j])
    {
      if i > 0 {
        assert rows[i] == rest[i - 1] && rows[j] == rest[j - 1];
      }
    }
  }

  /** A listing enumerates its set in strictly ascending order. */
  lemma {:induction false} ListingAscends<T(!new)>(less: (T, T) -> bool, s: set<T>)
    requires TotalOn(less, s)
    ensures Elements(Listing(less, s)) == s
    ensures Ascending(less, Listing(less, s))
    decreases |s|
  {
    if s == {} {
    } else {
      var first := First(less, s);
      var rest := Listing(less, s - {first});
      ListingAscends(less, s - {first});
      forall i | 0 <= i < |rest|
        ensures less(first, rest[i])
      {
        assert rest[i] in Elements(rest);
      }
      AscendingCons(less, first, rest);
    }
  }

  lemma {:induction false} AscendingTail<T(!new)>(less: (T, T) -> bool, rows: seq<T>)
    requires rows != [] && Ascending(less, rows) && TotalOn(less, Elements(rows))
    ensures Ascending(less, rows[1..])
    ensures Elements(rows[1..]) == Elements(rows) - {rows[0]}
  {
    assert rows == [rows[0]] + rows[1..];
    assert rows[0] in Elements(rows);
  }

  /** Two strictly ascending enumerations of one set are the same sequence. */
  lemma {:induction false} AscendingUnique<T(!new)>(less: (T, T) -> bool, one: seq<T>, two: seq<T>)
    requires Elements(one) == Elements(two) && TotalOn(less, Elements(one))
    requires Ascending(less, one) && Ascending(less, two)
    ensures one == two
    decreases |one|
  {
    assert one != [] ==> one[0] in Elements(two);
    assert two != [] ==> two[0] in Elements(one);
    if one == [] || two == [] {
    } else {
      var i :| 0 <= i < |one| && one[i] == two[0];
      var j :| 0 <= j < |two| && two[j] == one[0];
      assert one[0] in Elements(one);
      assert i == 0 || j == 0;
      AscendingTail(less, one);
      AscendingTail(less, two);
      AscendingUnique(less, one[1..], two[1..]);
      assert one == [one[0]] + one[1..];
      assert two == [two[0]] + two[1..];
    }
  }

  /** An ascending enumeration of a set is its listing. */
  lemma {:induction false} ListingUnique<T(!new)>(less: (T, T) -> bool, s: set<T>, rows: seq<T>)
    requires TotalOn(less, s) && Elements(rows) == s && Ascending(less, rows)
    ensures rows == Listing(less, s)
  {
    ListingAscends(less, s);
    AscendingUnique(less, rows, Listing(less, s));
  }

  lemma {:induction false} AscendingDistinct<T(!new)>(less: (T, T) -> bool, rows: seq<T>)
    requires Ascending(less, rows) && TotalOn(less, Elements(rows))
    ensures Distinct(rows)
  {
    forall i, j | 0 <= i < j < |rows|
      ensures rows[i] != rows[j]
    {
      assert rows[i] in Elements(rows);
    }
  }

  ghost function After<T(!new)>(less: (T, T) -> bool, s: set<T>, last: T): set<T> {
    set x | x in s && less(last, x)
  }

  /** What strictly follows the `k`-th element of an ascending enumeration is its tail. */
  lemma {:induction false} AfterIsTail<T(!new)>(less: (T, T) -> bool, rows: seq<T>, k: nat)
    requires Ascending(less, rows) && k < |rows| && TotalOn(less, Elements(rows))
    ensures After(less, Elements(rows), rows[k]) == Elements(rows[k + 1..])
    ensures Ascending(less, rows[k + 1..])
  {
    assert rows[k] in Elements(rows);
    forall x | x in After(less, Elements(rows), rows[k])
      ensures x in rows[k + 1..]
    {
      var i :| 0 <= i < |rows| && rows[i] == x;
      assert i > k;
      assert rows[k + 1..][i - k - 1] == x;
    }
    forall x | x in rows[k + 1..]
      ensures x in rows && less(rows[k], x)
    {
      var i :| 0 <= i < |rows| - k - 1 && rows[k + 1..][i] == x;
      assert rows[i + k + 1] == x;
    }
  }

  /** Leaving elements out of a listing lists the rest. */
  lemma {:induction false} ListingWithout<T(!new)>(less: (T, T) -> bool, s: set<T>, gone: set<T>)
    requires TotalOn(less, s)
    ensures TotalOn(less, s - gone)
    ensures Without(Listing(less, s), gone) == Listing(less, s - gone)
  {
    ListingAscends(less, s);
    AscendingWithout(less, Listing(less, s), gone);
    WithoutElements(Listing(less, s), gone);
    assert Elements(Without(Listing(less, s), gone)) == s - gone by {
      forall x
        ensures x in Without(Listing(less, s), gone) <==> x in s - gone
      {
        assert x in Listing(less, s) <==> x in Elements(Listing(less, s));
      }
    }
    ListingUnique(less, s - gone, Without(Listing(less, s), gone));
  }

  lemma {:induction false} AscendingWithout<T(!new)>(less: (T, T) -> bool, rows: seq<T>, gone: set<T>)
    requires Ascending(less, rows)
    ensures Ascending(less, Without(rows, gone))
  {
    if rows == [] {
    } else {
      var rest := Without(rows[1..], gone);
      AscendingWithout(less, rows[1..], gone);
      WithoutElements(rows[1..], gone);
      if rows[0] !in gone {
        forall i | 0 <= i < |rest|
          ensures less(rows[0], rest[i])
        {
          assert rest[i] in rows[1..];
        }
        AscendingCons(less, rows[0], rest);
      }
    }
  }
}
