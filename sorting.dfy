/**
 * Ascending sort of integers, as Python's `sorted()` and Rust's
 * `Vec::sort()` produce it on the values the model sorts.
 */
module Sorting {

  predicate SortedAsc(s: seq<int>)
  {
    forall i, j :: 0 <= i < j < |s| ==> s[i] <= s[j]
  }

  /** Places `x` before the first element of `s` that is not smaller. */
  function Insert(x: int, s: seq<int>): seq<int>
  {
    if s == [] || x <= s[0] then [x] + s else [s[0]] + Insert(x, s[1..])
  }

  function Sort(s: seq<int>): seq<int>
  {
    if s == [] then [] else Insert(s[0], Sort(s[1..]))
  }

  lemma {:induction false} InsertMultiset(x: int, s: seq<int>)
    ensures multiset(Insert(x, s)) == multiset{x} + multiset(s)
    decreases |s|
  {
    if s != [] && x > s[0] {
      InsertMultiset(x, s[1..]);
      assert s == [s[0]] + s[1..];
    }
  }

  lemma {:induction false} InsertSorted(x: int, s: seq<int>)
    requires SortedAsc(s)
    ensures SortedAsc(Insert(x, s))
    decreases |s|
  {
    if s != [] && x > s[0] {
      var t := Insert(x, s[1..]);
      InsertSorted(x, s[1..]);
      InsertMultiset(x, s[1..]);
      forall k | 0 <= k < |t| ensures s[0] <= t[k] {
        assert t[k] in multiset(t);
        if t[k] != x {
          assert t[k] in multiset(s[1..]);
          var j :| 0 <= j < |s[1..]| && s[1..][j] == t[k];
          assert s[0] <= s[j + 1];
        }
      }
      var u := [s[0]] + t;
      forall i, j | 0 <= i < j < |u| ensures u[i] <= u[j] {
        if i > 0 { assert u[i] == t[i - 1] && u[j] == t[j - 1]; } else { assert u[j] == t[j - 1]; }
      }
    }
  }

  lemma InsertProperties(x: int, s: seq<int>)
    requires SortedAsc(s)
    ensures SortedAsc(Insert(x, s))
    ensures multiset(Insert(x, s)) == multiset{x} + multiset(s)
  {
    InsertSorted(x, s);
    InsertMultiset(x, s);
  }

  /** The result is ascending and holds exactly the input's elements. */
  lemma {:induction false} SortProperties(s: seq<int>)
    ensures SortedAsc(Sort(s))
    ensures multiset(Sort(s)) == multiset(s)
    decreases |s|
  {
    if s != [] {
      SortProperties(s[1..]);
      InsertProperties(s[0], Sort(s[1..]));
      assert s == [s[0]] + s[1..];
    }
  }

  lemma SortLength(s: seq<int>)
    ensures |Sort(s)| == |s|
  {
    SortProperties(s);
    assert |multiset(Sort(s))| == |multiset(s)|;
  }

  /** Two ascending sequences with the same elements are equal. */
  lemma {:induction false} SortedUnique(a: seq<int>, b: seq<int>)
    requires SortedAsc(a) && SortedAsc(b) && multiset(a) == multiset(b)
    ensures a == b
    decreases |a|
  {
    assert |a| == |multiset(a)| == |multiset(b)| == |b|;
    if a != [] {
      SameFirst(a, b);
      DropFirst(a);
      DropFirst(b);
      SortedUnique(a[1..], b[1..]);
      assert a == [a[0]] + a[1..];
      assert b == [b[0]] + b[1..];
    }
  }

  /** Ascending sequences with the same elements start with the same, least, element. */
  lemma SameFirst(a: seq<int>, b: seq<int>)
    requires SortedAsc(a) && SortedAsc(b) && multiset(a) == multiset(b) && a != []
    ensures b != [] && a[0] == b[0]
  {
    assert a[0] in multiset(b);
    var i :| 0 <= i < |b| && b[i] == a[0];
    assert b[0] in multiset(a);
    var j :| 0 <= j < |a| && a[j] == b[0];
    assert b[0] <= b[i] && a[0] <= a[j];
  }

  /** Dropping the first element keeps the order and removes one copy of it. */
  lemma DropFirst(a: seq<int>)
    requires a != [] && SortedAsc(a)
    ensures SortedAsc(a[1..]) && multiset(a[1..]) == multiset(a) - multiset{a[0]}
  {
    assert a == [a[0]] + a[1..];
  }

  /** Sorting is the one ascending arrangement of its input. */
  lemma SortIsCanonical(s: seq<int>, t: seq<int>)
    requires SortedAsc(t) && multiset(t) == multiset(s)
    ensures Sort(s) == t
  {
    SortProperties(s);
    SortedUnique(Sort(s), t);
  }

  /** Each element of a sequence without repeats occurs once. */
  lemma {:induction false} DistinctOnce(s: seq<int>, x: int)
    requires forall i, j :: 0 <= i < j < |s| ==> s[i] != s[j]
    ensures multiset(s)[x] <= 1
    decreases |s|
  {
    if s != [] {
      assert s == [s[0]] + s[1..];
      DistinctOnce(s[1..], x);
      if x == s[0] {
        assert x !in s[1..] by {
          forall i | 0 <= i < |s[1..]| ensures s[1..][i] != x {
            assert s[1..][i] == s[i + 1];
          }
        }
      }
    }
  }

  /** An element at two positions occurs at least twice. */
  lemma TwiceAt(s: seq<int>, i: nat, j: nat)
    requires i < j < |s| && s[i] == s[j]
    ensures multiset(s)[s[i]] >= 2
  {
    assert s == s[..j] + [s[j]] + s[j + 1..];
    assert s[..j][i] == s[i];
  }

  /**
   * Sorting distinct values gives a strictly ascending sequence with the
   * same elements.
   */
  lemma SortDistinct(s: seq<int>)
    requires forall i, j :: 0 <= i < j < |s| ==> s[i] != s[j]
    ensures forall i, j :: 0 <= i < j < |Sort(s)| ==> Sort(s)[i] < Sort(s)[j]
    ensures forall x :: x in Sort(s) <==> x in s
  {
    var t := Sort(s);
    SortProperties(s);
    forall i, j | 0 <= i < j < |t|
      ensures t[i] < t[j]
    {
      if t[i] == t[j] {
        TwiceAt(t, i, j);
        DistinctOnce(s, t[i]);
        assert false;
      }
    }
    forall x
      ensures x in t <==> x in s
    {
      assert x in t <==> x in multiset(t);
      assert x in s <==> x in multiset(s);
    }
  }

  function Sum(s: seq<int>): int
  {
    if s == [] then 0 else s[0] + Sum(s[1..])
  }

  lemma {:induction false} SumSnoc(s: seq<int>, x: int)
    ensures Sum(s + [x]) == Sum(s) + x
    decreases |s|
  {
    if s != [] {
      assert (s + [x])[1..] == s[1..] + [x];
      SumSnoc(s[1..], x);
    }
  }
}
