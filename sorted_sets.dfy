/**
 * Sets of customer ids and their ascending listing, the `set(...)` and
 * `sorted(list(...))` steps the reconciliation is built from.
 */
module SortedSets {

  /** Every element is strictly smaller than every element after it. */
  predicate StrictlyIncreasing(s: seq<int>) {
    forall i, j | 0 <= i < j < |s| :: s[i] < s[j]
  }

  /** No value occurs twice in `xs`. */
  predicate NoRepeats(xs: seq<int>) {
    forall i, j | 0 <= i < j < |xs| :: xs[i] != xs[j]
  }

  /** The distinct values of a list: Python's `set(xs)`. */
  function SetOf(xs: seq<int>): set<int> {
    set x | x in xs
  }

  /** `m` is the least element of `s`. */
  predicate IsLeast(m: int, s: set<int>) {
    m in s && forall x | x in s :: m <= x
  }

  /** A non-empty finite set of integers has a least element. */
  lemma {:induction false} LeastExists(s: set<int>)
    requires s != {}
    ensures exists m :: IsLeast(m, s)
  {
    assert (forall x :: x !in s) ==> s == {};
    var y :| y in s;
    var rest := s - {y};
    if rest == {} {
      forall x | x in s
        ensures y <= x
      {
        assert x !in rest;
      }
      assert IsLeast(y, s);
    } else {
      LeastExists(rest);
      var m :| IsLeast(m, rest);
      assert forall x | x in s :: x == y || x in rest;
      if y < m {
        assert IsLeast(y, s);
      } else {
        assert IsLeast(m, s);
      }
    }
  }

  /** The least element of a non-empty set (it is unique, so this is deterministic). */
  function Least(s: set<int>): (m: int)
    requires s != {}
    ensures m in s
    ensures forall x | x in s :: m <= x
  {
    LeastExists(s);
    var m :| IsLeast(m, s); m
  }

  /**
   * The elements of `s` listed in ascending order, each once: what
   * `sorted(list(s))` returns for a set of ints.
   */
  function SortedSeqOf(s: set<int>): (r: seq<int>)
    ensures StrictlyIncreasing(r)
    ensures forall x :: x in r <==> x in s
    ensures |r| == |s|
    decreases s
  {
    if s == {} then []
    else
      var m := Least(s);
      [m] + SortedSeqOf(s - {m})
  }

  /**
   * The head of a non-empty strictly increasing list is its least element,
   * and its tail holds exactly the elements above the head.
   */
  lemma HeadAndTail(a: seq<int>)
    requires StrictlyIncreasing(a) && a != []
    ensures forall x | x in a :: a[0] <= x
    ensures forall x :: x in a[1..] <==> x in a && a[0] < x
  {
    forall x | x in a
      ensures a[0] <= x
      ensures x in a[1..] <==> a[0] < x
    {
      var k :| 0 <= k < |a| && a[k] == x;
      if k > 0 {
        assert a[1..][k - 1] == x;
      }
    }
  }

  /** Two strictly increasing lists with the same elements are the same list. */
  lemma {:induction false} StrictlyIncreasingUnique(a: seq<int>, b: seq<int>)
    requires StrictlyIncreasing(a) && StrictlyIncreasing(b)
    requires forall x :: x in a <==> x in b
    ensures a == b
  {
    assert b != [] ==> b[0] in b;
    if a != [] {
      assert a[0] in a;
      HeadAndTail(a);
      HeadAndTail(b);
      assert a[0] == b[0];
      assert forall x :: x in a[1..] <==> x in b[1..];
      StrictlyIncreasingUnique(a[1..], b[1..]);
      assert a == [a[0]] + a[1..] && b == [b[0]] + b[1..];
    }
  }

  /** Sorting the distinct values of an already ascending list gives that list back. */
  lemma SortedSeqOfAscending(xs: seq<int>)
    requires StrictlyIncreasing(xs)
    ensures SortedSeqOf(SetOf(xs)) == xs
  {
    StrictlyIncreasingUnique(SortedSeqOf(SetOf(xs)), xs);
  }

  /**
   * A list has at most as many distinct values as elements, and exactly as
   * many when no value is repeated.
   */
  lemma {:induction false} SetOfSize(xs: seq<int>)
    ensures |SetOf(xs)| <= |xs|
    ensures |SetOf(xs)| == |xs| <==> NoRepeats(xs)
  {
    if xs != [] {
      var tail := xs[1..];
      SetOfSize(tail);
      SetOfCons(xs);
      NoRepeatsCons(xs);
      if xs[0] in tail {
        assert SetOf(xs) == SetOf(tail);
      } else {
        assert xs[0] !in SetOf(tail);
        assert |SetOf(xs)| == |SetOf(tail)| + 1;
      }
    }
  }

  /** The values of a non-empty list are its head and the values of its tail. */
  lemma SetOfCons(xs: seq<int>)
    requires xs != []
    ensures SetOf(xs) == {xs[0]} + SetOf(xs[1..])
  {
    assert xs == [xs[0]] + xs[1..];
  }

  /** A non-empty list repeats nothing exactly when its head is not in its tail and its tail repeats nothing. */
  lemma NoRepeatsCons(xs: seq<int>)
    requires xs != []
    ensures NoRepeats(xs) <==> xs[0] !in xs[1..] && NoRepeats(xs[1..])
  {
    var tail := xs[1..];
    if xs[0] in tail {
      var k :| 0 <= k < |tail| && tail[k] == xs[0];
      assert xs[0] == xs[k + 1];
    } else if NoRepeats(tail) {
      forall i, j | 0 <= i < j < |xs|
        ensures xs[i] != xs[j]
      {
        if i == 0 {
          assert xs[j] == tail[j - 1];
        } else {
          assert xs[i] == tail[i - 1] && xs[j] == tail[j - 1];
        }
      }
    } else {
      var i, j :| 0 <= i < j < |tail| && tail[i] == tail[j];
      assert xs[i + 1] == xs[j + 1];
    }
  }

  /** A strictly increasing listing of a set is exactly as long as the set is large. */
  lemma ListingSize(xs: seq<int>, s: set<int>)
    requires StrictlyIncreasing(xs)
    requires forall x :: x in xs <==> x in s
    ensures |xs| == |s|
  {
    forall x
      ensures x in SetOf(xs) <==> x in s
    {
    }
    assert SetOf(xs) == s;
    SetOfSize(xs);
    assert NoRepeats(xs);
  }
}
