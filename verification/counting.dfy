/**
  Counting facts the matcher's proofs rest on: a list without repeats has as
  many elements as its set, and a subset as large as its superset is the
  whole superset.
*/
module Counting {

  /** No element is listed twice. */
  predicate Distinct<T(==)>(s: seq<T>) {
    forall j, k | 0 <= j < k < |s| :: s[j] != s[k]
  }

  /** A list without repeats has exactly as many elements as its set. */
  lemma {:induction false} DistinctCard<T>(s: seq<T>)
    requires Distinct(s)
    ensures |set x | x in s| == |s|
  {
    if |s| > 0 {
      var init := s[..|s| - 1];
      var last := s[|s| - 1];
      assert Distinct(init);
      DistinctCard(init);
      assert last !in init by {
        forall k | 0 <= k < |init|
          ensures init[k] != last
        {
          assert s[k] == init[k];
        }
      }
      assert (set x | x in s) == (set x | x in init) + {last} by {
        assert forall x :: x in s <==> x in init || x == last;
      }
    }
  }

  /** A list has at least as many elements as its set. */
  lemma {:induction false} SetCardAtMost<T>(s: seq<T>)
    ensures |set x | x in s| <= |s|
  {
    if |s| > 0 {
      var init := s[..|s| - 1];
      SetCardAtMost(init);
      assert (set x | x in s) == (set x | x in init) + {s[|s| - 1]} by {
        assert forall x :: x in s <==> x in init || x == s[|s| - 1];
      }
    }
  }

  /** A subset of a finite set that is at least as large is the whole set. */
  lemma {:induction false} FullSubset<T>(a: set<T>, b: set<T>)
    requires a <= b && |a| >= |b|
    ensures a == b
  {
    if a != b {
      assert !(b <= a);
      var x :| x in b && x !in a;
      assert a <= b - {x};
      SubsetCard(a, b - {x});
    }
  }

  /** A subset is no larger than its superset. */
  lemma {:induction false} SubsetCard<T>(a: set<T>, b: set<T>)
    requires a <= b
    ensures |a| <= |b|
  {
    if a != {} {
      var x :| x in a;
      SubsetCard(a - {x}, b - {x});
    }
  }

  /** A list without repeats drawn from the elements of another list
      without repeats, and at least as long, uses all of them. */
  lemma CoversAll<T>(small: seq<T>, big: seq<T>)
    requires Distinct(small) && Distinct(big)
    requires forall i | 0 <= i < |small| :: small[i] in big
    requires |small| >= |big|
    ensures forall x | x in big :: x in small
  {
    var a := set x | x in small;
    var b := set x | x in big;
    DistinctCard(small);
    DistinctCard(big);
    FullSubset(a, b);
    forall x | x in big
      ensures x in small
    {
      assert x in b;
    }
  }
}
