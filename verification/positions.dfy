/** Facts about finite sets of positions: least and greatest keys, ascending order, ranges. */
module Positions {

  predicate IsLeast(m: int, s: set<int>) {
    m in s && forall x | x in s :: m <= x
  }

  predicate IsGreatest(m: int, s: set<int>) {
    m in s && forall x | x in s :: x <= m
  }

  /** A non-empty set has a member: the one fact set extensionality leaves implicit. */
  lemma Member(s: set<int>) returns (x: int)
    requires s != {}
    ensures x in s
  {
    assert (forall y :: y !in s) ==> s == {};
    x :| x in s;
  }

  lemma {:induction false} LeastExists(s: set<int>)
    requires s != {}
    ensures exists m :: IsLeast(m, s)
    decreases |s|
  {
    var x := Member(s);
    if s == {x} {
      assert IsLeast(x, s);
    } else {
      LeastExists(s - {x});
      assert s == (s - {x}) + {x};
      var m :| IsLeast(m, s - {x});
      if x < m {
        assert IsLeast(x, s);
      } else {
        assert IsLeast(m, s);
      }
    }
  }

  lemma {:induction false} GreatestExists(s: set<int>)
    requires s != {}
    ensures exists m :: IsGreatest(m, s)
    decreases |s|
  {
    var x := Member(s);
    if s == {x} {
      assert IsGreatest(x, s);
    } else {
      GreatestExists(s - {x});
      assert s == (s - {x}) + {x};
      var m :| IsGreatest(m, s - {x});
      if x > m {
        assert IsGreatest(x, s);
      } else {
        assert IsGreatest(m, s);
      }
    }
  }

  /** The smallest element (a sorted map's `firstKey`). */
  function Least(s: set<int>): (m: int)
    requires s != {}
    ensures m in s
    ensures forall x | x in s :: m <= x
  {
    LeastExists(s);
    var m :| IsLeast(m, s);
    m
  }

  /** The largest element (a sorted map's `lastKey`). */
  function Greatest(s: set<int>): (m: int)
    requires s != {}
    ensures m in s
    ensures forall x | x in s :: x <= m
  {
    GreatestExists(s);
    var m :| IsGreatest(m, s);
    m
  }

  predicate StrictlyIncreasing(q: seq<int>) {
    forall i, j | 0 <= i < j < |q| :: q[i] < q[j]
  }

  lemma PrependIncreasing(x: int, q: seq<int>)
    requires StrictlyIncreasing(q)
    requires forall y | y in q :: x < y
    ensures StrictlyIncreasing([x] + q)
  {
    forall i, j | 0 <= i < j < |[x] + q|
      ensures ([x] + q)[i] < ([x] + q)[j]
    {
      assert ([x] + q)[j] == q[j - 1];
      if i > 0 {
        assert ([x] + q)[i] == q[i - 1];
      } else {
        var y := q[j - 1];
        assert y in q;
      }
    }
  }

  /** The elements of `s` in ascending order, as a sorted map iterates its keys. */
  function Ascending(s: set<int>): (q: seq<int>)
    ensures StrictlyIncreasing(q)
    ensures forall x :: x in q <==> x in s
    ensures |q| == |s|
    decreases |s|
  {
    if s == {} then []
    else
      var m := Least(s);
      [m] + Ascending(s - {m})
  }

  lemma EmptyTogether(a: seq<int>, b: seq<int>)
    requires forall x :: x in a <==> x in b
    ensures |a| == 0 <==> |b| == 0
  {
    if |a| > 0 {
      var x := a[0];
      assert x in a;
    }
    if |b| > 0 {
      var y := b[0];
      assert y in b;
    }
  }

  /** Two ascending sequences with the same elements are the same sequence. */
  lemma {:induction false} AscendingUnique(a: seq<int>, b: seq<int>)
    requires StrictlyIncreasing(a) && StrictlyIncreasing(b)
    requires forall x :: x in a <==> x in b
    ensures a == b
    decreases |a|
  {
    EmptyTogether(a, b);
    if |a| == 0 {
    } else {
      assert a[0] == b[0] by {
        var x, y := a[0], b[0];
        assert x in a && y in b;
        var i :| 0 <= i < |a| && a[i] == b[0];
        var j :| 0 <= j < |b| && b[j] == a[0];
        assert a[0] <= a[i];
        assert b[0] <= b[j];
      }
      forall x
        ensures x in a[1..] <==> x in b[1..]
      {
        if x in a[1..] {
          var i :| 1 <= i < |a| && a[i] == x;
          assert x in b;
          assert x != b[0];
        }
        if x in b[1..] {
          var j :| 1 <= j < |b| && b[j] == x;
          assert x in a;
          assert x != a[0];
        }
      }
      AscendingUnique(a[1..], b[1..]);
      assert a == [a[0]] + a[1..];
      assert b == [b[0]] + b[1..];
    }
  }

  /** The positions strictly after `lo` and up to `hi` inclusive. */
  function Between(lo: int, hi: int): (s: set<int>)
    ensures forall k :: k in s <==> lo < k <= hi
  {
    set k | k in Span(lo, hi)
  }

  /** The ascending sequence `lo + 1, lo + 2, ..., hi`. */
  function Span(lo: int, hi: int): (q: seq<int>)
    ensures StrictlyIncreasing(q)
    ensures forall x :: x in q <==> lo < x <= hi
    ensures |q| == if lo < hi then hi - lo else 0
    ensures forall i | 0 <= i < |q| :: q[i] == lo + 1 + i
    decreases hi - lo
  {
    if hi <= lo then [] else Span(lo, hi - 1) + [hi]
  }

  /** Iterating the range `(lo, hi]` of a sorted key set visits `lo + 1, ..., hi`. */
  lemma AscendingBetween(lo: int, hi: int)
    ensures Ascending(Between(lo, hi)) == Span(lo, hi)
  {
    AscendingUnique(Ascending(Between(lo, hi)), Span(lo, hi));
  }

  /** The range `(lo, hi]` holds `hi - lo` positions. */
  lemma BetweenSize(lo: int, hi: int)
    requires lo <= hi
    ensures |Between(lo, hi)| == hi - lo
  {
    AscendingBetween(lo, hi);
  }

  /** A set of positions without gaps. */
  ghost predicate Contiguous(s: set<int>) {
    forall a, b, k | a in s && b in s && a <= k <= b :: k in s
  }

  /** A contiguous non-empty set is exactly the range from its least to its greatest element. */
  lemma ContiguousIsRange(s: set<int>)
    requires s != {} && Contiguous(s)
    ensures s == Between(Least(s) - 1, Greatest(s))
    ensures |s| == Greatest(s) - Least(s) + 1
  {
    var lo, hi := Least(s), Greatest(s);
    forall k | lo <= k <= hi
      ensures k in s
    {
      assert lo in s && hi in s;
    }
    assert s == Between(lo - 1, hi);
    BetweenSize(lo - 1, hi);
  }

  /** Extending a gapless set right after its greatest element keeps it gapless. */
  lemma ContiguousExtend(s: set<int>, head: int, n: nat)
    requires Contiguous(s)
    requires s != {} ==> Greatest(s) == head
    ensures Contiguous(s + Between(head, head + n))
  {
    var t := s + Between(head, head + n);
    forall a, b, k | a in t && b in t && a <= k <= b
      ensures k in t
    {
      if k > head {
        assert k in Between(head, head + n);
      } else {
        assert a in s;
        if b in s {
        } else {
          assert head in s || a > head;
        }
      }
    }
  }
}
