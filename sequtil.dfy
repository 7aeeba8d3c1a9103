/**
 * Order-preserving deduplication, as the scripts and the C++ code do it by
 * appending an item only when it is not yet in the output list.
 */
module SeqUtil {
  /** No item occurs twice. */
  predicate NoDup<T(==)>(s: seq<T>) {
    forall i, j :: 0 <= i < j < |s| ==> s[i] != s[j]
  }

  /** Index of the first occurrence of x in s. */
  function FirstIndex<T(==)>(s: seq<T>, x: T): (i: nat)
    requires x in s
    ensures i < |s| && s[i] == x
    ensures forall j :: 0 <= j < i ==> s[j] != x
  {
    if s[0] == x then 0 else 1 + FirstIndex(s[1..], x)
  }

  /** The distinct items of s in first-appearance order. */
  function Distinct<T(==)>(s: seq<T>): seq<T>
  {
    if |s| == 0 then []
    else
      var d := Distinct(s[..|s| - 1]);
      if s[|s| - 1] in d then d else d + [s[|s| - 1]]
  }

  /** Distinct keeps exactly the items of s, once each. */
  lemma {:induction false} DistinctProps<T>(s: seq<T>)
    ensures NoDup(Distinct(s))
    ensures forall x :: x in Distinct(s) <==> x in s
    ensures |Distinct(s)| <= |s|
  {
    if |s| > 0 {
      var p := s[..|s| - 1];
      DistinctProps(p);
      assert s == p + [s[|s| - 1]];
      forall x
        ensures x in s <==> x in p || x == s[|s| - 1]
      {
        if x in s {
          var k :| 0 <= k < |s| && s[k] == x;
          if k < |s| - 1 {
            assert p[k] == x;
          }
        }
      }
    }
  }

  /** Every item of d is in s, and d lists them in the order of their first occurrence in s. */
  predicate FirstOrder<T(==)>(s: seq<T>, d: seq<T>) {
    (forall x :: x in d ==> x in s) &&
    forall i, j :: 0 <= i < j < |d| ==> d[i] in s && d[j] in s && FirstIndex(s, d[i]) < FirstIndex(s, d[j])
  }

  /** Distinct lists items in the order of their first appearance in s. */
  lemma {:induction false} DistinctOrder<T>(s: seq<T>)
    ensures FirstOrder(s, Distinct(s))
  {
    if |s| == 0 {
      assert Distinct(s) == [];
    } else {
      var p := s[..|s| - 1];
      var last := s[|s| - 1];
      assert s == p + [last];
      DistinctOrder(p);
      DistinctProps(p);
      var d := Distinct(p);
      if last !in d {
        assert Distinct(s) == d + [last];
        FirstOrderAppendNew(p, last, d);
      } else {
        assert Distinct(s) == d;
        FirstOrderAppendOld(p, last, d);
      }
    }
  }

  /** Appending an item keeps the first occurrences of the items already there. */
  lemma FirstOrderAppendOld<T>(p: seq<T>, last: T, d: seq<T>)
    requires FirstOrder(p, d)
    ensures FirstOrder(p + [last], d)
  {
    forall x | x in p
      ensures x in p + [last] && FirstIndex(p + [last], x) == FirstIndex(p, x)
    {
      FirstIndexPrefix(p, last, x);
    }
    forall i, j | 0 <= i < j < |d|
      ensures FirstIndex(p + [last], d[i]) < FirstIndex(p + [last], d[j])
    {
      assert d[i] in p && d[j] in p;
    }
  }

  /** A new item appended to s first occurs after every item of d. */
  lemma FirstOrderAppendNew<T>(p: seq<T>, last: T, d: seq<T>)
    requires FirstOrder(p, d) && last !in p
    ensures FirstOrder(p + [last], d + [last])
  {
    var s := p + [last];
    FirstOrderAppendOld(p, last, d);
    FirstIndexLast(p, last);
    var e := d + [last];
    forall i, j | 0 <= i < j < |e|
      ensures e[i] in s && e[j] in s && FirstIndex(s, e[i]) < FirstIndex(s, e[j])
    {
      assert e[i] == d[i] && d[i] in d && d[i] in p;
      FirstIndexPrefix(p, last, d[i]);
      if j < |d| {
        assert e[j] == d[j];
      }
    }
  }

  lemma {:induction false} FirstIndexPrefix<T>(p: seq<T>, y: T, x: T)
    requires x in p
    ensures x in p + [y] && FirstIndex(p + [y], x) == FirstIndex(p, x)
  {
    if p[0] != x {
      assert (p + [y])[1..] == p[1..] + [y];
      FirstIndexPrefix(p[1..], y, x);
    }
  }

  lemma {:induction false} FirstIndexLast<T>(p: seq<T>, y: T)
    requires y !in p
    ensures y in p + [y] && FirstIndex(p + [y], y) == |p|
  {
    if |p| > 0 {
      assert (p + [y])[1..] == p[1..] + [y];
      FirstIndexLast(p[1..], y);
    } else {
      assert p + [y] == [y];
    }
  }

  /** Number of occurrences of x in s. */
  function Count<T(==)>(s: seq<T>, x: T): (n: nat)
    ensures n <= |s|
    ensures n > 0 <==> x in s
  {
    if |s| == 0 then 0 else (if s[|s| - 1] == x then 1 else 0) + Count(s[..|s| - 1], x)
  }

  /** A sequence without duplicates has one distinct item per entry. */
  lemma {:induction false} DistinctOfNoDup<T>(s: seq<T>)
    requires NoDup(s)
    ensures Distinct(s) == s
  {
    if |s| > 0 {
      var p := s[..|s| - 1];
      assert NoDup(p);
      DistinctOfNoDup(p);
      assert s[|s| - 1] !in p;
      assert s == p + [s[|s| - 1]];
    }
  }

  /** The number of distinct items is the size of the set of items. */
  lemma {:induction false} DistinctCardinality<T>(s: seq<T>)
    ensures |Distinct(s)| == |set x | x in s|
  {
    if |s| == 0 {
      assert (set x | x in s) == {};
    } else {
      var p := s[..|s| - 1];
      var last := s[|s| - 1];
      DistinctCardinality(p);
      DistinctProps(p);
      assert s == p + [last];
      var sp := set x | x in p;
      var ss := set x | x in s;
      assert ss == sp + {last};
      if last in Distinct(p) {
        assert last in sp;
        assert ss == sp;
      } else {
        assert last !in sp;
      }
    }
  }

  /** Strictly increasing, as tags handed out by a counter are. */
  predicate Increasing(s: seq<int>) {
    forall i, j :: 0 <= i < j < |s| ==> s[i] < s[j]
  }

  predicate NonDecreasing(s: seq<int>) {
    forall i, j :: 0 <= i < j < |s| ==> s[i] <= s[j]
  }

  lemma AppendIncreasing(s: seq<int>, t: int)
    requires Increasing(s) && |s| > 0 && s[|s| - 1] < t
    ensures Increasing(s + [t])
  {
    var r := s + [t];
    forall i, j | 0 <= i < j < |r|
      ensures r[i] < r[j]
    {
      if j == |r| - 1 && i < |s| - 1 {
        assert s[i] < s[|s| - 1];
      }
    }
  }

  lemma AppendNonDecreasing(s: seq<int>, t: int)
    requires NonDecreasing(s) && |s| > 0 && s[|s| - 1] <= t
    ensures NonDecreasing(s + [t])
  {
    var r := s + [t];
    forall i, j | 0 <= i < j < |r|
      ensures r[i] <= r[j]
    {
      if j == |r| - 1 && i < |s| - 1 {
        assert s[i] <= s[|s| - 1];
      }
    }
  }

  /** Overwriting the first item after a done prefix moves the boundary by one. */
  lemma SpliceUpdate<T>(done: seq<T>, rest: seq<T>, x: T)
    requires |rest| > 0
    ensures (done + rest)[|done| := x] == (done + [x]) + rest[1..]
  {
  }

  /** A count over a positive total, as a fraction. */
  lemma RatioRange(n: nat, d: nat)
    requires 0 < d && n <= d
    ensures 0.0 <= n as real / d as real <= 1.0
    ensures n as real / d as real == 1.0 <==> n == d
    ensures n as real / d as real == 0.0 <==> n == 0
  {
    var q := n as real / d as real;
    assert q * d as real == n as real;
  }
}
