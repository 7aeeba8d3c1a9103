/**
 * The similarity measures shared by PyScripts/antigen_similiraty.py,
 * PyScripts/anti_gen_similiraty.py and PyScripts/MHC_similiraty.py, which
 * define them line for line alike: the Hamming distance, the in-a-row
 * similarity of two bit strings, and the pairwise comparison arrays built by
 * index within one individual and between two individuals.
 *
 * Bit strings are the texts the scripts read from a genome file. numpy's
 * float arrays hold whole numbers here, so they are `seq<nat>`/`seq<int>`;
 * `np.NaN` returned from an exception handler is `None`.
 */
module Similarity {
  import opened Wrappers

  // ----- hamming_distance -----

  /** The number of positions at which two equal-length texts differ. */
  function Mismatches(s1: string, s2: string): (n: nat)
    requires |s1| == |s2|
    ensures n <= |s1|
  {
    if s1 == [] then 0
    else Mismatches(s1[..|s1| - 1], s2[..|s2| - 1]) + (if s1[|s1| - 1] != s2[|s2| - 1] then 1 else 0)
  }

  /**
   * `hamming_distance(s1, s2)`: ValueError for texts of different lengths,
   * otherwise the number of mismatching positions.
   */
  function HammingDistance(s1: string, s2: string): (r: PyResult<nat>)
    ensures r.Raise? <==> |s1| != |s2|
    ensures r.Raise? ==> r.error == ValueError
    ensures r.Ok? ==> r.value == Mismatches(s1, s2) <= |s1|
  {
    if |s1| != |s2| then Raise(ValueError) else Ok(Mismatches(s1, s2))
  }

  /** The distance is zero exactly between equal texts. */
  lemma {:induction false} MismatchesZero(s1: string, s2: string)
    requires |s1| == |s2|
    ensures Mismatches(s1, s2) == 0 <==> s1 == s2
  {
    if s1 != [] {
      var n := |s1| - 1;
      MismatchesZero(s1[..n], s2[..n]);
      assert s1 == s1[..n] + [s1[n]];
      assert s2 == s2[..n] + [s2[n]];
    }
  }

  /** The distance does not depend on the order of its arguments. */
  lemma {:induction false} MismatchesSymmetric(s1: string, s2: string)
    requires |s1| == |s2|
    ensures Mismatches(s1, s2) == Mismatches(s2, s1)
  {
    if s1 != [] {
      MismatchesSymmetric(s1[..|s1| - 1], s2[..|s2| - 1]);
    }
  }

  /** The distance obeys the triangle inequality, so with the two lemmas above it is a metric. */
  lemma {:induction false} MismatchesTriangle(a: string, b: string, c: string)
    requires |a| == |b| == |c|
    ensures Mismatches(a, c) <= Mismatches(a, b) + Mismatches(b, c)
  {
    if a != [] {
      var n := |a| - 1;
      MismatchesTriangle(a[..n], b[..n], c[..n]);
    }
  }

  /** Distances of side-by-side pieces add up. */
  lemma {:induction false} MismatchesAppend(a: string, b: string, c: string, d: string)
    requires |a| == |c| && |b| == |d|
    ensures Mismatches(a + b, c + d) == Mismatches(a, c) + Mismatches(b, d)
    decreases |b|
  {
    if b == [] {
      assert a + b == a;
      assert c + d == c;
    } else {
      var n := |b| - 1;
      MismatchesAppend(a, b[..n], c, d[..n]);
      assert (a + b)[..|a + b| - 1] == a + b[..n];
      assert (c + d)[..|c + d| - 1] == c + d[..n];
    }
  }

  // ----- bitSimInRow -----

  /** The loop's counter after `i` steps: the length of the run of equal positions ending at `i`. */
  function Streak(s1: string, s2: string, i: nat): (c: nat)
    requires i <= |s1| && |s1| == |s2|
    ensures c <= i
  {
    if i == 0 then 0
    else if s1[i - 1] == s2[i - 1] then Streak(s1, s2, i - 1) + 1
    else 0
  }

  /** Positions start .. start + n - 1 exist and agree. */
  predicate EqualRun(s1: string, s2: string, start: nat, n: nat)
    requires |s1| == |s2|
  {
    start + n <= |s1| && forall j :: start <= j < start + n ==> s1[j] == s2[j]
  }

  /** Some `n` consecutive positions agree. */
  predicate HasRun(s1: string, s2: string, n: nat)
    requires |s1| == |s2|
  {
    exists start: nat :: start <= |s1| && EqualRun(s1, s2, start, n)
  }

  /**
   * What `bitSimInRow(s1, s2, sim_measure)` returns: `Some(b)` for True or
   * False and `None` where the function falls off its end. Texts of different
   * lengths are not similar; otherwise they are similar when `sim_measure`
   * consecutive positions agree. A threshold of zero or less is met on the
   * first position, and for two empty texts nothing is returned at all.
   */
  function InRowResult(s1: string, s2: string, sim: int): Option<bool> {
    if |s1| != |s2| then Some(false)
    else if |s1| == 0 && sim <= 0 then None
    else Some(sim <= 0 || HasRun(s1, s2, sim as nat))
  }

  /** A caller's `if bitSimInRow(...)`: only True counts, None is falsy. */
  predicate Similar(s1: string, s2: string, sim: int) {
    InRowResult(s1, s2, sim) == Some(true)
  }

  lemma {:induction false} StreakRun(s1: string, s2: string, p: nat)
    requires p <= |s1| && |s1| == |s2|
    ensures EqualRun(s1, s2, p - Streak(s1, s2, p), Streak(s1, s2, p))
  {
    if p > 0 && s1[p - 1] == s2[p - 1] {
      StreakRun(s1, s2, p - 1);
    }
  }

  lemma {:induction false} RunStreak(s1: string, s2: string, start: nat, n: nat)
    requires |s1| == |s2| && EqualRun(s1, s2, start, n)
    ensures Streak(s1, s2, start + n) >= n
  {
    if n > 0 {
      RunStreak(s1, s2, start, n - 1);
    }
  }

  /** When no prefix ends with a long enough streak there is no run. */
  lemma NoStreakNoRun(s1: string, s2: string, n: nat)
    requires |s1| == |s2| && n >= 1
    requires forall p :: 0 < p <= |s1| ==> Streak(s1, s2, p) < n
    ensures !HasRun(s1, s2, n)
  {
    if HasRun(s1, s2, n) {
      var start: nat :| start <= |s1| && EqualRun(s1, s2, start, n);
      RunStreak(s1, s2, start, n);
    }
  }

  /** `bitSimInRow(s1, s2, sim_measure)`: a counter of equal positions in a row, reset on a mismatch. */
  method BitSimInRow(s1: string, s2: string, simMeasure: int) returns (r: Option<bool>)
    ensures r == InRowResult(s1, s2, simMeasure)
  {
    if |s1| == |s2| {
      var couter := 0;
      var i := 0;
      while i < |s1|
        invariant 0 <= i <= |s1|
        invariant couter == Streak(s1, s2, i)
        invariant forall p :: 0 < p <= i ==> Streak(s1, s2, p) < simMeasure
      {
        if s1[i] == s2[i] {
          couter := couter + 1;
        } else {
          couter := 0;
        }
        if couter >= simMeasure {
          if simMeasure > 0 {
            StreakRun(s1, s2, i + 1);
            assert EqualRun(s1, s2, i + 1 - simMeasure, simMeasure);
          }
          return Some(true);
        }
        i := i + 1;
      }
      if couter < simMeasure {
        NoStreakNoRun(s1, s2, simMeasure);
        return Some(false);
      }
      return None;
    } else {
      return Some(false);
    }
  }

  /** Similarity does not depend on the order of the two texts. */
  lemma InRowSymmetric(s1: string, s2: string, sim: int)
    ensures InRowResult(s1, s2, sim) == InRowResult(s2, s1, sim)
  {
    if |s1| == |s2| && sim > 0 {
      if HasRun(s1, s2, sim) {
        var start: nat :| start <= |s1| && EqualRun(s1, s2, start, sim);
        assert EqualRun(s2, s1, start, sim);
      }
      if HasRun(s2, s1, sim) {
        var start: nat :| start <= |s2| && EqualRun(s2, s1, start, sim);
        assert EqualRun(s1, s2, start, sim);
      }
    }
  }

  /** A text of at least `sim` positions is similar to itself. */
  lemma SimilarSelf(s: string, sim: int)
    requires |s| > 0 && sim <= |s|
    ensures Similar(s, s, sim)
  {
    if sim > 0 {
      assert EqualRun(s, s, 0, sim);
    }
  }

  /** `sim` equal positions in a row leave at most |s| - sim mismatches: similar texts are close. */
  lemma SimilarBoundsDistance(s1: string, s2: string, sim: int)
    requires sim >= 1 && Similar(s1, s2, sim)
    ensures |s1| == |s2| && Mismatches(s1, s2) + sim <= |s1|
  {
    var start: nat :| start <= |s1| && EqualRun(s1, s2, start, sim);
    var e := start + sim;
    var a1, b1, c1 := s1[..start], s1[start..e], s1[e..];
    var a2, b2, c2 := s2[..start], s2[start..e], s2[e..];
    assert s1 == a1 + b1 + c1;
    assert s2 == a2 + b2 + c2;
    assert b1 == b2;
    MismatchesZero(b1, b2);
    MismatchesAppend(a1, b1, a2, b2);
    MismatchesAppend(a1 + b1, c1, a2 + b2, c2);
  }

  // ----- the pairs the within-individual loops visit -----

  /** n(n-1)/2, the number of pairs among n items. */
  function Tri(n: nat): nat {
    if n == 0 then 0 else Tri(n - 1) + (n - 1)
  }

  lemma {:induction false} TriClosed(n: nat)
    ensures 2 * Tri(n) == n * (n - 1)
  {
    if n > 0 {
      TriClosed(n - 1);
      assert (n - 1) * (n - 2) + 2 * (n - 1) == n * (n - 1);
    }
  }

  /** The pairs (i, j), i < j < n, of outer step `i`, in the inner loop's order. */
  function PairRow(i: nat, n: nat): (r: seq<(nat, nat)>)
    ensures |r| == if i < n then n - i - 1 else 0
  {
    if i + 1 >= n then [] else seq(n - i - 1, t requires 0 <= t < n - i - 1 => (i, i + 1 + t))
  }

  /** The rows of the outer steps i .. n - 1. */
  function PairsFrom(i: nat, n: nat): seq<(nat, nat)>
    decreases n - i
  {
    if i >= n then [] else PairRow(i, n) + PairsFrom(i + 1, n)
  }

  /** The rows of the outer steps 0 .. i - 1. */
  function PairsBefore(i: nat, n: nat): seq<(nat, nat)> {
    if i == 0 then [] else PairsBefore(i - 1, n) + PairRow(i - 1, n)
  }

  /** The index pairs in the order the two nested loops visit them. */
  function Pairs(n: nat): seq<(nat, nat)> {
    PairsFrom(0, n)
  }

  lemma {:induction false} PairsFromLength(i: nat, n: nat)
    requires i <= n
    ensures |PairsFrom(i, n)| == Tri(n - i)
    decreases n - i
  {
    if i < n {
      PairsFromLength(i + 1, n);
    }
  }

  /** There are N(N-1)/2 pairs, the size of the array the scripts allocate. */
  lemma PairsCount(n: nat)
    ensures |Pairs(n)| == n * (n - 1) / 2
  {
    PairsFromLength(0, n);
    TriClosed(n);
  }

  lemma {:induction false} PairsSplit(i: nat, n: nat)
    requires i <= n
    ensures Pairs(n) == PairsBefore(i, n) + PairsFrom(i, n)
  {
    if i > 0 {
      PairsSplit(i - 1, n);
      assert PairsFrom(i - 1, n) == PairRow(i - 1, n) + PairsFrom(i, n);
    }
  }

  lemma PairsBeforeBound(i: nat, n: nat)
    requires i <= n
    ensures |PairsBefore(i, n)| <= |Pairs(n)|
  {
    PairsSplit(i, n);
  }

  /** The pair (i, j) sits where the loops have counted `k` up to when they reach it. */
  lemma PairAt(n: nat, i: nat, j: nat)
    requires i < j < n
    ensures |PairsBefore(i, n)| + (j - i - 1) < |Pairs(n)|
    ensures Pairs(n)[|PairsBefore(i, n)| + (j - i - 1)] == (i, j)
  {
    PairsSplit(i, n);
    assert PairsFrom(i, n) == PairRow(i, n) + PairsFrom(i + 1, n);
    assert PairRow(i, n)[j - i - 1] == (i, j);
  }

  lemma {:induction false} PairsFromInRange(i: nat, n: nat)
    ensures forall m :: 0 <= m < |PairsFrom(i, n)| ==> i <= PairsFrom(i, n)[m].0 < PairsFrom(i, n)[m].1 < n
    decreases n - i
  {
    if i < n {
      PairsFromInRange(i + 1, n);
      var row, rest := PairRow(i, n), PairsFrom(i + 1, n);
      assert PairsFrom(i, n) == row + rest;
      assert forall m :: 0 <= m < |row| ==> row[m] == (i, i + 1 + m);
    }
  }

  /** Every listed pair (i, j) has i < j < n. */
  lemma PairsInRange(n: nat)
    ensures forall m :: 0 <= m < |Pairs(n)| ==> Pairs(n)[m].0 < Pairs(n)[m].1 < n
  {
    PairsFromInRange(0, n);
  }

  /** Every pair i < j < n is listed. */
  lemma PairsComplete(n: nat, i: nat, j: nat)
    requires i < j < n
    ensures (i, j) in Pairs(n)
  {
    PairAt(n, i, j);
  }

  predicate LexLess(p: (nat, nat), q: (nat, nat)) {
    p.0 < q.0 || (p.0 == q.0 && p.1 < q.1)
  }

  lemma {:induction false} PairsFromOrdered(i: nat, n: nat)
    ensures forall x, y :: 0 <= x < y < |PairsFrom(i, n)| ==> LexLess(PairsFrom(i, n)[x], PairsFrom(i, n)[y])
    decreases n - i
  {
    if i < n {
      PairsFromOrdered(i + 1, n);
      PairsFromInRange(i + 1, n);
      var row, rest := PairRow(i, n), PairsFrom(i + 1, n);
      var all := PairsFrom(i, n);
      assert all == row + rest;
      forall x, y | 0 <= x < y < |all|
        ensures LexLess(all[x], all[y])
      {
        if y < |row| {
          assert all[x] == (i, i + 1 + x) && all[y] == (i, i + 1 + y);
        } else if x < |row| {
          assert all[x] == (i, i + 1 + x) && all[y] == rest[y - |row|];
        } else {
          assert all[x] == rest[x - |row|] && all[y] == rest[y - |row|];
        }
      }
    }
  }

  /** The pairs come in lexicographic order, so none is listed twice. */
  lemma PairsOrdered(n: nat)
    ensures forall x, y :: 0 <= x < y < |Pairs(n)| ==> LexLess(Pairs(n)[x], Pairs(n)[y])
  {
    PairsFromOrdered(0, n);
  }

  // ----- the pairwise arrays -----

  /** What the pairwise loops record for a pair of antigens. */
  datatype Measure = Distance | Similarity(sim: int)

  /**
   * The entry for (x, y): the Hamming distance (0 for a pair of different
   * lengths, where the scripts return NaN instead), or 1 for a similar pair
   * and 0 otherwise.
   */
  function Score(m: Measure, x: string, y: string): nat {
    match m
    case Distance => if |x| == |y| then Mismatches(x, y) else 0
    case Similarity(sim) => if Similar(x, y, sim) then 1 else 0
  }

  /** The entries of `x` against each text of `two`, in order. */
  function Row(m: Measure, x: string, two: seq<string>): (r: seq<nat>)
    ensures |r| == |two|
  {
    if two == [] then [] else Row(m, x, two[..|two| - 1]) + [Score(m, x, two[|two| - 1])]
  }

  lemma {:induction false} RowAt(m: Measure, x: string, two: seq<string>, b: nat)
    requires b < |two|
    ensures Row(m, x, two)[b] == Score(m, x, two[b])
  {
    if b < |two| - 1 {
      RowAt(m, x, two[..|two| - 1], b);
    }
  }

  /** Extending the stretch s[lo..hi] by one text adds one entry at the end. */
  lemma RowSnoc(m: Measure, x: string, s: seq<string>, lo: nat, hi: nat)
    requires lo <= hi < |s|
    ensures Row(m, x, s[lo..hi + 1]) == Row(m, x, s[lo..hi]) + [Score(m, x, s[hi])]
  {
    assert s[lo..hi + 1][..hi - lo] == s[lo..hi];
  }

  /**
   * The entries of the pairs (t, j), t < i and t < j, row after row: what the
   * nested loops over one individual have written when the outer one reaches i.
   */
  function PairRows(m: Measure, list: seq<string>, i: nat): seq<nat>
    requires i <= |list|
  {
    if i == 0 then [] else PairRows(m, list, i - 1) + Row(m, list[i - 1], list[i..])
  }

  lemma {:induction false} PairRowsLength(m: Measure, list: seq<string>, i: nat)
    requires i <= |list|
    ensures |PairRows(m, list, i)| + Tri(|list| - i) == Tri(|list|)
  {
    if i > 0 {
      var n, j := |list|, |list| - i;
      PairRowsLength(m, list, i - 1);
      assert |PairRows(m, list, i)| == |PairRows(m, list, i - 1)| + j;
      assert Tri(n - (i - 1)) == Tri(j) + j;
    }
  }

  /** The entry of a listed pair (0 for a pair outside the list, which never occurs). */
  function PairScore(m: Measure, list: seq<string>, p: (nat, nat)): nat {
    if p.0 < |list| && p.1 < |list| then Score(m, list[p.0], list[p.1]) else 0
  }

  /** The row of item i holds the entries of the pairs (i, j), i < j, in order. */
  lemma RowFollowsPairRow(m: Measure, list: seq<string>, i: nat)
    requires i < |list|
    ensures |Row(m, list[i], list[i + 1..])| == |PairRow(i, |list|)|
    ensures forall t :: 0 <= t < |PairRow(i, |list|)| ==>
      Row(m, list[i], list[i + 1..])[t] == PairScore(m, list, PairRow(i, |list|)[t])
  {
    var row, pr := Row(m, list[i], list[i + 1..]), PairRow(i, |list|);
    forall t | 0 <= t < |pr|
      ensures row[t] == PairScore(m, list, pr[t])
    {
      RowAt(m, list[i], list[i + 1..], t);
      assert pr[t] == (i, i + 1 + t);
      assert list[i + 1..][t] == list[i + 1 + t];
    }
  }

  lemma {:induction false} PairRowsFollowPairs(m: Measure, list: seq<string>, i: nat)
    requires i <= |list|
    ensures |PairRows(m, list, i)| == |PairsBefore(i, |list|)|
    ensures forall k :: 0 <= k < |PairRows(m, list, i)| ==>
      PairRows(m, list, i)[k] == PairScore(m, list, PairsBefore(i, |list|)[k])
  {
    if i > 0 {
      var n := |list|;
      PairRowsFollowPairs(m, list, i - 1);
      RowFollowsPairRow(m, list, i - 1);
      var front, row := PairRows(m, list, i - 1), Row(m, list[i - 1], list[i..]);
      var pf, pr := PairsBefore(i - 1, n), PairRow(i - 1, n);
      assert PairRows(m, list, i) == front + row;
      assert PairsBefore(i, n) == pf + pr;
      forall k | 0 <= k < |front| + |row|
        ensures (front + row)[k] == PairScore(m, list, (pf + pr)[k])
      {
        if k >= |front| {
          assert (front + row)[k] == row[k - |front|];
          assert (pf + pr)[k] == pr[k - |front|];
        }
      }
    }
  }

  /**
   * The array of a whole individual lists one entry per pair i < j, in the
   * lexicographic order of `Pairs`: entry k belongs to the pair `Pairs(n)[k]`.
   */
  lemma PairRowsArePairs(m: Measure, list: seq<string>)
    ensures |PairRows(m, list, |list|)| == |Pairs(|list|)| == |list| * (|list| - 1) / 2
    ensures forall k :: 0 <= k < |Pairs(|list|)| ==>
      PairRows(m, list, |list|)[k] == PairScore(m, list, Pairs(|list|)[k])
  {
    PairRowsFollowPairs(m, list, |list|);
    PairsSplit(|list|, |list|);
    PairsCount(|list|);
  }

  /** Where the loops write the entry of the pair (i, j). */
  lemma PairRowsAt(m: Measure, list: seq<string>, i: nat, j: nat)
    requires i < j < |list|
    ensures |PairsBefore(i, |list|)| + (j - i - 1) < |PairRows(m, list, |list|)|
    ensures PairRows(m, list, |list|)[|PairsBefore(i, |list|)| + (j - i - 1)] == Score(m, list[i], list[j])
  {
    PairRowsArePairs(m, list);
    PairAt(|list|, i, j);
  }

  /** `np.ones((N*(N-1))/2)`: one slot per pair. */
  method NewPairArray(n: nat) returns (a: array<nat>)
    ensures fresh(a) && a.Length == Tri(n)
    ensures forall k :: 0 <= k < a.Length ==> a[k] == 1
  {
    TriClosed(n);
    a := new nat[n * (n - 1) / 2](_ => 1);
  }

  /**
   * An inner loop: it compares `x` with s[lo], s[lo + 1], ... and appends the
   * entries from position k0 on. Under `Distance`, `hamming_distance` raises on
   * a pair of different lengths, and the loop stops with `false`.
   */
  method RowLoop(m: Measure, x: string, s: seq<string>, lo: nat, compArr: array<nat>, k0: nat) returns (ok: bool, k: nat)
    requires lo <= |s| && k0 + (|s| - lo) <= compArr.Length
    modifies compArr
    ensures !ok ==> m.Distance? && exists b :: lo <= b < |s| && |x| != |s[b]|
    ensures ok ==> m.Distance? ==> forall b :: lo <= b < |s| ==> |x| == |s[b]|
    ensures ok ==> k == k0 + (|s| - lo) && compArr[..k] == old(compArr[..k0]) + Row(m, x, s[lo..])
  {
    k := k0;
    var jj := lo;
    while jj < |s|
      invariant lo <= jj <= |s|
      invariant k == k0 + (jj - lo)
      invariant m.Distance? ==> forall b :: lo <= b < jj ==> |x| == |s[b]|
      invariant compArr[..k] == old(compArr[..k0]) + Row(m, x, s[lo..jj])
    {
      var v: nat;
      if m.Distance? {
        var d := HammingDistance(x, s[jj]);
        if d.Raise? {
          return false, k;
        }
        v := d.value;
      } else {
        var similar := BitSimInRow(x, s[jj], m.sim);
        v := if similar == Some(true) then 1 else 0;
      }
      ghost var before := compArr[..k];
      compArr[k] := v;
      assert compArr[..k + 1] == before + [v];
      RowSnoc(m, x, s, lo, jj);
      k := k + 1;
      jj := jj + 1;
    }
    assert s[lo..jj] == s[lo..];
    return true, k;
  }

  /**
   * The two nested loops of `hamDistWhinIndiv` and `bitSimWhinIndiv`: the
   * array of entries for every pair, or `None` where the Hamming distance
   * raises.
   */
  method PairLoops(m: Measure, bitLyst: seq<string>) returns (r: Option<seq<nat>>)
    ensures m.Distance? && !SameLengths(bitLyst) ==> r == None
    ensures !(m.Distance? && !SameLengths(bitLyst)) ==> r == Some(PairRows(m, bitLyst, |bitLyst|))
  {
    var n := |bitLyst|;
    var compArr := NewPairArray(n);
    var k: nat := 0;
    var ii := 0;
    while ii < n
      invariant 0 <= ii <= n
      invariant m.Distance? ==> forall a, b :: 0 <= a < ii && a < b < n ==> |bitLyst[a]| == |bitLyst[b]|
      invariant k + Tri(n - ii) == Tri(n) == compArr.Length
      invariant compArr[..k] == PairRows(m, bitLyst, ii)
    {
      var ok;
      ok, k := RowLoop(m, bitLyst[ii], bitLyst, ii + 1, compArr, k);
      if !ok {
        return None;
      }
      ii := ii + 1;
    }
    assert compArr[..] == compArr[..k];
    return Some(compArr[..]);
  }

  // ----- hamDistWhinIndiv -----

  /** All texts of the list have one length. */
  predicate SameLengths(list: seq<string>) {
    forall i, j :: 0 <= i < j < |list| ==> |list[i]| == |list[j]|
  }

  /**
   * What `hamDistWhinIndiv(BitLyst)` returns: the distance of every pair
   * i < j in loop order, or NaN (`None`) when some pair has different lengths
   * and `hamming_distance` raises.
   */
  function WithinDistances(list: seq<string>): (r: Option<seq<nat>>)
    ensures r.Some? <==> SameLengths(list)
    ensures r.Some? ==> |r.value| == |list| * (|list| - 1) / 2
  {
    PairRowsArePairs(Distance, list);
    if SameLengths(list) then Some(PairRows(Distance, list, |list|)) else None
  }

  /** The distance of items i < j sits at the place the loops reach (i, j). */
  lemma WithinDistancesAt(list: seq<string>, i: nat, j: nat)
    requires SameLengths(list) && i < j < |list|
    ensures |PairsBefore(i, |list|)| + (j - i - 1) < |WithinDistances(list).value|
    ensures WithinDistances(list).value[|PairsBefore(i, |list|)| + (j - i - 1)] == Mismatches(list[i], list[j])
  {
    PairRowsAt(Distance, list, i, j);
  }

  method HamDistWhinIndiv(bitLyst: seq<string>) returns (r: Option<seq<nat>>)
    ensures r == WithinDistances(bitLyst)
  {
    r := PairLoops(Distance, bitLyst);
  }

  // ----- bitSimWhinIndiv -----

  function Sum(xs: seq<int>): int {
    if xs == [] then 0 else Sum(xs[..|xs| - 1]) + xs[|xs| - 1]
  }

  /** `np.mean(xs)`: NaN (`None`) for an empty array. */
  function Mean(xs: seq<int>): Option<real> {
    if xs == [] then None else Some(Sum(xs) as real / |xs| as real)
  }

  /** 1 for a similar pair, 0 otherwise, for every pair i < j in loop order. */
  function SimilarityFlags(list: seq<string>, sim: int): seq<nat> {
    PairRows(Similarity(sim), list, |list|)
  }

  /** What `bitSimWhinIndiv(BitLyst, sim_measure)` returns: the fraction of similar pairs. */
  function WithinSimilarity(list: seq<string>, sim: int): Option<real> {
    Mean(SimilarityFlags(list, sim))
  }

  lemma {:induction false} SumOfFlags(xs: seq<int>)
    requires forall m :: 0 <= m < |xs| ==> xs[m] == 0 || xs[m] == 1
    ensures 0 <= Sum(xs) <= |xs|
  {
    if xs != [] {
      SumOfFlags(xs[..|xs| - 1]);
    }
  }

  lemma {:induction false} TriPositive(n: nat)
    ensures Tri(n) > 0 <==> n >= 2
  {
    if n > 0 {
      TriPositive(n - 1);
    }
  }

  lemma FractionBound(t: int, c: int)
    requires 0 <= t <= c && c > 0
    ensures 0.0 <= t as real / c as real <= 1.0
  {
    assert t as real / c as real <= c as real / c as real;
  }

  /** The flag of items i < j says whether they are similar. */
  lemma SimilarityFlagsAt(list: seq<string>, sim: int, i: nat, j: nat)
    requires i < j < |list|
    ensures |PairsBefore(i, |list|)| + (j - i - 1) < |SimilarityFlags(list, sim)|
    ensures SimilarityFlags(list, sim)[|PairsBefore(i, |list|)| + (j - i - 1)] == 1 <==> Similar(list[i], list[j], sim)
  {
    PairRowsAt(Similarity(sim), list, i, j);
  }

  /**
   * The similarity of an individual is defined from two antigens on, and it
   * is a fraction in [0, 1].
   */
  lemma WithinSimilarityRange(list: seq<string>, sim: int)
    ensures WithinSimilarity(list, sim).Some? <==> |list| >= 2
    ensures WithinSimilarity(list, sim).Some? ==> 0.0 <= WithinSimilarity(list, sim).value <= 1.0
  {
    var xs := SimilarityFlags(list, sim);
    PairRowsLength(Similarity(sim), list, |list|);
    TriPositive(|list|);
    PairRowsArePairs(Similarity(sim), list);
    assert forall k :: 0 <= k < |xs| ==> xs[k] == PairScore(Similarity(sim), list, Pairs(|list|)[k]);
    SumOfFlags(xs);
    if xs != [] {
      FractionBound(Sum(xs), |xs|);
    }
  }

  method BitSimWhinIndiv(bitLyst: seq<string>, simMeasure: int) returns (r: Option<real>)
    ensures r == WithinSimilarity(bitLyst, simMeasure)
  {
    var flags := PairLoops(Similarity(simMeasure), bitLyst);
    return Mean(flags.value);
  }

  // ----- bitSimBetweenIndv -----

  /** Some antigen of `two` is similar to `x`. */
  predicate MatchesSome(x: string, two: seq<string>, sim: int) {
    exists t :: 0 <= t < |two| && Similar(x, two[t], sim)
  }

  /** What `bitSimBetweenIndv(indOne, indTwo, sim_measure)` returns: 1 for each antigen of `one` some antigen of `two` is similar to. */
  function BetweenFlags(one: seq<string>, two: seq<string>, sim: int): (r: seq<int>)
    ensures |r| == |one|
  {
    seq(|one|, k requires 0 <= k < |one| => if MatchesSome(one[k], two, sim) then 1 else 0)
  }

  /** Compared with itself, an individual whose antigens all reach the threshold scores 1 everywhere. */
  lemma BetweenSelf(one: seq<string>, sim: int)
    requires forall k :: 0 <= k < |one| ==> 0 < |one[k]| && sim <= |one[k]|
    ensures forall k :: 0 <= k < |one| ==> BetweenFlags(one, one, sim)[k] == 1
  {
    forall k | 0 <= k < |one|
      ensures MatchesSome(one[k], one, sim)
    {
      SimilarSelf(one[k], sim);
    }
  }

  method BitSimBetweenIndv(indOne: seq<string>, indTwo: seq<string>, simMeasure: int) returns (r: seq<int>)
    ensures r == BetweenFlags(indOne, indTwo, simMeasure)
  {
    var compArr := new int[|indOne|](_ => 0);
    var k := 0;
    while k < |indOne|
      invariant 0 <= k <= |indOne|
      invariant forall m :: 0 <= m < k ==> compArr[m] == BetweenFlags(indOne, indTwo, simMeasure)[m]
      invariant forall m :: k <= m < |indOne| ==> compArr[m] == 0
    {
      var t := 0;
      while t < |indTwo|
        invariant 0 <= t <= |indTwo|
        invariant forall m :: 0 <= m < k ==> compArr[m] == BetweenFlags(indOne, indTwo, simMeasure)[m]
        invariant forall m :: k < m < |indOne| ==> compArr[m] == 0
        invariant compArr[k] == if exists u :: 0 <= u < t && Similar(indOne[k], indTwo[u], simMeasure) then 1 else 0
      {
        var similar := BitSimInRow(indOne[k], indTwo[t], simMeasure);
        if similar == Some(true) {
          compArr[k] := 1;
        }
        t := t + 1;
      }
      k := k + 1;
    }
    return compArr[..];
  }
  // ----- hamDistBetweenIndv -----

  /** Every antigen of `one` has the length of every antigen of `two`. */
  predicate CrossLengths(one: seq<string>, two: seq<string>) {
    forall a, b :: 0 <= a < |one| && 0 <= b < |two| ==> |one[a]| == |two[b]|
  }

  /** The distances of all (one, two) pairs, row after row. */
  function Grid(one: seq<string>, two: seq<string>): seq<nat> {
    if one == [] then [] else Grid(one[..|one| - 1], two) + Row(Distance, one[|one| - 1], two)
  }

  /**
   * What `hamDistBetweenIndv(indOne, indTwo)` returns: the grid of distances,
   * or NaN (`None`) when two antigens of different lengths meet.
   */
  function BetweenDistances(one: seq<string>, two: seq<string>): Option<seq<nat>> {
    if CrossLengths(one, two) then Some(Grid(one, two)) else None
  }

  /** a·c as repeated addition, so that the loop counters stay linear. */
  function Times(a: nat, c: nat): nat {
    if a == 0 then 0 else Times(a - 1, c) + c
  }

  lemma {:induction false} TimesIsProduct(a: nat, c: nat)
    ensures Times(a, c) == a * c
  {
    if a > 0 {
      TimesIsProduct(a - 1, c);
    }
  }

  lemma {:induction false} TimesBound(a: nat, rows: nat, c: nat)
    requires a < rows
    ensures Times(a, c) + c <= Times(rows, c)
    decreases rows - a
  {
    if a + 1 < rows {
      TimesBound(a + 1, rows, c);
    }
  }

  lemma {:induction false} GridLength(one: seq<string>, two: seq<string>)
    ensures |Grid(one, two)| == Times(|one|, |two|)
  {
    if one != [] {
      GridLength(one[..|one| - 1], two);
    }
  }

  /** The distance of (a, b) sits at a·|two| + b, where the loops of `hamDistBetweenIndv` write it. */
  lemma {:induction false} GridAt(one: seq<string>, two: seq<string>, a: nat, b: nat)
    requires CrossLengths(one, two) && a < |one| && b < |two|
    ensures Times(a, |two|) + b < |Grid(one, two)|
    ensures Grid(one, two)[Times(a, |two|) + b] == Mismatches(one[a], two[b])
  {
    var n := |one| - 1;
    var p := one[..n];
    GridLength(p, two);
    if a < n {
      GridAt(p, two, a, b);
      assert p[a] == one[a];
    } else {
      RowAt(Distance, one[n], two, b);
    }
  }

  /** The grid has |one|·|two| entries. */
  lemma GridSize(one: seq<string>, two: seq<string>)
    ensures |Grid(one, two)| == |one| * |two|
  {
    GridLength(one, two);
    TimesIsProduct(|one|, |two|);
  }

  /** `np.zeros(len(indOne) * len(indTwo))`. */
  method NewGridArray(rows: nat, cols: nat) returns (a: array<nat>)
    ensures fresh(a) && a.Length == Times(rows, cols)
  {
    TimesIsProduct(rows, cols);
    a := new nat[rows * cols];
  }

  method HamDistBetweenIndv(indOne: seq<string>, indTwo: seq<string>) returns (r: Option<seq<nat>>)
    ensures r == BetweenDistances(indOne, indTwo)
  {
    var compArr := NewGridArray(|indOne|, |indTwo|);
    var k: nat := 0;
    var a := 0;
    while a < |indOne|
      invariant 0 <= a <= |indOne|
      invariant forall c, b :: 0 <= c < a && 0 <= b < |indTwo| ==> |indOne[c]| == |indTwo[b]|
      invariant k == Times(a, |indTwo|) <= compArr.Length
      invariant compArr[..k] == Grid(indOne[..a], indTwo)
    {
      TimesBound(a, |indOne|, |indTwo|);
      var ok;
      ok, k := RowLoop(Distance, indOne[a], indTwo, 0, compArr, k);
      if !ok {
        return None;
      }
      assert indTwo[0..] == indTwo;
      assert indOne[..a + 1][..a] == indOne[..a];
      a := a + 1;
    }
    assert indOne[..a] == indOne;
    assert compArr[..] == compArr[..k];
    return Some(compArr[..]);
  }
}
