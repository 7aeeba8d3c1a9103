/**
 * PyScripts/MHC_segregation_sex_select.py: whether MHC genes occur together
 * in hosts more often than their frequencies alone would make them.
 *
 * The loader is the `OnData` block loader keeping, of every data line, the
 * signed value of its first field read as a binary number. The co-occurrence
 * matrix divides, for each pair of genes, the number of hosts carrying both
 * by the number of hosts carrying the more frequent of the two.
 */
module Segregation {
  import opened Wrappers
  import opened Text
  import opened SeqUtil
  import HB = HeaderBlocks
  import Py = Python

  // ------------------------------------------------------------- loadHostPopulation

  /** `bts.BitString(bin=line.split()[0]).int`. */
  function BitKey(line: string): (r: PyResult<int>)
    ensures r.Ok? <==> Split(line) != [] && Py.BitStringInt(Split(line)[0]).Ok?
    ensures r.Ok? ==> r == Py.BitStringInt(Split(line)[0])
    ensures Split(line) == [] ==> r == Raise(IndexError)
  {
    match HB.FirstField(line)
    case Raise(e) => Raise(e)
    case Ok(t) => Py.BitStringInt(t)
  }

  /** What `loadHostPopulation(FILE)` returns; `None` when the file does not open. */
  function HostKeys(file: Option<seq<string>>): PyResult<Option<seq<seq<int>>>> {
    HB.Loaded(file, HB.OnData, BitKey)
  }

  method LoadHostPopulation(file: Option<seq<string>>) returns (r: PyResult<Option<seq<seq<int>>>>)
    ensures r == HostKeys(file)
  {
    r := HB.LoadFile(file, HB.OnData, BitKey);
  }

  /**
   * The hosts hold, one after another, the keys of all data lines in file
   * order; the loader raises exactly when some data line's first field is
   * missing or is not a binary number.
   */
  lemma HostKeysInOrder(lines: seq<string>)
    ensures HostKeys(Some(lines)).Raise? <==> HB.Items(lines, BitKey).Raise?
    ensures HostKeys(Some(lines)).Ok? ==>
      HB.Flatten(HostKeys(Some(lines)).value.value) == HB.Items(lines, BitKey).value
  {
    HB.BlocksFlatten(lines, HB.OnData, BitKey);
  }

  // ------------------------------------------------------------- calculateCooccurMatrix

  /** The genes of the population, each once, in order of first appearance. */
  function Genes(hosts: seq<seq<int>>): seq<int> {
    Distinct(HB.Flatten(hosts))
  }

  /** How many hosts carry gene g. */
  function Holding(hosts: seq<seq<int>>, g: int): (n: nat)
    ensures n <= |hosts|
  {
    if hosts == [] then 0 else Holding(hosts[..|hosts| - 1], g) + (if g in hosts[|hosts| - 1] then 1 else 0)
  }

  /** How many hosts carry both genes. */
  function HoldingBoth(hosts: seq<seq<int>>, a: int, b: int): (n: nat)
    ensures n <= |hosts|
  {
    if hosts == [] then 0
    else HoldingBoth(hosts[..|hosts| - 1], a, b) + (if a in hosts[|hosts| - 1] && b in hosts[|hosts| - 1] then 1 else 0)
  }

  function Max(x: nat, y: nat): nat {
    if x >= y then x else y
  }

  /** The normalised co-occurrence of two genes of the population. */
  function Ratio(hosts: seq<seq<int>>, a: int, b: int): real
    requires a in HB.Flatten(hosts) && b in HB.Flatten(hosts)
  {
    HoldingPositive(hosts, a);
    HoldingBoth(hosts, a, b) as real / Max(Holding(hosts, a), Holding(hosts, b)) as real
  }

  /** A gene is carried by some host exactly when it occurs in the population. */
  lemma {:induction false} HoldingPositive(hosts: seq<seq<int>>, g: int)
    ensures Holding(hosts, g) > 0 <==> g in HB.Flatten(hosts)
  {
    if hosts != [] {
      HoldingPositive(hosts[..|hosts| - 1], g);
    }
  }

  /**
   * `calculateCooccurMatrix(hostList)`: `None` for an empty population;
   * otherwise, per gene, the number of hosts carrying it, and per pair of
   * genes their normalised co-occurrence.
   */
  method CalculateCooccurMatrix(hostList: seq<seq<int>>) returns (r: Option<(array<real>, array2<real>)>)
    ensures r.None? <==> hostList == []
    ensures r.Some? ==> fresh(r.value.0) && fresh(r.value.1)
    ensures r.Some? ==> var genes := Genes(hostList); var N := |genes|;
      r.value.0.Length == N && r.value.1.Length0 == N && r.value.1.Length1 == N &&
      (forall k :: 0 <= k < N ==> genes[k] in HB.Flatten(hostList) && r.value.0[k] == Holding(hostList, genes[k]) as real) &&
      forall i, j :: 0 <= i < N && 0 <= j < N ==> r.value.1[i, j] == Ratio(hostList, genes[i], genes[j])
  {
    if |hostList| == 0 {
      return None;
    }
    var genes := GeneListOf(hostList);
    DistinctProps(HB.Flatten(hostList));
    var geneFreq := Frequencies(hostList, genes);
    var cooccMtx, geneFreqMtx := FillMatrices(hostList, genes, geneFreq[..]);
    forall k | 0 <= k < |genes|
      ensures Holding(hostList, genes[k]) > 0
    {
      HoldingPositive(hostList, genes[k]);
    }
    var ratio := Divide(cooccMtx, geneFreqMtx);
    return Some((geneFreq, ratio));
  }

  /** The second loop: per gene, the number of hosts carrying it. */
  method Frequencies(hostList: seq<seq<int>>, genes: seq<int>) returns (geneFreq: array<real>)
    ensures fresh(geneFreq) && geneFreq.Length == |genes|
    ensures forall k :: 0 <= k < |genes| ==> geneFreq[k] == Holding(hostList, genes[k]) as real
  {
    geneFreq := new real[|genes|];
    for k := 0 to |genes|
      invariant forall m :: 0 <= m < k ==> geneFreq[m] == Holding(hostList, genes[m]) as real
    {
      var cc := CountHolding(hostList, genes[k]);
      geneFreq[k] := cc as real;
    }
  }

  /** The third loop: per pair of genes, the hosts carrying both and the larger frequency. */
  method FillMatrices(hostList: seq<seq<int>>, genes: seq<int>, geneFreq: seq<real>) returns (cooccMtx: array2<real>, geneFreqMtx: array2<real>)
    requires |geneFreq| == |genes|
    requires forall k :: 0 <= k < |genes| ==> geneFreq[k] == Holding(hostList, genes[k]) as real
    ensures fresh(cooccMtx) && fresh(geneFreqMtx)
    ensures cooccMtx.Length0 == |genes| && cooccMtx.Length1 == |genes|
    ensures geneFreqMtx.Length0 == |genes| && geneFreqMtx.Length1 == |genes|
    ensures forall a, b :: 0 <= a < |genes| && 0 <= b < |genes| ==>
      cooccMtx[a, b] == HoldingBoth(hostList, genes[a], genes[b]) as real &&
      geneFreqMtx[a, b] == Max(Holding(hostList, genes[a]), Holding(hostList, genes[b])) as real
  {
    var N := |genes|;
    geneFreqMtx := new real[N, N];
    cooccMtx := new real[N, N];
    for i := 0 to N
      invariant forall a, b :: 0 <= a < i && 0 <= b < N ==>
        cooccMtx[a, b] == HoldingBoth(hostList, genes[a], genes[b]) as real &&
        geneFreqMtx[a, b] == Max(Holding(hostList, genes[a]), Holding(hostList, genes[b])) as real
    {
      for j := 0 to N
        invariant forall a, b :: 0 <= a < N && 0 <= b < N && (a < i || (a == i && b < j)) ==>
          cooccMtx[a, b] == HoldingBoth(hostList, genes[a], genes[b]) as real &&
          geneFreqMtx[a, b] == Max(Holding(hostList, genes[a]), Holding(hostList, genes[b])) as real
      {
        var count := CountBoth(hostList, genes[i], genes[j]);
        cooccMtx[i, j] := count as real;
        geneFreqMtx[i, j] := if geneFreq[i] >= geneFreq[j] then geneFreq[i] else geneFreq[j];
      }
    }
  }

  /** The first loop: every gene not yet listed is appended. */
  method GeneListOf(hostList: seq<seq<int>>) returns (geneList: seq<int>)
    ensures geneList == Genes(hostList)
  {
    geneList := [];
    for i := 0 to |hostList|
      invariant geneList == Distinct(HB.Flatten(hostList[..i]))
    {
      assert HB.Flatten(hostList[..i + 1]) == HB.Flatten(hostList[..i]) + hostList[i] by {
        assert hostList[..i + 1][..i] == hostList[..i];
      }
      geneList := AddGenes(HB.Flatten(hostList[..i]), geneList, hostList[i]);
    }
    assert hostList[..|hostList|] == hostList;
  }

  /** The inner loop over one host's genes. */
  method AddGenes(ghost seen: seq<int>, geneList: seq<int>, indv: seq<int>) returns (out: seq<int>)
    requires geneList == Distinct(seen)
    ensures out == Distinct(seen + indv)
  {
    out := geneList;
    assert seen + indv[..0] == seen;
    for j := 0 to |indv|
      invariant out == Distinct(seen + indv[..j])
    {
      ghost var s := seen + indv[..j + 1];
      assert s[..|s| - 1] == seen + indv[..j];
      assert s[|s| - 1] == indv[j];
      if indv[j] !in out {
        out := out + [indv[j]];
      }
    }
    assert indv[..|indv|] == indv;
  }

  /** The loop counting the hosts that carry one gene. */
  method CountHolding(hosts: seq<seq<int>>, gg: int) returns (cc: nat)
    ensures cc == Holding(hosts, gg)
  {
    cc := 0;
    for m := 0 to |hosts|
      invariant cc == Holding(hosts[..m], gg)
    {
      assert hosts[..m + 1][..m] == hosts[..m];
      if gg in hosts[m] {
        cc := cc + 1;
      }
    }
    assert hosts[..|hosts|] == hosts;
  }

  /** The loop counting the hosts that carry both genes. */
  method CountBoth(hosts: seq<seq<int>>, one: int, two: int) returns (count: nat)
    ensures count == HoldingBoth(hosts, one, two)
  {
    count := 0;
    for m := 0 to |hosts|
      invariant count == HoldingBoth(hosts[..m], one, two)
    {
      assert hosts[..m + 1][..m] == hosts[..m];
      if one in hosts[m] && two in hosts[m] {
        count := count + 1;
      }
    }
    assert hosts[..|hosts|] == hosts;
  }

  /** `cooccMtx / geneFreqMtx`, entry by entry, into a new matrix. */
  method Divide(num: array2<real>, den: array2<real>) returns (q: array2<real>)
    requires num.Length0 == den.Length0 && num.Length1 == den.Length1
    requires forall a, b :: 0 <= a < den.Length0 && 0 <= b < den.Length1 ==> den[a, b] != 0.0
    ensures fresh(q) && q.Length0 == num.Length0 && q.Length1 == num.Length1
    ensures forall a, b :: 0 <= a < q.Length0 && 0 <= b < q.Length1 ==> q[a, b] == num[a, b] / den[a, b]
  {
    q := new real[num.Length0, num.Length1];
    for a := 0 to num.Length0
      invariant forall x, y :: 0 <= x < a && 0 <= y < num.Length1 ==> q[x, y] == num[x, y] / den[x, y]
    {
      for b := 0 to num.Length1
        invariant forall x, y :: 0 <= x < num.Length0 && 0 <= y < num.Length1 && (x < a || (x == a && y < b)) ==>
          q[x, y] == num[x, y] / den[x, y]
      {
        q[a, b] := num[a, b] / den[a, b];
      }
    }
  }

  // ------------------------------------------------------------- properties

  /** Both genes together are carried by no more hosts than either; a gene with itself, by its own carriers. */
  lemma {:induction false} HoldingBothBounds(hosts: seq<seq<int>>, a: int, b: int)
    ensures HoldingBoth(hosts, a, b) <= Holding(hosts, a) && HoldingBoth(hosts, a, b) <= Holding(hosts, b)
    ensures HoldingBoth(hosts, a, b) == HoldingBoth(hosts, b, a)
    ensures HoldingBoth(hosts, a, a) == Holding(hosts, a)
  {
    if hosts != [] {
      HoldingBothBounds(hosts[..|hosts| - 1], a, b);
    }
  }

  /** The pair is carried by all carriers of a exactly when every host carrying a carries b. */
  lemma {:induction false} HoldingBothAll(hosts: seq<seq<int>>, a: int, b: int)
    ensures HoldingBoth(hosts, a, b) == Holding(hosts, a) <==> forall k :: 0 <= k < |hosts| && a in hosts[k] ==> b in hosts[k]
  {
    if hosts != [] {
      var n := |hosts| - 1;
      HoldingBothAll(hosts[..n], a, b);
      HoldingBothBounds(hosts[..n], a, b);
      assert forall k :: 0 <= k < n ==> hosts[..n][k] == hosts[k];
    }
  }

  /**
   * Every genes' frequency is at least one, so no entry divides by zero; the
   * matrix is symmetric, its entries lie in [0, 1], the diagonal is 1, and an
   * entry is 1 exactly when the two genes are carried by the same hosts.
   */
  lemma RatioProps(hosts: seq<seq<int>>, a: int, b: int)
    requires a in HB.Flatten(hosts) && b in HB.Flatten(hosts)
    ensures Holding(hosts, a) >= 1
    ensures Ratio(hosts, a, b) == Ratio(hosts, b, a)
    ensures 0.0 <= Ratio(hosts, a, b) <= 1.0
    ensures Ratio(hosts, a, a) == 1.0
    ensures Ratio(hosts, a, b) == 1.0 <==> forall k :: 0 <= k < |hosts| ==> (a in hosts[k] <==> b in hosts[k])
  {
    HoldingPositive(hosts, a);
    HoldingPositive(hosts, b);
    HoldingBothBounds(hosts, a, b);
    HoldingBothBounds(hosts, b, a);
    HoldingBothAll(hosts, a, b);
    HoldingBothAll(hosts, b, a);
    var m := Max(Holding(hosts, a), Holding(hosts, b));
    RatioRange(HoldingBoth(hosts, a, b), m);
    RatioRange(Holding(hosts, a), Holding(hosts, a));
  }
}
