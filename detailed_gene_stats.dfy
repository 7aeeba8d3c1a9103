/**
 * PyScripts/detailed_MHC_gene_stats.py: per host, how many genes and how
 * many different gene tags each chromosome carries.
 *
 * The loader cuts the file into hosts on "===" headers under the `OnHeader`
 * rule (the first header opens the first host, every later one closes the
 * current host) and files each gene line's tag under chromosome one or two
 * by the line's second field; a line naming neither chromosome is ignored.
 */
module DetailedGeneStats {
  import opened Wrappers
  import opened Text
  import opened SeqUtil
  import HB = HeaderBlocks

  /** What one gene line contributes. */
  datatype GeneEntry = ChOne(tag: int) | ChTwo(tag: int) | Other

  /**
   * `LL = line.split()`: `LL[1]` raises IndexError on fewer than two fields;
   * on a chromosome name `int(LL[3])` raises IndexError on fewer than four
   * fields and ValueError when the fourth is not an integer.
   */
  function GeneLineEntry(line: string): (r: PyResult<GeneEntry>)
    ensures |Split(line)| < 2 ==> r == Raise(IndexError)
    ensures |Split(line)| >= 2 && Split(line)[1] != "ch_one" && Split(line)[1] != "ch_two" ==> r == Ok(Other)
    ensures |Split(line)| >= 2 && (Split(line)[1] == "ch_one" || Split(line)[1] == "ch_two") ==>
      (r.Ok? <==> |Split(line)| >= 4 && ParseInt(Split(line)[3]).Some?) &&
      (r.Ok? ==> !r.value.Other? && r.value.tag == ParseInt(Split(line)[3]).value && (r.value.ChOne? <==> Split(line)[1] == "ch_one"))
  {
    var ll := Split(line);
    if |ll| < 2 then Raise(IndexError)
    else if ll[1] == "ch_one" || ll[1] == "ch_two" then
      if |ll| < 4 then Raise(IndexError)
      else match ParseInt(ll[3])
        case None => Raise(ValueError)
        case Some(v) => Ok(if ll[1] == "ch_one" then ChOne(v) else ChTwo(v))
    else Ok(Other)
  }

  /** The tags filed under chromosome one, in line order. */
  function OneTags(es: seq<GeneEntry>): seq<int> {
    if es == [] then [] else
      var p := OneTags(es[..|es| - 1]);
      match es[|es| - 1]
      case ChOne(t) => p + [t]
      case _ => p
  }

  /** The tags filed under chromosome two, in line order. */
  function TwoTags(es: seq<GeneEntry>): seq<int> {
    if es == [] then [] else
      var p := TwoTags(es[..|es| - 1]);
      match es[|es| - 1]
      case ChTwo(t) => p + [t]
      case _ => p
  }

  /** A host as the script holds it: `[chromosome one tags, chromosome two tags]`. */
  datatype HostTags = HostTags(one: seq<int>, two: seq<int>)

  function ToHosts(bs: seq<seq<GeneEntry>>): (r: seq<HostTags>)
    ensures |r| == |bs|
    ensures forall i :: 0 <= i < |bs| ==> r[i] == HostTags(OneTags(bs[i]), TwoTags(bs[i]))
  {
    if bs == [] then [] else ToHosts(bs[..|bs| - 1]) + [HostTags(OneTags(bs[|bs| - 1]), TwoTags(bs[|bs| - 1]))]
  }

  /** What `loadHostPopulation(FILE)` returns; `None` when the file does not open. */
  function GeneList(file: Option<seq<string>>): PyResult<Option<seq<HostTags>>> {
    match HB.Loaded(file, HB.OnHeader, GeneLineEntry)
    case Raise(e) => Raise(e)
    case Ok(None) => Ok(None)
    case Ok(Some(bs)) => Ok(Some(ToHosts(bs)))
  }

  method LoadHostPopulation(file: Option<seq<string>>) returns (r: PyResult<Option<seq<HostTags>>>)
    ensures r == GeneList(file)
  {
    var blocks := HB.LoadFile(file, HB.OnHeader, GeneLineEntry);
    match blocks
    case Raise(e) => r := Raise(e);
    case Ok(None) => r := Ok(None);
    case Ok(Some(bs)) => r := Ok(Some(ToHosts(bs)));
  }

  /** One host per header (one when there is none), and a missing file gives `None`. */
  lemma GeneListCount(file: Option<seq<string>>)
    ensures file.None? ==> GeneList(file) == Ok(None)
    ensures file.Some? && GeneList(file).Ok? ==>
      |GeneList(file).value.value| == (if HB.Headers(file.value) == 0 then 1 else HB.Headers(file.value))
  {
    if file.Some? && GeneList(file).Ok? {
      HB.OnHeaderCount(file.value, GeneLineEntry);
    }
  }

  /** Every tag lands on the chromosome its line names: the two lists split the entries. */
  lemma {:induction false} TagsSplit(es: seq<GeneEntry>)
    ensures |OneTags(es)| + |TwoTags(es)| <= |es|
    ensures |OneTags(es)| + |TwoTags(es)| == |es| <==> forall i :: 0 <= i < |es| ==> !es[i].Other?
  {
    if es != [] {
      var n := |es| - 1;
      TagsSplit(es[..n]);
      assert forall i :: 0 <= i < n ==> es[..n][i] == es[i];
    }
  }

  // ------------------------------------------------------------- analiseGeneContent

  /** One row of the table. */
  datatype Stats = Stats(chr1: nat, chr2: nat, unq1: nat, unq2: nat, tot: nat, unqTot: nat)

  function Unique(s: seq<int>): nat {
    |set x | x in s|
  }

  function StatsOf(h: HostTags): Stats {
    Stats(|h.one|, |h.two|, Unique(h.one), Unique(h.two), |h.one + h.two|, Unique(h.one + h.two))
  }

  /** `analiseGeneContent`: one row per host, in host order. */
  method AnaliseGeneContent(geneList: seq<HostTags>) returns (stats: seq<Stats>)
    ensures |stats| == |geneList|
    ensures forall i :: 0 <= i < |geneList| ==> stats[i] == StatsOf(geneList[i])
  {
    stats := seq(|geneList|, _ => Stats(0, 0, 0, 0, 0, 0));
    for i := 0 to |geneList|
      invariant |stats| == |geneList|
      invariant forall k :: 0 <= k < i ==> stats[k] == StatsOf(geneList[k])
    {
      var indv := geneList[i];
      stats := stats[i := Stats(|indv.one|, |indv.two|, Unique(indv.one), Unique(indv.two),
                                |indv.one + indv.two|, Unique(indv.one + indv.two))];
    }
  }

  /** A list has at most as many different items as items. */
  lemma UniqueBound(s: seq<int>)
    ensures Unique(s) <= |s|
  {
    DistinctCardinality(s);
    DistinctProps(s);
  }

  /** A smaller set of items has no more members. */
  lemma SubsetSize(a: set<int>, b: set<int>)
    requires a <= b
    ensures |a| <= |b|
  {
    assert b == a + (b - a);
    assert a * (b - a) == {};
  }

  /**
   * The bounds every row satisfies: a chromosome has at most as many
   * different tags as genes; the total is the sum of the chromosomes; the
   * different tags of the host are at least those of either chromosome and
   * at most both chromosomes' together, and at most the total.
   */
  lemma StatsBounds(h: HostTags)
    ensures var s := StatsOf(h);
      s.unq1 <= s.chr1 && s.unq2 <= s.chr2 && s.tot == s.chr1 + s.chr2 &&
      s.unq1 <= s.unqTot && s.unq2 <= s.unqTot &&
      s.unqTot <= s.unq1 + s.unq2 && s.unqTot <= s.tot
  {
    var both := h.one + h.two;
    var a := set x | x in h.one;
    var b := set x | x in h.two;
    var c := set x | x in both;
    assert c == a + b;
    SubsetSize(a, c);
    SubsetSize(b, c);
    UniqueBound(h.one);
    UniqueBound(h.two);
    UniqueBound(both);
  }
}
