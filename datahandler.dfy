/**
 * The deterministic parts of DataHandler.cpp: the count part of
 * `getShannonIndx`, the parameter validator `checkParamsIfWrong`, the
 * heterozygote flag written by `inputParamsToFile`, the header-once logic of
 * the `save*` methods, and the text of the host genome file that
 * `saveHostPopulToFile` writes.  A file is modelled by the text written to it.
 */
module DataHandler {
  import opened Wrappers
  import opened Text
  import opened SeqUtil
  import G = Gene
  import HM = Host
  import Env = Environment

  // ----- getShannonIndx -----

  /**
   * The inner loop of `getShannonIndx`: marks every later value equal to
   * value i, so that afterwards a later value is marked exactly when it
   * occurs among the first i + 1 values.
   */
  method MarkLaterCopies(counted: array<bool>, geneVals: seq<int>, i: nat)
    requires counted.Length == |geneVals| && i < |geneVals|
    requires forall k :: i < k < |geneVals| ==> (counted[k] <==> geneVals[k] in geneVals[..i])
    modifies counted
    ensures forall k :: i < k < |geneVals| ==> (counted[k] <==> geneVals[k] in geneVals[..i + 1])
    ensures forall k :: 0 <= k <= i ==> counted[k] == old(counted[k])
  {
    PrefixSnoc(geneVals, i);
    var n := |geneVals|;
    var j := i + 1;
    while j < n
      invariant i + 1 <= j <= n
      invariant forall k :: 0 <= k <= i ==> counted[k] == old(counted[k])
      invariant forall k :: i < k < j ==> (counted[k] <==> geneVals[k] in geneVals[..i + 1])
      invariant forall k :: j <= k < n ==> (counted[k] <==> geneVals[k] in geneVals[..i])
    {
      if i != j && !counted[j] && geneVals[i] == geneVals[j] {
        counted[j] := true;
      }
      j := j + 1;
    }
  }

  /**
   * The counting part of `getShannonIndx`: every value not yet marked starts a
   * new type and marks all later equal values.  Returns the number of types and
   * the number of values (the Shannon sum itself is floating point and is not
   * modelled).
   */
  method GetShannonIndx(geneVals: seq<int>) returns (types: nat, totGeneNumb: nat)
    ensures types == |Distinct(geneVals)|
    ensures totGeneNumb == |geneVals|
    ensures geneVals == [] ==> types == 0
    ensures geneVals != [] ==> 1 <= types <= |geneVals|
  {
    types := 0;
    totGeneNumb := |geneVals|;
    DistinctProps(geneVals);
    if |geneVals| == 0 {
      return;
    }
    var n := |geneVals|;
    var counted := new bool[n];
    var w := 0;
    while w < n
      invariant 0 <= w <= n
      invariant forall k :: 0 <= k < w ==> !counted[k]
    {
      counted[w] := false;
      w := w + 1;
    }
    var i := 0;
    while i < n
      invariant 0 <= i <= n
      invariant types == |Distinct(geneVals[..i])|
      invariant forall k :: i <= k < n ==> (counted[k] <==> geneVals[k] in geneVals[..i])
    {
      PrefixSnoc(geneVals, i);
      DistinctProps(geneVals[..i]);
      if !counted[i] {
        types := types + 1;
        MarkLaterCopies(counted, geneVals, i);
      } else {
        forall k | i < k < n
          ensures geneVals[k] in geneVals[..i + 1] <==> geneVals[k] in geneVals[..i]
        {
        }
      }
      i := i + 1;
    }
    assert geneVals[..n] == geneVals;
  }

  /** The values of a chromosome's genes, collected gene by gene as `saveHostGeneNumbers` does. */
  method GeneValues(chr: seq<G.GeneState>) returns (vals: seq<int>)
    ensures vals == ChromosomeValues(chr)
  {
    vals := [];
    var j := 0;
    while j < |chr|
      invariant 0 <= j <= |chr|
      invariant vals == ChromosomeValues(chr)[..j]
    {
      vals := vals + [chr[j].theGene];
      j := j + 1;
    }
    assert ChromosomeValues(chr)[..j] == ChromosomeValues(chr);
  }

  /**
   * The two lists `saveHostGeneNumbers` prints: per host, the number of genes
   * on chromosome one and the number of distinct values among them.
   */
  method GeneNumbers(hosts: seq<HM.HostState>) returns (allGenomesSize: seq<nat>, uniqueMHCs: seq<nat>)
    ensures allGenomesSize == ChromOneSizes(hosts)
    ensures uniqueMHCs == ChromOneTypes(hosts)
  {
    allGenomesSize := [];
    uniqueMHCs := [];
    var i := 0;
    while i < |hosts|
      invariant 0 <= i <= |hosts|
      invariant allGenomesSize == ChromOneSizes(hosts)[..i]
      invariant uniqueMHCs == ChromOneTypes(hosts)[..i]
    {
      var theGeneVals := GeneValues(hosts[i].chromosomeOne);
      allGenomesSize := allGenomesSize + [|theGeneVals|];
      var mhcTypes, _ := GetShannonIndx(theGeneVals);
      uniqueMHCs := uniqueMHCs + [mhcTypes];
      i := i + 1;
    }
    assert ChromOneSizes(hosts)[..i] == ChromOneSizes(hosts);
    assert ChromOneTypes(hosts)[..i] == ChromOneTypes(hosts);
  }

  // ----- checkParamsIfWrong -----

  /** The run parameters `checkParamsIfWrong` and `inputParamsToFile` receive. */
  datatype Params = Params(
    rndSeed: int,
    geneLength: int,
    antigenLength: int,
    hostPopSize: int,
    pathoPopSize: int,
    pathoSp: int,
    hostGeneNumbb: int,
    pathoGeneNumb: int,
    patoPerHostGeneration: int,
    numOfHostGenerations: int,
    hostMutationProb: real,
    pathoMutationProb: real,
    heteroHomo: int,
    hostDeletion: real,
    hostDuplication: real,
    maxGene: int,
    alpha: real,
    fixedAntigPosit: real)

  predicate Unit(x: real) {
    0.0 <= x <= 1.0
  }

  /** The parameters the validator finds wrong: any one of its eleven conditions. */
  predicate ParamsWrong(p: Params) {
    p.rndSeed < 0 ||
    p.geneLength > 31 ||
    p.geneLength > p.antigenLength ||
    !Unit(p.hostMutationProb) ||
    !Unit(p.pathoMutationProb) ||
    !Unit(p.hostDeletion) ||
    !Unit(p.hostDuplication) ||
    (p.heteroHomo != 10 && p.heteroHomo != 11) ||
    p.maxGene < 1 || p.maxGene < p.hostGeneNumbb ||
    !Unit(p.alpha) ||
    !Unit(p.fixedAntigPosit)
  }

  /** The same parameters with the six quantities the validator never looks at replaced. */
  function WithUncheckedSizes(p: Params, hostPop: int, pathoPop: int, sp: int, antigens: int, perHost: int,
                              generations: int): Params
  {
    p.(hostPopSize := hostPop, pathoPopSize := pathoPop, pathoSp := sp, pathoGeneNumb := antigens,
       patoPerHostGeneration := perHost, numOfHostGenerations := generations)
  }

  /** Population sizes, species and antigen counts and generation counts never make a run wrong. */
  lemma SizesNeverChecked(p: Params, hostPop: int, pathoPop: int, sp: int, antigens: int, perHost: int,
                          generations: int)
    ensures ParamsWrong(p) == ParamsWrong(WithUncheckedSizes(p, hostPop, pathoPop, sp, antigens, perHost, generations))
  {
  }

  /**
   * Accepted parameters give genes of at most 31 bits that fit in an antigen,
   * probabilities in [0, 1], a known heterozygote mode and a chromosome limit
   * of at least one gene and at least the initial number of genes.
   */
  lemma AcceptedParams(p: Params)
    requires !ParamsWrong(p)
    ensures 0 <= p.rndSeed
    ensures p.geneLength <= 31 && p.geneLength <= p.antigenLength
    ensures Unit(p.hostMutationProb) && Unit(p.pathoMutationProb) && Unit(p.alpha) && Unit(p.fixedAntigPosit)
    ensures Unit(p.hostDeletion) && Unit(p.hostDuplication)
    ensures p.heteroHomo == 10 || p.heteroHomo == 11
    ensures 1 <= p.maxGene && p.hostGeneNumbb <= p.maxGene
  {
  }

  /** The heterozygote flag `inputParamsToFile` writes: YES for 10, NO for 11, ERROR otherwise. */
  function HeterozygoteFlag(heteroHomo: int): (s: string)
    ensures s == "YES" <==> heteroHomo == 10
    ensures s == "NO" <==> heteroHomo == 11
    ensures s == "ERROR" <==> heteroHomo != 10 && heteroHomo != 11
  {
    if heteroHomo == 10 then "YES" else if heteroHomo == 11 then "NO" else "ERROR"
  }

  /** The parameter file says ERROR exactly for a mode the validator rejects the run for. */
  lemma FlagErrorIsWrong(p: Params)
    ensures HeterozygoteFlag(p.heteroHomo) == "ERROR" ==> ParamsWrong(p)
    ensures !ParamsWrong(p) ==> HeterozygoteFlag(p.heteroHomo) in {"YES", "NO"}
  {
  }

  /**
   * As written: an accepted run stays accepted with no pathogen species, or
   * with no pathogens at all; main's `patho_sp % 4` test passes 0 too, and
   * the `setPatho*` constructors then divide by a clamped species count of 0.
   */
  lemma ZeroDivisorAccepted(p: Params)
    requires !ParamsWrong(p)
    ensures !ParamsWrong(p.(pathoSp := 0)) && 0 % 4 == 0
    ensures p.pathoPopSize >= 0 ==> Env.ClampedSpecies(p.pathoPopSize, 0) == 0
    ensures !ParamsWrong(p.(pathoPopSize := 0))
    ensures p.pathoSp >= 0 ==> Env.ClampedSpecies(0, p.pathoSp) == 0
  {
    SizesNeverChecked(p, p.hostPopSize, p.pathoPopSize, 0, p.pathoGeneNumb, p.patoPerHostGeneration,
                      p.numOfHostGenerations);
    SizesNeverChecked(p, p.hostPopSize, 0, p.pathoSp, p.pathoGeneNumb, p.patoPerHostGeneration,
                      p.numOfHostGenerations);
  }

  /** The validator with the two checks the species split needs: a pathogen and a species at least. */
  predicate ParamsWrongWithSizes(p: Params) {
    ParamsWrong(p) || p.pathoPopSize < 1 || p.pathoSp < 1
  }

  /**
   * Corrected: parameters the extended validator accepts pass the original
   * one, and give a positive clamped species count whose species sizes add
   * up to the pathogen population.
   */
  lemma AcceptedSizesSplit(p: Params)
    requires !ParamsWrongWithSizes(p)
    ensures !ParamsWrong(p)
    ensures 0 < Env.ClampedSpecies(p.pathoPopSize, p.pathoSp) <= p.pathoPopSize
    ensures Env.Sum(Env.Allocation(p.pathoPopSize, p.pathoSp)) == p.pathoPopSize
  {
    Env.AllocationProps(p.pathoPopSize, p.pathoSp);
  }

  // ----- Header-once logging -----

  /** A file that gets a header line once and data lines after it: its first-time flag and text. */
  datatype Log = Log(first: bool, text: string)

  /** One `save*` call: the first call truncates the file to the header; every call appends its data. */
  function LogStep(l: Log, header: string, data: string): Log {
    Log(false, (if l.first then header else l.text) + data)
  }

  /** Several calls in a row. */
  function LogAll(l: Log, header: string, datas: seq<string>): Log
  {
    if datas == [] then l else LogStep(LogAll(l, header, datas[..|datas| - 1]), header, datas[|datas| - 1])
  }

  /**
   * After `setAllFilesAsFirtsTimers`, a run of n >= 1 calls leaves the header
   * once followed by the n data lines, whatever the file held before; without
   * the flag, the calls only append.
   */
  lemma {:induction false} HeaderOnce(text: string, header: string, datas: seq<string>)
    ensures |datas| > 0 ==> LogAll(Log(true, text), header, datas) == Log(false, header + Concat(datas))
    ensures LogAll(Log(false, text), header, datas) == Log(false, text + Concat(datas))
  {
    if datas != [] {
      var n := |datas| - 1;
      var p := datas[..n];
      HeaderOnce(text, header, p);
      assert datas == p + [datas[n]];
      ConcatSnoc(p, datas[n]);
      if n == 0 {
        assert p == [];
      }
    }
  }

  /** A line of a time stamp followed by one space-separated number per item. */
  function NumbersLine(tayme: int, xs: seq<nat>): string {
    Join([IntToString(tayme)] + NatStrings(xs), ' ') + "\n"
  }

  /** The numbers line splits back into the time stamp and the numbers, in order. */
  lemma NumbersLineReadBack(tayme: int, xs: seq<nat>)
    ensures var f := Split(NumbersLine(tayme, xs));
      |f| == 1 + |xs| && ParseInt(f[0]) == Some(tayme) &&
      forall j :: 0 <= j < |xs| ==> ParseInt(f[j + 1]) == Some(xs[j])
  {
    var fields := [IntToString(tayme)] + NatStrings(xs);
    IntStringIsWord(tayme);
    forall i | 0 <= i < |fields|
      ensures |fields[i]| > 0 && NoSpace(fields[i])
    {
      if i > 0 {
        NatStringIsWord(xs[i - 1]);
      }
    }
    assert AllSpace("\n");
    SplitJoin(fields, ' ', "\n");
    ParseIntOfIntString(tayme);
    forall j | 0 <= j < |xs|
      ensures ParseInt(fields[j + 1]) == Some(xs[j])
    {
      ParseIntOfNatToString(xs[j]);
    }
  }

  /** Builds a numbers line by appending " " and the number for each item. */
  method StringNumbers(tayme: int, xs: seq<nat>) returns (s: string)
    ensures s == NumbersLine(tayme, xs)
  {
    s := IntToString(tayme);
    var j := 0;
    while j < |xs|
      invariant 0 <= j <= |xs|
      invariant s == Join([IntToString(tayme)] + NatStrings(xs[..j]), ' ')
    {
      PrefixSnoc(xs, j);
      assert NatStrings(xs[..j + 1]) == NatStrings(xs[..j]) + [NatToString(xs[j])];
      JoinSnoc([IntToString(tayme)] + NatStrings(xs[..j]), NatToString(xs[j]), ' ');
      assert [IntToString(tayme)] + NatStrings(xs[..j + 1]) ==
        [IntToString(tayme)] + NatStrings(xs[..j]) + [NatToString(xs[j])];
      s := s + " " + NatToString(xs[j]);
      j := j + 1;
    }
    assert xs[..j] == xs;
    s := s + "\n";
  }

  // ----- saveHostPopulToFile -----

  /** The column names of a host genome file, joined by tabs. */
  const HostColumns := ["#bit-gene", "chromosome", "time_of_origin", "gene_own_tag", "Time_of_parental_mutation",
                        "All_parental_tags etc."]

  /** The two comment lines at the top of a host genome file. */
  function HostFileHead(tayme: int): seq<string> {
    ["#Genomes_of_all_host_at_time = " + IntToString(tayme) + "\n", Join(HostColumns, '\t') + "\n"]
  }

  predicate PrintableHost(h: HM.HostState) {
    HM.Printable(h.chromosomeOne) && HM.Printable(h.chromosomeTwo)
  }

  predicate PrintableHosts(hosts: seq<HM.HostState>) {
    forall i :: 0 <= i < |hosts| ==> PrintableHost(hosts[i])
  }

  /** The host genome file: the two comment lines, then `stringChromosomes` of each host in order. */
  function HostGenomesText(hosts: seq<HM.HostState>, tayme: int): string
    requires PrintableHosts(hosts)
  {
    Concat(HostFileHead(tayme)) + HostsText(hosts)
  }

  function HostsText(hosts: seq<HM.HostState>): string
    requires PrintableHosts(hosts)
  {
    if hosts == [] then "" else HostsText(hosts[..|hosts| - 1]) + HM.HostText(hosts[|hosts| - 1])
  }

  /** The lines of one host's block: its header, then its genes, chromosome one's first. */
  function HostLines(h: HM.HostState): seq<string>
    requires PrintableHost(h)
  {
    [HM.Header(h)] + HM.GeneLines(h.chromosomeOne, "ch_one") + HM.GeneLines(h.chromosomeTwo, "ch_two")
  }

  /** The lines of all hosts' blocks, host after host. */
  function PopulationLines(hosts: seq<HM.HostState>): seq<string>
    requires PrintableHosts(hosts)
  {
    if hosts == [] then [] else PopulationLines(hosts[..|hosts| - 1]) + HostLines(hosts[|hosts| - 1])
  }

  lemma HostTextIsConcat(h: HM.HostState)
    requires PrintableHost(h)
    ensures HM.HostText(h) == Concat(HostLines(h))
  {
    ConcatParts(HM.Header(h), HM.GeneLines(h.chromosomeOne, "ch_one"), HM.GeneLines(h.chromosomeTwo, "ch_two"));
  }

  lemma HostLinesAreLines(h: HM.HostState)
    requires PrintableHost(h)
    ensures AllLines(HostLines(h))
  {
    HM.HeaderIsLine(h);
    assert AllLines([HM.Header(h)]);
    assert NoSpace("ch_one") && NoSpace("ch_two");
    HM.GeneLinesAreLines(h.chromosomeOne, "ch_one");
    HM.GeneLinesAreLines(h.chromosomeTwo, "ch_two");
    AllLinesAppend([HM.Header(h)], HM.GeneLines(h.chromosomeOne, "ch_one"));
    AllLinesAppend([HM.Header(h)] + HM.GeneLines(h.chromosomeOne, "ch_one"), HM.GeneLines(h.chromosomeTwo, "ch_two"));
  }

  lemma {:induction false} HostsTextIsLines(hosts: seq<HM.HostState>)
    requires PrintableHosts(hosts)
    ensures HostsText(hosts) == Concat(PopulationLines(hosts))
    ensures AllLines(PopulationLines(hosts))
  {
    if hosts != [] {
      var n := |hosts| - 1;
      HostsTextIsLines(hosts[..n]);
      HostTextIsConcat(hosts[n]);
      HostLinesAreLines(hosts[n]);
      ConcatAppend(PopulationLines(hosts[..n]), HostLines(hosts[n]));
      AllLinesAppend(PopulationLines(hosts[..n]), HostLines(hosts[n]));
    }
  }

  /** A line starting with '#' contains "#". */
  lemma HashLine(s: string)
    requires |s| > 0 && s[0] == '#'
    ensures Contains(s, "#")
  {
    assert s[0..1] == "#";
    assert OccursAt(s, "#", 0);
  }

  lemma TimeCommentIsLine(tayme: int)
    ensures IsLine(HostFileHead(tayme)[0]) && Contains(HostFileHead(tayme)[0], "#")
  {
    var a := "#Genomes_of_all_host_at_time = ";
    assert NoNewline(a);
    IntStringAvoids(tayme, '\n');
    var t := a + IntToString(tayme);
    assert NoNewline(t);
    LineOf(t);
    assert HostFileHead(tayme)[0] == t + "\n";
    HashLine(t + "\n");
  }

  lemma ColumnsCommentIsLine()
    ensures IsLine(Join(HostColumns, '\t') + "\n") && Contains(Join(HostColumns, '\t') + "\n", "#")
  {
    var cols := HostColumns;
    assert NoNewline(cols[0]) && NoNewline(cols[1]) && NoNewline(cols[2]);
    assert NoNewline(cols[3]) && NoNewline(cols[4]) && NoNewline(cols[5]);
    JoinNoNewline(cols, '\t');
    LineOf(Join(cols, '\t'));
    assert Join(cols, '\t') == cols[0] + ['\t'] + Join(cols[1..], '\t');
    HashLine(Join(cols, '\t') + "\n");
  }

  lemma HostFileHeadIsLines(tayme: int)
    ensures AllLines(HostFileHead(tayme))
    ensures forall i :: 0 <= i < |HostFileHead(tayme)| ==> Contains(HostFileHead(tayme)[i], "#")
  {
    var hd := HostFileHead(tayme);
    var cols := Join(HostColumns, '\t') + "\n";
    TimeCommentIsLine(tayme);
    ColumnsCommentIsLine();
    assert hd == [hd[0], cols];
    forall i | 0 <= i < |hd|
      ensures IsLine(hd[i]) && Contains(hd[i], "#")
    {
      if i == 1 {
        assert hd[i] == cols;
      }
    }
  }

  /** The host genome file reads back, line by line, as the two comments and then each host's block. */
  lemma HostGenomesTextLines(hosts: seq<HM.HostState>, tayme: int)
    requires PrintableHosts(hosts)
    ensures Lines(HostGenomesText(hosts, tayme)) == HostFileHead(tayme) + PopulationLines(hosts)
  {
    var hd := HostFileHead(tayme);
    var pl := PopulationLines(hosts);
    HostsTextIsLines(hosts);
    HostFileHeadIsLines(tayme);
    ConcatAppend(hd, pl);
    AllLinesAppend(hd, pl);
    LinesOfConcat(hd + pl);
  }

  // ----- The DataHandler object -----

  const SpeciesHeader := "#time subsequent_species_pop_size\n"
  const GeneDiversHeader := "#time pop_size tot_num_of_genes num_of_MHC_types Shannon_indx mean_fitness std_fitness\n"
  const GeneNumbTotalHeader := "#time total_number_of_genes_in_all_host_cells\n"
  const MhcsNumbUniqHeader := "#time number_of_unique_MHCs_in_all_host_cells\n"
  const NoMuttHeader := "#list_of_bits_excluded_from_mutating_Each_line_is_a_spp\n"

  /** Values of a chromosome, as `getSingleHostRealGeneOne` reads them one by one. */
  function ChromosomeValues(chr: seq<G.GeneState>): (r: seq<int>)
    ensures |r| == |chr| && forall j :: 0 <= j < |chr| ==> r[j] == chr[j].theGene
  {
    seq(|chr|, j requires 0 <= j < |chr| => chr[j].theGene)
  }

  /** Per host: the size of chromosome one and its number of distinct gene values. */
  function ChromOneSizes(hosts: seq<HM.HostState>): (r: seq<nat>)
    ensures |r| == |hosts| && forall i :: 0 <= i < |hosts| ==> r[i] == |hosts[i].chromosomeOne|
  {
    seq(|hosts|, i requires 0 <= i < |hosts| => |hosts[i].chromosomeOne|)
  }

  function ChromOneTypes(hosts: seq<HM.HostState>): (r: seq<nat>)
    ensures |r| == |hosts| && forall i :: 0 <= i < |hosts| ==> r[i] == |Distinct(ChromosomeValues(hosts[i].chromosomeOne))|
  {
    seq(|hosts|, i requires 0 <= i < |hosts| => |Distinct(ChromosomeValues(hosts[i].chromosomeOne))|)
  }

  /** Species population sizes, as `getPathoSpeciesPopSize` reads them. */
  function SpeciesSizes<T>(pop: seq<seq<T>>): (r: seq<nat>)
    ensures |r| == |pop| && forall j :: 0 <= j < |pop| ==> r[j] == |pop[j]|
  {
    seq(|pop|, j requires 0 <= j < |pop| => |pop[j]|)
  }

  class DataHandler {
    var ifFirstSpecToFileRun: bool
    var ifFirstHostClonesRun: bool
    var ifFirstHostGeneDivRun: bool
    var ifFirstGeneNumbersTotal: bool
    var ifFirstGeneNumbersUnique: bool
    var ifNoMuttPathoListUnique: bool
    /** The texts of PathoPopSizes.csv, HostsGeneDivers.csv, HostGeneNumbTotal_ChrOne.csv,
        HostMHCsNumbUniq_ChrOne.csv and NoMutationInPathoList.csv. */
    var pathoPopSizes: string
    var hostsGeneDivers: string
    var geneNumbTotal: string
    var mhcsNumbUniq: string
    var noMutationList: string

    /** The flags are left as they come (the constructor does not set them); no file is written yet. */
    constructor ()
      ensures pathoPopSizes == "" && hostsGeneDivers == "" && geneNumbTotal == "" && mhcsNumbUniq == ""
      ensures noMutationList == ""
    {
      pathoPopSizes := "";
      hostsGeneDivers := "";
      geneNumbTotal := "";
      mhcsNumbUniq := "";
      noMutationList := "";
    }

    /** `setAllFilesAsFirtsTimers`: every file will get its header on the next save. */
    method SetAllFilesAsFirtsTimers()
      modifies this
      ensures ifFirstSpecToFileRun && ifFirstHostClonesRun && ifFirstHostGeneDivRun
      ensures ifFirstGeneNumbersTotal && ifFirstGeneNumbersUnique && ifNoMuttPathoListUnique
      ensures pathoPopSizes == old(pathoPopSizes) && hostsGeneDivers == old(hostsGeneDivers)
      ensures geneNumbTotal == old(geneNumbTotal) && mhcsNumbUniq == old(mhcsNumbUniq)
      ensures noMutationList == old(noMutationList)
    {
      ifFirstSpecToFileRun := true;
      ifFirstHostClonesRun := true;
      ifFirstHostGeneDivRun := true;
      ifFirstGeneNumbersTotal := true;
      ifFirstGeneNumbersUnique := true;
      ifNoMuttPathoListUnique := true;
    }

    /** `checkParamsIfWrong`: every check runs, each one that fails sets the error flag. */
    method CheckParamsIfWrong(p: Params) returns (ifError: bool)
      ensures ifError <==> ParamsWrong(p)
    {
      ifError := false;
      if p.rndSeed < 0 {
        ifError := true;
      }
      if p.geneLength > 31 {
        ifError := true;
      }
      if p.geneLength > p.antigenLength {
        ifError := true;
      }
      if p.hostMutationProb < 0.0 || p.hostMutationProb > 1.0 {
        ifError := true;
      }
      if p.pathoMutationProb < 0.0 || p.pathoMutationProb > 1.0 {
        ifError := true;
      }
      if p.hostDeletion < 0.0 || p.hostDeletion > 1.0 {
        ifError := true;
      }
      if p.hostDuplication < 0.0 || p.hostDuplication > 1.0 {
        ifError := true;
      }
      if p.heteroHomo != 10 && p.heteroHomo != 11 {
        ifError := true;
      }
      if p.maxGene < 1 || p.maxGene < p.hostGeneNumbb {
        ifError := true;
      }
      if p.alpha < 0.0 || p.alpha > 1.0 {
        ifError := true;
      }
      if p.fixedAntigPosit < 0.0 || p.fixedAntigPosit > 1.0 {
        ifError := true;
      }
    }

    /** `saveNumOfPathoSpeciesToFile`: the time stamp and every species' population size. */
    method SaveNumOfPathoSpeciesToFile(env: Env.Environment, tayme: int)
      modifies this`ifFirstSpecToFileRun, this`pathoPopSizes
      ensures Log(ifFirstSpecToFileRun, pathoPopSizes) ==
        LogStep(Log(old(ifFirstSpecToFileRun), old(pathoPopSizes)), SpeciesHeader,
                NumbersLine(tayme, SpeciesSizes(env.pathPopulation)))
    {
      if ifFirstSpecToFileRun {
        pathoPopSizes := SpeciesHeader;
        ifFirstSpecToFileRun := false;
      }
      var line := StringNumbers(tayme, SpeciesSizes(env.pathPopulation));
      pathoPopSizes := pathoPopSizes + line;
    }

    /**
     * `saveHostGeneticDivers`: the header once, then one line per call.  The
     * line's fields are floating-point statistics, so it is given formatted.
     */
    method SaveHostGeneticDivers(line: string)
      modifies this`ifFirstHostGeneDivRun, this`hostsGeneDivers
      ensures Log(ifFirstHostGeneDivRun, hostsGeneDivers) ==
        LogStep(Log(old(ifFirstHostGeneDivRun), old(hostsGeneDivers)), GeneDiversHeader, line)
    {
      if ifFirstHostGeneDivRun {
        hostsGeneDivers := GeneDiversHeader;
        ifFirstHostGeneDivRun := false;
      }
      hostsGeneDivers := hostsGeneDivers + line;
    }

    /**
     * `saveHostGeneNumbers`: per host, the size of chromosome one and its
     * number of distinct values, each file with its own header flag.
     */
    method SaveHostGeneNumbers(env: Env.Environment, tayme: int)
      modifies this`ifFirstGeneNumbersTotal, this`ifFirstGeneNumbersUnique, this`geneNumbTotal, this`mhcsNumbUniq
      ensures Log(ifFirstGeneNumbersTotal, geneNumbTotal) ==
        LogStep(Log(old(ifFirstGeneNumbersTotal), old(geneNumbTotal)), GeneNumbTotalHeader,
                NumbersLine(tayme, ChromOneSizes(env.hostPopulation)))
      ensures Log(ifFirstGeneNumbersUnique, mhcsNumbUniq) ==
        LogStep(Log(old(ifFirstGeneNumbersUnique), old(mhcsNumbUniq)), MhcsNumbUniqHeader,
                NumbersLine(tayme, ChromOneTypes(env.hostPopulation)))
    {
      if ifFirstGeneNumbersTotal {
        geneNumbTotal := GeneNumbTotalHeader;
        ifFirstGeneNumbersTotal := false;
      }
      if ifFirstGeneNumbersUnique {
        mhcsNumbUniq := MhcsNumbUniqHeader;
        ifFirstGeneNumbersUnique := false;
      }
      var allGenomesSize, uniqueMHCs := GeneNumbers(env.hostPopulation);
      var totalLine := StringNumbers(tayme, allGenomesSize);
      geneNumbTotal := geneNumbTotal + totalLine;
      var uniqueLine := StringNumbers(tayme, uniqueMHCs);
      mhcsNumbUniq := mhcsNumbUniq + uniqueLine;
    }

    /** `savePathoNoMuttList`: the header once, then the fixed sites of every species. */
    method SavePathoNoMuttList(env: Env.Environment)
      modifies this`ifNoMuttPathoListUnique, this`noMutationList
      ensures Log(ifNoMuttPathoListUnique, noMutationList) ==
        LogStep(Log(old(ifNoMuttPathoListUnique), old(noMutationList)), NoMuttHeader, Env.FixedText(env.noMutsVec))
    {
      if ifNoMuttPathoListUnique {
        noMutationList := NoMuttHeader;
        ifNoMuttPathoListUnique := false;
      }
      var fixed := env.GetFixedBitsInAntigens();
      noMutationList := noMutationList + fixed;
    }
  }
}
