/**
 * PyScripts/infection_vs_MHC_stats.py and its notebook copy: per host, the
 * number of distinct MHC alleles against the number of pathogen species the
 * host presented, read from one host genome file.
 *
 * `loadHostPopulation` is the shared host loader (module HostLoader).
 * `loadPathoExposed` keeps, for every "===" header, the header's fields from
 * the twelfth up to the one before last when its eighth field is a positive
 * number, and an empty list otherwise. A header written by
 * `Host::stringChromosomes` has exactly eleven fields, so on a file the
 * simulator wrote every entry is empty (`NothingExposedInHostFile`).
 */
module InfectionVsMhc {
  import opened Wrappers
  import opened Text
  import opened SeqUtil
  import Py = Python
  import HB = HeaderBlocks
  import HL = HostLoader
  import HM = Host
  import DH = DataHandler
  import HF = HostFile

  // ------------------------------------------------------------- loadPathoExposed

  /**
   * What one header contributes: `int(ll[7])` raises IndexError when the
   * line has at most seven fields and ValueError when the eighth is not a
   * number; a positive number keeps the fields after the eleventh but the
   * last, anything else an empty list.
   */
  function ExposedEntry(line: string): (r: PyResult<seq<string>>)
    ensures r.Raise? <==> |Split(line)| <= 7 || ParseInt(Split(line)[7]).None?
    ensures r.Raise? ==> (r.error == IndexError <==> |Split(line)| <= 7)
    ensures r.Raise? ==> (r.error == ValueError <==> |Split(line)| > 7)
    ensures r.Ok? && r.value != [] ==> ParseInt(Split(line)[7]).value > 0
    ensures r.Ok? ==> |r.value| == (if ParseInt(Split(line)[7]).value > 0 && |Split(line)| > 12 then |Split(line)| - 12 else 0)
    ensures r.Ok? ==> forall k :: 0 <= k < |r.value| ==> r.value[k] == Split(line)[11 + k]
  {
    var ll := Split(line);
    if |ll| <= 7 then Raise(IndexError)
    else match ParseInt(ll[7])
      case None => Raise(ValueError)
      case Some(n) =>
        Py.SliceToLast(ll, 11);
        if n > 0 then Ok(Py.Slice(ll, 11, -1)) else Ok([])
  }

  /** One pass of the loop: comments and gene lines leave the list as it is. */
  function ExposedStep(LL: seq<seq<string>>, line: string): PyResult<seq<seq<string>>> {
    if HB.IsComment(line) then Ok(LL)
    else if Contains(line, "===") then
      match ExposedEntry(line)
      case Raise(e) => Raise(e)
      case Ok(x) => Ok(LL + [x])
    else Ok(LL)
  }

  /** The loop from the list `LL` over `lines`; the first exception ends it. */
  function ExposedFrom(LL: seq<seq<string>>, lines: seq<string>): PyResult<seq<seq<string>>> {
    if lines == [] then Ok(LL)
    else
      match ExposedFrom(LL, lines[..|lines| - 1])
      case Raise(e) => Raise(e)
      case Ok(M) => ExposedStep(M, lines[|lines| - 1])
  }

  /** What `loadPathoExposed(FILE)` returns; `None` when the file does not open. */
  function PathoExposed(file: Option<seq<string>>): PyResult<Option<seq<seq<string>>>> {
    match file
    case None => Ok(None)
    case Some(lines) =>
      match ExposedFrom([], lines)
      case Raise(e) => Raise(e)
      case Ok(LL) => Ok(Some(LL))
  }

  method LoadPathoExposed(file: Option<seq<string>>) returns (r: PyResult<Option<seq<seq<string>>>>)
    ensures r == PathoExposed(file)
  {
    if file.None? {
      return Ok(None);
    }
    var lines := file.value;
    var LL: seq<seq<string>> := [];
    var i := 0;
    while i < |lines|
      invariant 0 <= i <= |lines|
      invariant ExposedFrom([], lines[..i]) == Ok(LL)
    {
      var line := lines[i];
      assert lines[..i + 1][..i] == lines[..i];
      if HB.IsComment(line) {
      } else if Contains(line, "===") {
        var ll := Split(line);
        if |ll| <= 7 {
          ExposedFromAppend([], lines[..i + 1], lines[i + 1..]);
          assert lines[..i + 1] + lines[i + 1..] == lines;
          return Raise(IndexError);
        }
        var n := ParseInt(ll[7]);
        if n.None? {
          ExposedFromAppend([], lines[..i + 1], lines[i + 1..]);
          assert lines[..i + 1] + lines[i + 1..] == lines;
          return Raise(ValueError);
        }
        if n.value > 0 {
          LL := LL + [Py.Slice(ll, 11, -1)];
        } else {
          LL := LL + [[]];
        }
      }
      i := i + 1;
    }
    assert lines[..i] == lines;
    r := Ok(Some(LL));
  }

  /** Running over `a + b` is running over `a`, then over `b` from where it stopped. */
  lemma {:induction false} ExposedFromAppend(LL: seq<seq<string>>, a: seq<string>, b: seq<string>)
    ensures ExposedFrom(LL, a + b) ==
      match ExposedFrom(LL, a)
      case Raise(e) => Raise(e)
      case Ok(M) => ExposedFrom(M, b)
  {
    if b == [] {
      assert a + b == a;
    } else {
      var n := |b| - 1;
      ExposedFromAppend(LL, a, b[..n]);
      assert (a + b)[..|a + b| - 1] == a + b[..n];
    }
  }

  /**
   * The loader raises exactly when some header's eighth field is missing or
   * not a number; otherwise it appends one entry per header, in file order.
   */
  lemma {:induction false} ExposedPerHeader(LL: seq<seq<string>>, lines: seq<string>)
    ensures ExposedFrom(LL, lines).Ok? <==>
      forall i :: 0 <= i < |lines| && HB.IsHeader(lines[i]) ==> ExposedEntry(lines[i]).Ok?
    ensures ExposedFrom(LL, lines).Ok? ==>
      |ExposedFrom(LL, lines).value| == |LL| + HB.Headers(lines) &&
      ExposedFrom(LL, lines).value[..|LL|] == LL
  {
    if lines != [] {
      var n := |lines| - 1;
      var p := lines[..n];
      ExposedPerHeader(LL, p);
      assert forall i :: 0 <= i < n ==> lines[i] == p[i];
      if ExposedFrom(LL, p).Ok? {
        var M := ExposedFrom(LL, p).value;
        if HB.IsHeader(lines[n]) && ExposedEntry(lines[n]).Ok? {
          assert (M + [ExposedEntry(lines[n]).value])[..|LL|] == M[..|LL|];
        }
      } else {
        var i :| 0 <= i < |p| && HB.IsHeader(p[i]) && !ExposedEntry(p[i]).Ok?;
        assert lines[i] == p[i];
      }
    }
  }

  /** Lines without a header leave the list unchanged. */
  lemma {:induction false} ExposedSkips(LL: seq<seq<string>>, lines: seq<string>)
    requires forall i :: 0 <= i < |lines| ==> !HB.IsHeader(lines[i])
    ensures ExposedFrom(LL, lines) == Ok(LL)
  {
    if lines != [] {
      ExposedSkips(LL, lines[..|lines| - 1]);
    }
  }

  /** A header written by the simulator has eleven fields, so its entry is empty. */
  lemma SimulatorHeaderExposesNothing(h: HM.HostState)
    ensures ExposedEntry(HM.Header(h)) == Ok([])
  {
    HM.HeaderReadBack(h);
    Py.SliceToLast(HM.HeaderWords(h), 11);
  }

  /** `n` empty entries. */
  function Empties(n: nat): (r: seq<seq<string>>)
    ensures |r| == n && forall k :: 0 <= k < n ==> r[k] == []
  {
    if n == 0 then [] else Empties(n - 1) + [[]]
  }

  /** No gene line of a printed host is a header. */
  lemma GeneLinesHaveNoHeader(h: HM.HostState)
    requires DH.PrintableHost(h)
    ensures forall i :: 0 <= i < |HF.HostGeneLines(h)| ==> !HB.IsHeader(HF.HostGeneLines(h)[i])
  {
    var one := HM.GeneLines(h.chromosomeOne, "ch_one");
    var two := HM.GeneLines(h.chromosomeTwo, "ch_two");
    HF.GeneLinesRead(h.chromosomeOne, "ch_one");
    HF.GeneLinesRead(h.chromosomeTwo, "ch_two");
    HF.DataLinesAppend(one, two);
    assert HF.DataLines(HF.HostGeneLines(h)) == HF.HostGeneLines(h);
  }

  /** One host's block adds one empty entry. */
  lemma HostBlockExposesNothing(LL: seq<seq<string>>, h: HM.HostState)
    requires DH.PrintableHost(h)
    ensures ExposedFrom(LL, DH.HostLines(h)) == Ok(LL + [[]])
  {
    var hd := HM.Header(h);
    var genes := HF.HostGeneLines(h);
    HF.HeaderMarked(h);
    SimulatorHeaderExposesNothing(h);
    assert DH.HostLines(h) == [hd] + genes;
    GeneLinesHaveNoHeader(h);
    ExposedFromAppend(LL, [hd], genes);
    assert ExposedFrom(LL, [hd]) == Ok(LL + [[]]) by {
      assert [hd][..0] == [];
    }
    ExposedSkips(LL + [[]], genes);
  }

  lemma {:induction false} PopulationExposesNothing(LL: seq<seq<string>>, hosts: seq<HM.HostState>)
    requires DH.PrintableHosts(hosts)
    ensures ExposedFrom(LL, DH.PopulationLines(hosts)) == Ok(LL + Empties(|hosts|))
  {
    if hosts == [] {
      assert LL + Empties(0) == LL;
    } else {
      var n := |hosts| - 1;
      assert DH.PrintableHosts(hosts[..n]);
      assert DH.PopulationLines(hosts) == DH.PopulationLines(hosts[..n]) + DH.HostLines(hosts[n]);
      PopulationExposesNothing(LL, hosts[..n]);
      ExposedFromAppend(LL, DH.PopulationLines(hosts[..n]), DH.HostLines(hosts[n]));
      HostBlockExposesNothing(LL + Empties(n), hosts[n]);
      assert LL + Empties(n) + [[]] == LL + Empties(n + 1);
    }
  }

  /**
   * On a host genome file that `saveHostPopulToFile` wrote the loader gives
   * one entry per host, and every entry is empty, whatever the host presented.
   */
  lemma NothingExposedInHostFile(hosts: seq<HM.HostState>, tayme: int)
    requires DH.PrintableHosts(hosts)
    ensures PathoExposed(Some(Lines(DH.HostGenomesText(hosts, tayme)))) == Ok(Some(Empties(|hosts|)))
  {
    DH.HostGenomesTextLines(hosts, tayme);
    HeadExposesNothing(tayme);
    HeadThenHostsExposeNothing(DH.HostFileHead(tayme), hosts);
  }

  lemma HeadThenHostsExposeNothing(hd: seq<string>, hosts: seq<HM.HostState>)
    requires DH.PrintableHosts(hosts)
    requires ExposedFrom([], hd) == Ok([])
    ensures ExposedFrom([], hd + DH.PopulationLines(hosts)) == Ok(Empties(|hosts|))
  {
    var body := DH.PopulationLines(hosts);
    ExposedFromAppend([], hd, body);
    assert ExposedFrom([], hd + body) == ExposedFrom([], body);
    PopulationExposesNothing([], hosts);
    assert [] + Empties(|hosts|) == Empties(|hosts|);
  }

  /** The two comment lines leave the list empty. */
  lemma HeadExposesNothing(tayme: int)
    ensures ExposedFrom([], DH.HostFileHead(tayme)) == Ok([])
  {
    var hd := DH.HostFileHead(tayme);
    DH.HostFileHeadIsLines(tayme);
    assert forall i :: 0 <= i < |hd| ==> !HB.IsHeader(hd[i]);
    ExposedSkips([], hd);
  }

  // ------------------------------------------------------------- uniqueMhcInHostOnly

  /** Each host's alleles without repeats, in order of first appearance. */
  method UniqueMhcInHostOnly(hostPopList: seq<seq<string>>) returns (uniqHosts: seq<seq<string>>)
    ensures |uniqHosts| == |hostPopList|
    ensures forall k :: 0 <= k < |hostPopList| ==> uniqHosts[k] == Distinct(hostPopList[k])
    ensures forall k :: 0 <= k < |hostPopList| ==>
      NoDup(uniqHosts[k]) && forall x :: x in uniqHosts[k] <==> x in hostPopList[k]
  {
    uniqHosts := [];
    for i := 0 to |hostPopList|
      invariant |uniqHosts| == i
      invariant forall k :: 0 <= k < i ==> uniqHosts[k] == Distinct(hostPopList[k])
      invariant forall k :: 0 <= k < i ==>
        NoDup(uniqHosts[k]) && forall x :: x in uniqHosts[k] <==> x in hostPopList[k]
    {
      var indv := hostPopList[i];
      var ll: seq<string> := [];
      for j := 0 to |indv|
        invariant ll == Distinct(indv[..j])
      {
        assert indv[..j + 1][..j] == indv[..j];
        if indv[j] !in ll {
          ll := ll + [indv[j]];
        }
      }
      assert indv[..|indv|] == indv;
      DistinctProps(indv);
      uniqHosts := uniqHosts + [ll];
    }
  }

  // ------------------------------------------------------------- calculateTheNumbers

  /** Per host, the number of distinct alleles. */
  function UniqueCounts(hosts: seq<seq<string>>): (r: seq<nat>)
    ensures |r| == |hosts|
  {
    if hosts == [] then [] else UniqueCounts(hosts[..|hosts| - 1]) + [|Distinct(hosts[|hosts| - 1])|]
  }

  /** Per host, the number of species it presented. */
  function Lengths(pathos: seq<seq<string>>): (r: seq<nat>)
    ensures |r| == |pathos|
  {
    if pathos == [] then [] else Lengths(pathos[..|pathos| - 1]) + [|pathos[|pathos| - 1]|]
  }

  /**
   * Entry k of the first array is the number of different alleles host k
   * carries (at most its number of alleles); entry k of the second is how
   * many species host k presented.
   */
  lemma {:induction false} NumbersMeaning(hosts: seq<seq<string>>, pathos: seq<seq<string>>)
    ensures forall k :: 0 <= k < |hosts| ==>
      UniqueCounts(hosts)[k] == |set x | x in hosts[k]| && UniqueCounts(hosts)[k] <= |hosts[k]|
    ensures forall k :: 0 <= k < |pathos| ==> Lengths(pathos)[k] == |pathos[k]|
    decreases |hosts| + |pathos|
  {
    if hosts != [] {
      var n := |hosts| - 1;
      NumbersMeaning(hosts[..n], []);
      DistinctCardinality(hosts[n]);
      DistinctProps(hosts[n]);
    }
    if pathos != [] {
      NumbersMeaning([], pathos[..|pathos| - 1]);
    }
  }

  method CalculateTheNumbers(hostPopList: seq<seq<string>>, pathoExposed: seq<seq<string>>)
    returns (uniqNumb: seq<nat>, pathoNumb: seq<nat>)
    ensures uniqNumb == UniqueCounts(hostPopList)
    ensures pathoNumb == Lengths(pathoExposed)
  {
    var uniq := UniqueMhcInHostOnly(hostPopList);
    uniqNumb := [];
    for i := 0 to |uniq|
      invariant uniqNumb == UniqueCounts(hostPopList[..i])
    {
      assert hostPopList[..i + 1][..i] == hostPopList[..i];
      uniqNumb := uniqNumb + [|uniq[i]|];
    }
    assert hostPopList[..|uniq|] == hostPopList;
    pathoNumb := [];
    for i := 0 to |pathoExposed|
      invariant pathoNumb == Lengths(pathoExposed[..i])
    {
      assert pathoExposed[..i + 1][..i] == pathoExposed[..i];
      pathoNumb := pathoNumb + [|pathoExposed[i]|];
    }
    assert pathoExposed[..|pathoExposed|] == pathoExposed;
  }

  // ------------------------------------------------------------- getTheData, one run

  /**
   * The two arrays one run of `getTheData` regresses: a run is skipped
   * (`None`) when either loader raises or returns nothing; otherwise a 0 is
   * stacked onto the end of both arrays.
   */
  function RunNumbers(file: Option<seq<string>>): Option<(seq<nat>, seq<nat>)> {
    match PathoExposed(file)
    case Raise(_) => None
    case Ok(pathos) =>
      match HL.HostBitStrings(file)
      case Raise(_) => None
      case Ok(hosts) =>
        if hosts.None? || pathos.None? then None
        else Some((UniqueCounts(hosts.value) + [0], Lengths(pathos.value) + [0]))
  }

  /** A run is kept exactly when both loaders read the file, and ends in the stacked zeros. */
  lemma RunNumbersShape(file: Option<seq<string>>)
    ensures RunNumbers(file).Some? <==>
      PathoExposed(file).Ok? && PathoExposed(file).value.Some? &&
      HL.HostBitStrings(file).Ok? && HL.HostBitStrings(file).value.Some?
    ensures RunNumbers(file).Some? ==>
      var (u, p) := RunNumbers(file).value;
      |u| == |HL.HostBitStrings(file).value.value| + 1 && u[|u| - 1] == 0 &&
      |p| == |PathoExposed(file).value.value| + 1 && p[|p| - 1] == 0
    ensures file.None? ==> RunNumbers(file).None?
  {
  }

  /**
   * On a host genome file the simulator wrote, every pathogen number of a
   * kept run is 0: one per host plus the stacked zero.
   */
  lemma HostFileRunPresentsNothing(hosts: seq<HM.HostState>, tayme: int)
    requires DH.PrintableHosts(hosts)
    requires RunNumbers(Some(Lines(DH.HostGenomesText(hosts, tayme)))).Some?
    ensures var p := RunNumbers(Some(Lines(DH.HostGenomesText(hosts, tayme)))).value.1;
      |p| == |hosts| + 1 && forall k :: 0 <= k < |p| ==> p[k] == 0
  {
    NothingExposedInHostFile(hosts, tayme);
    NumbersMeaning([], Empties(|hosts|));
  }
}
