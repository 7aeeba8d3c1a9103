/**
 * The host genome file as the post-processing scripts see it: a list of
 * lines.  The simulator writes two comment lines (each holding '#'), then per
 * host a header holding "===" and one line per gene.  Gene lines hold
 * neither '#' nor "===", so a script that skips lines holding either one
 * reads exactly the gene lines, host after host, chromosome one first.
 */
module HostFile {
  import opened Text
  import opened Bits
  import G = Gene
  import HM = Host
  import DH = DataHandler

  /** A line the gene-level scripts skip: a comment (`#`) or a host header (`===`). */
  predicate Skipped(line: string) {
    Contains(line, "#") || Contains(line, "===")
  }

  /** The lines a gene-level script does not skip, in file order. */
  function DataLines(lines: seq<string>): (r: seq<string>)
    ensures |r| <= |lines|
    ensures forall i :: 0 <= i < |r| ==> !Skipped(r[i])
  {
    if lines == [] then []
    else
      var d := DataLines(lines[..|lines| - 1]);
      if Skipped(lines[|lines| - 1]) then d else d + [lines[|lines| - 1]]
  }

  lemma {:induction false} DataLinesAppend(a: seq<string>, b: seq<string>)
    ensures DataLines(a + b) == DataLines(a) + DataLines(b)
    decreases |b|
  {
    if b == [] {
      assert a + b == a;
    } else {
      var n := |b| - 1;
      assert (a + b)[..|a + b| - 1] == a + b[..n];
      DataLinesAppend(a, b[..n]);
    }
  }

  lemma {:induction false} DataLinesAllSkipped(lines: seq<string>)
    requires forall i :: 0 <= i < |lines| ==> Skipped(lines[i])
    ensures DataLines(lines) == []
  {
    if lines != [] {
      DataLinesAllSkipped(lines[..|lines| - 1]);
    }
  }

  lemma {:induction false} DataLinesNoneSkipped(lines: seq<string>)
    requires forall i :: 0 <= i < |lines| ==> !Skipped(lines[i])
    ensures DataLines(lines) == lines
  {
    if lines != [] {
      DataLinesNoneSkipped(lines[..|lines| - 1]);
      assert lines == lines[..|lines| - 1] + [lines[|lines| - 1]];
    }
  }

  /** The whitespace-separated fields of each line, `line.split()`. */
  function FieldsOf(lines: seq<string>): (r: seq<seq<string>>)
    ensures |r| == |lines|
    ensures forall i :: 0 <= i < |lines| ==> r[i] == Split(lines[i])
  {
    seq(|lines|, i requires 0 <= i < |lines| => Split(lines[i]))
  }

  // ----- what the simulator writes -----

  /** The chromosome names a gene line carries in its second field. */
  predicate ChromName(ch: string) {
    ch == "ch_one" || ch == "ch_two"
  }

  /** Every field of a gene line avoids `c`: bits, a chromosome name and decimal numbers. */
  lemma {:induction false} GeneFieldsAvoid(g: G.GeneState, ch: string, c: char)
    requires |g.parentTags| <= |g.mutationTime|
    requires !IsDigit(c) && c != '-' && Avoids(ch, c)
    ensures forall i :: 0 <= i < |HM.GeneFields(g, ch)| ==> Avoids(HM.GeneFields(g, ch)[i], c)
  {
    var f := HM.GeneFields(g, ch);
    var t := HM.GeneTail(g);
    ToBinaryStringIsBinary(G.BitGene(g));
    IntStringAvoids(g.timeOfOrigin, c);
    NatStringAvoids(g.genesTag, c);
    if |g.parentTags| > 0 {
      ParentPairsAvoid(g.mutationTime, g.parentTags, c);
    } else {
      assert t == ["-1"];
    }
    assert forall i :: 4 <= i < |f| ==> f[i] == t[i - 4];
  }

  lemma {:induction false} ParentPairsAvoid(mt: seq<int>, pt: seq<nat>, c: char)
    requires |pt| <= |mt|
    requires !IsDigit(c) && c != '-'
    ensures forall i :: 0 <= i < |HM.ParentPairs(mt, pt)| ==> Avoids(HM.ParentPairs(mt, pt)[i], c)
    decreases |pt|
  {
    if pt != [] {
      var n := |pt| - 1;
      ParentPairsAvoid(mt, pt[..n], c);
      IntStringAvoids(mt[n], c);
      NatStringAvoids(pt[n], c);
    }
  }

  /** A gene line holds neither '#' nor "===": the gene-level scripts read it. */
  lemma {:induction false} GeneLineRead(g: G.GeneState, ch: string)
    requires |g.parentTags| <= |g.mutationTime| && ChromName(ch)
    ensures !Skipped(HM.GeneLine(g, ch))
  {
    var f := HM.GeneFields(g, ch);
    GeneFieldsAvoid(g, ch, '#');
    GeneFieldsAvoid(g, ch, '=');
    JoinAvoids(f, '\t', '#');
    JoinAvoids(f, '\t', '=');
    var l := HM.GeneLine(g, ch);
    assert Avoids(l, '#') && Avoids(l, '=');
    NotContainsFirst(l, "#");
    NotContainsFirst(l, "===");
  }

  /** A host header holds "===" and no '#'. */
  lemma {:induction false} HeaderMarked(h: HM.HostState)
    ensures Contains(HM.Header(h), "===")
    ensures !Contains(HM.Header(h), "#")
  {
    var w := HM.HeaderWords(h);
    var s := HM.Header(h);
    assert Join(w, ' ') == "===" + [' '] + Join(w[1..], ' ');
    assert s[1..4] == "===";
    ContainsAt(s, "===", 1);
    NatStringAvoids(h.numOfPathogesInfecting, '#');
    NatStringAvoids(h.numOfPathogesPresented, '#');
    assert forall i :: 0 <= i < |w| ==> Avoids(w[i], '#');
    JoinAvoids(w, ' ', '#');
    NotContainsFirst(s, "#");
  }

  /** The gene lines of a chromosome, in order. */
  lemma {:induction false} GeneLinesRead(chr: seq<G.GeneState>, ch: string)
    requires HM.Printable(chr) && ChromName(ch)
    ensures DataLines(HM.GeneLines(chr, ch)) == HM.GeneLines(chr, ch)
  {
    var ls := HM.GeneLines(chr, ch);
    forall i | 0 <= i < |ls|
      ensures !Skipped(ls[i])
    {
      GeneLineRead(chr[i], ch);
    }
    DataLinesNoneSkipped(ls);
  }

  /** Every gene of every host has a non-empty bit string. */
  predicate GenesNonEmpty(hosts: seq<HM.HostState>) {
    forall i :: 0 <= i < |hosts| ==>
      (forall k :: 0 <= k < |hosts[i].chromosomeOne| ==> hosts[i].chromosomeOne[k].bitStringLength > 0) &&
      (forall k :: 0 <= k < |hosts[i].chromosomeTwo| ==> hosts[i].chromosomeTwo[k].bitStringLength > 0)
  }

  /** The gene lines of one host: chromosome one's genes, then chromosome two's. */
  function HostGeneLines(h: HM.HostState): seq<string>
    requires DH.PrintableHost(h)
  {
    HM.GeneLines(h.chromosomeOne, "ch_one") + HM.GeneLines(h.chromosomeTwo, "ch_two")
  }

  /** The gene lines of all hosts, host after host. */
  function PopulationGeneLines(hosts: seq<HM.HostState>): seq<string>
    requires DH.PrintableHosts(hosts)
  {
    if hosts == [] then [] else PopulationGeneLines(hosts[..|hosts| - 1]) + HostGeneLines(hosts[|hosts| - 1])
  }

  /** Within one host's block a gene-level script keeps the gene lines and drops the header. */
  lemma {:induction false} HostLinesRead(h: HM.HostState)
    requires DH.PrintableHost(h)
    ensures DataLines(DH.HostLines(h)) == HostGeneLines(h)
  {
    HeaderMarked(h);
    GeneLinesRead(h.chromosomeOne, "ch_one");
    GeneLinesRead(h.chromosomeTwo, "ch_two");
    DataLinesHeaded(HM.Header(h), HM.GeneLines(h.chromosomeOne, "ch_one"), HM.GeneLines(h.chromosomeTwo, "ch_two"));
  }

  lemma {:induction false} DataLinesHeaded(hd: string, a: seq<string>, b: seq<string>)
    requires Skipped(hd) && DataLines(a) == a && DataLines(b) == b
    ensures DataLines([hd] + a + b) == a + b
  {
    DataLinesAllSkipped([hd]);
    assert [hd] + a + b == [hd] + (a + b);
    DataLinesAppend([hd], a + b);
    DataLinesAppend(a, b);
  }

  lemma {:induction false} PopulationLinesRead(hosts: seq<HM.HostState>)
    requires DH.PrintableHosts(hosts)
    ensures DataLines(DH.PopulationLines(hosts)) == PopulationGeneLines(hosts)
  {
    if hosts != [] {
      var n := |hosts| - 1;
      PopulationLinesRead(hosts[..n]);
      HostLinesRead(hosts[n]);
      DataLinesAppend(DH.PopulationLines(hosts[..n]), DH.HostLines(hosts[n]));
    }
  }

  /**
   * Reading a host genome file that `saveHostPopulToFile` wrote and skipping
   * the lines with '#' or "===" leaves exactly the gene lines of the hosts, in
   * the order they were written.
   */
  lemma {:induction false} HostGenomesFileRead(hosts: seq<HM.HostState>, tayme: int)
    requires DH.PrintableHosts(hosts)
    ensures DataLines(Lines(DH.HostGenomesText(hosts, tayme))) == PopulationGeneLines(hosts)
  {
    DH.HostGenomesTextLines(hosts, tayme);
    DH.HostFileHeadIsLines(tayme);
    DataLinesAllSkipped(DH.HostFileHead(tayme));
    DataLinesAppend(DH.HostFileHead(tayme), DH.PopulationLines(hosts));
    PopulationLinesRead(hosts);
  }
}
