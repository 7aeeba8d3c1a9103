/**
 * Host–pathogen interaction: whether a host gene presents a pathogen gene
 * (enough equal bits anywhere, or a run of equal bits), and the counters an
 * encounter updates on the host and on the pathogen.
 */
module H2Pinteraction {
  import G = Gene
  import HM = Host
  import PM = Pathogen

  // ----- Presentation of one gene -----

  /** The number of positions holding equal bits. */
  function MatchCount(a: seq<bool>, b: seq<bool>): (n: nat)
    requires |a| == |b|
    ensures n <= |a|
  {
    if |a| == 0 then 0
    else MatchCount(a[..|a| - 1], b[..|b| - 1]) + (if a[|a| - 1] == b[|b| - 1] then 1 else 0)
  }

  /** The length of the run of equal positions that ends just before index i. */
  function Run(a: seq<bool>, b: seq<bool>, i: nat): (n: nat)
    requires i <= |a| == |b|
    ensures n <= i
  {
    if i == 0 then 0
    else if a[i - 1] == b[i - 1] then Run(a, b, i - 1) + 1
    else 0
  }

  /** A run of at least `n` equal positions ends somewhere (the empty run counts for n <= 0). */
  predicate InRow(a: seq<bool>, b: seq<bool>, n: int)
    requires |a| == |b|
  {
    exists i :: 0 <= i <= |a| && Run(a, b, i) >= n
  }

  /** The n positions from s on hold equal bits. */
  predicate EqualOn(a: seq<bool>, b: seq<bool>, s: nat, n: nat)
    requires s + n <= |a| == |b|
  {
    forall k :: s <= k < s + n ==> a[k] == b[k]
  }

  /** The reference reading: some window of `n` consecutive positions holds equal bits throughout. */
  predicate Window(a: seq<bool>, b: seq<bool>, n: nat)
    requires |a| == |b|
  {
    exists s: nat :: s + n <= |a| && EqualOn(a, b, s, n)
  }

  /** What `presentGeneAny` answers: equal lengths and at least `simil` equal positions. */
  predicate PresentsAny(a: seq<bool>, b: seq<bool>, simil: int) {
    |a| == |b| && MatchCount(a, b) >= simil
  }

  /** What `presentGeneRow` answers: equal lengths and a run of at least `simil` equal positions. */
  predicate PresentsRow(a: seq<bool>, b: seq<bool>, simil: int) {
    |a| == |b| && InRow(a, b, simil)
  }

  /** A run ending at i holds exactly the window of its length before i. */
  lemma {:induction false} RunWindow(a: seq<bool>, b: seq<bool>, i: nat, n: nat)
    requires i <= |a| == |b| && n <= i
    ensures Run(a, b, i) >= n <==> forall k :: i - n <= k < i ==> a[k] == b[k]
  {
    if n > 0 {
      RunWindow(a, b, i - 1, n - 1);
      if Run(a, b, i) >= n {
        assert a[i - 1] == b[i - 1];
      }
    }
  }

  /** The in-a-row test is the window test. */
  lemma InRowIffWindow(a: seq<bool>, b: seq<bool>, n: nat)
    requires |a| == |b|
    ensures InRow(a, b, n) <==> Window(a, b, n)
  {
    if InRow(a, b, n) {
      var i :| 0 <= i <= |a| && Run(a, b, i) >= n;
      RunWindow(a, b, i, n);
      assert EqualOn(a, b, i - n, n);
    }
    if Window(a, b, n) {
      var s: nat :| s + n <= |a| && EqualOn(a, b, s, n);
      RunWindow(a, b, s + n, n);
      assert Run(a, b, s + n) >= n;
    }
  }

  /** A run never holds more equal positions than the prefix it ends. */
  lemma {:induction false} RunBelowMatches(a: seq<bool>, b: seq<bool>, i: nat)
    requires i <= |a| == |b|
    ensures Run(a, b, i) <= MatchCount(a[..i], b[..i])
  {
    if i > 0 {
      RunBelowMatches(a, b, i - 1);
      assert a[..i][..i - 1] == a[..i - 1] && b[..i][..i - 1] == b[..i - 1];
    }
  }

  /** Matches in a prefix are matches of the whole. */
  lemma {:induction false} MatchCountPrefix(a: seq<bool>, b: seq<bool>, i: nat)
    requires i <= |a| == |b|
    ensures MatchCount(a[..i], b[..i]) <= MatchCount(a, b)
    decreases |a| - i
  {
    if i < |a| {
      var n := |a| - 1;
      assert a[..n][..i] == a[..i] && b[..n][..i] == b[..i];
      MatchCountPrefix(a[..n], b[..n], i);
    } else {
      assert a[..i] == a && b[..i] == b;
    }
  }

  /** A gene presented by the in-a-row rule is presented by the any-positions rule. */
  lemma RowImpliesAny(a: seq<bool>, b: seq<bool>, simil: int)
    ensures PresentsRow(a, b, simil) ==> PresentsAny(a, b, simil)
  {
    if PresentsRow(a, b, simil) {
      var i :| 0 <= i <= |a| && Run(a, b, i) >= simil;
      RunBelowMatches(a, b, i);
      MatchCountPrefix(a, b, i);
    }
  }

  /** `presentGeneAny`: count the equal positions, then compare with `simil_mesure`. */
  method PresentGeneAny(hostgene: seq<bool>, pathogene: seq<bool>, simil: int) returns (r: bool)
    ensures r == PresentsAny(hostgene, pathogene, simil)
  {
    if |hostgene| == |pathogene| {
      var counter := 0;
      var i := 0;
      while i < |hostgene|
        invariant 0 <= i <= |hostgene|
        invariant counter == MatchCount(hostgene[..i], pathogene[..i])
      {
        assert hostgene[..i + 1][..i] == hostgene[..i] && pathogene[..i + 1][..i] == pathogene[..i];
        if hostgene[i] == pathogene[i] {
          counter := counter + 1;
        }
        i := i + 1;
      }
      assert hostgene[..i] == hostgene && pathogene[..i] == pathogene;
      r := counter >= simil;
    } else {
      r := false;
    }
  }

  /** `presentGeneRow`: track the current run and answer as soon as it is long enough. */
  method PresentGeneRow(hostgene: seq<bool>, pathogene: seq<bool>, simil: int) returns (r: bool)
    ensures r == PresentsRow(hostgene, pathogene, simil)
  {
    if |hostgene| == |pathogene| {
      var counter := 0;
      var i := 0;
      while i < |hostgene|
        invariant 0 <= i <= |hostgene|
        invariant counter == Run(hostgene, pathogene, i)
        invariant forall k :: 1 <= k <= i ==> Run(hostgene, pathogene, k) < simil
      {
        if hostgene[i] == pathogene[i] {
          counter := counter + 1;
        } else {
          counter := 0;
        }
        if counter >= simil {
          assert Run(hostgene, pathogene, i + 1) >= simil;
          return true;
        }
        i := i + 1;
      }
      r := counter >= simil;
      if !r {
        forall k | 0 <= k <= |hostgene|
          ensures Run(hostgene, pathogene, k) < simil
        {
          if k == 0 && |hostgene| > 0 {
            assert Run(hostgene, pathogene, 1) < simil;
          }
        }
      }
    } else {
      r := false;
    }
  }

  // ----- Encounters -----

  /** Some gene of the chromosome presents some gene of the pathogen. */
  predicate ChromosomePresents(chr: seq<G.GeneState>, pathoGenes: seq<seq<bool>>, simil: int) {
    exists i, j :: 0 <= i < |chr| && 0 <= j < |pathoGenes| && PresentsRow(G.BitGene(chr[i]), pathoGenes[j], simil)
  }

  /** The number of pathogen genes one host gene presents. */
  function GeneHits(bits: seq<bool>, pathoGenes: seq<seq<bool>>, simil: int): (n: nat)
    ensures n <= |pathoGenes|
  {
    if pathoGenes == [] then 0
    else
      var m := |pathoGenes| - 1;
      GeneHits(bits, pathoGenes[..m], simil) + (if PresentsRow(bits, pathoGenes[m], simil) then 1 else 0)
  }

  /** The number of (host gene, pathogen gene) pairs of a chromosome that present. */
  function PairCount(chr: seq<G.GeneState>, pathoGenes: seq<seq<bool>>, simil: int): (n: nat)
    ensures n <= |chr| * |pathoGenes|
  {
    if chr == [] then 0
    else
      var m := |chr| - 1;
      PairCount(chr[..m], pathoGenes, simil) + GeneHits(G.BitGene(chr[m]), pathoGenes, simil)
  }

  lemma {:induction false} GeneHitsPositive(bits: seq<bool>, pathoGenes: seq<seq<bool>>, simil: int)
    ensures GeneHits(bits, pathoGenes, simil) > 0 <==>
      exists j :: 0 <= j < |pathoGenes| && PresentsRow(bits, pathoGenes[j], simil)
  {
    if pathoGenes != [] {
      var m := |pathoGenes| - 1;
      GeneHitsPositive(bits, pathoGenes[..m], simil);
      if exists j :: 0 <= j < |pathoGenes| && PresentsRow(bits, pathoGenes[j], simil) {
        var j :| 0 <= j < |pathoGenes| && PresentsRow(bits, pathoGenes[j], simil);
        if j < m {
          assert pathoGenes[..m][j] == pathoGenes[j];
        }
      }
      if exists j :: 0 <= j < m && PresentsRow(bits, pathoGenes[..m][j], simil) {
        var j :| 0 <= j < m && PresentsRow(bits, pathoGenes[..m][j], simil);
        assert pathoGenes[j] == pathoGenes[..m][j];
      }
    }
  }

  /** Some pair presents exactly when the count of presenting pairs is positive. */
  lemma {:induction false} PairCountPositive(chr: seq<G.GeneState>, pathoGenes: seq<seq<bool>>, simil: int)
    ensures PairCount(chr, pathoGenes, simil) > 0 <==> ChromosomePresents(chr, pathoGenes, simil)
  {
    if chr != [] {
      var m := |chr| - 1;
      PairCountPositive(chr[..m], pathoGenes, simil);
      GeneHitsPositive(G.BitGene(chr[m]), pathoGenes, simil);
      if ChromosomePresents(chr, pathoGenes, simil) {
        var i, j :| 0 <= i < |chr| && 0 <= j < |pathoGenes| && PresentsRow(G.BitGene(chr[i]), pathoGenes[j], simil);
        if i < m {
          assert chr[..m][i] == chr[i];
        }
      }
      if ChromosomePresents(chr[..m], pathoGenes, simil) {
        var i, j :| 0 <= i < m && 0 <= j < |pathoGenes| && PresentsRow(G.BitGene(chr[..m][i]), pathoGenes[j], simil);
        assert chr[i] == chr[..m][i];
      }
    }
  }

  /**
   * `doesInfectedHeteroBetter`: a presentation on either chromosome counts
   * one presented pathogen; otherwise the host counts one infection and the
   * pathogen one infected host.
   */
  function HeteroBetter(h: HM.HostState, p: PM.PathogenState, pathoGenes: seq<seq<bool>>, simil: int): (HM.HostState, PM.PathogenState) {
    if ChromosomePresents(h.chromosomeOne, pathoGenes, simil) || ChromosomePresents(h.chromosomeTwo, pathoGenes, simil) then
      (h.(numOfPathogesPresented := h.numOfPathogesPresented + 1), p)
    else
      (h.(numOfPathogesInfecting := h.numOfPathogesInfecting + 1), p.(numOfHostsInfected := p.numOfHostsInfected + 1))
  }

  /**
   * `doesInfectedHomoBetter`: each chromosome that presents counts one
   * presented pathogen; the infection counters rise only if neither does.
   */
  function HomoBetter(h: HM.HostState, p: PM.PathogenState, pathoGenes: seq<seq<bool>>, simil: int): (HM.HostState, PM.PathogenState) {
    var one := ChromosomePresents(h.chromosomeOne, pathoGenes, simil);
    var two := ChromosomePresents(h.chromosomeTwo, pathoGenes, simil);
    var presented := h.numOfPathogesPresented + (if one then 1 else 0) + (if two then 1 else 0);
    if one || two then (h.(numOfPathogesPresented := presented), p)
    else
      (h.(numOfPathogesInfecting := h.numOfPathogesInfecting + 1), p.(numOfHostsInfected := p.numOfHostsInfected + 1))
  }

  /**
   * `doesInfectedAllToAll`: every presenting pair on both chromosomes counts
   * one presented pathogen; the infection counters rise if there is none.
   */
  function AllToAll(h: HM.HostState, p: PM.PathogenState, pathoGenes: seq<seq<bool>>, simil: int): (HM.HostState, PM.PathogenState) {
    var n := PairCount(h.chromosomeOne, pathoGenes, simil) + PairCount(h.chromosomeTwo, pathoGenes, simil);
    if n > 0 then (h.(numOfPathogesPresented := h.numOfPathogesPresented + n), p)
    else
      (h.(numOfPathogesInfecting := h.numOfPathogesInfecting + 1), p.(numOfHostsInfected := p.numOfHostsInfected + 1))
  }

  /** The encounter either counts one presentation or one infection on both sides, never both, and touches nothing else. */
  lemma HeteroBetterOneEffect(h: HM.HostState, p: PM.PathogenState, pathoGenes: seq<seq<bool>>, simil: int)
    ensures var (h', p') := HeteroBetter(h, p, pathoGenes, simil);
      var presents := ChromosomePresents(h.chromosomeOne, pathoGenes, simil) || ChromosomePresents(h.chromosomeTwo, pathoGenes, simil);
      (presents ==> h' == h.(numOfPathogesPresented := h.numOfPathogesPresented + 1) && p' == p) &&
      (!presents ==> h' == h.(numOfPathogesInfecting := h.numOfPathogesInfecting + 1) &&
                     p' == p.(numOfHostsInfected := p.numOfHostsInfected + 1)) &&
      h'.numOfPathogesPresented + h'.numOfPathogesInfecting == h.numOfPathogesPresented + h.numOfPathogesInfecting + 1
  {
  }

  /** Presentations rise by 0, 1 or 2, at most once per chromosome; infections only with no presentation. */
  lemma HomoBetterProps(h: HM.HostState, p: PM.PathogenState, pathoGenes: seq<seq<bool>>, simil: int)
    ensures var (h', p') := HomoBetter(h, p, pathoGenes, simil);
      h.numOfPathogesPresented <= h'.numOfPathogesPresented <= h.numOfPathogesPresented + 2 &&
      (h'.numOfPathogesPresented == h.numOfPathogesPresented + 2 <==>
         ChromosomePresents(h.chromosomeOne, pathoGenes, simil) && ChromosomePresents(h.chromosomeTwo, pathoGenes, simil)) &&
      (h'.numOfPathogesInfecting > h.numOfPathogesInfecting <==> h'.numOfPathogesPresented == h.numOfPathogesPresented) &&
      h'.numOfPathogesInfecting <= h.numOfPathogesInfecting + 1 &&
      p'.numOfHostsInfected - p.numOfHostsInfected == h'.numOfPathogesInfecting - h.numOfPathogesInfecting &&
      h'.chromosomeOne == h.chromosomeOne && h'.chromosomeTwo == h.chromosomeTwo && p'.pathoProtein == p.pathoProtein
  {
  }

  /** Presentations rise by the number of presenting pairs; infection happens exactly when no chromosome presents. */
  lemma AllToAllProps(h: HM.HostState, p: PM.PathogenState, pathoGenes: seq<seq<bool>>, simil: int)
    ensures var (h', p') := AllToAll(h, p, pathoGenes, simil);
      var n := PairCount(h.chromosomeOne, pathoGenes, simil) + PairCount(h.chromosomeTwo, pathoGenes, simil);
      h'.numOfPathogesPresented == h.numOfPathogesPresented + n &&
      n <= (|h.chromosomeOne| + |h.chromosomeTwo|) * |pathoGenes| &&
      (h'.numOfPathogesInfecting == h.numOfPathogesInfecting + 1 <==>
         !ChromosomePresents(h.chromosomeOne, pathoGenes, simil) && !ChromosomePresents(h.chromosomeTwo, pathoGenes, simil)) &&
      (p'.numOfHostsInfected == p.numOfHostsInfected + 1 <==> n == 0)
  {
    PairCountPositive(h.chromosomeOne, pathoGenes, simil);
    PairCountPositive(h.chromosomeTwo, pathoGenes, simil);
  }

  /** The all-to-all rule infects exactly when the heterozygote rule does. */
  lemma AllToAllInfectsLikeHetero(h: HM.HostState, p: PM.PathogenState, pathoGenes: seq<seq<bool>>, simil: int)
    ensures AllToAll(h, p, pathoGenes, simil).1 == HeteroBetter(h, p, pathoGenes, simil).1
  {
    PairCountPositive(h.chromosomeOne, pathoGenes, simil);
    PairCountPositive(h.chromosomeTwo, pathoGenes, simil);
  }

  /** The nested search of the `doesInfected*` loops over one chromosome: stops at the first presenting pair. */
  method SearchChromosome(chr: seq<G.GeneState>, pathoGenes: seq<seq<bool>>, simil: int) returns (found: bool)
    ensures found == ChromosomePresents(chr, pathoGenes, simil)
  {
    var i := 0;
    while i < |chr|
      invariant 0 <= i <= |chr|
      invariant forall i', j :: 0 <= i' < i && 0 <= j < |pathoGenes| ==> !PresentsRow(G.BitGene(chr[i']), pathoGenes[j], simil)
    {
      var j := 0;
      while j < |pathoGenes|
        invariant 0 <= j <= |pathoGenes|
        invariant forall j' :: 0 <= j' < j ==> !PresentsRow(G.BitGene(chr[i]), pathoGenes[j'], simil)
      {
        var hit := PresentGeneRow(G.BitGene(chr[i]), pathoGenes[j], simil);
        if hit {
          return true;
        }
        j := j + 1;
      }
      i := i + 1;
    }
    return false;
  }

  /** The nested loops of `doesInfectedAllToAll` over one chromosome: count every presenting pair. */
  method CountPairs(chr: seq<G.GeneState>, pathoGenes: seq<seq<bool>>, simil: int) returns (n: nat)
    ensures n == PairCount(chr, pathoGenes, simil)
  {
    n := 0;
    var i := 0;
    while i < |chr|
      invariant 0 <= i <= |chr|
      invariant n == PairCount(chr[..i], pathoGenes, simil)
    {
      var bits := G.BitGene(chr[i]);
      var j := 0;
      ghost var before := n;
      while j < |pathoGenes|
        invariant 0 <= j <= |pathoGenes|
        invariant n == before + GeneHits(bits, pathoGenes[..j], simil)
      {
        var hit := PresentGeneRow(bits, pathoGenes[j], simil);
        assert pathoGenes[..j + 1][..j] == pathoGenes[..j];
        if hit {
          n := n + 1;
        }
        j := j + 1;
      }
      assert pathoGenes[..j] == pathoGenes;
      assert chr[..i + 1][..i] == chr[..i];
      i := i + 1;
    }
    assert chr[..i] == chr;
  }

  /**
   * The encounter methods; `pathoGenes` are the bit strings of the pathogen's
   * genes, which the pathogen object hands over as a list of genes.
   */
  method DoesInfectedHeteroBetter(host: HM.Host, patho: PM.Pathogen, pathoGenes: seq<seq<bool>>, simil: int)
    modifies host, patho
    ensures (host.State(), patho.State()) == HeteroBetter(old(host.State()), old(patho.State()), pathoGenes, simil)
  {
    var one := SearchChromosome(host.chromosomeOne, pathoGenes, simil);
    if one {
      host.numOfPathogesPresented := host.numOfPathogesPresented + 1;
      return;
    }
    var two := SearchChromosome(host.chromosomeTwo, pathoGenes, simil);
    if two {
      host.numOfPathogesPresented := host.numOfPathogesPresented + 1;
      return;
    }
    host.numOfPathogesInfecting := host.numOfPathogesInfecting + 1;
    patho.numOfHostsInfected := patho.numOfHostsInfected + 1;
  }

  method DoesInfectedHomoBetter(host: HM.Host, patho: PM.Pathogen, pathoGenes: seq<seq<bool>>, simil: int)
    modifies host, patho
    ensures (host.State(), patho.State()) == HomoBetter(old(host.State()), old(patho.State()), pathoGenes, simil)
  {
    var flagIfInfects := true;
    var one := SearchChromosome(host.chromosomeOne, pathoGenes, simil);
    if one {
      host.numOfPathogesPresented := host.numOfPathogesPresented + 1;
      flagIfInfects := false;
    }
    var two := SearchChromosome(host.chromosomeTwo, pathoGenes, simil);
    if two {
      host.numOfPathogesPresented := host.numOfPathogesPresented + 1;
      return;
    }
    if flagIfInfects {
      host.numOfPathogesInfecting := host.numOfPathogesInfecting + 1;
      patho.numOfHostsInfected := patho.numOfHostsInfected + 1;
    }
  }

  method DoesInfectedAllToAll(host: HM.Host, patho: PM.Pathogen, pathoGenes: seq<seq<bool>>, simil: int)
    modifies host, patho
    ensures (host.State(), patho.State()) == AllToAll(old(host.State()), old(patho.State()), pathoGenes, simil)
  {
    var n1 := CountPairs(host.chromosomeOne, pathoGenes, simil);
    var n2 := CountPairs(host.chromosomeTwo, pathoGenes, simil);
    host.numOfPathogesPresented := host.numOfPathogesPresented + n1 + n2;
    if n1 + n2 == 0 {
      host.numOfPathogesInfecting := host.numOfPathogesInfecting + 1;
      patho.numOfHostsInfected := patho.numOfHostsInfected + 1;
    }
  }
}
