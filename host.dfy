/**
 * A host: two chromosomes of MHC genes held by value, infection counters and
 * a fitness.  Chromosomes grow and shrink by duplication and deletion during
 * mutation; the host prints itself as a header line and one line per gene.
 */
module Host {
  import opened Bits
  import opened Text
  import opened SeqUtil
  import opened Wrappers
  import G = Gene
  import Tagging

  /** The value of a `Host` object. */
  datatype HostState = HostState(
    numOfPathogesInfecting: nat,
    numOfPathogesPresented: nat,
    selectedForReproduction: int,
    fitness: real,
    chromosomeOne: seq<G.GeneState>,
    chromosomeTwo: seq<G.GeneState>)

  /** A chromosome after an operation, with the tag counter after it. */
  datatype Processed = Processed(chromosome: seq<G.GeneState>, counter: nat)

  // ----- setNewHost -----

  /** The gene `push_back(Gene())` followed by `setNewGene` leaves: drawn value, no parent, the given tag. */
  function LocusGene(geneSize: nat, timeStamp: int, tag: nat, draw: int): G.GeneState {
    G.GeneState(draw, geneSize, timeStamp, -1, [], [], tag)
  }

  /**
   * The genes `setNewHost` appends to one chromosome: locus i takes draw
   * 2i + side and tag c + 2i + 1 + side, since loci alternate between
   * chromosome one (side 0) and chromosome two (side 1).
   */
  function NewLoci(n: nat, geneSize: nat, timeStamp: int, c: nat, draws: seq<int>, side: nat): (r: seq<G.GeneState>)
    requires 2 * n <= |draws| && side <= 1
    ensures |r| == n
    ensures forall i :: 0 <= i < n ==> r[i] == LocusGene(geneSize, timeStamp, c + 2 * i + 1 + side, draws[2 * i + side])
  {
    seq(n, i requires 0 <= i < n => LocusGene(geneSize, timeStamp, c + 2 * i + 1 + side, draws[2 * i + side]))
  }

  lemma NewLociSnoc(i: nat, geneSize: nat, timeStamp: int, c: nat, draws: seq<int>)
    requires 2 * i + 2 <= |draws|
    ensures NewLoci(i + 1, geneSize, timeStamp, c, draws, 0) ==
      NewLoci(i, geneSize, timeStamp, c, draws, 0) + [LocusGene(geneSize, timeStamp, c + 2 * i + 1, draws[2 * i])]
    ensures NewLoci(i + 1, geneSize, timeStamp, c, draws, 1) ==
      NewLoci(i, geneSize, timeStamp, c, draws, 1) + [LocusGene(geneSize, timeStamp, c + 2 * i + 2, draws[2 * i + 1])]
  {
  }

  /** One `Gene` of `setNewHost`: a fresh gene set up from the draw, taking the next tag. */
  method NewLocusGene(geneSize: nat, timeStamp: int, tags: Tagging.TaggingSystem, draw: int) returns (g: G.GeneState)
    requires 0 <= draw <= G.MaxValue(geneSize)
    modifies tags
    ensures g == LocusGene(geneSize, timeStamp, old(tags.theTag) + 1, draw)
    ensures tags.theTag == old(tags.theTag) + 1
  {
    var gene := new G.Gene();
    gene.SetNewGene(geneSize, timeStamp, tags, draw);
    g := gene.State();
  }

  /** The number of loci a signed `num_of_loci` makes the loop run for. */
  function LociCount(numOfLoci: int): nat {
    if numOfLoci > 0 then numOfLoci else 0
  }

  /**
   * `setNewHost`: counters and fitness zeroed, `num_of_loci` new genes
   * appended to each chromosome; the generator's draws lie in [0, 2^size - 1].
   */
  function NewHost(h: HostState, numOfLoci: int, geneSize: nat, timeStamp: int, c: nat, draws: seq<int>): HostState
    requires |draws| == 2 * LociCount(numOfLoci)
  {
    var n := LociCount(numOfLoci);
    HostState(0, 0, 0, 0.0, h.chromosomeOne + NewLoci(n, geneSize, timeStamp, c, draws, 0),
              h.chromosomeTwo + NewLoci(n, geneSize, timeStamp, c, draws, 1))
  }

  // ----- chromoMutProcess -----

  /** The two draws of a whole-gene mutation: the uniform one and the new value. */
  datatype WholeDraw = WholeDraw(u: real, value: int)

  predicate WholeFits(g: G.GeneState, prob: real, d: WholeDraw) {
    d.u < prob ==> 0 <= d.value <= G.MaxValue(g.bitStringLength)
  }

  /** `mutateGeneWhole` applied to every gene in order, the counter threaded through. */
  function MutateEach(chr: seq<G.GeneState>, prob: real, draws: seq<WholeDraw>, timeStamp: int, c: nat): (r: Processed)
    requires |draws| == |chr|
    requires forall k :: 0 <= k < |chr| ==> WholeFits(chr[k], prob, draws[k])
    ensures |r.chromosome| == |chr|
  {
    if chr == [] then Processed([], c)
    else
      var n := |chr| - 1;
      var p := MutateEach(chr[..n], prob, draws[..n], timeStamp, c);
      assert WholeFits(chr[n], prob, draws[n]);
      var s := G.MutateWhole(chr[n], prob, draws[n].u, draws[n].value, timeStamp, p.counter);
      Processed(p.chromosome + [s.gene], s.counter)
  }

  /** Mutating one more gene extends the processed prefix by that gene's result. */
  lemma MutateEachSnoc(chr: seq<G.GeneState>, draws: seq<WholeDraw>, x: G.GeneState, d: WholeDraw, prob: real,
                       timeStamp: int, c: nat)
    requires |draws| == |chr|
    requires forall k :: 0 <= k < |chr| ==> WholeFits(chr[k], prob, draws[k])
    requires WholeFits(x, prob, d)
    ensures var p := MutateEach(chr, prob, draws, timeStamp, c);
      var s := G.MutateWhole(x, prob, d.u, d.value, timeStamp, p.counter);
      MutateEach(chr + [x], prob, draws + [d], timeStamp, c) == Processed(p.chromosome + [s.gene], s.counter)
  {
    assert (chr + [x])[..|chr|] == chr && (draws + [d])[..|chr|] == draws;
  }

  /** The loop of `chromoMutProcess` after gene i: the processed prefix grows by gene i's result. */
  lemma MutateEachStep(chr: seq<G.GeneState>, draws: seq<WholeDraw>, prob: real, timeStamp: int, c: nat, i: nat,
                       p: Processed, mutated: G.GeneState, counter: nat)
    requires i < |chr| == |draws|
    requires forall k :: 0 <= k < |chr| ==> WholeFits(chr[k], prob, draws[k])
    requires p == MutateEach(chr[..i], prob, draws[..i], timeStamp, c) && WholeFits(chr[i], prob, draws[i])
    requires G.Stepped(mutated, counter) == G.MutateWhole(chr[i], prob, draws[i].u, draws[i].value, timeStamp, p.counter)
    ensures Processed(p.chromosome + [mutated], counter) == MutateEach(chr[..i + 1], prob, draws[..i + 1], timeStamp, c)
    ensures (p.chromosome + chr[i..])[i := mutated] == (p.chromosome + [mutated]) + chr[i + 1..]
  {
    MutateEachSnoc(chr[..i], draws[..i], chr[i], draws[i], prob, timeStamp, c);
    assert chr[..i + 1] == chr[..i] + [chr[i]] && draws[..i + 1] == draws[..i] + [draws[i]];
    SpliceUpdate(p.chromosome, chr[i..], mutated);
    assert chr[i..][1..] == chr[i + 1..];
  }

  // ----- chromoMutProcessWithDelDupl / ...PointMuts -----

  /** Which gene mutation a duplication/deletion pass applies. */
  datatype MutationKind = WholeGene | PointMutations

  /**
   * The draws of one pass step: those of the gene mutation (`u` and `value`
   * for a whole-gene one, one per bit for point mutations), then the
   * duplication and the deletion draw.
   */
  datatype StepDraw = StepDraw(u: real, value: int, bits: seq<real>, dup: real, del: real)

  predicate Fits(kind: MutationKind, g: G.GeneState, prob: real, d: StepDraw) {
    match kind
    case WholeGene => d.u < prob ==> 0 <= d.value <= G.MaxValue(g.bitStringLength)
    case PointMutations => |d.bits| == g.bitStringLength
  }

  function MutateOne(kind: MutationKind, g: G.GeneState, prob: real, d: StepDraw, timeStamp: int, c: nat): G.Stepped
    requires Fits(kind, g, prob, d)
  {
    match kind
    case WholeGene => G.MutateWhole(g, prob, d.u, d.value, timeStamp, c)
    case PointMutations => G.MutateBits(g, prob, d.bits, timeStamp, c)
  }

  /** `size < maxGene` with the `int` converted to unsigned: a negative limit never stops duplication. */
  predicate Below(size: nat, maxGene: int) {
    maxGene < 0 || size < maxGene
  }

  /**
   * One step of the countdown at index k: mutate gene k, append a copy of it
   * while the chromosome is below the limit and the draw is below `dupli`,
   * then erase gene k when the draw is below `del`.
   */
  function DelDuplStep(kind: MutationKind, chr: seq<G.GeneState>, k: nat, d: StepDraw, prob: real,
                       del: real, dupli: real, maxGene: int, timeStamp: int, c: nat): (r: Processed)
    requires k < |chr| && Fits(kind, chr[k], prob, d)
    ensures k <= |r.chromosome| && r.chromosome[..k] == chr[..k]
  {
    var m := MutateOne(kind, chr[k], prob, d, timeStamp, c);
    var c1 := chr[k := m.gene];
    var c2 := if Below(|c1|, maxGene) && d.dup < dupli then c1 + [c1[k]] else c1;
    var c3 := if d.del < del then c2[..k] + c2[k + 1..] else c2;
    assert c3[..k] == c2[..k] == c1[..k];
    Processed(c3, m.counter)
  }

  /** The countdown loop over indices i - 1, ..., 0; gene k uses draw record k. */
  function DelDupl(kind: MutationKind, chr: seq<G.GeneState>, i: nat, draws: seq<StepDraw>, prob: real,
                   del: real, dupli: real, maxGene: int, timeStamp: int, c: nat): Processed
    requires i <= |chr| && i <= |draws|
    requires forall k :: 0 <= k < i ==> Fits(kind, chr[k], prob, draws[k])
    decreases i
  {
    if i == 0 then Processed(chr, c)
    else
      var s := DelDuplStep(kind, chr, i - 1, draws[i - 1], prob, del, dupli, maxGene, timeStamp, c);
      assert forall k :: 0 <= k < i - 1 ==> s.chromosome[k] == s.chromosome[..i - 1][k] == chr[k];
      DelDupl(kind, s.chromosome, i - 1, draws, prob, del, dupli, maxGene, timeStamp, s.counter)
  }

  /** The draw records of genes 0 .. i - 1 fit them. */
  predicate AllFits(kind: MutationKind, chr: seq<G.GeneState>, i: nat, draws: seq<StepDraw>, prob: real) {
    i <= |chr| && i <= |draws| && forall k :: 0 <= k < i ==> Fits(kind, chr[k], prob, draws[k])
  }

  /** One unfolding of the countdown, with the prefix the step leaves alone still fitting its draws. */
  lemma DelDuplUnfold(kind: MutationKind, chr: seq<G.GeneState>, i: nat, draws: seq<StepDraw>, prob: real,
                      del: real, dupli: real, maxGene: int, timeStamp: int, c: nat)
    requires AllFits(kind, chr, i + 1, draws, prob)
    ensures var s := DelDuplStep(kind, chr, i, draws[i], prob, del, dupli, maxGene, timeStamp, c);
      AllFits(kind, s.chromosome, i, draws, prob) &&
      DelDupl(kind, chr, i + 1, draws, prob, del, dupli, maxGene, timeStamp, c) ==
      DelDupl(kind, s.chromosome, i, draws, prob, del, dupli, maxGene, timeStamp, s.counter)
  {
    var s := DelDuplStep(kind, chr, i, draws[i], prob, del, dupli, maxGene, timeStamp, c);
    assert forall k :: 0 <= k < i ==> s.chromosome[k] == s.chromosome[..i][k] == chr[k];
  }

  /** A countdown step at i leaves genes 0 .. i - 1 as they were, still fitting, and the rest of the countdown unchanged. */
  lemma PassStepKeeps(kind: MutationKind, chr: seq<G.GeneState>, before: seq<G.GeneState>, i: nat, draws: seq<StepDraw>,
                      prob: real, del: real, dupli: real, maxGene: int, timeStamp: int, c: nat)
    requires i < |chr| && i + 1 <= |before| && before[..i + 1] == chr[..i + 1]
    requires AllFits(kind, before, i + 1, draws, prob)
    ensures var s := DelDuplStep(kind, before, i, draws[i], prob, del, dupli, maxGene, timeStamp, c);
      i <= |s.chromosome| && s.chromosome[..i] == chr[..i] &&
      AllFits(kind, s.chromosome, i, draws, prob) &&
      DelDupl(kind, before, i + 1, draws, prob, del, dupli, maxGene, timeStamp, c) ==
      DelDupl(kind, s.chromosome, i, draws, prob, del, dupli, maxGene, timeStamp, s.counter)
  {
    DelDuplUnfold(kind, before, i, draws, prob, del, dupli, maxGene, timeStamp, c);
    assert before[..i] == before[..i + 1][..i];
    assert chr[..i] == chr[..i + 1][..i];
  }

  /** The pass over a whole chromosome, from its last original gene down to its first. */
  function ChromosomePass(kind: MutationKind, chr: seq<G.GeneState>, draws: seq<StepDraw>, prob: real,
                          del: real, dupli: real, maxGene: int, timeStamp: int, c: nat): Processed
    requires |draws| == |chr|
    requires forall k :: 0 <= k < |chr| ==> Fits(kind, chr[k], prob, draws[k])
  {
    DelDupl(kind, chr, |chr|, draws, prob, del, dupli, maxGene, timeStamp, c)
  }

  /** Both chromosomes, one then two, with the counter threaded through. */
  function HostPass(kind: MutationKind, h: HostState, drawsOne: seq<StepDraw>, drawsTwo: seq<StepDraw>,
                    prob: real, del: real, dupli: real, maxGene: int, timeStamp: int, c: nat): (HostState, nat)
    requires |drawsOne| == |h.chromosomeOne| && |drawsTwo| == |h.chromosomeTwo|
    requires forall k :: 0 <= k < |h.chromosomeOne| ==> Fits(kind, h.chromosomeOne[k], prob, drawsOne[k])
    requires forall k :: 0 <= k < |h.chromosomeTwo| ==> Fits(kind, h.chromosomeTwo[k], prob, drawsTwo[k])
  {
    var p1 := ChromosomePass(kind, h.chromosomeOne, drawsOne, prob, del, dupli, maxGene, timeStamp, c);
    var p2 := ChromosomePass(kind, h.chromosomeTwo, drawsTwo, prob, del, dupli, maxGene, timeStamp, p1.counter);
    (h.(chromosomeOne := p1.chromosome, chromosomeTwo := p2.chromosome), p2.counter)
  }

  // ----- doCrossAndMeiosis, swapChromosomes, accessors -----

  /**
   * `doCrossAndMeiosis`: with equal sizes, `flip` below 0.5 turns the
   * probability p into 1 - p and slot i takes chromosome one's gene when its
   * draw is below it, else chromosome two's; with unequal sizes `flip` below
   * 0.5 returns chromosome two, else chromosome one.
   */
  function Crossed(one: seq<G.GeneState>, two: seq<G.GeneState>, prob: real, flip: real, draws: seq<real>): seq<G.GeneState>
    requires |one| == |two| ==> |draws| == |one|
  {
    if |one| == |two| then
      var p := if flip < 0.5 then 1.0 - prob else prob;
      seq(|one|, i requires 0 <= i < |one| => if draws[i] < p then one[i] else two[i])
    else if flip < 0.5 then two
    else one
  }

  /** `swapChromosomes`: a draw below 0.5 exchanges the chromosomes. */
  function Swapped(h: HostState, draw: real): HostState {
    if draw < 0.5 then h.(chromosomeOne := h.chromosomeTwo, chromosomeTwo := h.chromosomeOne) else h
  }

  /** `clearInfections`: counters and fitness zeroed. */
  function Cleared(h: HostState): HostState {
    h.(numOfPathogesInfecting := 0, numOfPathogesPresented := 0, selectedForReproduction := 0, fitness := 0.0)
  }

  /**
   * `getOneGeneFromOne/Two`: the value of gene `indx`; the index is compared
   * as unsigned, so a negative one, like one past the end, fetches the last
   * gene; an empty chromosome gives -1.
   */
  function OneGene(chr: seq<G.GeneState>, indx: int): int {
    if |chr| > 0 then
      if 0 <= indx < |chr| then chr[indx].theGene else chr[|chr| - 1].theGene
    else -1
  }

  // ----- stringChromosomes -----

  /** The words of the header " === Host has I parasites and presented P of them ===". */
  function HeaderWords(h: HostState): seq<string> {
    HeaderWordsOf(NatToString(h.numOfPathogesInfecting), NatToString(h.numOfPathogesPresented))
  }

  function HeaderWordsOf(inf: string, pres: string): seq<string> {
    ["===", "Host", "has", inf, "parasites", "and", "presented", pres, "of", "them", "==="]
  }

  function Header(h: HostState): string {
    " " + Join(HeaderWords(h), ' ') + "\n"
  }

  /** The pairs (mutation time j, parent tag j) in stored order, flattened. */
  function ParentPairs(mt: seq<int>, pt: seq<nat>): (r: seq<string>)
    requires |pt| <= |mt|
    ensures |r| == 2 * |pt|
  {
    if pt == [] then []
    else
      var n := |pt| - 1;
      ParentPairs(mt, pt[..n]) + [IntToString(mt[n]), NatToString(pt[n])]
  }

  /** The four leading fields of a gene line: bits, chromosome name, origin time, own tag. */
  function GeneHead(g: G.GeneState, ch: string): seq<string> {
    [ToBinaryString(G.BitGene(g)), ch, IntToString(g.timeOfOrigin), NatToString(g.genesTag)]
  }

  /** The rest of a gene line: one (time, tag) pair per parent, or a single "-1" when it has none. */
  function GeneTail(g: G.GeneState): seq<string>
    requires |g.parentTags| <= |g.mutationTime|
  {
    if |g.parentTags| > 0 then ParentPairs(g.mutationTime, g.parentTags) else ["-1"]
  }

  function GeneFields(g: G.GeneState, ch: string): seq<string>
    requires |g.parentTags| <= |g.mutationTime|
  {
    GeneHead(g, ch) + GeneTail(g)
  }

  function GeneLine(g: G.GeneState, ch: string): string
    requires |g.parentTags| <= |g.mutationTime|
  {
    Join(GeneFields(g, ch), '\t') + "\n"
  }

  /** Every gene can be printed: it has a mutation time for each parent tag. */
  predicate Printable(chr: seq<G.GeneState>) {
    forall i :: 0 <= i < |chr| ==> |chr[i].parentTags| <= |chr[i].mutationTime|
  }

  function GeneLines(chr: seq<G.GeneState>, ch: string): (r: seq<string>)
    requires Printable(chr)
    ensures |r| == |chr|
    ensures forall i :: 0 <= i < |chr| ==> r[i] == GeneLine(chr[i], ch)
  {
    seq(|chr|, i requires 0 <= i < |chr| => GeneLine(chr[i], ch))
  }

  /** `stringChromosomes`: the header, the genes of chromosome one, then those of chromosome two. */
  function HostText(h: HostState): string
    requires Printable(h.chromosomeOne) && Printable(h.chromosomeTwo)
  {
    Header(h) + Concat(GeneLines(h.chromosomeOne, "ch_one")) + Concat(GeneLines(h.chromosomeTwo, "ch_two"))
  }

  // ----- Properties -----

  /** The gene a fresh `Gene` gets from `setNewGene` is the locus gene with the next tag. */
  lemma LocusGeneIsNewGene(g: G.GeneState, geneSize: nat, timeStamp: int, c: nat, draw: int)
    requires g.parentTags == [] && g.mutationTime == []
    requires 0 <= draw <= G.MaxValue(geneSize)
    ensures G.NewGene(g, geneSize, timeStamp, c, draw).gene == LocusGene(geneSize, timeStamp, c + 1, draw)
    ensures G.NewGene(g, geneSize, timeStamp, c, draw).counter == c + 1
  {
  }

  /**
   * `setNewHost` zeroes the counters and fitness and appends `num_of_loci`
   * genes to each chromosome, keeping the genes already there; the new genes
   * have no parent, the given time, the drawn values, and tags above the old
   * counter that are all different, chromosome one's and two's interleaved.
   */
  lemma NewHostProps(h: HostState, numOfLoci: int, geneSize: nat, timeStamp: int, c: nat, draws: seq<int>)
    requires |draws| == 2 * LociCount(numOfLoci)
    ensures var r := NewHost(h, numOfLoci, geneSize, timeStamp, c, draws);
      var n := LociCount(numOfLoci);
      r.numOfPathogesInfecting == 0 && r.numOfPathogesPresented == 0 && r.selectedForReproduction == 0 &&
      r.fitness == 0.0 &&
      |r.chromosomeOne| == |h.chromosomeOne| + n && |r.chromosomeTwo| == |h.chromosomeTwo| + n &&
      r.chromosomeOne[..|h.chromosomeOne|] == h.chromosomeOne &&
      r.chromosomeTwo[..|h.chromosomeTwo|] == h.chromosomeTwo &&
      var a := r.chromosomeOne[|h.chromosomeOne|..];
      var b := r.chromosomeTwo[|h.chromosomeTwo|..];
      (forall i :: 0 <= i < n ==>
        a[i].theParentWas == -1 && b[i].theParentWas == -1 && a[i].parentTags == [] && b[i].parentTags == [] &&
        a[i].timeOfOrigin == timeStamp && b[i].timeOfOrigin == timeStamp &&
        a[i].theGene == draws[2 * i] && b[i].theGene == draws[2 * i + 1] &&
        c < a[i].genesTag < b[i].genesTag <= c + 2 * n) &&
      (forall i, j :: 0 <= i < j < n ==> a[i].genesTag < a[j].genesTag && b[i].genesTag < a[j].genesTag)
  {
  }

  /** Mutating each gene once keeps the chromosome's length and hands out at most one tag per gene. */
  lemma {:induction false} MutateEachProps(chr: seq<G.GeneState>, prob: real, draws: seq<WholeDraw>, timeStamp: int, c: nat)
    requires |draws| == |chr|
    requires forall k :: 0 <= k < |chr| ==> WholeFits(chr[k], prob, draws[k])
    ensures var r := MutateEach(chr, prob, draws, timeStamp, c);
      c <= r.counter <= c + |chr| &&
      forall k :: 0 <= k < |chr| ==>
        (draws[k].u >= prob ==> r.chromosome[k] == chr[k]) &&
        (draws[k].u < prob ==> r.chromosome[k].theGene == draws[k].value &&
                               r.chromosome[k].parentTags == chr[k].parentTags + [chr[k].genesTag])
  {
    if chr != [] {
      var n := |chr| - 1;
      MutateEachProps(chr[..n], prob, draws[..n], timeStamp, c);
    }
  }

  /** An empty chromosome goes through the pass untouched. */
  lemma EmptyPassUntouched(kind: MutationKind, prob: real, del: real, dupli: real, maxGene: int,
                           timeStamp: int, c: nat)
    ensures ChromosomePass(kind, [], [], prob, del, dupli, maxGene, timeStamp, c) == Processed([], c)
  {
  }

  /**
   * Duplication happens only below the limit, so a chromosome that starts
   * with at most `maxGene` genes ends with at most `maxGene`; a longer one
   * never grows.  Each step erases at most one gene, and at most one tag is
   * handed out per original gene.
   */
  lemma {:induction false} DelDuplBounds(kind: MutationKind, chr: seq<G.GeneState>, i: nat, draws: seq<StepDraw>,
                                         prob: real, del: real, dupli: real, maxGene: int, timeStamp: int, c: nat)
    requires i <= |chr| && i <= |draws|
    requires forall k :: 0 <= k < i ==> Fits(kind, chr[k], prob, draws[k])
    ensures var r := DelDupl(kind, chr, i, draws, prob, del, dupli, maxGene, timeStamp, c);
      (0 <= maxGene ==> |r.chromosome| <= if |chr| <= maxGene then maxGene else |chr|) &&
      |r.chromosome| >= |chr| - i &&
      c <= r.counter <= c + i
    decreases i
  {
    if i > 0 {
      var s := DelDuplStep(kind, chr, i - 1, draws[i - 1], prob, del, dupli, maxGene, timeStamp, c);
      StepBounds(kind, chr, i - 1, draws[i - 1], prob, del, dupli, maxGene, timeStamp, c);
      assert forall k :: 0 <= k < i - 1 ==> s.chromosome[k] == s.chromosome[..i - 1][k] == chr[k];
      DelDuplBounds(kind, s.chromosome, i - 1, draws, prob, del, dupli, maxGene, timeStamp, s.counter);
    }
  }

  lemma StepBounds(kind: MutationKind, chr: seq<G.GeneState>, k: nat, d: StepDraw, prob: real,
                   del: real, dupli: real, maxGene: int, timeStamp: int, c: nat)
    requires k < |chr| && Fits(kind, chr[k], prob, d)
    ensures var r := DelDuplStep(kind, chr, k, d, prob, del, dupli, maxGene, timeStamp, c);
      |chr| - 1 <= |r.chromosome| <= |chr| + 1 &&
      (|r.chromosome| > |chr| ==> Below(|chr|, maxGene)) &&
      c <= r.counter <= c + 1
  {
    var m := MutateOne(kind, chr[k], prob, d, timeStamp, c);
    match kind
    case WholeGene =>
    case PointMutations =>
  }

  /** A gene whose lineage is in order and whose origin time is no later than `timeStamp`. */
  predicate WellFormed(g: G.GeneState, c: nat, timeStamp: int) {
    G.HistoryParallel(g) && G.TagsOrdered(g, c) && G.TimesOrdered(g) && g.timeOfOrigin <= timeStamp
  }

  predicate AllWellFormed(chr: seq<G.GeneState>, c: nat, timeStamp: int) {
    forall k :: 0 <= k < |chr| ==> WellFormed(chr[k], c, timeStamp)
  }

  /** The pass keeps every gene's lineage chains parallel and in order, copies included. */
  lemma {:induction false} DelDuplKeepsLineage(kind: MutationKind, chr: seq<G.GeneState>, i: nat, draws: seq<StepDraw>,
                                               prob: real, del: real, dupli: real, maxGene: int, timeStamp: int, c: nat)
    requires i <= |chr| && i <= |draws|
    requires forall k :: 0 <= k < i ==> Fits(kind, chr[k], prob, draws[k])
    requires AllWellFormed(chr, c, timeStamp)
    ensures var r := DelDupl(kind, chr, i, draws, prob, del, dupli, maxGene, timeStamp, c);
      AllWellFormed(r.chromosome, r.counter, timeStamp)
    decreases i
  {
    if i > 0 {
      var s := DelDuplStep(kind, chr, i - 1, draws[i - 1], prob, del, dupli, maxGene, timeStamp, c);
      StepKeepsLineage(kind, chr, i - 1, draws[i - 1], prob, del, dupli, maxGene, timeStamp, c);
      assert forall k :: 0 <= k < i - 1 ==> s.chromosome[k] == s.chromosome[..i - 1][k] == chr[k];
      DelDuplKeepsLineage(kind, s.chromosome, i - 1, draws, prob, del, dupli, maxGene, timeStamp, s.counter);
    }
  }

  lemma StepKeepsLineage(kind: MutationKind, chr: seq<G.GeneState>, k: nat, d: StepDraw, prob: real,
                         del: real, dupli: real, maxGene: int, timeStamp: int, c: nat)
    requires k < |chr| && Fits(kind, chr[k], prob, d)
    requires AllWellFormed(chr, c, timeStamp)
    ensures var r := DelDuplStep(kind, chr, k, d, prob, del, dupli, maxGene, timeStamp, c);
      AllWellFormed(r.chromosome, r.counter, timeStamp)
  {
    var m := MutateOne(kind, chr[k], prob, d, timeStamp, c);
    MutatedKeepsLineage(kind, chr, k, d, prob, timeStamp, c);
    var c1 := chr[k := m.gene];
    DupDelKeepsLineage(c1, k, Below(|c1|, maxGene) && d.dup < dupli, d.del < del, m.counter, timeStamp);
  }

  /** Mutating gene k keeps the lineage of every gene in order, under the advanced counter. */
  lemma MutatedKeepsLineage(kind: MutationKind, chr: seq<G.GeneState>, k: nat, d: StepDraw, prob: real,
                            timeStamp: int, c: nat)
    requires k < |chr| && Fits(kind, chr[k], prob, d)
    requires AllWellFormed(chr, c, timeStamp)
    ensures var m := MutateOne(kind, chr[k], prob, d, timeStamp, c);
      AllWellFormed(chr[k := m.gene], m.counter, timeStamp)
  {
    var g := chr[k];
    var m := MutateOne(kind, g, prob, d, timeStamp, c);
    var noBits := seq(g.bitStringLength, _ => 0.0);
    match kind
    case WholeGene =>
      G.MutationsKeepLineage(g, prob, d.u, d.value, prob, noBits, {}, timeStamp, c);
    case PointMutations =>
      G.MutationsKeepLineage(g, prob, prob, 0, prob, d.bits, {}, timeStamp, c);
    assert WellFormed(m.gene, m.counter, timeStamp);
    var c1 := chr[k := m.gene];
    forall j | 0 <= j < |c1|
      ensures WellFormed(c1[j], m.counter, timeStamp)
    {
      assert WellFormed(chr[j], c, timeStamp);
    }
  }

  /** Duplicating gene k to the end and deleting it only rearranges well-formed genes. */
  lemma DupDelKeepsLineage(c1: seq<G.GeneState>, k: nat, dup: bool, del: bool, c: nat, timeStamp: int)
    requires k < |c1| && AllWellFormed(c1, c, timeStamp)
    ensures var c2 := if dup then c1 + [c1[k]] else c1;
      var c3 := if del then c2[..k] + c2[k + 1..] else c2;
      AllWellFormed(c3, c, timeStamp)
  {
    var c2 := if dup then c1 + [c1[k]] else c1;
    assert forall j :: 0 <= j < |c2| ==> c2[j] == c1[if j < |c1| then j else k];
    var c3 := if del then c2[..k] + c2[k + 1..] else c2;
    assert forall j :: 0 <= j < |c3| ==> c3[j] == c2[if del && j >= k then j + 1 else j];
  }

  /** `doCrossAndMeiosis` returns, slot for slot, a gene of one of the chromosomes; with unequal sizes a whole one. */
  lemma CrossedProps(one: seq<G.GeneState>, two: seq<G.GeneState>, prob: real, flip: real, draws: seq<real>)
    requires |one| == |two| ==> |draws| == |one|
    ensures var r := Crossed(one, two, prob, flip, draws);
      (|one| == |two| ==> |r| == |one| && forall i :: 0 <= i < |one| ==> r[i] == one[i] || r[i] == two[i]) &&
      (|one| != |two| ==> (r == one || r == two)) &&
      (|one| == |two| && flip >= 0.5 ==> forall i :: 0 <= i < |one| ==> draws[i] < prob ==> r[i] == one[i])
  {
  }

  /** Swapping either does nothing or exchanges the chromosomes; two swaps restore the host. */
  lemma SwappedProps(h: HostState, d1: real, d2: real)
    ensures Swapped(h, d1) == h ||
      (Swapped(h, d1).chromosomeOne == h.chromosomeTwo && Swapped(h, d1).chromosomeTwo == h.chromosomeOne)
    ensures multiset(Swapped(h, d1).chromosomeOne + Swapped(h, d1).chromosomeTwo) ==
      multiset(h.chromosomeOne + h.chromosomeTwo)
    ensures d1 < 0.5 && d2 < 0.5 ==> Swapped(Swapped(h, d1), d2) == h
  {
  }

  /** The fetched gene is one of the chromosome's, or -1 exactly when it is empty. */
  lemma OneGeneProps(chr: seq<G.GeneState>, indx: int)
    ensures |chr| == 0 <==> OneGene(chr, indx) == -1 && |chr| == 0
    ensures |chr| > 0 ==> exists k :: 0 <= k < |chr| && OneGene(chr, indx) == chr[k].theGene
    ensures 0 <= indx < |chr| ==> OneGene(chr, indx) == chr[indx].theGene
  {
    if |chr| > 0 {
      if 0 <= indx < |chr| {
        assert OneGene(chr, indx) == chr[indx].theGene;
      } else {
        assert OneGene(chr, indx) == chr[|chr| - 1].theGene;
      }
    }
  }

  /** `clearInfections` zeroes the counters and fitness and keeps the chromosomes. */
  lemma ClearedProps(h: HostState)
    ensures Cleared(h).numOfPathogesInfecting == 0 && Cleared(h).numOfPathogesPresented == 0
    ensures Cleared(h).selectedForReproduction == 0 && Cleared(h).fitness == 0.0
    ensures Cleared(h).chromosomeOne == h.chromosomeOne && Cleared(h).chromosomeTwo == h.chromosomeTwo
  {
  }

  // ----- Text form properties -----

  lemma HeaderOfWords(inf: string, pres: string)
    requires |inf| > 0 && NoSpace(inf) && |pres| > 0 && NoSpace(pres)
    ensures IsLine(" " + Join(HeaderWordsOf(inf, pres), ' ') + "\n")
    ensures Split(" " + Join(HeaderWordsOf(inf, pres), ' ') + "\n") == HeaderWordsOf(inf, pres)
  {
    assert NoSpace("===") && NoSpace("Host") && NoSpace("has") && NoSpace("parasites");
    assert NoSpace("and") && NoSpace("presented") && NoSpace("of") && NoSpace("them");
    assert Words(HeaderWordsOf(inf, pres));
    BlankJoinedLine(HeaderWordsOf(inf, pres));
  }

  lemma HeaderIsLine(h: HostState)
    ensures IsLine(Header(h))
  {
    HeaderReadBack(h);
  }

  /** The header is one line whose words carry the two counters. */
  lemma HeaderReadBack(h: HostState)
    ensures IsLine(Header(h))
    ensures Split(Header(h)) == HeaderWords(h)
    ensures ParseInt(HeaderWords(h)[3]) == Some(h.numOfPathogesInfecting)
    ensures ParseInt(HeaderWords(h)[7]) == Some(h.numOfPathogesPresented)
  {
    var i := NatToString(h.numOfPathogesInfecting);
    var p := NatToString(h.numOfPathogesPresented);
    NatStringIsWord(h.numOfPathogesInfecting);
    NatStringIsWord(h.numOfPathogesPresented);
    HeaderOfWords(i, p);
    assert HeaderWords(h)[3] == i && HeaderWords(h)[7] == p;
    ParseIntOfNatToString(h.numOfPathogesInfecting);
    ParseIntOfNatToString(h.numOfPathogesPresented);
  }

  /** The parent pairs are words that read back as the stored times and tags. */
  lemma ParentPairsRead(mt: seq<int>, pt: seq<nat>)
    requires |pt| <= |mt|
    ensures Words(ParentPairs(mt, pt))
    ensures forall j :: 0 <= j < |pt| ==>
      ParseInt(ParentPairs(mt, pt)[2 * j]) == Some(mt[j]) && ParseInt(ParentPairs(mt, pt)[2 * j + 1]) == Some(pt[j])
  {
    ParentPairsAreWords(mt, pt);
    ParentPairsParse(mt, pt);
  }

  lemma {:induction false} ParentPairsAreWords(mt: seq<int>, pt: seq<nat>)
    requires |pt| <= |mt|
    ensures Words(ParentPairs(mt, pt))
    decreases |pt|
  {
    if pt != [] {
      var n := |pt| - 1;
      var pre := ParentPairs(mt, pt[..n]);
      ParentPairsAreWords(mt, pt[..n]);
      IntStringIsWord(mt[n]);
      NatStringIsWord(pt[n]);
      var last := [IntToString(mt[n]), NatToString(pt[n])];
      assert Words(last);
      assert ParentPairs(mt, pt) == pre + last;
    }
  }

  lemma ParentPairsParse(mt: seq<int>, pt: seq<nat>)
    requires |pt| <= |mt|
    ensures forall j :: 0 <= j < |pt| ==>
      ParseInt(ParentPairs(mt, pt)[2 * j]) == Some(mt[j]) && ParseInt(ParentPairs(mt, pt)[2 * j + 1]) == Some(pt[j])
  {
    var pp := ParentPairs(mt, pt);
    forall j | 0 <= j < |pt|
      ensures ParseInt(pp[2 * j]) == Some(mt[j]) && ParseInt(pp[2 * j + 1]) == Some(pt[j])
    {
      ParentPairsAt(mt, pt, j);
      ParseIntOfIntString(mt[j]);
      ParseIntOfNatToString(pt[j]);
    }
  }

  /** Entries 2j and 2j + 1 are parent j's mutation time and tag. */
  lemma {:induction false} ParentPairsAt(mt: seq<int>, pt: seq<nat>, j: nat)
    requires j < |pt| <= |mt|
    ensures ParentPairs(mt, pt)[2 * j] == IntToString(mt[j])
    ensures ParentPairs(mt, pt)[2 * j + 1] == NatToString(pt[j])
    decreases |pt|
  {
    var n := |pt| - 1;
    var pre := ParentPairs(mt, pt[..n]);
    assert ParentPairs(mt, pt) == pre + [IntToString(mt[n]), NatToString(pt[n])];
    if j < n {
      ParentPairsAt(mt, pt[..n], j);
    }
  }

  lemma GeneTailAreWords(g: G.GeneState)
    requires |g.parentTags| <= |g.mutationTime|
    ensures Words(GeneTail(g))
  {
    if |g.parentTags| > 0 {
      ParentPairsRead(g.mutationTime, g.parentTags);
    } else {
      assert NoSpace("-1");
    }
  }

  /** Every field of a gene line after the bit string is a word; so is the bit string for a non-empty gene. */
  lemma GeneFieldsAreWords(g: G.GeneState, ch: string)
    requires |g.parentTags| <= |g.mutationTime|
    requires |ch| > 0 && NoSpace(ch)
    ensures NoNewline(GeneFields(g, ch)[0])
    ensures Words(GeneFields(g, ch)[1..])
    ensures g.bitStringLength > 0 ==> Words(GeneFields(g, ch))
  {
    var f := GeneFields(g, ch);
    var t := GeneTail(g);
    var b := ToBinaryString(G.BitGene(g));
    ToBinaryStringIsBinary(G.BitGene(g));
    BinaryTextIsWord(b);
    IntStringIsWord(g.timeOfOrigin);
    NatStringIsWord(g.genesTag);
    GeneTailAreWords(g);
    assert forall i :: 4 <= i < |f| ==> f[i] == t[i - 4];
  }

  /** A gene line is a single line. */
  lemma GeneLineIsLine(g: G.GeneState, ch: string)
    requires |g.parentTags| <= |g.mutationTime|
    requires |ch| > 0 && NoSpace(ch)
    ensures IsLine(GeneLine(g, ch))
  {
    var f := GeneFields(g, ch);
    GeneFieldsAreWords(g, ch);
    WordsNoNewline(f[1..]);
    forall i | 0 <= i < |f|
      ensures NoNewline(f[i])
    {
      if i > 0 {
        assert f[i] == f[1..][i - 1];
      }
    }
    JoinNoNewline(f, '\t');
    LineOf(Join(f, '\t'));
  }

  /**
   * Splitting the line of a gene of non-zero length on whitespace gives its
   * fields back: bits, chromosome, origin time, own tag, then for k parents
   * the 2k fields time_j, tag_j in stored order, or the single marker "-1".
   */
  lemma GeneLineReadBack(g: G.GeneState, ch: string)
    requires |g.parentTags| <= |g.mutationTime|
    requires |ch| > 0 && NoSpace(ch)
    ensures g.bitStringLength > 0 ==> Split(GeneLine(g, ch)) == GeneFields(g, ch)
    ensures var f := GeneFields(g, ch);
      f[0] == ToBinaryString(G.BitGene(g)) && f[1] == ch &&
      ParseInt(f[2]) == Some(g.timeOfOrigin) && ParseInt(f[3]) == Some(g.genesTag) &&
      (|g.parentTags| == 0 ==> |f| == 5 && f[4] == "-1") &&
      (|g.parentTags| > 0 ==>
        |f| == 4 + 2 * |g.parentTags| &&
        forall j :: 0 <= j < |g.parentTags| ==>
          ParseInt(f[4 + 2 * j]) == Some(g.mutationTime[j]) && ParseInt(f[5 + 2 * j]) == Some(g.parentTags[j]))
  {
    if g.bitStringLength > 0 {
      GeneLineSplits(g, ch);
    }
    GeneNamesRead(g, ch);
    GeneHeadRead(g, ch);
    GeneMarkerRead(g, ch);
    GeneTailRead(g, ch);
  }

  /** Without parents the line ends in the single marker "-1". */
  lemma GeneMarkerRead(g: G.GeneState, ch: string)
    requires |g.parentTags| <= |g.mutationTime|
    ensures var f := GeneFields(g, ch);
      |g.parentTags| == 0 ==> |f| == 5 && f[4] == "-1"
  {
  }

  /** The first two fields are the gene's bits and the chromosome name. */
  lemma GeneNamesRead(g: G.GeneState, ch: string)
    requires |g.parentTags| <= |g.mutationTime|
    ensures var f := GeneFields(g, ch);
      f[0] == ToBinaryString(G.BitGene(g)) && f[1] == ch
  {
  }

  /** The next two fields read back as the gene's origin time and tag. */
  lemma GeneHeadRead(g: G.GeneState, ch: string)
    requires |g.parentTags| <= |g.mutationTime|
    ensures var f := GeneFields(g, ch);
      ParseInt(f[2]) == Some(g.timeOfOrigin) && ParseInt(f[3]) == Some(g.genesTag)
  {
    var f := GeneFields(g, ch);
    ParseIntOfIntString(g.timeOfOrigin);
    ParseIntOfNatToString(g.genesTag);
  }

  /** After the leading fields come, per parent j, its mutation time and its tag. */
  lemma GeneTailRead(g: G.GeneState, ch: string)
    requires |g.parentTags| <= |g.mutationTime|
    ensures var f := GeneFields(g, ch);
      |g.parentTags| > 0 ==>
        |f| == 4 + 2 * |g.parentTags| &&
        forall j :: 0 <= j < |g.parentTags| ==>
          ParseInt(f[4 + 2 * j]) == Some(g.mutationTime[j]) && ParseInt(f[5 + 2 * j]) == Some(g.parentTags[j])
  {
    if |g.parentTags| > 0 {
      var f := GeneFields(g, ch);
      var pp := ParentPairs(g.mutationTime, g.parentTags);
      ParentPairsParse(g.mutationTime, g.parentTags);
      GeneTailShift(g, ch);
      forall j | 0 <= j < |g.parentTags|
        ensures ParseInt(f[4 + 2 * j]) == Some(g.mutationTime[j]) && ParseInt(f[5 + 2 * j]) == Some(g.parentTags[j])
      {
        assert f[4 + 2 * j] == pp[2 * j];
        assert f[4 + (2 * j + 1)] == pp[2 * j + 1];
      }
    }
  }

  /** With parents, field 4 + k of a gene line is the k-th entry of its parent pairs. */
  lemma GeneTailShift(g: G.GeneState, ch: string)
    requires 0 < |g.parentTags| <= |g.mutationTime|
    ensures |GeneFields(g, ch)| == 4 + 2 * |g.parentTags|
    ensures forall k :: 0 <= k < 2 * |g.parentTags| ==>
      GeneFields(g, ch)[4 + k] == ParentPairs(g.mutationTime, g.parentTags)[k]
  {
    assert GeneFields(g, ch) == GeneHead(g, ch) + ParentPairs(g.mutationTime, g.parentTags);
  }

  lemma GeneLineSplits(g: G.GeneState, ch: string)
    requires |g.parentTags| <= |g.mutationTime|
    requires |ch| > 0 && NoSpace(ch) && g.bitStringLength > 0
    ensures Split(GeneLine(g, ch)) == GeneFields(g, ch)
  {
    GeneFieldsAreWords(g, ch);
    SplitJoin(GeneFields(g, ch), '\t', "\n");
  }

  /** The text is the header line followed by one line per gene, chromosome one's first. */
  lemma HostTextLines(h: HostState)
    requires Printable(h.chromosomeOne) && Printable(h.chromosomeTwo)
    ensures Lines(HostText(h)) ==
      [Header(h)] + GeneLines(h.chromosomeOne, "ch_one") + GeneLines(h.chromosomeTwo, "ch_two")
    ensures |Lines(HostText(h))| == 1 + |h.chromosomeOne| + |h.chromosomeTwo|
  {
    HeaderIsLine(h);
    assert NoSpace("ch_one") && NoSpace("ch_two");
    GeneLinesAreLines(h.chromosomeOne, "ch_one");
    GeneLinesAreLines(h.chromosomeTwo, "ch_two");
    LinesOfParts(Header(h), GeneLines(h.chromosomeOne, "ch_one"), GeneLines(h.chromosomeTwo, "ch_two"));
  }

  lemma GeneLinesAreLines(chr: seq<G.GeneState>, ch: string)
    requires Printable(chr) && |ch| > 0 && NoSpace(ch)
    ensures AllLines(GeneLines(chr, ch))
  {
    forall i | 0 <= i < |chr|
      ensures IsLine(GeneLines(chr, ch)[i])
    {
      GeneLineIsLine(chr[i], ch);
    }
  }

  /** Builds one gene's line: its four fields, then a pair per parent or the "-1" marker. */
  method StringGene(g: G.GeneState, ch: string) returns (s: string)
    requires |g.parentTags| <= |g.mutationTime|
    ensures s == GeneLine(g, ch)
  {
    s := StringHead(g, ch);
    if |g.parentTags| > 0 {
      s := StringParents(s, g.mutationTime, g.parentTags, GeneHead(g, ch));
    } else {
      s := AppendField("", s, GeneHead(g, ch), "-1");
    }
    s := s + "\n";
  }

  /** The four leading fields, tab-separated. */
  method StringHead(g: G.GeneState, ch: string) returns (s: string)
    ensures s == "" + Join(GeneHead(g, ch), '\t')
  {
    var fields := [ToBinaryString(G.BitGene(g))];
    s := ToBinaryString(G.BitGene(g));
    s := AppendField("", s, fields, ch);
    fields := fields + [ch];
    s := AppendField("", s, fields, IntToString(g.timeOfOrigin));
    fields := fields + [IntToString(g.timeOfOrigin)];
    s := AppendField("", s, fields, NatToString(g.genesTag));
    fields := fields + [NatToString(g.genesTag)];
    assert fields == GeneHead(g, ch);
  }

  /** The loop appending "\t time_j \t tag_j" for each parent j. */
  method StringParents(s0: string, mt: seq<int>, pt: seq<nat>, ghost head: seq<string>) returns (s: string)
    requires |pt| <= |mt| && |head| > 0 && s0 == "" + Join(head, '\t')
    ensures s == "" + Join(head + ParentPairs(mt, pt), '\t')
  {
    s := s0;
    ghost var fields := head;
    var j := 0;
    assert pt[..0] == [];
    while j < |pt|
      invariant 0 <= j <= |pt|
      invariant fields == head + ParentPairs(mt, pt[..j])
      invariant s == "" + Join(fields, '\t')
    {
      ghost var pairs := ParentPairs(mt, pt[..j]);
      s := AppendField("", s, fields, IntToString(mt[j]));
      fields := fields + [IntToString(mt[j])];
      s := AppendField("", s, fields, NatToString(pt[j]));
      fields := fields + [NatToString(pt[j])];
      ParentPairsSnoc(mt, pt, j);
      assert fields == head + (pairs + [IntToString(mt[j]), NatToString(pt[j])]);
      j := j + 1;
    }
    assert pt[..j] == pt;
  }

  lemma ParentPairsSnoc(mt: seq<int>, pt: seq<nat>, j: nat)
    requires j < |pt| <= |mt|
    ensures ParentPairs(mt, pt[..j + 1]) == ParentPairs(mt, pt[..j]) + [IntToString(mt[j]), NatToString(pt[j])]
  {
    assert pt[..j + 1][..j] == pt[..j];
  }

  /** Builds the lines of one chromosome's genes after a text `s0`. */
  method StringGenes(s0: string, chr: seq<G.GeneState>, ch: string) returns (s: string)
    requires Printable(chr)
    ensures s == s0 + Concat(GeneLines(chr, ch))
  {
    ghost var all := GeneLines(chr, ch);
    s := s0;
    var i := 0;
    while i < |chr|
      invariant 0 <= i <= |chr|
      invariant s == s0 + Concat(all[..i])
    {
      var line := StringGene(chr[i], ch);
      ConcatStep(s0, all, i, s, line);
      s := s + line;
      i := i + 1;
    }
    assert all[..i] == all;
  }

  /** A `Host` object; its chromosomes are vectors of gene values. */
  class Host {
    var numOfPathogesInfecting: nat
    var numOfPathogesPresented: nat
    var selectedForReproduction: int
    var fitness: real
    var chromosomeOne: seq<G.GeneState>
    var chromosomeTwo: seq<G.GeneState>

    function State(): HostState
      reads this
    {
      HostState(numOfPathogesInfecting, numOfPathogesPresented, selectedForReproduction, fitness,
                chromosomeOne, chromosomeTwo)
    }

    /** The empty constructor: empty chromosomes, the counters unspecified. */
    constructor ()
      ensures chromosomeOne == [] && chromosomeTwo == []
    {
      chromosomeOne := [];
      chromosomeTwo := [];
    }

    method SetNewHost(numOfLoci: int, geneSize: nat, timeStamp: int, draws: seq<int>, tags: Tagging.TaggingSystem)
      requires |draws| == 2 * LociCount(numOfLoci)
      requires forall k :: 0 <= k < |draws| ==> 0 <= draws[k] <= G.MaxValue(geneSize)
      modifies this, tags
      ensures State() == NewHost(old(State()), numOfLoci, geneSize, timeStamp, old(tags.theTag), draws)
      ensures tags.theTag == old(tags.theTag) + 2 * LociCount(numOfLoci)
    {
      numOfPathogesInfecting := 0;
      numOfPathogesPresented := 0;
      selectedForReproduction := 0;
      fitness := 0.0;
      var n := LociCount(numOfLoci);
      ghost var c0, one0, two0 := tags.theTag, chromosomeOne, chromosomeTwo;
      var i := 0;
      while i < numOfLoci
        invariant 0 <= i <= n
        invariant chromosomeOne == one0 + NewLoci(i, geneSize, timeStamp, c0, draws, 0)
        invariant chromosomeTwo == two0 + NewLoci(i, geneSize, timeStamp, c0, draws, 1)
        invariant tags.theTag == c0 + 2 * i
        invariant numOfPathogesInfecting == 0 && numOfPathogesPresented == 0
        invariant selectedForReproduction == 0 && fitness == 0.0
      {
        NewLociSnoc(i, geneSize, timeStamp, c0, draws);
        var g1 := NewLocusGene(geneSize, timeStamp, tags, draws[2 * i]);
        chromosomeOne := chromosomeOne + [g1];
        var g2 := NewLocusGene(geneSize, timeStamp, tags, draws[2 * i + 1]);
        chromosomeTwo := chromosomeTwo + [g2];
        i := i + 1;
      }
    }

    /** `chromoMutProcess`: every gene of chromosome one, then of chromosome two, may mutate whole. */
    method ChromoMutProcess(prob: real, timeStamp: int, drawsOne: seq<WholeDraw>, drawsTwo: seq<WholeDraw>,
                            tags: Tagging.TaggingSystem)
      requires |drawsOne| == |chromosomeOne| && |drawsTwo| == |chromosomeTwo|
      requires forall k :: 0 <= k < |chromosomeOne| ==> WholeFits(chromosomeOne[k], prob, drawsOne[k])
      requires forall k :: 0 <= k < |chromosomeTwo| ==> WholeFits(chromosomeTwo[k], prob, drawsTwo[k])
      modifies this, tags
      ensures var p1 := MutateEach(old(chromosomeOne), prob, drawsOne, timeStamp, old(tags.theTag));
        var p2 := MutateEach(old(chromosomeTwo), prob, drawsTwo, timeStamp, p1.counter);
        State() == old(State()).(chromosomeOne := p1.chromosome, chromosomeTwo := p2.chromosome) &&
        tags.theTag == p2.counter
    {
      var one := MutateChromosome(chromosomeOne, prob, drawsOne, timeStamp, tags);
      chromosomeOne := one;
      var two := MutateChromosome(chromosomeTwo, prob, drawsTwo, timeStamp, tags);
      chromosomeTwo := two;
    }

    /** The loop of `chromoMutProcess` over one chromosome. */
    static method MutateChromosome(chr: seq<G.GeneState>, prob: real, draws: seq<WholeDraw>, timeStamp: int,
                                   tags: Tagging.TaggingSystem) returns (r: seq<G.GeneState>)
      requires |draws| == |chr|
      requires forall k :: 0 <= k < |chr| ==> WholeFits(chr[k], prob, draws[k])
      modifies tags
      ensures Processed(r, tags.theTag) == MutateEach(chr, prob, draws, timeStamp, old(tags.theTag))
    {
      r := chr;
      ghost var c0 := tags.theTag;
      ghost var p := Processed([], c0);
      var i := 0;
      while i < |chr|
        invariant 0 <= i <= |chr| == |r|
        invariant p == MutateEach(chr[..i], prob, draws[..i], timeStamp, c0)
        invariant r == p.chromosome + chr[i..] && tags.theTag == p.counter
      {
        assert r[i] == chr[i] && WholeFits(chr[i], prob, draws[i]);
        var mutated := MutateCopy(r[i], prob, draws[i], timeStamp, tags);
        MutateEachStep(chr, draws, prob, timeStamp, c0, i, p, mutated, tags.theTag);
        r := r[i := mutated];
        p := Processed(p.chromosome + [mutated], tags.theTag);
        i := i + 1;
      }
      assert chr[..i] == chr && draws[..i] == draws;
    }

    /** The gene the vector holds, copied into a `Gene` object and mutated whole. */
    static method MutateCopy(x: G.GeneState, prob: real, d: WholeDraw, timeStamp: int, tags: Tagging.TaggingSystem)
      returns (y: G.GeneState)
      requires WholeFits(x, prob, d)
      modifies tags
      ensures G.Stepped(y, tags.theTag) == G.MutateWhole(x, prob, d.u, d.value, timeStamp, old(tags.theTag))
    {
      var g := new G.Gene.Copy(x);
      g.MutateGeneWhole(prob, d.u, d.value, timeStamp, tags);
      y := g.State();
    }

    /** `chromoMutProcessWithDelDupl`: whole-gene mutation with duplication and deletion. */
    method ChromoMutProcessWithDelDupl(prob: real, del: real, dupli: real, maxGene: int, timeStamp: int,
                                       drawsOne: seq<StepDraw>, drawsTwo: seq<StepDraw>, tags: Tagging.TaggingSystem)
      requires |drawsOne| == |chromosomeOne| && |drawsTwo| == |chromosomeTwo|
      requires forall k :: 0 <= k < |chromosomeOne| ==> Fits(WholeGene, chromosomeOne[k], prob, drawsOne[k])
      requires forall k :: 0 <= k < |chromosomeTwo| ==> Fits(WholeGene, chromosomeTwo[k], prob, drawsTwo[k])
      modifies this, tags
      ensures (State(), tags.theTag) ==
        HostPass(WholeGene, old(State()), drawsOne, drawsTwo, prob, del, dupli, maxGene, timeStamp, old(tags.theTag))
    {
      var one := PassChromosome(WholeGene, chromosomeOne, drawsOne, prob, del, dupli, maxGene, timeStamp, tags);
      chromosomeOne := one;
      var two := PassChromosome(WholeGene, chromosomeTwo, drawsTwo, prob, del, dupli, maxGene, timeStamp, tags);
      chromosomeTwo := two;
    }

    /** `chromoMutProcessWithDelDuplPointMuts`: point mutations with duplication and deletion. */
    method ChromoMutProcessWithDelDuplPointMuts(prob: real, del: real, dupli: real, maxGene: int, timeStamp: int,
                                                drawsOne: seq<StepDraw>, drawsTwo: seq<StepDraw>,
                                                tags: Tagging.TaggingSystem)
      requires |drawsOne| == |chromosomeOne| && |drawsTwo| == |chromosomeTwo|
      requires forall k :: 0 <= k < |chromosomeOne| ==> Fits(PointMutations, chromosomeOne[k], prob, drawsOne[k])
      requires forall k :: 0 <= k < |chromosomeTwo| ==> Fits(PointMutations, chromosomeTwo[k], prob, drawsTwo[k])
      modifies this, tags
      ensures (State(), tags.theTag) ==
        HostPass(PointMutations, old(State()), drawsOne, drawsTwo, prob, del, dupli, maxGene, timeStamp, old(tags.theTag))
    {
      var one := PassChromosome(PointMutations, chromosomeOne, drawsOne, prob, del, dupli, maxGene, timeStamp, tags);
      chromosomeOne := one;
      var two := PassChromosome(PointMutations, chromosomeTwo, drawsTwo, prob, del, dupli, maxGene, timeStamp, tags);
      chromosomeTwo := two;
    }

    /** The countdown loop over one chromosome: mutate gene i, maybe duplicate it, maybe erase it. */
    static method PassChromosome(kind: MutationKind, chr: seq<G.GeneState>, draws: seq<StepDraw>, prob: real,
                                 del: real, dupli: real, maxGene: int, timeStamp: int, tags: Tagging.TaggingSystem)
      returns (r: seq<G.GeneState>)
      requires |draws| == |chr|
      requires forall k :: 0 <= k < |chr| ==> Fits(kind, chr[k], prob, draws[k])
      modifies tags
      ensures Processed(r, tags.theTag) == ChromosomePass(kind, chr, draws, prob, del, dupli, maxGene, timeStamp, old(tags.theTag))
    {
      r := chr;
      ghost var target := DelDupl(kind, chr, |chr|, draws, prob, del, dupli, maxGene, timeStamp, tags.theTag);
      if |r| > 0 {
        var i: int := |r| - 1;
        while i >= 0
          invariant -1 <= i < |chr| && i + 1 <= |r| && r[..i + 1] == chr[..i + 1]
          invariant AllFits(kind, r, i + 1, draws, prob)
          invariant DelDupl(kind, r, i + 1, draws, prob, del, dupli, maxGene, timeStamp, tags.theTag) == target
          decreases i
        {
          ghost var before := r;
          ghost var c := tags.theTag;
          r := PassStep(kind, r, i, draws[i], prob, del, dupli, maxGene, timeStamp, tags);
          PassStepKeeps(kind, chr, before, i, draws, prob, del, dupli, maxGene, timeStamp, c);
          i := i - 1;
        }
      }
    }

    /** One step of the countdown at index k. */
    static method PassStep(kind: MutationKind, chr: seq<G.GeneState>, k: nat, d: StepDraw, prob: real,
                           del: real, dupli: real, maxGene: int, timeStamp: int, tags: Tagging.TaggingSystem)
      returns (r: seq<G.GeneState>)
      requires k < |chr| && Fits(kind, chr[k], prob, d)
      modifies tags
      ensures Processed(r, tags.theTag) == DelDuplStep(kind, chr, k, d, prob, del, dupli, maxGene, timeStamp, old(tags.theTag))
    {
      var g := new G.Gene.Copy(chr[k]);
      match kind {
        case WholeGene => g.MutateGeneWhole(prob, d.u, d.value, timeStamp, tags);
        case PointMutations => g.MutateGeneBitByBit(prob, d.bits, timeStamp, tags);
      }
      r := chr[k := g.State()];
      if |r| > 0 && Below(|r|, maxGene) && d.dup < dupli {
        r := r + [r[k]];
      }
      if |r| > 0 && d.del < del {
        r := r[..k] + r[k + 1..];
      }
    }

    /** `doCrossAndMeiosis`: the gamete chromosome; `flip` is the first draw, `draws` one per slot. */
    method DoCrossAndMeiosis(prob: real, flip: real, draws: seq<real>) returns (r: seq<G.GeneState>)
      requires |chromosomeOne| == |chromosomeTwo| ==> |draws| == |chromosomeOne|
      ensures r == Crossed(chromosomeOne, chromosomeTwo, prob, flip, draws)
    {
      if |chromosomeOne| == |chromosomeTwo| {
        var p := prob;
        if flip < 0.5 {
          p := 1.0 - p;
        }
        r := [];
        var i := 0;
        while i < |chromosomeOne|
          invariant 0 <= i <= |chromosomeOne| && |r| == i
          invariant forall k :: 0 <= k < i ==> r[k] == if draws[k] < p then chromosomeOne[k] else chromosomeTwo[k]
        {
          if draws[i] < p {
            r := r + [chromosomeOne[i]];
          } else {
            r := r + [chromosomeTwo[i]];
          }
          i := i + 1;
        }
      } else {
        if flip < 0.5 {
          r := chromosomeTwo;
        } else {
          r := chromosomeOne;
        }
      }
    }

    function GetOneGeneFromOne(indx: int): (v: int)
      reads this
      ensures v == OneGene(chromosomeOne, indx)
    {
      if |chromosomeOne| > 0 then
        if 0 <= indx < |chromosomeOne| then chromosomeOne[indx].theGene else chromosomeOne[|chromosomeOne| - 1].theGene
      else -1
    }

    function GetOneGeneFromTwo(indx: int): (v: int)
      reads this
      ensures v == OneGene(chromosomeTwo, indx)
    {
      if |chromosomeTwo| > 0 then
        if 0 <= indx < |chromosomeTwo| then chromosomeTwo[indx].theGene else chromosomeTwo[|chromosomeTwo| - 1].theGene
      else -1
    }

    /** `getSingleGeneFromOne`: the bit string of gene `indx`, or of the last gene past the end. */
    function GetSingleGeneFromOne(indx: int): (b: seq<bool>)
      reads this
      requires |chromosomeOne| > 0
      ensures 0 <= indx < |chromosomeOne| ==> b == G.BitGene(chromosomeOne[indx])
      ensures !(0 <= indx < |chromosomeOne|) ==> b == G.BitGene(chromosomeOne[|chromosomeOne| - 1])
    {
      if 0 <= indx < |chromosomeOne| then G.BitGene(chromosomeOne[indx]) else G.BitGene(chromosomeOne[|chromosomeOne| - 1])
    }

    function GetSingleGeneFromTwo(indx: int): (b: seq<bool>)
      reads this
      requires |chromosomeTwo| > 0
      ensures 0 <= indx < |chromosomeTwo| ==> b == G.BitGene(chromosomeTwo[indx])
      ensures !(0 <= indx < |chromosomeTwo|) ==> b == G.BitGene(chromosomeTwo[|chromosomeTwo| - 1])
    {
      if 0 <= indx < |chromosomeTwo| then G.BitGene(chromosomeTwo[indx]) else G.BitGene(chromosomeTwo[|chromosomeTwo| - 1])
    }

    function GetGenomeSize(): (n: nat)
      reads this
      ensures n == |MergeChromosomes()|
    {
      |chromosomeOne| + |chromosomeTwo|
    }

    /** `mergeChromosomes`: chromosome one followed by chromosome two. */
    function MergeChromosomes(): (m: seq<G.GeneState>)
      reads this
      ensures |m| == |chromosomeOne| + |chromosomeTwo|
      ensures m[..|chromosomeOne|] == chromosomeOne && m[|chromosomeOne|..] == chromosomeTwo
    {
      chromosomeOne + chromosomeTwo
    }

    method AssignChromOne(one: seq<G.GeneState>)
      modifies this
      ensures State() == old(State()).(chromosomeOne := one)
    {
      chromosomeOne := one;
    }

    method AssignChromTwo(two: seq<G.GeneState>)
      modifies this
      ensures State() == old(State()).(chromosomeTwo := two)
    {
      chromosomeTwo := two;
    }

    method SwapChromosomes(draw: real)
      modifies this
      ensures State() == Swapped(old(State()), draw)
    {
      if draw < 0.5 {
        var tmp := chromosomeOne;
        chromosomeOne := chromosomeTwo;
        chromosomeTwo := tmp;
      }
    }

    method ClearInfections()
      modifies this
      ensures State() == Cleared(old(State()))
    {
      numOfPathogesInfecting := 0;
      numOfPathogesPresented := 0;
      selectedForReproduction := 0;
      fitness := 0.0;
    }

    /** `stringChromosomes`; a gene's mutation times are read at its parent tags' indices. */
    method StringChromosomes() returns (s: string)
      requires Printable(chromosomeOne) && Printable(chromosomeTwo)
      ensures s == HostText(State())
    {
      s := Header(State());
      s := StringGenes(s, chromosomeOne, "ch_one");
      s := StringGenes(s, chromosomeTwo, "ch_two");
    }
  }
}
