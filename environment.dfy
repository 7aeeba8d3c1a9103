/**
 * The simulation's population bookkeeping: per-species sets of antigen sites
 * that may not mutate, the initial host and pathogen populations, the
 * restricted mutation round over all pathogens, the table of unique host
 * genes, and the text that lists the fixed sites.
 */
module Environment {
  import opened Bits
  import opened Text
  import opened SeqUtil
  import opened Wrappers
  import G = Gene
  import AG = Antigen
  import HM = Host
  import PM = Pathogen
  import Tagging

  /** How many times a `for (int i = 0; i < n; ++i)` loop runs. */
  function Max0(n: int): nat {
    if n > 0 then n else 0
  }

  function Min(a: int, b: int): int {
    if a <= b then a else b
  }

  // ----- No-mutation sites -----

  /**
   * One species' sites as `setNoMutsVector` draws them: site j is fixed when
   * its draw is at most the fraction.
   */
  function FixedSites(draws: seq<real>, frac: real): (s: set<nat>)
    ensures forall j :: j in s ==> j < |draws|
  {
    set j: nat | j < |draws| && draws[j] <= frac
  }

  function FixedSets(draws: seq<seq<real>>, frac: real): (r: seq<set<nat>>)
    ensures |r| == |draws|
    ensures forall i :: 0 <= i < |draws| ==> r[i] == FixedSites(draws[i], frac)
  {
    seq(|draws|, i requires 0 <= i < |draws| => FixedSites(draws[i], frac))
  }

  /** A site is fixed exactly when it is inside the antigen and its draw is at most the fraction. */
  lemma FixedSitesExactly(draws: seq<real>, frac: real, j: int)
    ensures j in FixedSites(draws, frac) <==> 0 <= j < |draws| && draws[j] <= frac
  {
  }

  /**
   * `setNoMutsVecInFours` from site c on: a draw at most frac4 fixes the
   * block c .. c + 3 and moves on by three, any other draw moves on by one.
   * The draw for a visited site is indexed by the site.
   */
  function FourSites(draws: seq<real>, frac4: real, c: nat, n: nat): (s: set<nat>)
    requires n <= |draws|
    ensures forall x :: x in s ==> c <= x < n + 3
    decreases n - c
  {
    if c >= n then {}
    else if draws[c] <= frac4 then {c, c + 1, c + 2, c + 3} + FourSites(draws, frac4, c + 3, n)
    else FourSites(draws, frac4, c + 1, n)
  }

  /** Every fixed site lies in a block of four, all fixed, that starts at a visited site whose draw fixed it. */
  lemma {:induction false} FourSitesInBlocks(draws: seq<real>, frac4: real, c: nat, n: nat, x: nat)
    requires n <= |draws|
    requires x in FourSites(draws, frac4, c, n)
    ensures exists s :: (c <= s < n && draws[s] <= frac4 && s <= x <= s + 3 &&
                         {s, s + 1, s + 2, s + 3} <= FourSites(draws, frac4, c, n))
    decreases n - c
  {
    if draws[c] <= frac4 {
      if x in {c, c + 1, c + 2, c + 3} {
        assert c < n && draws[c] <= frac4 && c <= x <= c + 3;
      } else {
        FourSitesInBlocks(draws, frac4, c + 3, n, x);
      }
    } else {
      FourSitesInBlocks(draws, frac4, c + 1, n, x);
    }
  }

  /** A block started at the last site runs three sites past the antigen's end. */
  lemma FourSitesPassTheEnd(frac4: real)
    requires frac4 >= 0.0
    ensures 3 in FourSites([0.0], frac4, 0, 1)
  {
    assert FourSites([0.0], frac4, 3, 1) == {};
  }

  function FourSets(draws: seq<seq<real>>, frac4: real, n: nat): (r: seq<set<nat>>)
    requires forall i :: 0 <= i < |draws| ==> |draws[i]| == n
    ensures |r| == |draws|
    ensures forall i :: 0 <= i < |draws| ==> r[i] == FourSites(draws[i], frac4, 0, n)
  {
    seq(|draws|, i requires 0 <= i < |draws| => FourSites(draws[i], frac4, 0, n))
  }

  /** Species i takes clade template i mod 4. */
  function CladSets(templates: seq<set<nat>>, n: nat): (r: seq<set<nat>>)
    requires |templates| == 4
    ensures |r| == n
  {
    seq(n, i requires 0 <= i < n => templates[i % 4])
  }

  /** Species four apart share one set, and every set is one of the four templates. */
  lemma CladSetsPeriodic(templates: seq<set<nat>>, n: nat)
    requires |templates| == 4
    ensures forall i :: 0 <= i < n ==> CladSets(templates, n)[i] in templates
    ensures forall i :: 0 <= i < n - 4 ==> CladSets(templates, n)[i] == CladSets(templates, n)[i + 4]
  {
    var r := CladSets(templates, n);
    forall i | 0 <= i < n - 4
      ensures r[i] == r[i + 4]
    {
      assert (i + 4) % 4 == i % 4;
    }
  }

  // ----- Splitting a population over species -----

  /** `numb_of_species` after the clamp `if (numb_of_species > pop_size) numb_of_species = pop_size`. */
  function ClampedSpecies(popSize: int, numbOfSpecies: int): int {
    if numbOfSpecies > popSize then popSize else numbOfSpecies
  }

  /**
   * Species i's size: `indiv_per_species` rounds, each adding one more while
   * `indiv_left` lasts; the earlier species have used i * per of the remainder.
   */
  function SpeciesSize(per: nat, left: nat, i: nat): nat {
    per + Min(per, Max0(left - i * per))
  }

  /** How many individuals the species before i hold together. */
  function Offset(per: nat, left: nat, i: nat): nat {
    i * per + Min(left, i * per)
  }

  /** `indiv_per_species` and `indiv_left`, for a positive clamped count. */
  function PerOf(popSize: int, numbOfSpecies: int): nat {
    var n := ClampedSpecies(popSize, numbOfSpecies);
    if n > 0 && popSize >= 0 then popSize / n else 0
  }

  function LeftOf(popSize: int, numbOfSpecies: int): nat {
    var n := ClampedSpecies(popSize, numbOfSpecies);
    if n > 0 then popSize % n else 0
  }

  /**
   * The species sizes the `setPatho*` constructors build; no species for a
   * non-positive count.  A clamped count of 0 divides by zero.
   */
  function Allocation(popSize: int, numbOfSpecies: int): (r: seq<nat>)
    requires ClampedSpecies(popSize, numbOfSpecies) != 0
    ensures |r| == Max0(ClampedSpecies(popSize, numbOfSpecies))
  {
    var n := Max0(ClampedSpecies(popSize, numbOfSpecies));
    seq(n, i requires 0 <= i < n => SpeciesSize(PerOf(popSize, numbOfSpecies), LeftOf(popSize, numbOfSpecies), i))
  }

  function Sum(s: seq<nat>): nat {
    if s == [] then 0 else Sum(s[..|s| - 1]) + s[|s| - 1]
  }

  lemma OffsetStep(per: nat, left: nat, i: nat)
    ensures Offset(per, left, i) + SpeciesSize(per, left, i) == Offset(per, left, i + 1)
  {
    assert (i + 1) * per == i * per + per;
  }

  lemma {:induction false} SumOfSizes(per: nat, left: nat, k: nat)
    ensures Sum(seq(k, i requires 0 <= i < k => SpeciesSize(per, left, i))) == Offset(per, left, k)
  {
    var s := seq(k, i requires 0 <= i < k => SpeciesSize(per, left, i));
    if k > 0 {
      assert s[..k - 1] == seq(k - 1, i requires 0 <= i < k - 1 => SpeciesSize(per, left, i));
      SumOfSizes(per, left, k - 1);
      OffsetStep(per, left, k - 1);
    }
  }

  /**
   * The species count is clamped to the population size; the sizes add up to
   * the population, each species holds at least pop / count individuals and
   * at most twice that, and earlier species never hold fewer than later ones,
   * so the remainder goes to the earliest species.
   */
  lemma AllocationProps(popSize: int, numbOfSpecies: int)
    requires ClampedSpecies(popSize, numbOfSpecies) != 0
    ensures var r := Allocation(popSize, numbOfSpecies);
      var n := ClampedSpecies(popSize, numbOfSpecies);
      |r| == Max0(n) && n <= popSize &&
      (n > 0 ==> (Sum(r) == popSize &&
                  forall i :: 0 <= i < n ==> popSize / n <= r[i] <= 2 * (popSize / n))) &&
      forall i, j :: 0 <= i < j < |r| ==> r[i] >= r[j]
  {
    var n := ClampedSpecies(popSize, numbOfSpecies);
    if n > 0 {
      var per := PerOf(popSize, numbOfSpecies);
      var left := LeftOf(popSize, numbOfSpecies);
      RemainderFits(popSize, n);
      SumOfSizes(per, left, n);
      assert Allocation(popSize, numbOfSpecies) == seq(n, i requires 0 <= i < n => SpeciesSize(per, left, i));
      forall i, j | 0 <= i < j < n
        ensures SpeciesSize(per, left, i) >= SpeciesSize(per, left, j)
      {
        SpeciesSizeNonIncreasing(per, left, i, j);
      }
    }
  }

  /** With 0 < n <= pop the remainder is smaller than n copies of the quotient, so it is all handed out. */
  lemma RemainderFits(popSize: int, n: int)
    requires 0 < n <= popSize
    ensures popSize / n >= 1 && popSize % n < n * (popSize / n)
    ensures Offset(popSize / n, popSize % n, n) == popSize
  {
    var per := popSize / n;
    var left := popSize % n;
    assert popSize == n * per + left;
    assert n * per > 0;
    assert per >= 1;
    assert n * per >= n by {
      assert n * per == n * (per - 1) + n;
    }
  }

  lemma SpeciesSizeNonIncreasing(per: nat, left: nat, i: nat, j: nat)
    requires i < j
    ensures SpeciesSize(per, left, i) >= SpeciesSize(per, left, j)
  {
    assert j * per == i * per + (j - i) * per;
  }

  /** k copies of one pathogen, as the species vectors are filled. */
  function Copies(p: PM.PathogenState, k: nat): (r: seq<PM.PathogenState>)
    ensures |r| == k
  {
    seq(k, _ => p)
  }

  // ----- The text of the fixed sites -----

  function SetMin(s: set<nat>): (m: nat)
    requires s != {}
    ensures m in s && forall x :: x in s ==> m <= x
  {
    HasMin(s);
    var m :| m in s && forall x :: x in s ==> m <= x;
    m
  }

  lemma HasMin(s: set<nat>)
    requires s != {}
    ensures exists m :: m in s && forall x :: x in s ==> m <= x
  {
    var x :| x in s;
    MinFrom(s, x, 0);
  }

  /** Looking upwards from a lower bound k of s, the first member met is the least. */
  lemma {:induction false} MinFrom(s: set<nat>, x: nat, k: nat)
    requires x in s && k <= x
    requires forall y :: y in s ==> k <= y
    ensures exists m :: m in s && forall y :: y in s ==> m <= y
    decreases x - k
  {
    if k !in s {
      forall y | y in s
        ensures k + 1 <= y
      {
        assert y != k;
      }
      MinFrom(s, x, k + 1);
    }
  }

  /** The elements of a set in ascending order, as iterating a `std::set` visits them. */
  function Ascending(s: set<nat>): (r: seq<nat>)
    ensures |r| == |s|
    decreases s
  {
    if s == {} then [] else [SetMin(s)] + Ascending(s - {SetMin(s)})
  }

  /** `Ascending(s)` lists exactly the elements of s, each smaller than the next. */
  lemma {:induction false} AscendingSorted(s: set<nat>)
    ensures forall x :: x in Ascending(s) <==> x in s
    ensures forall i, j :: 0 <= i < j < |Ascending(s)| ==> Ascending(s)[i] < Ascending(s)[j]
    decreases s
  {
    if s != {} {
      var m := SetMin(s);
      var rest := Ascending(s - {m});
      AscendingSorted(s - {m});
      var r := Ascending(s);
      assert r == [m] + rest;
      forall i, j | 0 <= i < j < |r| ensures r[i] < r[j] {
        assert r[j] == rest[j - 1] && rest[j - 1] in s - {m};
        if i > 0 {
          assert r[i] == rest[i - 1];
        }
      }
      forall x ensures x in r <==> x in s {
        assert x in r <==> x == m || x in rest;
      }
    }
  }

  /** One species' sites, each printed and followed by a space, in ascending order. */
  function SpacedText(s: set<nat>): string
    decreases s
  {
    if s == {} then "" else NatToString(SetMin(s)) + " " + SpacedText(s - {SetMin(s)})
  }

  function FixedLines(vec: seq<set<nat>>): (r: seq<string>)
    ensures |r| == |vec|
    ensures forall i :: 0 <= i < |vec| ==> r[i] == SpacedText(vec[i]) + "\n"
  {
    seq(|vec|, i requires 0 <= i < |vec| => SpacedText(vec[i]) + "\n")
  }

  /** `getFixedBitsInAntigens`: one line per species. */
  function FixedText(vec: seq<set<nat>>): string {
    Concat(FixedLines(vec))
  }

  /** A species' line holds no newline before its end. */
  lemma {:induction false} SpacedTextNoNewline(s: set<nat>)
    ensures NoNewline(SpacedText(s))
    decreases s
  {
    if s != {} {
      var m := SetMin(s);
      var w := NatToString(m);
      SpacedTextNoNewline(s - {m});
      assert NoNewline(w) by {
        forall k | 0 <= k < |w|
          ensures w[k] != '\n'
        {
          assert IsDigit(w[k]);
        }
      }
      assert SpacedText(s) == w + " " + SpacedText(s - {m});
    }
  }

  /** Reading a species' line word by word gives its sites in ascending order. */
  lemma {:induction false} SpacedTextWords(s: set<nat>, tail: string)
    requires AllSpace(tail)
    ensures Split(SpacedText(s) + tail) == NatStrings(Ascending(s))
    decreases s
  {
    if s == {} {
      SplitSpaces(tail, "");
      assert tail + "" == tail;
      assert SpacedText(s) + tail == tail;
    } else {
      var m := SetMin(s);
      var w := NatToString(m);
      var rest := SpacedText(s - {m}) + tail;
      NatStringIsWord(m);
      SpacedTextWords(s - {m}, tail);
      assert SpacedText(s) + tail == w + " " + rest;
      SplitWordBlank(w, rest);
      assert Ascending(s) == [m] + Ascending(s - {m});
      NatStringsCons(m, Ascending(s - {m}));
    }
  }

  lemma NatStringsCons(m: nat, r: seq<nat>)
    ensures NatStrings([m] + r) == [NatToString(m)] + NatStrings(r)
  {
    assert ([m] + r)[1..] == r;
  }

  /**
   * The text has one line per species, and each line's words parse back to
   * exactly that species' sites, in ascending order.
   */
  lemma FixedTextReadBack(vec: seq<set<nat>>)
    ensures Lines(FixedText(vec)) == FixedLines(vec)
    ensures forall i :: 0 <= i < |vec| ==> Split(FixedLines(vec)[i]) == NatStrings(Ascending(vec[i]))
    ensures forall i :: 0 <= i < |vec| ==>
      var w := Split(FixedLines(vec)[i]);
      |w| == |vec[i]| && forall k :: 0 <= k < |w| ==> ParseInt(w[k]) == Some(Ascending(vec[i])[k])
  {
    var ls := FixedLines(vec);
    forall i | 0 <= i < |vec|
      ensures IsLine(ls[i]) && Split(ls[i]) == NatStrings(Ascending(vec[i]))
    {
      SpacedTextWords(vec[i], "\n");
      SpacedTextNoNewline(vec[i]);
      LineOf(SpacedText(vec[i]));
    }
    LinesOfConcat(ls);
    forall i, k | 0 <= i < |vec| && 0 <= k < |vec[i]|
      ensures ParseInt(Split(ls[i])[k]) == Some(Ascending(vec[i])[k])
    {
      ParseIntOfNatToString(Ascending(vec[i])[k]);
    }
  }

  // ----- Initial host populations -----

  /** The value of a `Host()` before `setNewHost`: only its empty chromosomes matter. */
  const BlankHost := HM.HostState(0, 0, 0, 0.0, [], [])

  /** `setNewHost` on a freshly constructed host does not depend on its unset counters. */
  lemma FreshHost(h: HM.HostState, numOfLoci: int, geneSize: nat, timeStamp: int, c: nat, draws: seq<int>)
    requires h.chromosomeOne == [] && h.chromosomeTwo == []
    requires |draws| == 2 * HM.LociCount(numOfLoci)
    ensures HM.NewHost(h, numOfLoci, geneSize, timeStamp, c, draws) ==
            HM.NewHost(BlankHost, numOfLoci, geneSize, timeStamp, c, draws)
  {
  }

  /** The number of loci of each host, added up. */
  function LociSum(sizes: seq<int>): nat {
    if sizes == [] then 0 else LociSum(sizes[..|sizes| - 1]) + HM.LociCount(sizes[|sizes| - 1])
  }

  /** One draw per locus and chromosome for each host. */
  predicate DrawLengths(sizes: seq<int>, draws: seq<seq<int>>) {
    |draws| == |sizes| && forall i :: 0 <= i < |sizes| ==> |draws[i]| == 2 * HM.LociCount(sizes[i])
  }

  /**
   * Hosts pushed one after another, host i set up with `sizes[i]` loci; each
   * takes two tags per locus, so host i starts its tags after those of the
   * hosts before it.
   */
  function NewHosts(sizes: seq<int>, geneSize: nat, timeStamp: int, c: nat, draws: seq<seq<int>>): (r: seq<HM.HostState>)
    requires DrawLengths(sizes, draws)
    ensures |r| == |sizes|
  {
    seq(|sizes|, i requires 0 <= i < |sizes| =>
      HM.NewHost(BlankHost, sizes[i], geneSize, timeStamp, c + 2 * LociSum(sizes[..i]), draws[i]))
  }

  lemma DrawLengthsPrefix(sizes: seq<int>, draws: seq<seq<int>>, j: nat)
    requires DrawLengths(sizes, draws) && j <= |sizes|
    ensures DrawLengths(sizes[..j], draws[..j])
  {
  }

  lemma LociSumLast(sizes: seq<int>, i: nat)
    requires i < |sizes|
    ensures LociSum(sizes[..i + 1]) == LociSum(sizes[..i]) + HM.LociCount(sizes[i])
  {
    assert sizes[..i + 1][..i] == sizes[..i];
  }

  /** Host k of any prefix holding it is the host set up from its own entries. */
  lemma NewHostsPrefixAt(sizes: seq<int>, geneSize: nat, timeStamp: int, c: nat, draws: seq<seq<int>>, j: nat, k: nat)
    requires DrawLengths(sizes, draws) && k < j <= |sizes|
    ensures DrawLengths(sizes[..j], draws[..j])
    ensures NewHosts(sizes[..j], geneSize, timeStamp, c, draws[..j])[k] ==
      HM.NewHost(BlankHost, sizes[k], geneSize, timeStamp, c + 2 * LociSum(sizes[..k]), draws[k])
  {
    DrawLengthsPrefix(sizes, draws, j);
    assert sizes[..j][..k] == sizes[..k];
  }

  /** Pushing one more host extends the population by that host and the tag count by its loci. */
  lemma NewHostsLast(sizes: seq<int>, geneSize: nat, timeStamp: int, c: nat, draws: seq<seq<int>>, i: nat)
    requires DrawLengths(sizes, draws) && i < |sizes|
    ensures DrawLengths(sizes[..i], draws[..i])
    ensures DrawLengths(sizes[..i + 1], draws[..i + 1])
    ensures NewHosts(sizes[..i + 1], geneSize, timeStamp, c, draws[..i + 1]) ==
      NewHosts(sizes[..i], geneSize, timeStamp, c, draws[..i]) +
      [HM.NewHost(BlankHost, sizes[i], geneSize, timeStamp, c + 2 * LociSum(sizes[..i]), draws[i])]
    ensures LociSum(sizes[..i + 1]) == LociSum(sizes[..i]) + HM.LociCount(sizes[i])
  {
    DrawLengthsPrefix(sizes, draws, i);
    DrawLengthsPrefix(sizes, draws, i + 1);
    LociSumLast(sizes, i);
    NewHostsSnoc(sizes, geneSize, timeStamp, c, draws, i);
  }

  lemma NewHostsSnoc(sizes: seq<int>, geneSize: nat, timeStamp: int, c: nat, draws: seq<seq<int>>, i: nat)
    requires DrawLengths(sizes, draws) && i < |sizes|
    requires DrawLengths(sizes[..i], draws[..i]) && DrawLengths(sizes[..i + 1], draws[..i + 1])
    ensures NewHosts(sizes[..i + 1], geneSize, timeStamp, c, draws[..i + 1]) ==
      NewHosts(sizes[..i], geneSize, timeStamp, c, draws[..i]) +
      [HM.NewHost(BlankHost, sizes[i], geneSize, timeStamp, c + 2 * LociSum(sizes[..i]), draws[i])]
  {
    var a := NewHosts(sizes[..i + 1], geneSize, timeStamp, c, draws[..i + 1]);
    var b := NewHosts(sizes[..i], geneSize, timeStamp, c, draws[..i]);
    var x := HM.NewHost(BlankHost, sizes[i], geneSize, timeStamp, c + 2 * LociSum(sizes[..i]), draws[i]);
    forall k | 0 <= k < i
      ensures a[k] == b[k]
    {
      NewHostsPrefixAt(sizes, geneSize, timeStamp, c, draws, i + 1, k);
      NewHostsPrefixAt(sizes, geneSize, timeStamp, c, draws, i, k);
    }
    NewHostsPrefixAt(sizes, geneSize, timeStamp, c, draws, i + 1, i);
    assert a == b + [x];
  }

  /**
   * Every new host has zeroed counters and `sizes[i]` fresh genes (no parent,
   * born now) on each chromosome, and all its tags lie strictly after the
   * tags of the hosts before it and at most at the counter after it.
   */
  lemma NewHostsProps(sizes: seq<int>, geneSize: nat, timeStamp: int, c: nat, draws: seq<seq<int>>)
    requires DrawLengths(sizes, draws)
    ensures var r := NewHosts(sizes, geneSize, timeStamp, c, draws);
      forall i :: 0 <= i < |sizes| ==>
        FreshHostGenes(r[i], HM.LociCount(sizes[i]), timeStamp,
                       c + 2 * LociSum(sizes[..i]), c + 2 * LociSum(sizes[..i]) + 2 * HM.LociCount(sizes[i]))
  {
    forall i | 0 <= i < |sizes|
      ensures FreshHostGenes(NewHosts(sizes, geneSize, timeStamp, c, draws)[i], HM.LociCount(sizes[i]), timeStamp,
                             c + 2 * LociSum(sizes[..i]), c + 2 * LociSum(sizes[..i]) + 2 * HM.LociCount(sizes[i]))
    {
      NewHostFresh(sizes[i], geneSize, timeStamp, c + 2 * LociSum(sizes[..i]), draws[i]);
    }
  }

  lemma NewHostFresh(numOfLoci: int, geneSize: nat, timeStamp: int, c: nat, draws: seq<int>)
    requires |draws| == 2 * HM.LociCount(numOfLoci)
    ensures FreshHostGenes(HM.NewHost(BlankHost, numOfLoci, geneSize, timeStamp, c, draws),
                           HM.LociCount(numOfLoci), timeStamp, c, c + 2 * HM.LociCount(numOfLoci))
  {
    HM.NewHostProps(BlankHost, numOfLoci, geneSize, timeStamp, c, draws);
    var h := HM.NewHost(BlankHost, numOfLoci, geneSize, timeStamp, c, draws);
    assert h.chromosomeOne[0..] == h.chromosomeOne && h.chromosomeTwo[0..] == h.chromosomeTwo;
  }

  /** Counters zeroed, n genes per chromosome without parents born now, tags in (lo, hi]. */
  predicate FreshHostGenes(h: HM.HostState, n: nat, timeStamp: int, lo: nat, hi: nat) {
    h.numOfPathogesInfecting == 0 && h.numOfPathogesPresented == 0 && h.selectedForReproduction == 0 &&
    h.fitness == 0.0 && |h.chromosomeOne| == n && |h.chromosomeTwo| == n &&
    (forall k :: 0 <= k < n ==>
      h.chromosomeOne[k].parentTags == [] && h.chromosomeOne[k].timeOfOrigin == timeStamp &&
      lo < h.chromosomeOne[k].genesTag <= hi) &&
    (forall k :: 0 <= k < n ==>
      h.chromosomeTwo[k].parentTags == [] && h.chromosomeTwo[k].timeOfOrigin == timeStamp &&
      lo < h.chromosomeTwo[k].genesTag <= hi)
  }

  lemma {:induction false} LociSumMonotone(sizes: seq<int>, i: nat, j: nat)
    requires i <= j <= |sizes|
    ensures LociSum(sizes[..i]) <= LociSum(sizes[..j])
    decreases j - i
  {
    if i < j {
      LociSumMonotone(sizes, i, j - 1);
      assert sizes[..j][..j - 1] == sizes[..j - 1];
    }
  }

  /** Genes of different new hosts never share a tag: the earlier host's tags are all smaller. */
  lemma NewHostsTagsSeparate(sizes: seq<int>, geneSize: nat, timeStamp: int, c: nat, draws: seq<seq<int>>,
                             i: nat, j: nat, x: G.GeneState, y: G.GeneState)
    requires DrawLengths(sizes, draws) && i < j < |sizes|
    requires var r := NewHosts(sizes, geneSize, timeStamp, c, draws);
      (x in r[i].chromosomeOne || x in r[i].chromosomeTwo) &&
      (y in r[j].chromosomeOne || y in r[j].chromosomeTwo)
    ensures x.genesTag < y.genesTag
  {
    var r := NewHosts(sizes, geneSize, timeStamp, c, draws);
    NewHostsProps(sizes, geneSize, timeStamp, c, draws);
    var loI := c + 2 * LociSum(sizes[..i]);
    var loJ := c + 2 * LociSum(sizes[..j]);
    FreshGeneTag(r[i], HM.LociCount(sizes[i]), timeStamp, loI, loI + 2 * HM.LociCount(sizes[i]), x);
    FreshGeneTag(r[j], HM.LociCount(sizes[j]), timeStamp, loJ, loJ + 2 * HM.LociCount(sizes[j]), y);
    LociSumLast(sizes, i);
    LociSumMonotone(sizes, i + 1, j);
  }

  lemma FreshGeneTag(h: HM.HostState, n: nat, timeStamp: int, lo: nat, hi: nat, x: G.GeneState)
    requires FreshHostGenes(h, n, timeStamp, lo, hi)
    requires x in h.chromosomeOne || x in h.chromosomeTwo
    ensures lo < x.genesTag <= hi
  {
    if x in h.chromosomeOne {
      var k :| 0 <= k < |h.chromosomeOne| && h.chromosomeOne[k] == x;
    } else {
      var k :| 0 <= k < |h.chromosomeTwo| && h.chromosomeTwo[k] == x;
    }
  }

  // ----- Initial pathogen populations -----

  /** The value of a `Pathogen()`: only its antigen's empty lineage survives the setters. */
  const BlankPathogen := PM.PathogenState(0, 0, 0, AG.AntigenState([], 0, 0, 0, [], [], 0, []))

  lemma FreshPathogen(p: PM.PathogenState, antigenSize: nat, mhcSize: nat, species: int, timeStamp: int,
                      c: nat, uni: seq<real>)
    requires p.pathoProtein.parentTags == [] && p.pathoProtein.mutationTime == []
    requires |uni| == antigenSize && mhcSize <= antigenSize
    ensures PM.NewPathogen(p, antigenSize, mhcSize, species, timeStamp, c, uni) ==
            PM.NewPathogen(BlankPathogen, antigenSize, mhcSize, species, timeStamp, c, uni)
  {
  }

  lemma FreshPathogenNthSwap(p: PM.PathogenState, antigen: seq<bool>, tag: nat, mhcSize: nat, species: int,
                             timeStamp: int, nth: nat)
    requires p.pathoProtein.parentTags == [] && p.pathoProtein.mutationTime == []
    requires nth > 0 && mhcSize <= |antigen|
    ensures PM.NewPathogenNthSwap(p, antigen, tag, mhcSize, species, timeStamp, nth) ==
            PM.NewPathogenNthSwap(BlankPathogen, antigen, tag, mhcSize, species, timeStamp, nth)
  {
  }

  /** A freshly set pathogen: species sp, zero counters, an antigen of the given size, no parents. */
  predicate FreshPathogenOf(p: PM.PathogenState, sp: int, antigenSize: nat, timeStamp: int) {
    p.species == sp && p.numOfHostsInfected == 0 && p.selectedToReproduct == 0 &&
    |p.pathoProtein.theAntigen| == antigenSize && p.pathoProtein.parentTags == [] &&
    p.pathoProtein.theParentWas == -1 && p.pathoProtein.timeOfOrigin == timeStamp
  }

  predicate UniDraws(uni: seq<seq<real>>, antigenSize: nat) {
    forall k :: 0 <= k < |uni| ==> |uni[k]| == antigenSize
  }

  /** `setNewPathogen` on the k-th new pathogen of a run that starts at counter c. */
  function RandomPathogens(sp: int, antigenSize: nat, mhcSize: nat, timeStamp: int, c: nat,
                           uni: seq<seq<real>>): (r: seq<PM.PathogenState>)
    requires UniDraws(uni, antigenSize) && mhcSize <= antigenSize
    ensures |r| == |uni|
  {
    seq(|uni|, k requires 0 <= k < |uni| =>
      PM.NewPathogen(BlankPathogen, antigenSize, mhcSize, sp, timeStamp, c + k, uni[k]).pathogen)
  }

  /** The k-th of a run of new pathogens is fresh and carries tag c + k + 1. */
  lemma RandomPathogensProps(sp: int, antigenSize: nat, mhcSize: nat, timeStamp: int, c: nat,
                             uni: seq<seq<real>>)
    requires UniDraws(uni, antigenSize) && mhcSize <= antigenSize
    ensures var r := RandomPathogens(sp, antigenSize, mhcSize, timeStamp, c, uni);
      forall k :: 0 <= k < |uni| ==>
        FreshPathogenOf(r[k], sp, antigenSize, timeStamp) && r[k].pathoProtein.antigenTag == c + k + 1
  {
    forall k | 0 <= k < |uni|
      ensures var r := RandomPathogens(sp, antigenSize, mhcSize, timeStamp, c, uni);
        FreshPathogenOf(r[k], sp, antigenSize, timeStamp) && r[k].pathoProtein.antigenTag == c + k + 1
    {
      AG.NewAntigenProps(BlankPathogen.pathoProtein, antigenSize, mhcSize, timeStamp, c + k, uni[k]);
    }
  }

  /** `setPathoPopulatioDivSpecies`' templates: species kk draws a new pathogen with tag c + kk + 1. */
  function DivTemplates(n: nat, antigenSize: nat, mhcSize: nat, timeStamp: int, c: nat,
                        uni: seq<seq<real>>): (r: seq<PM.PathogenState>)
    requires |uni| == n && UniDraws(uni, antigenSize) && mhcSize <= antigenSize
    ensures |r| == n
  {
    seq(n, kk requires 0 <= kk < n =>
      PM.NewPathogen(BlankPathogen, antigenSize, mhcSize, kk, timeStamp, c + kk, uni[kk]).pathogen)
  }

  /** The population `setPathoPopulatioDivSpecies` appends: species i is copies of template i. */
  function DivSpecies(popSize: int, numbOfSpecies: int, antigenSize: nat, mhcSize: nat, timeStamp: int,
                      c: nat, uni: seq<seq<real>>): (r: seq<seq<PM.PathogenState>>)
    requires ClampedSpecies(popSize, numbOfSpecies) != 0
    requires |uni| == Max0(ClampedSpecies(popSize, numbOfSpecies)) && UniDraws(uni, antigenSize)
    requires mhcSize <= antigenSize
    ensures |r| == |uni|
  {
    var a := Allocation(popSize, numbOfSpecies);
    var t := DivTemplates(|uni|, antigenSize, mhcSize, timeStamp, c, uni);
    seq(|a|, i requires 0 <= i < |a| => Copies(t[i], a[i]))
  }

  /**
   * Species i of `setPathoPopulatioDivSpecies` holds its allocated number of
   * identical pathogens, each a fresh pathogen of species i with tag c + i + 1.
   */
  lemma DivSpeciesProps(popSize: int, numbOfSpecies: int, antigenSize: nat, mhcSize: nat, timeStamp: int,
                        c: nat, uni: seq<seq<real>>)
    requires ClampedSpecies(popSize, numbOfSpecies) != 0
    requires |uni| == Max0(ClampedSpecies(popSize, numbOfSpecies)) && UniDraws(uni, antigenSize)
    requires mhcSize <= antigenSize
    ensures var r := DivSpecies(popSize, numbOfSpecies, antigenSize, mhcSize, timeStamp, c, uni);
      forall i :: 0 <= i < |r| ==>
        |r[i]| == Allocation(popSize, numbOfSpecies)[i] &&
        forall k :: 0 <= k < |r[i]| ==>
          r[i][k] == r[i][0] && FreshPathogenOf(r[i][k], i, antigenSize, timeStamp) &&
          r[i][k].pathoProtein.antigenTag == c + i + 1
  {
    var r := DivSpecies(popSize, numbOfSpecies, antigenSize, mhcSize, timeStamp, c, uni);
    forall i, k | 0 <= i < |r| && 0 <= k < |r[i]|
      ensures FreshPathogenOf(r[i][k], i, antigenSize, timeStamp) && r[i][k].pathoProtein.antigenTag == c + i + 1
    {
      AG.NewAntigenProps(BlankPathogen.pathoProtein, antigenSize, mhcSize, timeStamp, c + i, uni[i]);
    }
  }

  /** The draws `setPathoPopulatioUniformGenome` needs: one per individual of every species. */
  predicate UniformDraws(popSize: int, numbOfSpecies: int, antigenSize: nat, uni: seq<seq<seq<real>>>)
    requires ClampedSpecies(popSize, numbOfSpecies) != 0
  {
    var a := Allocation(popSize, numbOfSpecies);
    |uni| == |a| && forall i :: 0 <= i < |a| ==> |uni[i]| == a[i] && UniDraws(uni[i], antigenSize)
  }

  /**
   * The population `setPathoPopulatioUniformGenome` appends: every individual
   * is drawn anew, in species order, so species i starts its tags after the
   * Offset of the species before it.
   */
  function UniformSpecies(popSize: int, numbOfSpecies: int, antigenSize: nat, mhcSize: nat, timeStamp: int,
                          c: nat, uni: seq<seq<seq<real>>>): (r: seq<seq<PM.PathogenState>>)
    requires ClampedSpecies(popSize, numbOfSpecies) != 0
    requires UniformDraws(popSize, numbOfSpecies, antigenSize, uni) && mhcSize <= antigenSize
    ensures |r| == |uni|
  {
    var per := PerOf(popSize, numbOfSpecies);
    var left := LeftOf(popSize, numbOfSpecies);
    seq(|uni|, i requires 0 <= i < |uni| =>
      RandomPathogens(i, antigenSize, mhcSize, timeStamp, c + Offset(per, left, i), uni[i]))
  }

  /** UniformSpecies spelled out species by species, and the count of tags it takes. */
  lemma UniformSpeciesUnfold(popSize: int, numbOfSpecies: int, antigenSize: nat, mhcSize: nat, timeStamp: int,
                             c: nat, uni: seq<seq<seq<real>>>)
    requires ClampedSpecies(popSize, numbOfSpecies) != 0
    requires UniformDraws(popSize, numbOfSpecies, antigenSize, uni) && mhcSize <= antigenSize
    ensures var n := Max0(ClampedSpecies(popSize, numbOfSpecies));
      var per := PerOf(popSize, numbOfSpecies);
      var left := LeftOf(popSize, numbOfSpecies);
      |uni| == n &&
      (forall i :: 0 <= i < n ==> |uni[i]| == SpeciesSize(per, left, i) && UniDraws(uni[i], antigenSize)) &&
      UniformSpecies(popSize, numbOfSpecies, antigenSize, mhcSize, timeStamp, c, uni) == seq(n, i requires 0 <= i < n =>
        RandomPathogens(i, antigenSize, mhcSize, timeStamp, c + Offset(per, left, i), uni[i])) &&
      Offset(per, left, n) == if ClampedSpecies(popSize, numbOfSpecies) > 0 then popSize else 0
  {
    var n := ClampedSpecies(popSize, numbOfSpecies);
    if n > 0 {
      RemainderFits(popSize, n);
    }
  }

  /**
   * Species i of `setPathoPopulatioUniformGenome` holds its allocated number
   * of fresh pathogens of species i, and no two individuals of the whole
   * population share an antigen tag.
   */
  lemma UniformSpeciesProps(popSize: int, numbOfSpecies: int, antigenSize: nat, mhcSize: nat, timeStamp: int,
                            c: nat, uni: seq<seq<seq<real>>>)
    requires ClampedSpecies(popSize, numbOfSpecies) != 0
    requires UniformDraws(popSize, numbOfSpecies, antigenSize, uni) && mhcSize <= antigenSize
    ensures var r := UniformSpecies(popSize, numbOfSpecies, antigenSize, mhcSize, timeStamp, c, uni);
      forall i :: 0 <= i < |r| ==>
        |r[i]| == Allocation(popSize, numbOfSpecies)[i] &&
        forall k :: 0 <= k < |r[i]| ==> FreshPathogenOf(r[i][k], i, antigenSize, timeStamp)
    ensures var r := UniformSpecies(popSize, numbOfSpecies, antigenSize, mhcSize, timeStamp, c, uni);
      forall i, k, j, l :: 0 <= i < |r| && 0 <= k < |r[i]| && 0 <= j < |r| && 0 <= l < |r[j]| && (i, k) != (j, l) ==>
        r[i][k].pathoProtein.antigenTag != r[j][l].pathoProtein.antigenTag
  {
    var r: seq<seq<PM.PathogenState>> := UniformSpecies(popSize, numbOfSpecies, antigenSize, mhcSize, timeStamp, c, uni);
    var per := PerOf(popSize, numbOfSpecies);
    var left := LeftOf(popSize, numbOfSpecies);
    UniformSpeciesAt(popSize, numbOfSpecies, antigenSize, mhcSize, timeStamp, c, uni);
    forall i, k, j, l | 0 <= i < |r| && 0 <= k < |r[i]| && 0 <= j < |r| && 0 <= l < |r[j]| && (i, k) != (j, l)
      ensures r[i][k].pathoProtein.antigenTag != r[j][l].pathoProtein.antigenTag
    {
      if i < j {
        OffsetMonotone(per, left, i + 1, j);
        OffsetStep(per, left, i);
      } else if j < i {
        OffsetMonotone(per, left, j + 1, i);
        OffsetStep(per, left, j);
      }
    }
  }

  /** Species i holds its allocation of fresh pathogens, the k-th tagged just after the pathogens before it. */
  lemma UniformSpeciesAt(popSize: int, numbOfSpecies: int, antigenSize: nat, mhcSize: nat, timeStamp: int,
                         c: nat, uni: seq<seq<seq<real>>>)
    requires ClampedSpecies(popSize, numbOfSpecies) != 0
    requires UniformDraws(popSize, numbOfSpecies, antigenSize, uni) && mhcSize <= antigenSize
    ensures var r := UniformSpecies(popSize, numbOfSpecies, antigenSize, mhcSize, timeStamp, c, uni);
      forall i :: 0 <= i < |r| ==>
        |r[i]| == Allocation(popSize, numbOfSpecies)[i] &&
        forall k :: 0 <= k < |r[i]| ==>
          FreshPathogenOf(r[i][k], i, antigenSize, timeStamp) &&
          r[i][k].pathoProtein.antigenTag == c + Offset(PerOf(popSize, numbOfSpecies), LeftOf(popSize, numbOfSpecies), i) + k + 1
  {
    var r := UniformSpecies(popSize, numbOfSpecies, antigenSize, mhcSize, timeStamp, c, uni);
    var per := PerOf(popSize, numbOfSpecies);
    var left := LeftOf(popSize, numbOfSpecies);
    forall i | 0 <= i < |r|
      ensures |r[i]| == Allocation(popSize, numbOfSpecies)[i]
      ensures forall k :: 0 <= k < |r[i]| ==>
        FreshPathogenOf(r[i][k], i, antigenSize, timeStamp) &&
        r[i][k].pathoProtein.antigenTag == c + Offset(per, left, i) + k + 1
    {
      RandomPathogensProps(i, antigenSize, mhcSize, timeStamp, c + Offset(per, left, i), uni[i]);
    }
  }

  lemma {:induction false} OffsetMonotone(per: nat, left: nat, i: nat, j: nat)
    requires i <= j
    ensures Offset(per, left, i) <= Offset(per, left, j)
    decreases j - i
  {
    if i < j {
      OffsetMonotone(per, left, i, j - 1);
      OffsetStep(per, left, j - 1);
    }
  }

  /**
   * `setPathoPopulationFourClades`' templates: template 0 is drawn anew, and
   * template k copies template k - 1's antigen with every second bit (odd k)
   * or every bit (even k) flipped, taking the next tag.
   */
  function CladeTemplate(k: nat, antigenSize: nat, mhcSize: nat, timeStamp: int, c: nat,
                         uni: seq<real>): (t: PM.PathogenState)
    requires |uni| == antigenSize && mhcSize <= antigenSize
    ensures |t.pathoProtein.theAntigen| == antigenSize
    ensures t.species == k && t.numOfHostsInfected == 0 && t.selectedToReproduct == 0
    ensures t.pathoProtein.antigenTag == c + k + 1
  {
    if k == 0 then
      AG.NewAntigenProps(BlankPathogen.pathoProtein, antigenSize, mhcSize, timeStamp, c, uni);
      PM.NewPathogen(BlankPathogen, antigenSize, mhcSize, 0, timeStamp, c, uni).pathogen
    else
      var prev := CladeTemplate(k - 1, antigenSize, mhcSize, timeStamp, c, uni).pathoProtein.theAntigen;
      var nth := if k % 2 == 1 then 2 else 1;
      AG.FlipedPositionsProps(BlankPathogen.pathoProtein, prev, c + k + 1, nth, mhcSize, timeStamp);
      PM.NewPathogenNthSwap(BlankPathogen, prev, c + k + 1, mhcSize, k, timeStamp, nth)
  }

  lemma CladeTemplateNext(k: nat, antigenSize: nat, mhcSize: nat, timeStamp: int, c: nat, uni: seq<real>)
    requires |uni| == antigenSize && mhcSize <= antigenSize && k > 0
    ensures var prev := CladeTemplate(k - 1, antigenSize, mhcSize, timeStamp, c, uni).pathoProtein.theAntigen;
      CladeTemplate(k, antigenSize, mhcSize, timeStamp, c, uni) ==
      PM.NewPathogenNthSwap(BlankPathogen, prev, c + k + 1, mhcSize, k, timeStamp, if k % 2 == 1 then 2 else 1)
  {
  }

  /** The population `setPathoPopulationFourClades` appends: species i copies template i mod 4, renumbered i. */
  function FourClades(popSize: int, numbOfSpecies: int, antigenSize: nat, mhcSize: nat, timeStamp: int,
                      c: nat, uni: seq<real>): (r: seq<seq<PM.PathogenState>>)
    requires ClampedSpecies(popSize, numbOfSpecies) != 0
    requires |uni| == antigenSize && mhcSize <= antigenSize
    ensures |r| == Max0(ClampedSpecies(popSize, numbOfSpecies))
  {
    var a := Allocation(popSize, numbOfSpecies);
    seq(|a|, i requires 0 <= i < |a| =>
      Copies(PM.SetSpecies(CladeTemplate(i % 4, antigenSize, mhcSize, timeStamp, c, uni), i), a[i]))
  }

  /** Renumbered copies of the four templates, each species filled to its allocation, are `FourClades`. */
  lemma FourCladesOfTemplates(popSize: int, numbOfSpecies: int, antigenSize: nat, mhcSize: nat, timeStamp: int,
                              c: nat, uni: seq<real>, templates: seq<PM.PathogenState>)
    requires ClampedSpecies(popSize, numbOfSpecies) != 0
    requires |uni| == antigenSize && mhcSize <= antigenSize
    requires |templates| == 4
    requires forall q :: 0 <= q < 4 ==> templates[q] == CladeTemplate(q, antigenSize, mhcSize, timeStamp, c, uni)
    ensures var m := Max0(ClampedSpecies(popSize, numbOfSpecies));
      var ts := seq(m, i requires 0 <= i < m => PM.SetSpecies(templates[i % 4], i));
      seq(|ts|, i requires 0 <= i < |ts| =>
        Copies(ts[i], SpeciesSize(PerOf(popSize, numbOfSpecies), LeftOf(popSize, numbOfSpecies), i))) ==
      FourClades(popSize, numbOfSpecies, antigenSize, mhcSize, timeStamp, c, uni)
  {
    var m := Max0(ClampedSpecies(popSize, numbOfSpecies));
    var ts := seq(m, i requires 0 <= i < m => PM.SetSpecies(templates[i % 4], i));
    var a := Allocation(popSize, numbOfSpecies);
    var lhs := seq(|ts|, i requires 0 <= i < |ts| =>
      Copies(ts[i], SpeciesSize(PerOf(popSize, numbOfSpecies), LeftOf(popSize, numbOfSpecies), i)));
    var rhs := FourClades(popSize, numbOfSpecies, antigenSize, mhcSize, timeStamp, c, uni);
    forall i | 0 <= i < m
      ensures lhs[i] == rhs[i]
    {
      assert ts[i] == PM.SetSpecies(CladeTemplate(i % 4, antigenSize, mhcSize, timeStamp, c, uni), i);
      assert a[i] == SpeciesSize(PerOf(popSize, numbOfSpecies), LeftOf(popSize, numbOfSpecies), i);
    }
  }

  /**
   * Every individual of species i is template i mod 4 with its species number
   * set to i: same antigen and tag, zero counters.
   */
  lemma FourCladesProps(popSize: int, numbOfSpecies: int, antigenSize: nat, mhcSize: nat, timeStamp: int,
                        c: nat, uni: seq<real>)
    requires ClampedSpecies(popSize, numbOfSpecies) != 0
    requires |uni| == antigenSize && mhcSize <= antigenSize
    ensures var r := FourClades(popSize, numbOfSpecies, antigenSize, mhcSize, timeStamp, c, uni);
      forall i :: 0 <= i < |r| ==>
        |r[i]| == Allocation(popSize, numbOfSpecies)[i] &&
        forall k :: 0 <= k < |r[i]| ==>
          var t := CladeTemplate(i % 4, antigenSize, mhcSize, timeStamp, c, uni);
          r[i][k].species == i && r[i][k].pathoProtein == t.pathoProtein &&
          r[i][k].numOfHostsInfected == 0 && r[i][k].selectedToReproduct == 0 &&
          r[i][k].pathoProtein.antigenTag == c + i % 4 + 1
  {
  }

  // ----- Host populations as the setters leave them -----

  /** `setHostRandomPopulation`'s loci counts: every host gets `chrom_size`, cast to `int`. */
  function FixedLoci(popSize: int, chromSize: nat): (r: seq<int>)
    ensures |r| == Max0(popSize)
  {
    seq(Max0(popSize), _ => G.ToInt(chromSize))
  }

  /** Loci counts drawn between the two bounds, taken in either order. */
  predicate LociInRange(loci: seq<nat>, lower: nat, upper: nat) {
    forall j :: 0 <= j < |loci| ==>
      Min(lower, upper) <= loci[j] <= if lower <= upper then upper else lower
  }

  /** Each drawn count cast to the `int` that `setNewHost` takes. */
  function CastLoci(loci: seq<nat>): (r: seq<int>)
    ensures |r| == |loci|
  {
    seq(|loci|, j requires 0 <= j < |loci| => G.ToInt(loci[j]))
  }

  /**
   * What both random host setters leave: the old hosts as they were, then
   * one new host per entry of `sizes`, each set up right after it is pushed.
   */
  function RandomHostPopulation(pop: seq<HM.HostState>, sizes: seq<int>, geneSize: nat, timeStamp: int, c: nat,
                                draws: seq<seq<int>>): (r: seq<HM.HostState>)
    requires DrawLengths(sizes, draws)
    ensures |r| == |pop| + |sizes|
  {
    pop + NewHosts(sizes, geneSize, timeStamp, c, draws)
  }

  /** The setters keep every old host and append |sizes| fresh hosts with their own tags. */
  lemma RandomHostPopulationProps(pop: seq<HM.HostState>, sizes: seq<int>, geneSize: nat, timeStamp: int, c: nat,
                                  draws: seq<seq<int>>)
    requires DrawLengths(sizes, draws)
    ensures var r := RandomHostPopulation(pop, sizes, geneSize, timeStamp, c, draws);
      r[..|pop|] == pop &&
      forall i :: 0 <= i < |sizes| ==>
        FreshHostGenes(r[|pop| + i], HM.LociCount(sizes[i]), timeStamp,
                       c + 2 * LociSum(sizes[..i]), c + 2 * LociSum(sizes[..i]) + 2 * HM.LociCount(sizes[i]))
  {
    var added := NewHosts(sizes, geneSize, timeStamp, c, draws);
    NewHostsProps(sizes, geneSize, timeStamp, c, draws);
    var r := pop + added;
    assert r[..|pop|] == pop;
    forall i | 0 <= i < |sizes|
      ensures r[|pop| + i] == added[i]
    {
    }
  }

  /**
   * The loop of the random host setters on values: each pushed `Host()` is
   * set up by `setNewHost` with the counter left by the hosts before it.
   */
  method NewHostsLoop(sizes: seq<int>, geneSize: nat, timeStamp: int, c: nat, draws: seq<seq<int>>)
    returns (added: seq<HM.HostState>, t: nat)
    requires DrawLengths(sizes, draws)
    ensures added == NewHosts(sizes, geneSize, timeStamp, c, draws)
    ensures t == c + 2 * LociSum(sizes)
  {
    added := [];
    t := c;
    var i := 0;
    assert sizes[..0] == [] && draws[..0] == [];
    while i < |sizes|
      invariant i <= |sizes| && DrawLengths(sizes[..i], draws[..i])
      invariant t == c + 2 * LociSum(sizes[..i])
      invariant added == NewHosts(sizes[..i], geneSize, timeStamp, c, draws[..i])
    {
      NewHostsLast(sizes, geneSize, timeStamp, c, draws, i);
      var h := HM.NewHost(BlankHost, sizes[i], geneSize, timeStamp, t, draws[i]);
      added := added + [h];
      t := t + 2 * HM.LociCount(sizes[i]);
      i := i + 1;
    }
    assert sizes[..i] == sizes && draws[..i] == draws;
  }

  // ----- Restricted mutation of the whole pathogen population -----

  /** A run of pathogens after a round of mutation, with the tag counter after it. */
  datatype Batch = Batch(pathogens: seq<PM.PathogenState>, counter: nat)

  /** The draws one species' round needs: one per antigen bit of every pathogen. */
  predicate MutDraws(ps: seq<PM.PathogenState>, draws: seq<seq<real>>) {
    |draws| == |ps| && forall j :: 0 <= j < |ps| ==> |draws[j]| == |ps[j].pathoProtein.theAntigen|
  }

  /** A pathogen whose antigen changes must be long enough for the MHC window. */
  predicate MutFits(ps: seq<PM.PathogenState>, draws: seq<seq<real>>, prob: real, fixed: set<nat>, mhcSize: nat)
    requires MutDraws(ps, draws)
  {
    forall j :: 0 <= j < |ps| ==>
      (FlipWhere(ps[j].pathoProtein.theAntigen, draws[j], prob, fixed) != ps[j].pathoProtein.theAntigen ==>
       mhcSize <= |ps[j].pathoProtein.theAntigen|)
  }

  /** The first n pathogens of a species mutated one after another in vector order, the counter threaded through. */
  function SpeciesMutation(ps: seq<PM.PathogenState>, draws: seq<seq<real>>, prob: real, fixed: set<nat>,
                           mhcSize: nat, timeStamp: int, c: nat, n: nat): (r: Batch)
    requires MutDraws(ps, draws) && MutFits(ps, draws, prob, fixed, mhcSize) && n <= |ps|
    ensures |r.pathogens| == n && r.counter >= c
  {
    if n == 0 then Batch([], c)
    else
      var b := SpeciesMutation(ps, draws, prob, fixed, mhcSize, timeStamp, c, n - 1);
      AG.MutateRecordsOnlyOnChange(ps[n - 1].pathoProtein, prob, draws[n - 1], fixed, mhcSize, timeStamp, b.counter);
      var s := PM.MutateRestricted(ps[n - 1], prob, draws[n - 1], fixed, mhcSize, timeStamp, b.counter);
      Batch(b.pathogens + [s.pathogen], s.counter)
  }

  /** Mutating pathogen j in place extends the mutated prefix by one and advances the counter. */
  lemma SpeciesMutationStep(ps: seq<PM.PathogenState>, draws: seq<seq<real>>, prob: real, fixed: set<nat>,
                            mhcSize: nat, timeStamp: int, c: nat, j: nat)
    requires MutDraws(ps, draws) && MutFits(ps, draws, prob, fixed, mhcSize) && j < |ps|
    ensures var b := SpeciesMutation(ps, draws, prob, fixed, mhcSize, timeStamp, c, j);
      var s := PM.MutateRestricted(ps[j], prob, draws[j], fixed, mhcSize, timeStamp, b.counter);
      var b' := SpeciesMutation(ps, draws, prob, fixed, mhcSize, timeStamp, c, j + 1);
      (b.pathogens + ps[j..])[j] == ps[j] &&
      b'.counter == s.counter && (b.pathogens + ps[j..])[j := s.pathogen] == b'.pathogens + ps[j + 1..]
  {
    var b := SpeciesMutation(ps, draws, prob, fixed, mhcSize, timeStamp, c, j);
    var s := PM.MutateRestricted(ps[j], prob, draws[j], fixed, mhcSize, timeStamp, b.counter);
    SpliceUpdate(b.pathogens, ps[j..], s.pathogen);
    assert ps[j..][1..] == ps[j + 1..];
  }

  predicate PopDraws(pop: seq<seq<PM.PathogenState>>, draws: seq<seq<seq<real>>>) {
    |draws| == |pop| && forall i :: 0 <= i < |pop| ==> MutDraws(pop[i], draws[i])
  }

  predicate PopFits(pop: seq<seq<PM.PathogenState>>, draws: seq<seq<seq<real>>>, prob: real, fixed: seq<set<nat>>,
                    mhcSize: nat)
    requires PopDraws(pop, draws) && |fixed| == |pop|
  {
    forall i :: 0 <= i < |pop| ==> MutFits(pop[i], draws[i], prob, fixed[i], mhcSize)
  }

  /** The first n species mutated in order, species i restricted by its own set of fixed sites. */
  function PopulationMutation(pop: seq<seq<PM.PathogenState>>, draws: seq<seq<seq<real>>>, prob: real,
                              fixed: seq<set<nat>>, mhcSize: nat, timeStamp: int, c: nat, n: nat)
    : (r: (seq<seq<PM.PathogenState>>, nat))
    requires PopDraws(pop, draws) && |fixed| == |pop| && PopFits(pop, draws, prob, fixed, mhcSize) && n <= |pop|
    ensures |r.0| == n && r.1 >= c
  {
    if n == 0 then ([], c)
    else
      var b := PopulationMutation(pop, draws, prob, fixed, mhcSize, timeStamp, c, n - 1);
      var s := SpeciesMutation(pop[n - 1], draws[n - 1], prob, fixed[n - 1], mhcSize, timeStamp, b.1, |pop[n - 1]|);
      (b.0 + [s.pathogens], s.counter)
  }

  /**
   * After the round every pathogen keeps its species and counters; its
   * antigen is the restricted flip of the old one, so a fixed site of the
   * species keeps its bit; a pathogen that changed carries a tag above the
   * old counter, and one that did not change is untouched.
   */
  lemma {:induction false} SpeciesMutationProps(ps: seq<PM.PathogenState>, draws: seq<seq<real>>, prob: real,
                                                fixed: set<nat>, mhcSize: nat, timeStamp: int, c: nat, n: nat,
                                                j: nat)
    requires MutDraws(ps, draws) && MutFits(ps, draws, prob, fixed, mhcSize) && j < n <= |ps|
    ensures var q := SpeciesMutation(ps, draws, prob, fixed, mhcSize, timeStamp, c, n).pathogens[j];
      q.species == ps[j].species && q.numOfHostsInfected == ps[j].numOfHostsInfected &&
      q.selectedToReproduct == ps[j].selectedToReproduct &&
      q.pathoProtein.theAntigen == FlipWhere(ps[j].pathoProtein.theAntigen, draws[j], prob, fixed) &&
      (forall x :: x in fixed && x < |ps[j].pathoProtein.theAntigen| ==>
        q.pathoProtein.theAntigen[x] == ps[j].pathoProtein.theAntigen[x]) &&
      (q.pathoProtein.theAntigen == ps[j].pathoProtein.theAntigen ==> q == ps[j]) &&
      (q.pathoProtein.theAntigen != ps[j].pathoProtein.theAntigen ==>
        c < q.pathoProtein.antigenTag <= SpeciesMutation(ps, draws, prob, fixed, mhcSize, timeStamp, c, n).counter)
    decreases n
  {
    var b := SpeciesMutation(ps, draws, prob, fixed, mhcSize, timeStamp, c, n - 1);
    AG.MutateRecordsOnlyOnChange(ps[n - 1].pathoProtein, prob, draws[n - 1], fixed, mhcSize, timeStamp, b.counter);
    if j < n - 1 {
      SpeciesMutationProps(ps, draws, prob, fixed, mhcSize, timeStamp, c, n - 1, j);
    }
  }

  // ----- The table of unique host genes -----

  /** A unique gene with the statistics `setUniqueGenes` attaches to it. */
  datatype UniqueGene = UniqueGene(gene: G.GeneState, occurence: nat, numbOfHostsBearing: nat)

  /** Every host's first chromosome and then its second, host after host. */
  function AllGenes(hosts: seq<HM.HostState>): seq<G.GeneState> {
    if hosts == [] then []
    else
      var n := |hosts| - 1;
      AllGenes(hosts[..n]) + hosts[n].chromosomeOne + hosts[n].chromosomeTwo
  }

  function TagsOf(gs: seq<G.GeneState>): (r: seq<nat>)
    ensures |r| == |gs| && forall k :: 0 <= k < |gs| ==> r[k] == gs[k].genesTag
  {
    seq(|gs|, k requires 0 <= k < |gs| => gs[k].genesTag)
  }

  function ValuesOf(gs: seq<G.GeneState>): (r: seq<int>)
    ensures |r| == |gs| && forall k :: 0 <= k < |gs| ==> r[k] == gs[k].theGene
  {
    seq(|gs|, k requires 0 <= k < |gs| => gs[k].theGene)
  }

  /** The genes whose tag has not been met earlier in the list, in list order. */
  function FirstByTag(all: seq<G.GeneState>): seq<G.GeneState> {
    if all == [] then []
    else
      var n := |all| - 1;
      if all[n].genesTag in TagsOf(all[..n]) then FirstByTag(all[..n]) else FirstByTag(all[..n]) + [all[n]]
  }

  /** How many hosts carry the tag on either chromosome, each host counted once. */
  function HostsBearing(hosts: seq<HM.HostState>, tag: nat): (n: nat)
    ensures n <= |hosts|
  {
    if hosts == [] then 0
    else
      var h := hosts[|hosts| - 1];
      HostsBearing(hosts[..|hosts| - 1], tag) +
      (if tag in TagsOf(h.chromosomeOne) || tag in TagsOf(h.chromosomeTwo) then 1 else 0)
  }

  /** The table `setUniqueGenes` builds: occurrences count equal values, hosts count equal tags. */
  function UniqueGeneTable(hosts: seq<HM.HostState>): (r: seq<UniqueGene>) {
    var all := AllGenes(hosts);
    var kept := FirstByTag(all);
    seq(|kept|, k requires 0 <= k < |kept| =>
      UniqueGene(kept[k], Count(ValuesOf(all), kept[k].theGene), HostsBearing(hosts, kept[k].genesTag)))
  }

  /** The kept genes' tags are the distinct tags of the list, in first-appearance order. */
  lemma {:induction false} FirstByTagTags(all: seq<G.GeneState>)
    ensures TagsOf(FirstByTag(all)) == Distinct(TagsOf(all))
    ensures forall g :: g in FirstByTag(all) ==> g in all
  {
    if all != [] {
      var n := |all| - 1;
      var p := all[..n];
      FirstByTagTags(p);
      assert TagsOf(all)[..n] == TagsOf(p);
      DistinctProps(TagsOf(p));
      var k := FirstByTag(p);
      if all[n].genesTag !in TagsOf(p) {
        assert TagsOf(k + [all[n]]) == TagsOf(k) + [all[n].genesTag];
      }
    }
  }

  /** A gene of host i sits in the gene list. */
  lemma {:induction false} AllGenesHas(hosts: seq<HM.HostState>, i: nat, g: G.GeneState)
    requires i < |hosts| && (g in hosts[i].chromosomeOne || g in hosts[i].chromosomeTwo)
    ensures g in AllGenes(hosts)
  {
    var n := |hosts| - 1;
    if i < n {
      AllGenesHas(hosts[..n], i, g);
    }
  }

  /** Every gene in the list belongs to some host, which therefore bears its tag. */
  lemma {:induction false} AllGenesBorne(hosts: seq<HM.HostState>, g: G.GeneState)
    requires g in AllGenes(hosts)
    ensures HostsBearing(hosts, g.genesTag) >= 1
  {
    var n := |hosts| - 1;
    var h := hosts[n];
    var p := AllGenes(hosts[..n]);
    assert AllGenes(hosts) == p + h.chromosomeOne + h.chromosomeTwo;
    if g in p {
      AllGenesBorne(hosts[..n], g);
    } else if g in h.chromosomeOne {
      var k :| 0 <= k < |h.chromosomeOne| && h.chromosomeOne[k] == g;
      assert TagsOf(h.chromosomeOne)[k] == g.genesTag;
    } else {
      var k :| 0 <= k < |h.chromosomeTwo| && h.chromosomeTwo[k] == g;
      assert TagsOf(h.chromosomeTwo)[k] == g.genesTag;
    }
  }

  /**
   * The table lists every tag of the hosts' genes exactly once, in
   * first-appearance order; each entry's value occurs at least once and at
   * most once per gene, and at least one and at most every host bears it.
   */
  lemma UniqueGeneTableProps(hosts: seq<HM.HostState>)
    ensures var t := UniqueGeneTable(hosts);
      var all := AllGenes(hosts);
      |t| == |Distinct(TagsOf(all))| &&
      (forall k :: 0 <= k < |t| ==> t[k].gene.genesTag == Distinct(TagsOf(all))[k]) &&
      forall k :: 0 <= k < |t| ==>
        t[k].gene in all && 1 <= t[k].occurence <= |all| && 1 <= t[k].numbOfHostsBearing <= |hosts|
  {
    var all := AllGenes(hosts);
    var kept := FirstByTag(all);
    FirstByTagTags(all);
    forall k | 0 <= k < |kept|
      ensures kept[k] in all && Count(ValuesOf(all), kept[k].theGene) >= 1 && HostsBearing(hosts, kept[k].genesTag) >= 1
    {
      assert kept[k] in kept;
      var w :| 0 <= w < |all| && all[w] == kept[k];
      assert ValuesOf(all)[w] == kept[k].theGene;
      AllGenesBorne(hosts, kept[k]);
    }
  }

  /** Every tag of the population appears in the table, and no two entries share one. */
  lemma UniqueGeneTableTags(hosts: seq<HM.HostState>)
    ensures var t := UniqueGeneTable(hosts);
      (forall g :: g in AllGenes(hosts) ==> exists k :: 0 <= k < |t| && t[k].gene.genesTag == g.genesTag) &&
      forall k, l :: 0 <= k < l < |t| ==> t[k].gene.genesTag != t[l].gene.genesTag
  {
    var all := AllGenes(hosts);
    var kept := FirstByTag(all);
    var t := UniqueGeneTable(hosts);
    FirstByTagTags(all);
    DistinctProps(TagsOf(all));
    assert forall k :: 0 <= k < |t| ==> t[k].gene == kept[k];
    forall g | g in all
      ensures exists k :: 0 <= k < |t| && t[k].gene.genesTag == g.genesTag
    {
      var w :| 0 <= w < |all| && all[w] == g;
      assert TagsOf(all)[w] == g.genesTag;
      assert g.genesTag in Distinct(TagsOf(all));
      assert g.genesTag in TagsOf(kept);
      var k :| 0 <= k < |kept| && TagsOf(kept)[k] == g.genesTag;
      assert t[k].gene.genesTag == g.genesTag;
    }
  }

  // ----- Helper loops -----

  /** The gene-gathering loops of `setUniqueGenes`: every host's chromosome one, then two. */
  method GatherGenes(hosts: seq<HM.HostState>) returns (all: seq<G.GeneState>)
    ensures all == AllGenes(hosts)
  {
    all := [];
    for i := 0 to |hosts|
      invariant all == AllGenes(hosts[..i])
    {
      ghost var before := all;
      var h := hosts[i];
      for j := 0 to |h.chromosomeOne|
        invariant all == before + h.chromosomeOne[..j]
      {
        assert h.chromosomeOne[..j + 1] == h.chromosomeOne[..j] + [h.chromosomeOne[j]];
        all := all + [h.chromosomeOne[j]];
      }
      ghost var middle := all;
      for l := 0 to |h.chromosomeTwo|
        invariant all == middle + h.chromosomeTwo[..l]
      {
        assert h.chromosomeTwo[..l + 1] == h.chromosomeTwo[..l] + [h.chromosomeTwo[l]];
        all := all + [h.chromosomeTwo[l]];
      }
      assert h.chromosomeOne[..|h.chromosomeOne|] == h.chromosomeOne;
      assert h.chromosomeTwo[..|h.chromosomeTwo|] == h.chromosomeTwo;
      assert hosts[..i + 1][..i] == hosts[..i];
    }
    assert hosts[..|hosts|] == hosts;
  }

  /**
   * The `IfCountedLyst` pass of `setUniqueGenes`: a gene not yet marked is
   * kept, and every later gene with its tag is marked.
   */
  method KeepFirstByTag(all: seq<G.GeneState>) returns (kept: seq<G.GeneState>)
    ensures kept == FirstByTag(all)
  {
    var n := |all|;
    var counted := new bool[n](_ => false);
    kept := [];
    for i := 0 to n
      invariant kept == FirstByTag(all[..i])
      invariant forall m :: i <= m < n ==> (counted[m] <==> all[m].genesTag in TagsOf(all[..i]))
    {
      FirstByTagStep(all, i);
      if !counted[i] {
        kept := kept + [all[i]];
        MarkSameTag(all, i, counted);
      }
    }
    assert all[..n] == all;
  }

  /** The inner loop of the `IfCountedLyst` pass: marks every later gene with gene i's tag. */
  method MarkSameTag(all: seq<G.GeneState>, i: nat, counted: array<bool>)
    requires i < |all| == counted.Length
    modifies counted
    ensures forall m :: 0 <= m <= i ==> counted[m] == old(counted[m])
    ensures forall m :: i < m < |all| ==> counted[m] == (old(counted[m]) || all[m].genesTag == all[i].genesTag)
  {
    for j := i + 1 to |all|
      invariant forall m :: 0 <= m < |all| ==>
        counted[m] == (old(counted[m]) || (i < m < j && all[m].genesTag == all[i].genesTag))
    {
      if i != j && !counted[j] && all[i].genesTag == all[j].genesTag {
        counted[j] := true;
      }
    }
  }

  /** One more gene: kept exactly when its tag is new. */
  lemma FirstByTagStep(all: seq<G.GeneState>, i: nat)
    requires i < |all|
    ensures TagsOf(all[..i + 1]) == TagsOf(all[..i]) + [all[i].genesTag]
    ensures FirstByTag(all[..i + 1]) ==
      if all[i].genesTag in TagsOf(all[..i]) then FirstByTag(all[..i]) else FirstByTag(all[..i]) + [all[i]]
  {
    assert all[..i + 1] == all[..i] + [all[i]];
    assert all[..i + 1][..i] == all[..i];
  }

  /** The `occurence` loop of `setUniqueGenes`: how many genes carry the value. */
  method CountValue(all: seq<G.GeneState>, v: int) returns (c: nat)
    ensures c == Count(ValuesOf(all), v)
  {
    var vals := ValuesOf(all);
    c := 0;
    for i := 0 to |all|
      invariant c == Count(vals[..i], v)
    {
      assert vals[..i + 1][..i] == vals[..i];
      if all[i].theGene == v {
        c := c + 1;
      }
    }
    assert vals[..|all|] == vals;
  }

  /** The search of one chromosome for a tag, left by `goto geneCheckDone` on a hit. */
  method Bears(chr: seq<G.GeneState>, tag: nat) returns (b: bool)
    ensures b <==> tag in TagsOf(chr)
  {
    for j := 0 to |chr|
      invariant forall k :: 0 <= k < j ==> chr[k].genesTag != tag
    {
      if tag == chr[j].genesTag {
        assert TagsOf(chr)[j] == tag;
        return true;
      }
    }
    return false;
  }

  /** The `numbOfHostsBearing` loop of `setUniqueGenes`: hosts count once, chromosome one searched first. */
  method CountBearing(hosts: seq<HM.HostState>, tag: nat) returns (c: nat)
    ensures c == HostsBearing(hosts, tag)
  {
    c := 0;
    for i := 0 to |hosts|
      invariant c == HostsBearing(hosts[..i], tag)
    {
      assert hosts[..i + 1][..i] == hosts[..i];
      var b := Bears(hosts[i].chromosomeOne, tag);
      if b {
        c := c + 1;
      } else {
        b := Bears(hosts[i].chromosomeTwo, tag);
        if b {
          c := c + 1;
        }
      }
    }
    assert hosts[..|hosts|] == hosts;
  }

  /** One species' loop of `setNoMutsVector` over the antigen's sites. */
  method DrawFixedSites(draws: seq<real>, frac: real) returns (s: set<nat>)
    ensures s == FixedSites(draws, frac)
  {
    s := {};
    var j := 0;
    while j < |draws|
      invariant j <= |draws|
      invariant forall x :: x in s <==> 0 <= x < j && draws[x] <= frac
    {
      if draws[j] <= frac {
        s := s + {j};
      }
      j := j + 1;
    }
  }

  /** One species' loop of `setNoMutsVecInFours`: a chosen site fixes four sites and moves on by three. */
  method DrawFourSites(draws: seq<real>, frac4: real) returns (s: set<nat>)
    ensures s == FourSites(draws, frac4, 0, |draws|)
  {
    s := {};
    var indexCounter: nat := 0;
    while indexCounter < |draws|
      invariant s + FourSites(draws, frac4, indexCounter, |draws|) == FourSites(draws, frac4, 0, |draws|)
      decreases |draws| - indexCounter
    {
      if draws[indexCounter] <= frac4 {
        s := s + {indexCounter, indexCounter + 1, indexCounter + 2, indexCounter + 3};
        indexCounter := indexCounter + 3;
      } else {
        indexCounter := indexCounter + 1;
      }
    }
  }

  /** A `Pathogen()` pushed and set with `setNewPathogen`, taking the next tag. */
  method NewRandomPathogen(sp: int, antigenSize: nat, mhcSize: nat, timeStamp: int, uni: seq<real>,
                           tags: Tagging.TaggingSystem) returns (st: PM.PathogenState)
    requires |uni| == antigenSize && mhcSize <= antigenSize
    modifies tags
    ensures st == PM.NewPathogen(BlankPathogen, antigenSize, mhcSize, sp, timeStamp, old(tags.theTag), uni).pathogen
    ensures tags.theTag == old(tags.theTag) + 1
  {
    var p := new PM.Pathogen();
    FreshPathogen(p.State(), antigenSize, mhcSize, sp, timeStamp, tags.theTag, uni);
    p.SetNewPathogen(antigenSize, mhcSize, sp, timeStamp, uni, tags);
    st := p.State();
  }

  /** A `Pathogen()` set with `setNewPathogenNthSwap` under the next tag. */
  method NewSwappedPathogen(antigen: seq<bool>, mhcSize: nat, sp: int, timeStamp: int, nth: nat,
                            tags: Tagging.TaggingSystem) returns (st: PM.PathogenState)
    requires nth > 0 && mhcSize <= |antigen|
    modifies tags
    ensures st == PM.NewPathogenNthSwap(BlankPathogen, antigen, old(tags.theTag) + 1, mhcSize, sp, timeStamp, nth)
    ensures tags.theTag == old(tags.theTag) + 1
  {
    var p := new PM.Pathogen();
    var tag := tags.GetTag();
    FreshPathogenNthSwap(p.State(), antigen, tag, mhcSize, sp, timeStamp, nth);
    p.SetNewPathogenNthSwap(antigen, tag, mhcSize, sp, timeStamp, nth);
    st := p.State();
  }

  /**
   * One species of `setPathoPopulatioUniformGenome`: `per` rounds, each
   * drawing a new pathogen and one more while the remainder lasts.
   */
  method FillRandomSpecies(sp: int, per: nat, left: nat, antigenSize: nat, mhcSize: nat, timeStamp: int,
                           uni: seq<seq<real>>, tags: Tagging.TaggingSystem)
    returns (one: seq<PM.PathogenState>, leftAfter: nat)
    requires |uni| == per + Min(per, left) && UniDraws(uni, antigenSize) && mhcSize <= antigenSize
    modifies tags
    ensures one == RandomPathogens(sp, antigenSize, mhcSize, timeStamp, old(tags.theTag), uni)
    ensures leftAfter == left - Min(per, left) && tags.theTag == old(tags.theTag) + |uni|
  {
    ghost var c := tags.theTag;
    one := [];
    leftAfter := left;
    var j := 0;
    while j < per
      invariant j <= per && |one| == j + Min(j, left) && leftAfter == left - Min(j, left)
      invariant tags.theTag == c + |one|
      invariant forall k :: 0 <= k < |one| ==>
        one[k] == PM.NewPathogen(BlankPathogen, antigenSize, mhcSize, sp, timeStamp, c + k, uni[k]).pathogen
    {
      var p := NewRandomPathogen(sp, antigenSize, mhcSize, timeStamp, uni[|one|], tags);
      one := one + [p];
      if leftAfter > 0 {
        var q := NewRandomPathogen(sp, antigenSize, mhcSize, timeStamp, uni[|one|], tags);
        one := one + [q];
        leftAfter := leftAfter - 1;
      }
      j := j + 1;
    }
  }

  /** `per` rounds, each pushing the template and one more copy while the remainder lasts. */
  method FillSpecies(t: PM.PathogenState, per: nat, left: nat) returns (one: seq<PM.PathogenState>, leftAfter: nat)
    ensures one == Copies(t, per + Min(per, left)) && leftAfter == left - Min(per, left)
  {
    one := [];
    leftAfter := left;
    var j := 0;
    while j < per
      invariant j <= per && leftAfter == left - Min(j, left) && one == Copies(t, j + Min(j, left))
    {
      one := one + [t];
      if leftAfter > 0 {
        one := one + [t];
        leftAfter := leftAfter - 1;
      }
      j := j + 1;
    }
  }

  /** What remains of the remainder after species i took its share. */
  lemma LeftStep(per: nat, left: nat, i: nat)
    ensures Max0(left - i * per) - Min(per, Max0(left - i * per)) == Max0(left - (i + 1) * per)
  {
    assert (i + 1) * per == i * per + per;
  }

  // ----- The environment object -----

  /** The populations and the per-species fixed sites the simulation keeps. */
  class Environment {
    var noMutsVec: seq<set<nat>>
    var hostPopulation: seq<HM.HostState>
    var pathPopulation: seq<seq<PM.PathogenState>>
    var uniqueGenes: seq<UniqueGene>

    /** A new environment holds no hosts, pathogens, fixed sites or unique genes. */
    constructor ()
      ensures noMutsVec == [] && hostPopulation == [] && pathPopulation == [] && uniqueGenes == []
    {
      noMutsVec := [];
      hostPopulation := [];
      pathPopulation := [];
      uniqueGenes := [];
    }

    /** `setNoMutsVector`: one set per species, site j fixed when its draw is at most the fraction. */
    method SetNoMutsVector(numbOfSpecies: int, antigenSize: nat, fixedAntigenFrac: real, draws: seq<seq<real>>)
      requires |draws| == Max0(numbOfSpecies) && forall i :: 0 <= i < |draws| ==> |draws[i]| == antigenSize
      modifies this`noMutsVec
      ensures noMutsVec == old(noMutsVec) + FixedSets(draws, fixedAntigenFrac)
    {
      var i := 0;
      while i < numbOfSpecies
        invariant i <= |draws|
        invariant noMutsVec == old(noMutsVec) + FixedSets(draws[..i], fixedAntigenFrac)
      {
        var s := DrawFixedSites(draws[i], fixedAntigenFrac);
        noMutsVec := noMutsVec + [s];
        assert FixedSets(draws[..i + 1], fixedAntigenFrac) == FixedSets(draws[..i], fixedAntigenFrac) + [s];
        i := i + 1;
      }
      assert draws[..i] == draws;
    }

    /** `setNoMutsVecInFours`: one set per species, fixed in blocks of four with a quarter of the fraction. */
    method SetNoMutsVecInFours(numbOfSpecies: int, antigenSize: nat, fixedAntigenFrac: real, draws: seq<seq<real>>)
      requires |draws| == Max0(numbOfSpecies) && forall i :: 0 <= i < |draws| ==> |draws[i]| == antigenSize
      modifies this`noMutsVec
      ensures noMutsVec == old(noMutsVec) + FourSets(draws, fixedAntigenFrac / 4.0, antigenSize)
    {
      var frac4 := fixedAntigenFrac / 4.0;
      var i := 0;
      while i < numbOfSpecies
        invariant i <= |draws|
        invariant noMutsVec == old(noMutsVec) + FourSets(draws[..i], frac4, antigenSize)
      {
        var s := DrawFourSites(draws[i], frac4);
        noMutsVec := noMutsVec + [s];
        assert FourSets(draws[..i + 1], frac4, antigenSize) == FourSets(draws[..i], frac4, antigenSize) + [s];
        i := i + 1;
      }
      assert draws[..i] == draws;
    }

    /** `setNoMutsVecFourClads`: four sets drawn as `setNoMutsVector` does, species i taking set i mod 4. */
    method SetNoMutsVecFourClads(numbOfSpecies: int, antigenSize: nat, fixedAntigenFrac: real, draws: seq<seq<real>>)
      requires |draws| == 4 && forall i :: 0 <= i < 4 ==> |draws[i]| == antigenSize
      modifies this`noMutsVec
      ensures noMutsVec == old(noMutsVec) + CladSets(FixedSets(draws, fixedAntigenFrac), Max0(numbOfSpecies))
    {
      var tmp: seq<set<nat>> := [];
      var i := 0;
      while i < 4
        invariant i <= 4 && tmp == FixedSets(draws[..i], fixedAntigenFrac) && noMutsVec == old(noMutsVec)
      {
        var s := DrawFixedSites(draws[i], fixedAntigenFrac);
        tmp := tmp + [s];
        assert FixedSets(draws[..i + 1], fixedAntigenFrac) == FixedSets(draws[..i], fixedAntigenFrac) + [s];
        i := i + 1;
      }
      assert draws[..4] == draws;
      i := 0;
      while i < numbOfSpecies
        invariant i <= Max0(numbOfSpecies)
        invariant noMutsVec == old(noMutsVec) + CladSets(tmp, i)
      {
        noMutsVec := noMutsVec + [tmp[i % 4]];
        assert CladSets(tmp, i + 1) == CladSets(tmp, i) + [tmp[i % 4]];
        i := i + 1;
      }
    }

    /**
     * The loop both random host setters run: a `Host()` is pushed and the
     * pushed host gets `setNewHost`, which takes two tags per locus.
     */
    method SetUpHosts(sizes: seq<int>, geneSize: nat, timeStamp: int, draws: seq<seq<int>>, tags: Tagging.TaggingSystem)
      requires DrawLengths(sizes, draws)
      modifies this`hostPopulation, tags
      ensures hostPopulation == RandomHostPopulation(old(hostPopulation), sizes, geneSize, timeStamp, old(tags.theTag), draws)
      ensures tags.theTag == old(tags.theTag) + 2 * LociSum(sizes)
    {
      var added, t := NewHostsLoop(sizes, geneSize, timeStamp, tags.theTag, draws);
      hostPopulation := hostPopulation + added;
      tags.theTag := t;
    }

    /** `setHostRandomPopulation` with `chrom_size` loci on every host. */
    method SetHostRandomPopulation(popSize: int, geneSize: nat, chromSize: nat, timeStamp: int,
                                   draws: seq<seq<int>>, tags: Tagging.TaggingSystem)
      requires DrawLengths(FixedLoci(popSize, chromSize), draws)
      modifies this`hostPopulation, tags
      ensures hostPopulation == RandomHostPopulation(old(hostPopulation), FixedLoci(popSize, chromSize), geneSize,
                                                     timeStamp, old(tags.theTag), draws)
      ensures tags.theTag == old(tags.theTag) + 2 * LociSum(FixedLoci(popSize, chromSize))
    {
      SetUpHosts(FixedLoci(popSize, chromSize), geneSize, timeStamp, draws, tags);
    }

    /** `setHostRandomPopulation` with each host's loci count drawn between the two bounds. */
    method SetHostRandomPopulationInRange(popSize: int, geneSize: nat, chromSizeLower: nat, chromSizeUpper: nat,
                                          timeStamp: int, loci: seq<nat>, draws: seq<seq<int>>,
                                          tags: Tagging.TaggingSystem)
      requires |loci| == Max0(popSize) && LociInRange(loci, chromSizeLower, chromSizeUpper)
      requires DrawLengths(CastLoci(loci), draws)
      modifies this`hostPopulation, tags
      ensures hostPopulation == RandomHostPopulation(old(hostPopulation), CastLoci(loci), geneSize,
                                                     timeStamp, old(tags.theTag), draws)
      ensures tags.theTag == old(tags.theTag) + 2 * LociSum(CastLoci(loci))
    {
      SetUpHosts(CastLoci(loci), geneSize, timeStamp, draws, tags);
    }

    /** `setHostClonalPopulation`: `pop_size` copies of one homozygous host. */
    method SetHostClonalPopulation(popSize: int, clone: HM.HostState)
      modifies this`hostPopulation
      ensures hostPopulation == old(hostPopulation) + seq(Max0(popSize), _ => clone)
    {
      var i := 0;
      while i < popSize
        invariant i <= Max0(popSize) && hostPopulation == old(hostPopulation) + seq(i, _ => clone)
      {
        hostPopulation := hostPopulation + [clone];
        i := i + 1;
      }
    }

    /** The species loop the clonal setters share: species i holds copies of ts[i]. */
    method AppendSpecies(ts: seq<PM.PathogenState>, per: nat, left: nat)
      modifies this`pathPopulation
      ensures pathPopulation ==
        old(pathPopulation) + seq(|ts|, i requires 0 <= i < |ts| => Copies(ts[i], SpeciesSize(per, left, i)))
    {
      ghost var built: seq<seq<PM.PathogenState>> := [];
      var leftNow := left;
      var i := 0;
      while i < |ts|
        invariant i <= |ts| && leftNow == Max0(left - i * per)
        invariant pathPopulation == old(pathPopulation) + built
        invariant |built| == i && forall q :: 0 <= q < i ==> built[q] == Copies(ts[q], SpeciesSize(per, left, q))
      {
        var one;
        LeftStep(per, left, i);
        one, leftNow := FillSpecies(ts[i], per, leftNow);
        pathPopulation := pathPopulation + [one];
        built := built + [one];
        i := i + 1;
      }
      assert built == seq(|ts|, i requires 0 <= i < |ts| => Copies(ts[i], SpeciesSize(per, left, i)));
    }

    /** `setPathoPopulatioDivSpecies`: one drawn template per species, each species its clones. */
    method SetPathoPopulatioDivSpecies(popSize: int, antigenSize: nat, numbOfSpecies: int, mhcSize: nat,
                                       timeStamp: int, fixedAntigenFrac: real, fixDraws: seq<seq<real>>,
                                       uni: seq<seq<real>>, tags: Tagging.TaggingSystem)
      requires |fixDraws| == Max0(numbOfSpecies) && forall i :: 0 <= i < |fixDraws| ==> |fixDraws[i]| == antigenSize
      requires ClampedSpecies(popSize, numbOfSpecies) != 0
      requires |uni| == Max0(ClampedSpecies(popSize, numbOfSpecies)) && UniDraws(uni, antigenSize)
      requires mhcSize <= antigenSize
      modifies this`noMutsVec, this`pathPopulation, tags
      ensures noMutsVec == old(noMutsVec) + FixedSets(fixDraws, fixedAntigenFrac)
      ensures pathPopulation == old(pathPopulation) +
        DivSpecies(popSize, numbOfSpecies, antigenSize, mhcSize, timeStamp, old(tags.theTag), uni)
      ensures tags.theTag == old(tags.theTag) + |uni|
    {
      SetNoMutsVector(numbOfSpecies, antigenSize, fixedAntigenFrac, fixDraws);
      var n := ClampedSpecies(popSize, numbOfSpecies);
      var per := PerOf(popSize, numbOfSpecies);
      var left := LeftOf(popSize, numbOfSpecies);
      ghost var c := tags.theTag;
      var templates: seq<PM.PathogenState> := [];
      var kk := 0;
      while kk < n
        invariant kk <= |uni| && |templates| == kk && tags.theTag == c + kk
        modifies tags
        invariant forall q :: 0 <= q < kk ==>
          templates[q] == PM.NewPathogen(BlankPathogen, antigenSize, mhcSize, q, timeStamp, c + q, uni[q]).pathogen
      {
        var t := NewRandomPathogen(kk, antigenSize, mhcSize, timeStamp, uni[kk], tags);
        templates := templates + [t];
        kk := kk + 1;
      }
      assert templates == DivTemplates(|uni|, antigenSize, mhcSize, timeStamp, c, uni);
      AppendSpecies(templates, per, left);
    }

    /** `setPathoPopulatioUniformGenome`: every individual drawn anew, species after species. */
    method SetPathoPopulatioUniformGenome(popSize: int, antigenSize: nat, numbOfSpecies: int, mhcSize: nat,
                                          timeStamp: int, fixedAntigenFrac: real, fixDraws: seq<seq<real>>,
                                          uni: seq<seq<seq<real>>>, tags: Tagging.TaggingSystem)
      requires |fixDraws| == Max0(numbOfSpecies) && forall i :: 0 <= i < |fixDraws| ==> |fixDraws[i]| == antigenSize
      requires ClampedSpecies(popSize, numbOfSpecies) != 0
      requires UniformDraws(popSize, numbOfSpecies, antigenSize, uni) && mhcSize <= antigenSize
      modifies this`noMutsVec, this`pathPopulation, tags
      ensures noMutsVec == old(noMutsVec) + FixedSets(fixDraws, fixedAntigenFrac)
      ensures pathPopulation == old(pathPopulation) +
        UniformSpecies(popSize, numbOfSpecies, antigenSize, mhcSize, timeStamp, old(tags.theTag), uni)
      ensures tags.theTag == old(tags.theTag) + if ClampedSpecies(popSize, numbOfSpecies) > 0 then popSize else 0
    {
      SetNoMutsVector(numbOfSpecies, antigenSize, fixedAntigenFrac, fixDraws);
      var n := ClampedSpecies(popSize, numbOfSpecies);
      var per := PerOf(popSize, numbOfSpecies);
      var left := LeftOf(popSize, numbOfSpecies);
      UniformSpeciesUnfold(popSize, numbOfSpecies, antigenSize, mhcSize, timeStamp, tags.theTag, uni);
      AppendRandomSpecies(Max0(n), per, left, antigenSize, mhcSize, timeStamp, uni, tags);
    }

    /** The species loop of `setPathoPopulatioUniformGenome`: species i gets its share of freshly drawn pathogens. */
    method AppendRandomSpecies(n: nat, per: nat, left: nat, antigenSize: nat, mhcSize: nat, timeStamp: int,
                               uni: seq<seq<seq<real>>>, tags: Tagging.TaggingSystem)
      requires |uni| == n && mhcSize <= antigenSize
      requires forall i :: 0 <= i < n ==> |uni[i]| == SpeciesSize(per, left, i) && UniDraws(uni[i], antigenSize)
      modifies this`pathPopulation, tags
      ensures pathPopulation == old(pathPopulation) + seq(n, i requires 0 <= i < n =>
        RandomPathogens(i, antigenSize, mhcSize, timeStamp, old(tags.theTag) + Offset(per, left, i), uni[i]))
      ensures tags.theTag == old(tags.theTag) + Offset(per, left, n)
    {
      ghost var c := tags.theTag;
      ghost var built: seq<seq<PM.PathogenState>> := [];
      var leftNow := left;
      var i := 0;
      while i < n
        invariant i <= n && leftNow == Max0(left - i * per) && tags.theTag == c + Offset(per, left, i)
        invariant pathPopulation == old(pathPopulation) + built
        invariant |built| == i && forall q :: 0 <= q < i ==>
          built[q] == RandomPathogens(q, antigenSize, mhcSize, timeStamp, c + Offset(per, left, q), uni[q])
      {
        var one;
        LeftStep(per, left, i);
        OffsetStep(per, left, i);
        one, leftNow := FillRandomSpecies(i, per, leftNow, antigenSize, mhcSize, timeStamp, uni[i], tags);
        pathPopulation := pathPopulation + [one];
        built := built + [one];
        i := i + 1;
      }
      assert built == seq(n, i requires 0 <= i < n =>
        RandomPathogens(i, antigenSize, mhcSize, timeStamp, c + Offset(per, left, i), uni[i]));
    }

    /** The four templates of `setPathoPopulationFourClades`, each taking the next tag. */
    method CladeTemplates(antigenSize: nat, mhcSize: nat, timeStamp: int, uni: seq<real>,
                          tags: Tagging.TaggingSystem)
      returns (templates: seq<PM.PathogenState>)
      requires |uni| == antigenSize && mhcSize <= antigenSize
      modifies tags
      ensures tags.theTag == old(tags.theTag) + 4 && |templates| == 4
      ensures forall q :: 0 <= q < 4 ==>
        templates[q] == CladeTemplate(q, antigenSize, mhcSize, timeStamp, old(tags.theTag), uni)
    {
      ghost var c := tags.theTag;
      var t0 := NewRandomPathogen(0, antigenSize, mhcSize, timeStamp, uni, tags);
      templates := [t0];
      var kk := 1;
      while kk < 4
        invariant 1 <= kk <= 4 && |templates| == kk && tags.theTag == c + kk
        modifies tags
        invariant forall q :: 0 <= q < kk ==> templates[q] == CladeTemplate(q, antigenSize, mhcSize, timeStamp, c, uni)
      {
        var antigen := templates[kk - 1].pathoProtein.theAntigen;
        var nth := if kk % 2 == 1 then 2 else 1;
        var t := NewSwappedPathogen(antigen, mhcSize, kk, timeStamp, nth, tags);
        CladeTemplateNext(kk, antigenSize, mhcSize, timeStamp, c, uni);
        templates := templates + [t];
        kk := kk + 1;
      }
    }

    /** `setPathoPopulationFourClades`: four related templates, species i made of template i mod 4. */
    method SetPathoPopulationFourClades(popSize: int, antigenSize: nat, numbOfSpecies: int, mhcSize: nat,
                                        timeStamp: int, fixedAntigenFrac: real, fixDraws: seq<seq<real>>,
                                        uni: seq<real>, tags: Tagging.TaggingSystem)
      requires |fixDraws| == 4 && forall i :: 0 <= i < 4 ==> |fixDraws[i]| == antigenSize
      requires ClampedSpecies(popSize, numbOfSpecies) != 0
      requires |uni| == antigenSize && mhcSize <= antigenSize
      modifies this`noMutsVec, this`pathPopulation, tags
      ensures noMutsVec == old(noMutsVec) + CladSets(FixedSets(fixDraws, fixedAntigenFrac), Max0(numbOfSpecies))
      ensures pathPopulation == old(pathPopulation) +
        FourClades(popSize, numbOfSpecies, antigenSize, mhcSize, timeStamp, old(tags.theTag), uni)
      ensures tags.theTag == old(tags.theTag) + 4
    {
      SetNoMutsVecFourClads(numbOfSpecies, antigenSize, fixedAntigenFrac, fixDraws);
      var n := ClampedSpecies(popSize, numbOfSpecies);
      var per := PerOf(popSize, numbOfSpecies);
      var left := LeftOf(popSize, numbOfSpecies);
      ghost var c := tags.theTag;
      var templates := CladeTemplates(antigenSize, mhcSize, timeStamp, uni, tags);
      var m := Max0(n);
      var renumbered := seq(m, i requires 0 <= i < m => PM.SetSpecies(templates[i % 4], i));
      FourCladesOfTemplates(popSize, numbOfSpecies, antigenSize, mhcSize, timeStamp, c, uni, templates);
      AppendSpecies(renumbered, per, left);
    }

    /** One species' round of `mutatePathogensWithRestric`, pathogen after pathogen. */
    method MutateSpecies(i: nat, prob: real, mhcSize: nat, timeStamp: int, draws: seq<seq<real>>,
                         tags: Tagging.TaggingSystem)
      requires i < |pathPopulation| && i < |noMutsVec|
      requires MutDraws(pathPopulation[i], draws) && MutFits(pathPopulation[i], draws, prob, noMutsVec[i], mhcSize)
      modifies this`pathPopulation, tags
      ensures var b := SpeciesMutation(old(pathPopulation[i]), draws, prob, noMutsVec[i], mhcSize, timeStamp,
                                       old(tags.theTag), |old(pathPopulation[i])|);
        pathPopulation == old(pathPopulation)[i := b.pathogens] && tags.theTag == b.counter
    {
      var species := pathPopulation[i];
      var fixed := noMutsVec[i];
      ghost var ps := species;
      ghost var c := tags.theTag;
      var j := 0;
      while j < |species|
        modifies tags
        invariant j <= |species| == |ps|
        invariant var b := SpeciesMutation(ps, draws, prob, fixed, mhcSize, timeStamp, c, j);
          tags.theTag == b.counter && species == b.pathogens + ps[j..]
      {
        SpeciesMutationStep(ps, draws, prob, fixed, mhcSize, timeStamp, c, j);
        var s := PM.MutateRestricted(species[j], prob, draws[j], fixed, mhcSize, timeStamp, tags.theTag);
        species := species[j := s.pathogen];
        tags.theTag := s.counter;
        j := j + 1;
      }
      ghost var b := SpeciesMutation(ps, draws, prob, fixed, mhcSize, timeStamp, c, |ps|);
      assert ps[j..] == [];
      assert species == b.pathogens;
      pathPopulation := pathPopulation[i := species];
    }

    /**
     * `mutatePathogensWithRestric`: when there is one set of fixed sites per
     * species every pathogen mutates under its species' set; otherwise
     * nothing changes.
     */
    method MutatePathogensWithRestric(prob: real, mhcSize: nat, timeStamp: int, draws: seq<seq<seq<real>>>,
                                      tags: Tagging.TaggingSystem)
      requires PopDraws(pathPopulation, draws)
      requires |pathPopulation| == |noMutsVec| ==> PopFits(pathPopulation, draws, prob, noMutsVec, mhcSize)
      modifies this`pathPopulation, tags
      ensures |old(pathPopulation)| == |noMutsVec| ==>
        (var r := PopulationMutation(old(pathPopulation), draws, prob, noMutsVec, mhcSize, timeStamp, old(tags.theTag),
                                     |noMutsVec|);
         pathPopulation == r.0 && tags.theTag == r.1)
      ensures |old(pathPopulation)| != |noMutsVec| ==>
        pathPopulation == old(pathPopulation) && tags.theTag == old(tags.theTag)
    {
      if |pathPopulation| == |noMutsVec| {
        ghost var pop := pathPopulation;
        ghost var c := tags.theTag;
        var i := 0;
        while i < |pathPopulation|
          invariant i <= |pop| && |pathPopulation| == |pop|
          invariant var r := PopulationMutation(pop, draws, prob, noMutsVec, mhcSize, timeStamp, c, i);
            tags.theTag == r.1 && pathPopulation == r.0 + pop[i..]
        {
          ghost var r := PopulationMutation(pop, draws, prob, noMutsVec, mhcSize, timeStamp, c, i);
          assert pathPopulation[i] == pop[i];
          ghost var s := SpeciesMutation(pop[i], draws[i], prob, noMutsVec[i], mhcSize, timeStamp, r.1, |pop[i]|);
          SpliceUpdate(r.0, pop[i..], s.pathogens);
          assert pop[i..][1..] == pop[i + 1..];
          MutateSpecies(i, prob, mhcSize, timeStamp, draws[i], tags);
          i := i + 1;
        }
        assert pathPopulation == PopulationMutation(pop, draws, prob, noMutsVec, mhcSize, timeStamp, c, i).0 + [];
      }
    }

    /** `getFixedBitsInAntigens`: each species' sites in ascending order, each followed by a space, one line per species. */
    method GetFixedBitsInAntigens() returns (s: string)
      ensures s == FixedText(noMutsVec)
    {
      s := "";
      var i := 0;
      while i < |noMutsVec|
        invariant i <= |noMutsVec| && s == "" + Concat(FixedLines(noMutsVec)[..i])
      {
        ghost var s0 := s;
        var rest := noMutsVec[i];
        while rest != {}
          invariant s + SpacedText(rest) == s0 + SpacedText(noMutsVec[i])
          decreases rest
        {
          var possit := SetMin(rest);
          s := s + NatToString(possit) + " ";
          rest := rest - {possit};
        }
        assert s == s0 + SpacedText(noMutsVec[i]);
        ConcatStep("", FixedLines(noMutsVec), i, s0, SpacedText(noMutsVec[i]) + "\n");
        s := s + "\n";
        i := i + 1;
      }
      assert FixedLines(noMutsVec)[..i] == FixedLines(noMutsVec);
    }
    /**
     * `setUniqueGenes`: the first gene of every tag over all hosts, each with
     * the number of genes sharing its value and of hosts bearing its tag.
     */
    method SetUniqueGenes()
      modifies this`uniqueGenes
      ensures uniqueGenes == UniqueGeneTable(hostPopulation)
    {
      var hosts := hostPopulation;
      var all := GatherGenes(hosts);
      var kept := KeepFirstByTag(all);
      var table: seq<UniqueGene> := [];
      for l := 0 to |kept|
        invariant |table| == l && forall k :: 0 <= k < l ==> table[k] == UniqueGene(kept[k], 0, 0)
      {
        table := table + [UniqueGene(kept[l], 0, 0)];
      }
      for k := 0 to |table|
        invariant |table| == |kept|
        invariant forall q :: 0 <= q < k ==> table[q] == UniqueGene(kept[q], Count(ValuesOf(all), kept[q].theGene), 0)
        invariant forall q :: k <= q < |kept| ==> table[q] == UniqueGene(kept[q], 0, 0)
      {
        var c := CountValue(all, table[k].gene.theGene);
        table := table[k := table[k].(occurence := c)];
      }
      for l := 0 to |table|
        invariant |table| == |kept|
        invariant forall q :: 0 <= q < l ==>
          table[q] == UniqueGene(kept[q], Count(ValuesOf(all), kept[q].theGene), HostsBearing(hosts, kept[q].genesTag))
        invariant forall q :: l <= q < |kept| ==> table[q] == UniqueGene(kept[q], Count(ValuesOf(all), kept[q].theGene), 0)
      {
        var c := CountBearing(hosts, table[l].gene.genesTag);
        table := table[l := table[l].(numbOfHostsBearing := c)];
      }
      uniqueGenes := table;
    }
  }
}
