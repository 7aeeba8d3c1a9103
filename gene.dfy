/**
 * One MHC gene of a host: a bit string of a fixed length stored as an
 * integer, with its lineage (the tags and origin times of the variants it
 * descends from) recorded at every effective mutation.
 */
module Gene {
  import opened Bits
  import opened SeqUtil
  import Tagging

  /** 2^64: an `int` becomes an `unsigned long` modulo this. */
  const ULONG_MOD: nat := 0x1_0000_0000_0000_0000
  /** 2^32 and 2^31: the range of a 32-bit `int`. */
  const INT_MOD: nat := 0x1_0000_0000
  const INT_HALF: nat := 0x8000_0000

  /** `(int)` of an unsigned value: the low 32 bits read in two's complement. */
  function ToInt(x: nat): (r: int)
    ensures -(INT_HALF as int) <= r < INT_HALF
    ensures x < INT_HALF ==> r == x
  {
    var m := x % INT_MOD;
    if m < INT_HALF then m else m - INT_MOD
  }

  /**
   * The largest gene value of a length, `std::pow(2, length) - 1`.  Unbounded
   * here: the source's `int` overflows from a length of 32 on, which the
   * validator's `geneLength > 31` check rejects.
   */
  function MaxValue(length: nat): (m: int)
    ensures m >= 0
  {
    Pow2(length) - 1
  }

  /** The value and lineage of a gene (a `Gene` object as the vectors copy it). */
  datatype GeneState = GeneState(
    theGene: int,
    bitStringLength: nat,
    timeOfOrigin: int,
    theParentWas: int,
    parentTags: seq<nat>,
    mutationTime: seq<int>,
    genesTag: nat)

  /** A gene after an operation, with the tag counter after it. */
  datatype Stepped = Stepped(gene: GeneState, counter: nat)

  /** An `int` converted to `unsigned long` (sign extension for negative values). */
  function ULong(v: int): (u: nat)
    ensures v >= 0 ==> u == v
  {
    if v < 0 then v % ULONG_MOD else v
  }

  /** `getBitGene`: the bitset `dynamic_bitset(length, TheGene)`. */
  function BitGene(g: GeneState): (b: seq<bool>)
    ensures |b| == g.bitStringLength
  {
    NatToBits(ULong(g.theGene), g.bitStringLength)
  }

  /** `setNewGene(length, timeStamp)`; `draw` is the value the generator picks in [0, 2^length - 1]. */
  function NewGene(g: GeneState, length: nat, timeStamp: int, counter: nat, draw: int): Stepped
    requires 0 <= draw <= MaxValue(length)
  {
    Stepped(g.(timeOfOrigin := timeStamp, theParentWas := -1, bitStringLength := length,
               genesTag := counter + 1, theGene := draw), counter + 1)
  }

  /** The upper limit the ranged constructor and mutation draw below: `up` clamped to 2^length - 1. */
  function ClampUp(length: nat, up: int): (u: int)
    ensures u <= MaxValue(length) && u <= up
    ensures u == up || u == MaxValue(length)
  {
    if MaxValue(length) < up then MaxValue(length) else up
  }

  /** `setNewGene(length, low, up, timeStamp)`; `draw` lies in [low, ClampUp(length, up)]. */
  function NewGeneRanged(g: GeneState, length: nat, low: int, up: int, timeStamp: int,
                         counter: nat, draw: int): Stepped
    requires low <= draw <= ClampUp(length, up)
  {
    Stepped(g.(timeOfOrigin := timeStamp, theParentWas := -1, genesTag := counter + 1,
               bitStringLength := length, theGene := draw), counter + 1)
  }

  /** `setNewFixedGene`: the given value, tag, length and time. */
  function NewFixedGene(g: GeneState, length: nat, timeStamp: int, fixedGene: int, fixedTag: nat): GeneState
  {
    g.(timeOfOrigin := timeStamp, theParentWas := -1, bitStringLength := length,
       genesTag := fixedTag, theGene := fixedGene)
  }

  /** The bookkeeping of an effective mutation to `value`. */
  function Record(g: GeneState, value: int, timeStamp: int, counter: nat): GeneState
  {
    g.(parentTags := g.parentTags + [g.genesTag], mutationTime := g.mutationTime + [g.timeOfOrigin],
       genesTag := counter + 1, theGene := value, timeOfOrigin := timeStamp)
  }

  /**
   * `mutateGeneWhole(prob, timeStamp)`: `u` is the uniform draw compared with
   * the probability, `draw` the new value picked when the mutation fires.
   */
  function MutateWhole(g: GeneState, prob: real, u: real, draw: int, timeStamp: int, counter: nat): Stepped
    requires u < prob ==> 0 <= draw <= MaxValue(g.bitStringLength)
  {
    if u < prob then Stepped(Record(g, draw, timeStamp, counter).(theParentWas := g.theGene), counter + 1)
    else Stepped(g, counter)
  }

  /** `mutateGeneWhole(prob, low, up, timeStamp)`: the new value lies in [low, ClampUp(length, up)]. */
  function MutateWholeRanged(g: GeneState, prob: real, low: int, up: int, u: real, draw: int,
                             timeStamp: int, counter: nat): Stepped
    requires u < prob ==> low <= draw <= ClampUp(g.bitStringLength, up)
  {
    if u < prob then Stepped(Record(g, draw, timeStamp, counter).(theParentWas := g.theGene), counter + 1)
    else Stepped(g, counter)
  }

  /**
   * The value a bit-by-bit pass leaves in `TheGene`: the loop stores the
   * bitset's value (through an `int` cast) after each bit, so a gene of
   * length 0 keeps its value.
   */
  function PassValue(g: GeneState, flipped: seq<bool>): int
  {
    if g.bitStringLength == 0 then g.theGene else ToInt(BitsToNat(flipped))
  }

  /**
   * `mutateBitByBitWithRestric`: bit i flips when it is not in `noMutts` and
   * its draw is below the probability; the history is recorded only if the
   * value changed.
   */
  function MutateBitsRestricted(g: GeneState, p: real, draws: seq<real>, noMutts: set<int>,
                                timeStamp: int, counter: nat): Stepped
    requires |draws| == g.bitStringLength
  {
    var v := PassValue(g, FlipWhere(BitGene(g), draws, p, noMutts));
    if v != g.theGene then Stepped(Record(g, v, timeStamp, counter), counter + 1)
    else Stepped(g, counter)
  }

  /** `mutateGeneBitByBit`: the same pass with no protected bit. */
  function MutateBits(g: GeneState, p: real, draws: seq<real>, timeStamp: int, counter: nat): Stepped
    requires |draws| == g.bitStringLength
  {
    MutateBitsRestricted(g, p, draws, {}, timeStamp, counter)
  }

  // ----- Lineage invariants -----

  /** `ParentTags` and `MutationTime` have one entry per recorded mutation each. */
  predicate HistoryParallel(g: GeneState) {
    |g.parentTags| == |g.mutationTime|
  }

  /** The tag chain (ancestors, then the own tag) was handed out in order by a counter now at c. */
  predicate TagsOrdered(g: GeneState, c: nat) {
    Increasing(g.parentTags + [g.genesTag]) && g.genesTag <= c
  }

  /** The time chain (the ancestors' origin times, then the own one) never goes back. */
  predicate TimesOrdered(g: GeneState) {
    NonDecreasing(g.mutationTime + [g.timeOfOrigin])
  }

  /** Recording a mutation with a fresh tag and a later time keeps both chains ordered. */
  lemma RecordKeepsOrder(g: GeneState, value: int, timeStamp: int, c: nat)
    requires TagsOrdered(g, c) && TimesOrdered(g) && timeStamp >= g.timeOfOrigin
    ensures TagsOrdered(Record(g, value, timeStamp, c), c + 1)
    ensures TimesOrdered(Record(g, value, timeStamp, c))
    ensures HistoryParallel(g) ==> HistoryParallel(Record(g, value, timeStamp, c))
  {
    var r := Record(g, value, timeStamp, c);
    assert r.parentTags + [r.genesTag] == (g.parentTags + [g.genesTag]) + [c + 1];
    AppendIncreasing(g.parentTags + [g.genesTag], c + 1);
    assert r.mutationTime + [r.timeOfOrigin] == (g.mutationTime + [g.timeOfOrigin]) + [timeStamp];
    AppendNonDecreasing(g.mutationTime + [g.timeOfOrigin], timeStamp);
  }

  // ----- Properties of the operations -----

  /**
   * A whole-gene mutation that fires records the old tag and time, makes the
   * old value the parent, takes the next tag, stores the drawn value and the
   * current time, and keeps the length.
   */
  lemma MutateWholeFires(g: GeneState, prob: real, u: real, draw: int, timeStamp: int, c: nat)
    requires u < prob && 0 <= draw <= MaxValue(g.bitStringLength)
    ensures var r := MutateWhole(g, prob, u, draw, timeStamp, c);
      r.gene.parentTags == g.parentTags + [g.genesTag] &&
      r.gene.mutationTime == g.mutationTime + [g.timeOfOrigin] &&
      r.gene.theParentWas == g.theGene && r.gene.genesTag == c + 1 && r.counter == c + 1 &&
      r.gene.timeOfOrigin == timeStamp && r.gene.theGene == draw &&
      r.gene.bitStringLength == g.bitStringLength &&
      BitsToNat(BitGene(r.gene)) == draw
  {
    ValueRoundTrip(draw, g.bitStringLength);
  }

  /** A whole-gene mutation that does not fire changes nothing, not even the counter. */
  lemma MutateWholeNoFire(g: GeneState, prob: real, low: int, up: int, u: real, draw: int,
                          timeStamp: int, c: nat)
    requires u >= prob
    ensures MutateWhole(g, prob, u, draw, timeStamp, c) == Stepped(g, c)
    ensures MutateWholeRanged(g, prob, low, up, u, draw, timeStamp, c) == Stepped(g, c)
  {
  }

  /** The ranged mutation draws below the clamped limit, so the value fits the length. */
  lemma MutateWholeRangedBounds(g: GeneState, prob: real, low: int, up: int, u: real, draw: int,
                                timeStamp: int, c: nat)
    requires u < prob && low <= draw <= ClampUp(g.bitStringLength, up)
    ensures var r := MutateWholeRanged(g, prob, low, up, u, draw, timeStamp, c);
      low <= r.gene.theGene <= up && r.gene.theGene <= MaxValue(g.bitStringLength) &&
      r.gene.theParentWas == g.theGene && |r.gene.parentTags| == |g.parentTags| + 1
  {
  }

  /**
   * Every mutation keeps `ParentTags` and `MutationTime` of equal length, and
   * keeps the tag and time chains ordered when the counter is ahead of the
   * gene's tags and time moves forward.
   */
  lemma MutationsKeepLineage(g: GeneState, prob: real, u: real, draw: int, p: real,
                             draws: seq<real>, noMutts: set<int>, timeStamp: int, c: nat)
    requires HistoryParallel(g) && TagsOrdered(g, c) && TimesOrdered(g) && timeStamp >= g.timeOfOrigin
    requires u < prob ==> 0 <= draw <= MaxValue(g.bitStringLength)
    requires |draws| == g.bitStringLength
    ensures var r := MutateWhole(g, prob, u, draw, timeStamp, c);
      HistoryParallel(r.gene) && TagsOrdered(r.gene, r.counter) && TimesOrdered(r.gene)
    ensures var r := MutateBitsRestricted(g, p, draws, noMutts, timeStamp, c);
      HistoryParallel(r.gene) && TagsOrdered(r.gene, r.counter) && TimesOrdered(r.gene)
  {
    RecordKeepsOrder(g, draw, timeStamp, c);
    var v := PassValue(g, FlipWhere(BitGene(g), draws, p, noMutts));
    RecordKeepsOrder(g, v, timeStamp, c);
  }

  /**
   * A bit-by-bit pass records history, takes a tag and renews the time exactly
   * when the value changed; it never touches `TheParentWas` or the length.
   */
  lemma MutateBitsRecordsOnlyOnChange(g: GeneState, p: real, draws: seq<real>, noMutts: set<int>,
                                      timeStamp: int, c: nat)
    requires |draws| == g.bitStringLength
    ensures var r := MutateBitsRestricted(g, p, draws, noMutts, timeStamp, c);
      r.gene.theParentWas == g.theParentWas && r.gene.bitStringLength == g.bitStringLength &&
      (r.gene.theGene != g.theGene <==> r.counter == c + 1) &&
      (r.gene.theGene == g.theGene ==> r == Stepped(g, c)) &&
      (r.gene.theGene != g.theGene ==>
        r.gene.parentTags == g.parentTags + [g.genesTag] &&
        r.gene.mutationTime == g.mutationTime + [g.timeOfOrigin] &&
        r.gene.genesTag == c + 1 && r.gene.timeOfOrigin == timeStamp)
  {
  }

  lemma Pow2Monotone(a: nat, b: nat)
    requires a <= b
    ensures Pow2(a) <= Pow2(b)
    decreases b
  {
    if a < b {
      Pow2Monotone(a, b - 1);
    }
  }

  lemma Pow31()
    ensures Pow2(31) == INT_HALF
  {
    assert Pow2(8) == 0x100;
    assert Pow2(16) == 0x1_0000;
    assert Pow2(24) == 0x100_0000;
  }

  /** A restricted pass never changes a protected bit (for genes of at most 31 bits, which the int cast keeps intact). */
  lemma RestrictedKeepsProtected(g: GeneState, p: real, draws: seq<real>, noMutts: set<int>,
                                 timeStamp: int, c: nat, i: int)
    requires |draws| == g.bitStringLength && g.bitStringLength <= 31
    requires 0 <= i < g.bitStringLength && i in noMutts
    ensures BitGene(MutateBitsRestricted(g, p, draws, noMutts, timeStamp, c).gene)[i] == BitGene(g)[i]
  {
    var f := FlipWhere(BitGene(g), draws, p, noMutts);
    var v := PassValue(g, f);
    if g.bitStringLength > 0 {
      Pow2Monotone(g.bitStringLength, 31);
      Pow31();
      assert BitsToNat(f) < INT_HALF;
      assert v == BitsToNat(f);
      BitsRoundTrip(f);
      assert NatToBits(ULong(v), g.bitStringLength) == f;
    }
  }

  /** A new gene has no parent value, the current time, the next tag and a value of at most 2^length - 1. */
  lemma NewGeneProps(g: GeneState, length: nat, timeStamp: int, c: nat, draw: int)
    requires 0 <= draw <= MaxValue(length)
    ensures var r := NewGene(g, length, timeStamp, c, draw);
      r.gene.theParentWas == -1 && r.gene.timeOfOrigin == timeStamp && r.gene.genesTag == c + 1 &&
      r.counter == c + 1 && r.gene.bitStringLength == length &&
      0 <= r.gene.theGene < Pow2(length) && BitsToNat(BitGene(r.gene)) == draw &&
      r.gene.parentTags == g.parentTags
    ensures g.parentTags == [] && g.mutationTime == [] ==>
      var r := NewGene(g, length, timeStamp, c, draw);
      HistoryParallel(r.gene) && TagsOrdered(r.gene, r.counter) && TimesOrdered(r.gene)
  {
    ValueRoundTrip(draw, length);
  }

  /** The ranged constructor keeps its value within both the requested and the possible range. */
  lemma NewGeneRangedBounds(g: GeneState, length: nat, low: int, up: int, timeStamp: int, c: nat, draw: int)
    requires low <= draw <= ClampUp(length, up)
    ensures var r := NewGeneRanged(g, length, low, up, timeStamp, c, draw);
      low <= r.gene.theGene <= up && r.gene.theGene <= MaxValue(length) &&
      r.gene.theParentWas == -1 && r.gene.genesTag == c + 1 && r.counter == c + 1
    ensures MaxValue(length) < up ==> ClampUp(length, up) == MaxValue(length)
  {
  }

  /** `setNewFixedGene` stores exactly the given tag, value, length and time. */
  lemma NewFixedGeneProps(g: GeneState, length: nat, timeStamp: int, fixedGene: int, fixedTag: nat)
    ensures var r := NewFixedGene(g, length, timeStamp, fixedGene, fixedTag);
      r.genesTag == fixedTag && r.theGene == fixedGene && r.bitStringLength == length &&
      r.timeOfOrigin == timeStamp && r.theParentWas == -1 &&
      r.parentTags == g.parentTags && r.mutationTime == g.mutationTime
  {
  }

  /** A `Gene` object. The methods draw their tags from the tagging instance they are given. */
  class Gene {
    var theGene: int
    var bitStringLength: nat
    var timeOfOrigin: int
    var theParentWas: int
    var parentTags: seq<nat>
    var mutationTime: seq<int>
    var genesTag: nat

    function State(): GeneState
      reads this
    {
      GeneState(theGene, bitStringLength, timeOfOrigin, theParentWas, parentTags, mutationTime, genesTag)
    }

    /** The empty constructor: the fields are unspecified, the vectors empty. */
    constructor ()
      ensures parentTags == [] && mutationTime == []
    {
      parentTags := [];
      mutationTime := [];
    }

    /** The copy a vector of genes makes when a gene is stored or copied. */
    constructor Copy(s: GeneState)
      ensures State() == s
    {
      theGene := s.theGene;
      bitStringLength := s.bitStringLength;
      timeOfOrigin := s.timeOfOrigin;
      theParentWas := s.theParentWas;
      parentTags := s.parentTags;
      mutationTime := s.mutationTime;
      genesTag := s.genesTag;
    }

    method SetNewGene(length: nat, timeStamp: int, tags: Tagging.TaggingSystem, draw: int)
      requires 0 <= draw <= MaxValue(length)
      modifies this, tags
      ensures State() == NewGene(old(State()), length, timeStamp, old(tags.theTag), draw).gene
      ensures tags.theTag == NewGene(old(State()), length, timeStamp, old(tags.theTag), draw).counter
    {
      timeOfOrigin := timeStamp;
      theParentWas := -1;
      bitStringLength := length;
      genesTag := tags.GetTag();
      theGene := draw;
    }

    method SetNewFixedGene(length: nat, timeStamp: int, fixedGene: int, fixedTag: nat)
      modifies this
      ensures State() == NewFixedGene(old(State()), length, timeStamp, fixedGene, fixedTag)
    {
      timeOfOrigin := timeStamp;
      theParentWas := -1;
      bitStringLength := length;
      genesTag := fixedTag;
      theGene := fixedGene;
    }

    method SetNewGeneRanged(length: nat, low: int, up: int, timeStamp: int,
                            tags: Tagging.TaggingSystem, draw: int)
      requires low <= draw <= ClampUp(length, up)
      modifies this, tags
      ensures State() == NewGeneRanged(old(State()), length, low, up, timeStamp, old(tags.theTag), draw).gene
      ensures tags.theTag == old(tags.theTag) + 1
    {
      timeOfOrigin := timeStamp;
      theParentWas := -1;
      genesTag := tags.GetTag();
      bitStringLength := length;
      var upLim := up;
      if MaxValue(length) < upLim {
        upLim := MaxValue(length);
      }
      assert low <= draw <= upLim;
      theGene := draw;
    }

    method MutateGeneWhole(prob: real, u: real, draw: int, timeStamp: int, tags: Tagging.TaggingSystem)
      requires u < prob ==> 0 <= draw <= MaxValue(bitStringLength)
      modifies this, tags
      ensures State() == MutateWhole(old(State()), prob, u, draw, timeStamp, old(tags.theTag)).gene
      ensures tags.theTag == MutateWhole(old(State()), prob, u, draw, timeStamp, old(tags.theTag)).counter
    {
      if u < prob {
        theParentWas := theGene;
        parentTags := parentTags + [genesTag];
        mutationTime := mutationTime + [timeOfOrigin];
        genesTag := tags.GetTag();
        theGene := draw;
        timeOfOrigin := timeStamp;
      }
    }

    method MutateGeneWholeRanged(prob: real, low: int, up: int, u: real, draw: int, timeStamp: int,
                                 tags: Tagging.TaggingSystem)
      requires u < prob ==> low <= draw <= ClampUp(bitStringLength, up)
      modifies this, tags
      ensures State() == MutateWholeRanged(old(State()), prob, low, up, u, draw, timeStamp, old(tags.theTag)).gene
      ensures tags.theTag == MutateWholeRanged(old(State()), prob, low, up, u, draw, timeStamp, old(tags.theTag)).counter
    {
      if u < prob {
        var upLim := up;
        if MaxValue(bitStringLength) < upLim {
          upLim := MaxValue(bitStringLength);
        }
        assert low <= draw <= upLim;
        theParentWas := theGene;
        parentTags := parentTags + [genesTag];
        mutationTime := mutationTime + [timeOfOrigin];
        genesTag := tags.GetTag();
        theGene := draw;
        timeOfOrigin := timeStamp;
      }
    }

    /** `mutateBitByBitWithRestric`: one draw per bit; bits in `noMutts` are skipped. */
    method MutateBitByBitWithRestric(p: real, draws: seq<real>, timeStamp: int, noMutts: set<int>,
                                     tags: Tagging.TaggingSystem)
      requires |draws| == bitStringLength
      modifies this, tags
      ensures State() == MutateBitsRestricted(old(State()), p, draws, noMutts, timeStamp, old(tags.theTag)).gene
      ensures tags.theTag == MutateBitsRestricted(old(State()), p, draws, noMutts, timeStamp, old(tags.theTag)).counter
    {
      var currentGene := theGene;
      var bitgene := BitGene(State());
      ghost var orig := bitgene;
      ghost var target := FlipWhere(orig, draws, p, noMutts);
      var i := 0;
      while i < |bitgene|
        modifies this`theGene
        invariant 0 <= i <= |bitgene| == |orig| == bitStringLength
        invariant forall k :: 0 <= k < i ==> bitgene[k] == target[k]
        invariant forall k :: i <= k < |bitgene| ==> bitgene[k] == orig[k]
        invariant theGene == (if i == 0 then currentGene else ToInt(BitsToNat(bitgene)))
      {
        if i !in noMutts && draws[i] < p {
          bitgene := bitgene[i := !bitgene[i]];
        }
        theGene := ToInt(BitsToNat(bitgene));
        i := i + 1;
      }
      assert bitgene == target;
      if currentGene != theGene {
        parentTags := parentTags + [genesTag];
        mutationTime := mutationTime + [timeOfOrigin];
        genesTag := tags.GetTag();
        timeOfOrigin := timeStamp;
      }
    }

    /** `mutateGeneBitByBit`: one draw per bit, every bit may flip. */
    method MutateGeneBitByBit(p: real, draws: seq<real>, timeStamp: int, tags: Tagging.TaggingSystem)
      requires |draws| == bitStringLength
      modifies this, tags
      ensures State() == MutateBits(old(State()), p, draws, timeStamp, old(tags.theTag)).gene
      ensures tags.theTag == MutateBits(old(State()), p, draws, timeStamp, old(tags.theTag)).counter
    {
      var currentGene := theGene;
      var bitgene := BitGene(State());
      ghost var orig := bitgene;
      ghost var target := FlipWhere(orig, draws, p, {});
      var i := 0;
      while i < |bitgene|
        modifies this`theGene
        invariant 0 <= i <= |bitgene| == |orig| == bitStringLength
        invariant forall k :: 0 <= k < i ==> bitgene[k] == target[k]
        invariant forall k :: i <= k < |bitgene| ==> bitgene[k] == orig[k]
        invariant theGene == (if i == 0 then currentGene else ToInt(BitsToNat(bitgene)))
      {
        if draws[i] < p {
          bitgene := bitgene[i := !bitgene[i]];
        }
        theGene := ToInt(BitsToNat(bitgene));
        i := i + 1;
      }
      assert bitgene == target;
      if currentGene != theGene {
        parentTags := parentTags + [genesTag];
        mutationTime := mutationTime + [timeOfOrigin];
        genesTag := tags.GetTag();
        timeOfOrigin := timeStamp;
      }
    }

    /** `getTheRealGene`. */
    function GetTheRealGene(): (v: int)
      reads this
      ensures v == State().theGene
    {
      theGene
    }

    /** `getBitGene`: the bitset of the stored value, whose `to_ulong` is the value while it fits the length. */
    function GetBitGene(): (b: seq<bool>)
      reads this
      ensures |b| == bitStringLength
      ensures 0 <= theGene <= MaxValue(bitStringLength) ==> BitsToNat(b) == theGene
    {
      if 0 <= theGene <= MaxValue(bitStringLength) then
        ValueRoundTrip(theGene, bitStringLength);
        BitGene(State())
      else
      BitGene(State())
    }
  }
}
