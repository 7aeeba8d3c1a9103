/**
 * The antigen of a pathogen: a long bit string, the epitopes cut from it by a
 * sliding window of the MHC length, and its lineage.
 */
module Antigen {
  import opened Bits
  import opened SeqUtil
  import Tagging

  /** The value of an `Antigen` object. */
  datatype AntigenState = AntigenState(
    theAntigen: seq<bool>,
    bitStringLength: nat,
    timeOfOrigin: int,
    theParentWas: int,
    parentTags: seq<nat>,
    mutationTime: seq<int>,
    antigenTag: nat,
    epitopes: seq<nat>)

  /** An antigen after an operation, with the tag counter after it. */
  datatype Stepped = Stepped(antigen: AntigenState, counter: nat)

  /**
   * `calculateEpitopes`: one value per window start 0 .. size - mhcSize - 1.
   * The size difference is unsigned, so mhcSize may not exceed the size.
   */
  function Epitopes(a: seq<bool>, mhcSize: nat): (e: seq<nat>)
    requires mhcSize <= |a|
    ensures |e| == |a| - mhcSize
    decreases |a|
  {
    if |a| == mhcSize then [] else [BitsToNat(a[..mhcSize])] + Epitopes(a[1..], mhcSize)
  }

  /** Epitope i is the value of the window of mhcSize bits starting at bit i. */
  lemma {:induction false} EpitopeAt(a: seq<bool>, mhcSize: nat)
    requires mhcSize <= |a|
    ensures forall i :: 0 <= i < |a| - mhcSize ==> Epitopes(a, mhcSize)[i] == BitsToNat(a[i..i + mhcSize])
    decreases |a|
  {
    if |a| > mhcSize {
      EpitopeAt(a[1..], mhcSize);
      forall i | 1 <= i < |a| - mhcSize
        ensures Epitopes(a, mhcSize)[i] == BitsToNat(a[i..i + mhcSize])
      {
        assert a[1..][i - 1..i - 1 + mhcSize] == a[i..i + mhcSize];
      }
    }
  }

  /**
   * Epitope i is the number whose bit k is antigen bit i + k; there is one
   * epitope per window start below size - mhcSize, so the window starting at
   * size - mhcSize itself is not produced.
   */
  lemma EpitopeBits(a: seq<bool>, mhcSize: nat, i: nat, k: nat)
    requires mhcSize <= |a| && i < |a| - mhcSize && k < mhcSize
    ensures NatToBits(Epitopes(a, mhcSize)[i], mhcSize)[k] == a[i + k]
    ensures |Epitopes(a, mhcSize)| == |a| - mhcSize
  {
    EpitopeAt(a, mhcSize);
    BitsRoundTrip(a[i..i + mhcSize]);
  }

  /** The epitopes determine the windows they were cut from. */
  lemma EpitopesDetermineWindows(a: seq<bool>, b: seq<bool>, mhcSize: nat, i: nat)
    requires mhcSize <= |a| && |a| == |b| && i < |a| - mhcSize
    requires Epitopes(a, mhcSize)[i] == Epitopes(b, mhcSize)[i]
    ensures a[i..i + mhcSize] == b[i..i + mhcSize]
  {
    EpitopeAt(a, mhcSize);
    EpitopeAt(b, mhcSize);
    BitsToNatInjective(a[i..i + mhcSize], b[i..i + mhcSize]);
  }

  /** The antigen's epitopes are those of its bit string. */
  predicate Consistent(s: AntigenState, mhcSize: nat) {
    mhcSize <= |s.theAntigen| && s.epitopes == Epitopes(s.theAntigen, mhcSize)
  }

  /** `setNewAntigen`: bit i is set when its uniform draw is below 0.5. */
  function NewAntigen(s: AntigenState, length: nat, mhcSize: nat, timeStamp: int, counter: nat,
                      uni: seq<real>): Stepped
    requires |uni| == length && mhcSize <= length
  {
    var bits := seq(length, i requires 0 <= i < length => uni[i] < 0.5);
    Stepped(s.(timeOfOrigin := timeStamp, theParentWas := -1, bitStringLength := length,
               antigenTag := counter + 1, theAntigen := bits, epitopes := Epitopes(bits, mhcSize)),
            counter + 1)
  }

  /** k is one of 0, nth, 2 nth, ...: the positions a loop from 0 in steps of nth visits. */
  predicate Reached(k: nat, nth: nat)
    requires nth > 0
  {
    k == 0 || (k >= nth && Reached(k - nth, nth))
  }

  /** No position strictly between two successive visited positions is visited. */
  lemma {:induction false} NotReachedBetween(i: nat, nth: nat, k: nat)
    requires nth > 0 && Reached(i, nth) && i < k < i + nth
    ensures !Reached(k, nth)
  {
    if i > 0 {
      NotReachedBetween(i - nth, nth, k - nth);
    }
  }

  /** Bits 0, nth, 2 nth, ... flipped. */
  function FlipEvery(b: seq<bool>, nth: nat): (r: seq<bool>)
    requires nth > 0
    ensures |r| == |b|
  {
    seq(|b|, i requires 0 <= i < |b| => if Reached(i, nth) then !b[i] else b[i])
  }

  /** `setAntigenFlipedPositions`: the given bits with every nth one flipped, and the given tag. */
  function FlipedPositions(s: AntigenState, bitgene: seq<bool>, tag: nat, nth: nat, mhcSize: nat,
                           timeStamp: int): AntigenState
    requires nth > 0 && mhcSize <= |bitgene|
  {
    var bits := FlipEvery(bitgene, nth);
    s.(theAntigen := bits, timeOfOrigin := timeStamp, theParentWas := -1,
       bitStringLength := |bitgene|, antigenTag := tag, epitopes := Epitopes(bits, mhcSize))
  }

  /**
   * `mutateAntgBitByBitWithRes`: bits outside `noMutts` flip when their draw
   * is below p; only a changed bit string records history, takes a tag, sets
   * the time and recomputes the epitopes.
   */
  function MutateRestricted(s: AntigenState, p: real, draws: seq<real>, noMutts: set<int>,
                            mhcSize: nat, timeStamp: int, counter: nat): Stepped
    requires |draws| == |s.theAntigen|
    requires FlipWhere(s.theAntigen, draws, p, noMutts) != s.theAntigen ==> mhcSize <= |s.theAntigen|
  {
    var b := FlipWhere(s.theAntigen, draws, p, noMutts);
    if s.theAntigen != b then
      Stepped(s.(parentTags := s.parentTags + [s.antigenTag], mutationTime := s.mutationTime + [s.timeOfOrigin],
                 antigenTag := counter + 1, timeOfOrigin := timeStamp, theAntigen := b,
                 epitopes := Epitopes(b, mhcSize)), counter + 1)
    else Stepped(s, counter)
  }

  /** `mutateAntigenBitByBit`: the same with no protected bit. */
  function Mutate(s: AntigenState, p: real, draws: seq<real>, mhcSize: nat, timeStamp: int,
                  counter: nat): Stepped
    requires |draws| == |s.theAntigen|
    requires FlipWhere(s.theAntigen, draws, p, {}) != s.theAntigen ==> mhcSize <= |s.theAntigen|
  {
    MutateRestricted(s, p, draws, {}, mhcSize, timeStamp, counter)
  }

  /** `getOneEpitope`: the stored epitope for an index in range, else 0. */
  function OneEpitope(s: AntigenState, idx: nat): nat {
    if idx < |s.epitopes| then s.epitopes[idx] else 0
  }

  // ----- Properties -----

  /** Flipping every nth bit touches exactly the multiples of nth, and doing it twice restores the string. */
  lemma FlipEveryProps(b: seq<bool>, nth: nat)
    requires nth > 0
    ensures forall i :: 0 <= i < |b| ==> (FlipEvery(b, nth)[i] != b[i] <==> Reached(i, nth))
    ensures FlipEvery(FlipEvery(b, nth), nth) == b
    ensures |b| > 0 ==> FlipEvery(b, nth) != b
  {
    if |b| > 0 {
      assert FlipEvery(b, nth)[0] != b[0];
    }
  }

  /** A new antigen has no parent value, the next tag, the drawn bits and matching epitopes; its history is kept. */
  lemma NewAntigenProps(s: AntigenState, length: nat, mhcSize: nat, timeStamp: int, c: nat, uni: seq<real>)
    requires |uni| == length && mhcSize <= length
    ensures var r := NewAntigen(s, length, mhcSize, timeStamp, c, uni);
      r.antigen.theParentWas == -1 && r.antigen.antigenTag == c + 1 && r.counter == c + 1 &&
      r.antigen.timeOfOrigin == timeStamp && |r.antigen.theAntigen| == length &&
      (forall i :: 0 <= i < length ==> (r.antigen.theAntigen[i] <==> uni[i] < 0.5)) &&
      Consistent(r.antigen, mhcSize) &&
      r.antigen.parentTags == s.parentTags && r.antigen.mutationTime == s.mutationTime
  {
  }

  /** The Nth-swap constructor flips exactly the multiples of nth of the given string and stores the given tag. */
  lemma FlipedPositionsProps(s: AntigenState, bitgene: seq<bool>, tag: nat, nth: nat, mhcSize: nat,
                             timeStamp: int)
    requires nth > 0 && mhcSize <= |bitgene|
    ensures var r := FlipedPositions(s, bitgene, tag, nth, mhcSize, timeStamp);
      |r.theAntigen| == |bitgene| == r.bitStringLength &&
      (forall i :: 0 <= i < |bitgene| ==> (r.theAntigen[i] != bitgene[i] <==> Reached(i, nth))) &&
      r.antigenTag == tag && r.theParentWas == -1 && r.timeOfOrigin == timeStamp &&
      Consistent(r, mhcSize)
  {
    FlipEveryProps(bitgene, nth);
  }

  /**
   * A mutation pass records the old tag and time, takes the next tag and sets
   * the time exactly when the bit string changed; otherwise nothing changes.
   */
  lemma MutateRecordsOnlyOnChange(s: AntigenState, p: real, draws: seq<real>, noMutts: set<int>,
                                  mhcSize: nat, timeStamp: int, c: nat)
    requires |draws| == |s.theAntigen|
    requires FlipWhere(s.theAntigen, draws, p, noMutts) != s.theAntigen ==> mhcSize <= |s.theAntigen|
    ensures var r := MutateRestricted(s, p, draws, noMutts, mhcSize, timeStamp, c);
      r.antigen.theAntigen == FlipWhere(s.theAntigen, draws, p, noMutts) &&
      (r.antigen.theAntigen == s.theAntigen ==> r == Stepped(s, c)) &&
      (r.antigen.theAntigen != s.theAntigen ==>
        r.antigen.parentTags == s.parentTags + [s.antigenTag] &&
        r.antigen.mutationTime == s.mutationTime + [s.timeOfOrigin] &&
        r.antigen.antigenTag == c + 1 && r.counter == c + 1 && r.antigen.timeOfOrigin == timeStamp &&
        r.antigen.theParentWas == s.theParentWas)
  {
  }

  /** A restricted mutation leaves every bit in `noMutts` as it was. */
  lemma RestrictedKeepsProtected(s: AntigenState, p: real, draws: seq<real>, noMutts: set<int>,
                                 mhcSize: nat, timeStamp: int, c: nat, i: int)
    requires |draws| == |s.theAntigen|
    requires FlipWhere(s.theAntigen, draws, p, noMutts) != s.theAntigen ==> mhcSize <= |s.theAntigen|
    requires 0 <= i < |s.theAntigen| && i in noMutts
    ensures MutateRestricted(s, p, draws, noMutts, mhcSize, timeStamp, c).antigen.theAntigen[i] == s.theAntigen[i]
  {
  }

  /** Every mutation keeps the epitopes those of the bit string and the lineage chains parallel and ordered. */
  lemma MutateKeepsInvariants(s: AntigenState, p: real, draws: seq<real>, noMutts: set<int>,
                              mhcSize: nat, timeStamp: int, c: nat)
    requires |draws| == |s.theAntigen| && Consistent(s, mhcSize)
    requires |s.parentTags| == |s.mutationTime|
    requires Increasing(s.parentTags + [s.antigenTag]) && s.antigenTag <= c
    requires NonDecreasing(s.mutationTime + [s.timeOfOrigin]) && timeStamp >= s.timeOfOrigin
    ensures var r := MutateRestricted(s, p, draws, noMutts, mhcSize, timeStamp, c).antigen;
      Consistent(r, mhcSize) && |r.parentTags| == |r.mutationTime| &&
      Increasing(r.parentTags + [r.antigenTag]) &&
      NonDecreasing(r.mutationTime + [r.timeOfOrigin])
  {
    var r := MutateRestricted(s, p, draws, noMutts, mhcSize, timeStamp, c).antigen;
    if r.theAntigen != s.theAntigen {
      assert r.parentTags + [r.antigenTag] == (s.parentTags + [s.antigenTag]) + [c + 1];
      AppendIncreasing(s.parentTags + [s.antigenTag], c + 1);
      assert r.mutationTime + [r.timeOfOrigin] == (s.mutationTime + [s.timeOfOrigin]) + [timeStamp];
      AppendNonDecreasing(s.mutationTime + [s.timeOfOrigin], timeStamp);
    }
  }

  /** On a consistent antigen, `getOneEpitope` returns window idx's value, or 0 past the last window. */
  lemma OneEpitopeOfConsistent(s: AntigenState, mhcSize: nat, idx: nat)
    requires Consistent(s, mhcSize)
    ensures idx < |s.theAntigen| - mhcSize ==>
      OneEpitope(s, idx) == BitsToNat(s.theAntigen[idx..idx + mhcSize])
    ensures idx >= |s.theAntigen| - mhcSize ==> OneEpitope(s, idx) == 0
  {
    EpitopeAt(s.theAntigen, mhcSize);
  }

  /** An `Antigen` object. */
  class Antigen {
    var theAntigen: seq<bool>
    var bitStringLength: nat
    var timeOfOrigin: int
    var theParentWas: int
    var parentTags: seq<nat>
    var mutationTime: seq<int>
    var antigenTag: nat
    var epitopes: seq<nat>

    function State(): AntigenState
      reads this
    {
      AntigenState(theAntigen, bitStringLength, timeOfOrigin, theParentWas, parentTags, mutationTime,
                   antigenTag, epitopes)
    }

    /** The defaulted constructor: empty bit string and vectors, other fields unspecified. */
    constructor ()
      ensures theAntigen == [] && parentTags == [] && mutationTime == [] && epitopes == []
    {
      theAntigen := [];
      parentTags := [];
      mutationTime := [];
      epitopes := [];
    }

    /** `calculateEpitopes`: fills a buffer of size - mhcSize values window by window. */
    method CalculateEpitopes(mhcSize: nat)
      requires mhcSize <= |theAntigen|
      modifies this
      ensures State() == old(State()).(epitopes := Epitopes(old(theAntigen), mhcSize))
    {
      var vecSize := |theAntigen| - mhcSize;
      var bitEpitope := seq(mhcSize, _ => false);
      var tmpEpis := new nat[vecSize];
      var i := 0;
      while i < vecSize
        invariant 0 <= i <= vecSize && |bitEpitope| == mhcSize
        invariant unchanged(this)
        invariant forall k :: 0 <= k < i ==> tmpEpis[k] == BitsToNat(theAntigen[k..k + mhcSize])
      {
        var j := i;
        while j < i + mhcSize
          invariant i <= j <= i + mhcSize && |bitEpitope| == mhcSize
          invariant forall k :: 0 <= k < j - i ==> bitEpitope[k] == theAntigen[i + k]
        {
          bitEpitope := bitEpitope[j - i := theAntigen[j]];
          j := j + 1;
        }
        assert bitEpitope == theAntigen[i..i + mhcSize];
        tmpEpis[i] := BitsToNat(bitEpitope);
        i := i + 1;
      }
      epitopes := tmpEpis[..];
      EpitopeAt(theAntigen, mhcSize);
      assert epitopes == Epitopes(theAntigen, mhcSize);
    }

    /** `setNewAntigen`; `uni` holds the uniform draw for each bit. */
    method SetNewAntigen(length: nat, mhcSize: nat, timeStamp: int, uni: seq<real>, tags: Tagging.TaggingSystem)
      requires |uni| == length && mhcSize <= length
      modifies this, tags
      ensures State() == NewAntigen(old(State()), length, mhcSize, timeStamp, old(tags.theTag), uni).antigen
      ensures tags.theTag == old(tags.theTag) + 1
    {
      timeOfOrigin := timeStamp;
      theParentWas := -1;
      bitStringLength := length;
      antigenTag := tags.GetTag();
      theAntigen := [];
      var tmpAntig := seq(length, _ => false);
      var i := 0;
      while i < length
        invariant 0 <= i <= length && |tmpAntig| == length
        invariant forall k :: 0 <= k < i ==> tmpAntig[k] == (uni[k] < 0.5)
      {
        tmpAntig := tmpAntig[i := uni[i] < 0.5];
        i := i + 1;
      }
      assert tmpAntig == seq(length, i requires 0 <= i < length => uni[i] < 0.5);
      theAntigen := tmpAntig;
      CalculateEpitopes(mhcSize);
    }

    /** `setAntigenFlipedPositions`: flips bits 0, nth, 2 nth, ... of the given string. */
    method SetAntigenFlipedPositions(bitgene: seq<bool>, tag: nat, nth: nat, mhcSize: nat, timeStamp: int)
      requires nth > 0 && mhcSize <= |bitgene|
      modifies this
      ensures State() == FlipedPositions(old(State()), bitgene, tag, nth, mhcSize, timeStamp)
    {
      theAntigen := bitgene;
      var size := |theAntigen|;
      var i := 0;
      while i < size
        invariant Reached(i, nth) && |theAntigen| == size == |bitgene|
        invariant parentTags == old(parentTags) && mutationTime == old(mutationTime)
        invariant forall k :: 0 <= k < size ==>
          theAntigen[k] == (if k < i && Reached(k, nth) then !bitgene[k] else bitgene[k])
        decreases size - i
      {
        theAntigen := theAntigen[i := !theAntigen[i]];
        forall k | i < k < i + nth
          ensures !Reached(k, nth)
        {
          NotReachedBetween(i, nth, k);
        }
        i := i + nth;
      }
      assert theAntigen == FlipEvery(bitgene, nth);
      timeOfOrigin := timeStamp;
      theParentWas := -1;
      bitStringLength := |bitgene|;
      antigenTag := tag;
      CalculateEpitopes(mhcSize);
    }

    /** `mutateAntgBitByBitWithRes`; `draws` holds the uniform draw for each bit. */
    method MutateAntgBitByBitWithRes(p: real, mhcSize: nat, timeStamp: int, noMutts: set<int>,
                                     draws: seq<real>, tags: Tagging.TaggingSystem)
      requires |draws| == |theAntigen|
      requires FlipWhere(theAntigen, draws, p, noMutts) != theAntigen ==> mhcSize <= |theAntigen|
      modifies this, tags
      ensures State() == MutateRestricted(old(State()), p, draws, noMutts, mhcSize, timeStamp, old(tags.theTag)).antigen
      ensures tags.theTag == MutateRestricted(old(State()), p, draws, noMutts, mhcSize, timeStamp, old(tags.theTag)).counter
    {
      var bitgene := theAntigen;
      var i := 0;
      while i < |bitgene|
        invariant 0 <= i <= |bitgene| == |theAntigen|
        invariant forall k :: 0 <= k < |bitgene| ==>
          bitgene[k] == (if k < i then FlipWhere(theAntigen, draws, p, noMutts)[k] else theAntigen[k])
      {
        if i !in noMutts {
          if draws[i] < p {
            bitgene := bitgene[i := !bitgene[i]];
          }
        }
        i := i + 1;
      }
      assert bitgene == FlipWhere(theAntigen, draws, p, noMutts);
      if theAntigen != bitgene {
        parentTags := parentTags + [antigenTag];
        mutationTime := mutationTime + [timeOfOrigin];
        antigenTag := tags.GetTag();
        timeOfOrigin := timeStamp;
        theAntigen := bitgene;
        CalculateEpitopes(mhcSize);
      }
    }

    /** `mutateAntigenBitByBit`; `draws` holds the uniform draw for each bit. */
    method MutateAntigenBitByBit(p: real, mhcSize: nat, timeStamp: int, draws: seq<real>,
                                 tags: Tagging.TaggingSystem)
      requires |draws| == |theAntigen|
      requires FlipWhere(theAntigen, draws, p, {}) != theAntigen ==> mhcSize <= |theAntigen|
      modifies this, tags
      ensures State() == Mutate(old(State()), p, draws, mhcSize, timeStamp, old(tags.theTag)).antigen
      ensures tags.theTag == Mutate(old(State()), p, draws, mhcSize, timeStamp, old(tags.theTag)).counter
    {
      var bitgene := theAntigen;
      var i := 0;
      while i < |bitgene|
        invariant 0 <= i <= |bitgene| == |theAntigen|
        invariant forall k :: 0 <= k < |bitgene| ==>
          bitgene[k] == (if k < i then FlipWhere(theAntigen, draws, p, {})[k] else theAntigen[k])
      {
        if draws[i] < p {
          bitgene := bitgene[i := !bitgene[i]];
        }
        i := i + 1;
      }
      assert bitgene == FlipWhere(theAntigen, draws, p, {});
      if theAntigen != bitgene {
        parentTags := parentTags + [antigenTag];
        mutationTime := mutationTime + [timeOfOrigin];
        antigenTag := tags.GetTag();
        timeOfOrigin := timeStamp;
        theAntigen := bitgene;
        CalculateEpitopes(mhcSize);
      }
    }

    /** `getOneEpitope`. */
    function GetOneEpitope(idx: nat): (e: nat)
      reads this
      ensures idx < |epitopes| ==> e == epitopes[idx]
      ensures idx >= |epitopes| ==> e == 0
    {
      OneEpitope(State(), idx)
    }
  }
}
