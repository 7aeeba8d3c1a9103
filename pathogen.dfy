/**
 * A pathogen: a species number, two counters the infection rounds use, and a
 * single antigen held by value.  Its text form is a header line and one
 * antigen line.
 */
module Pathogen {
  import opened Bits
  import opened Text
  import opened Wrappers
  import AG = Antigen
  import Tagging

  /** The value of a `Pathogen` object. */
  datatype PathogenState = PathogenState(
    species: int,
    numOfHostsInfected: nat,
    selectedToReproduct: int,
    pathoProtein: AG.AntigenState)

  /** A pathogen after an operation, with the tag counter after it. */
  datatype Stepped = Stepped(pathogen: PathogenState, counter: nat)

  /** `setNewPathogen`: species set, counters zeroed, a freshly drawn antigen. */
  function NewPathogen(p: PathogenState, antigenSize: nat, mhcSize: nat, species: int, timeStamp: int,
                       counter: nat, uni: seq<real>): Stepped
    requires |uni| == antigenSize && mhcSize <= antigenSize
  {
    var a := AG.NewAntigen(p.pathoProtein, antigenSize, mhcSize, timeStamp, counter, uni);
    Stepped(PathogenState(species, 0, 0, a.antigen), a.counter)
  }

  /** `setNewPathogenNthSwap`: species set, counters zeroed, the given antigen with every nth bit flipped. */
  function NewPathogenNthSwap(p: PathogenState, antigen: seq<bool>, tag: nat, mhcSize: nat, species: int,
                              timeStamp: int, nth: nat): PathogenState
    requires nth > 0 && mhcSize <= |antigen|
  {
    PathogenState(species, 0, 0, AG.FlipedPositions(p.pathoProtein, antigen, tag, nth, mhcSize, timeStamp))
  }

  /** `chromoMutProcessWithRestric`: the antigen's restricted bit-by-bit mutation. */
  function MutateRestricted(p: PathogenState, prob: real, draws: seq<real>, noMutts: set<int>,
                            mhcSize: nat, timeStamp: int, counter: nat): Stepped
    requires |draws| == |p.pathoProtein.theAntigen|
    requires FlipWhere(p.pathoProtein.theAntigen, draws, prob, noMutts) != p.pathoProtein.theAntigen ==>
      mhcSize <= |p.pathoProtein.theAntigen|
  {
    var a := AG.MutateRestricted(p.pathoProtein, prob, draws, noMutts, mhcSize, timeStamp, counter);
    Stepped(p.(pathoProtein := a.antigen), a.counter)
  }

  /** `chromoMutProcess`: the antigen's unrestricted bit-by-bit mutation. */
  function Mutate(p: PathogenState, prob: real, draws: seq<real>, mhcSize: nat, timeStamp: int,
                  counter: nat): Stepped
    requires |draws| == |p.pathoProtein.theAntigen|
    requires FlipWhere(p.pathoProtein.theAntigen, draws, prob, {}) != p.pathoProtein.theAntigen ==>
      mhcSize <= |p.pathoProtein.theAntigen|
  {
    var a := AG.Mutate(p.pathoProtein, prob, draws, mhcSize, timeStamp, counter);
    Stepped(p.(pathoProtein := a.antigen), a.counter)
  }

  function SetSpecies(p: PathogenState, n: int): PathogenState {
    p.(species := n)
  }

  function Cleared(p: PathogenState): PathogenState {
    p.(numOfHostsInfected := 0, selectedToReproduct := 0)
  }

  // ----- Text form -----

  /** The words of the header line, as a reader splitting on whitespace sees them. */
  function HeaderWords(p: PathogenState): seq<string> {
    HeaderWordsOf(IntToString(p.species), NatToString(p.numOfHostsInfected))
  }

  function HeaderWordsOf(sp: string, n: string): seq<string> {
    ["===", "Patho.", "sp.", "No.", sp, "has", "infected", n, "hosts", "==="]
  }

  /** The header line " === Patho. sp. No. S has infected N hosts ===": a blank, the words, a newline. */
  function Header(p: PathogenState): string {
    " " + Join(HeaderWords(p), ' ') + "\n"
  }

  /** The tab-separated fields of the antigen line: bits, "ch_pat", time, tag, then the parent tags. */
  function AntigenFields(a: AG.AntigenState): seq<string> {
    [ToBinaryString(a.theAntigen), "ch_pat", IntToString(a.timeOfOrigin), NatToString(a.antigenTag)] +
    NatStrings(a.parentTags)
  }

  function AntigenLine(a: AG.AntigenState): string {
    Join(AntigenFields(a), '\t') + "\n"
  }

  /** `stringGenesFromGenome`. */
  function GenomeText(p: PathogenState): string {
    Header(p) + AntigenLine(p.pathoProtein)
  }

  // ----- Properties -----

  /** Both constructors set the species and zero the two counters; only the antigen differs. */
  lemma NewPathogenZeroesCounters(p: PathogenState, antigenSize: nat, mhcSize: nat, species: int,
                                  timeStamp: int, c: nat, uni: seq<real>, antigen: seq<bool>, tag: nat, nth: nat)
    requires |uni| == antigenSize && mhcSize <= antigenSize
    requires nth > 0 && mhcSize <= |antigen|
    ensures var r := NewPathogen(p, antigenSize, mhcSize, species, timeStamp, c, uni);
      r.pathogen.species == species && r.pathogen.numOfHostsInfected == 0 &&
      r.pathogen.selectedToReproduct == 0 && r.counter == c + 1 &&
      r.pathogen.pathoProtein.antigenTag == c + 1 && AG.Consistent(r.pathogen.pathoProtein, mhcSize)
    ensures var r := NewPathogenNthSwap(p, antigen, tag, mhcSize, species, timeStamp, nth);
      r.species == species && r.numOfHostsInfected == 0 && r.selectedToReproduct == 0 &&
      r.pathoProtein.antigenTag == tag && AG.Consistent(r.pathoProtein, mhcSize) &&
      forall i :: 0 <= i < |antigen| ==> (r.pathoProtein.theAntigen[i] != antigen[i] <==> AG.Reached(i, nth))
  {
    AG.NewAntigenProps(p.pathoProtein, antigenSize, mhcSize, timeStamp, c, uni);
    AG.FlipedPositionsProps(p.pathoProtein, antigen, tag, nth, mhcSize, timeStamp);
  }

  /** `clearInfections` zeroes the two counters and nothing else; `setNewSpeciesNumber` changes only the species. */
  lemma SettersChangeOnlyTheirFields(p: PathogenState, n: int)
    ensures Cleared(p).numOfHostsInfected == 0 && Cleared(p).selectedToReproduct == 0
    ensures Cleared(p).species == p.species && Cleared(p).pathoProtein == p.pathoProtein
    ensures Cleared(Cleared(p)) == Cleared(p)
    ensures SetSpecies(p, n).species == n
    ensures SetSpecies(p, n).(species := p.species) == p
  {
  }

  /** Mutation touches only the antigen, never the species or the counters. */
  lemma MutateKeepsPathogenFields(p: PathogenState, prob: real, draws: seq<real>, noMutts: set<int>,
                                  mhcSize: nat, timeStamp: int, c: nat)
    requires |draws| == |p.pathoProtein.theAntigen|
    requires FlipWhere(p.pathoProtein.theAntigen, draws, prob, noMutts) != p.pathoProtein.theAntigen ==>
      mhcSize <= |p.pathoProtein.theAntigen|
    ensures var r := MutateRestricted(p, prob, draws, noMutts, mhcSize, timeStamp, c).pathogen;
      r.species == p.species && r.numOfHostsInfected == p.numOfHostsInfected &&
      r.selectedToReproduct == p.selectedToReproduct &&
      r.pathoProtein.theAntigen == FlipWhere(p.pathoProtein.theAntigen, draws, prob, noMutts)
  {
  }

  /** The header is one line whose whitespace-separated words carry the species and the infection count. */
  lemma HeaderReadBack(p: PathogenState)
    ensures IsLine(Header(p))
    ensures Split(Header(p)) == HeaderWords(p)
    ensures ParseInt(HeaderWords(p)[4]) == Some(p.species)
    ensures ParseInt(HeaderWords(p)[7]) == Some(p.numOfHostsInfected)
  {
    var s := IntToString(p.species);
    var n := NatToString(p.numOfHostsInfected);
    IntStringIsWord(p.species);
    NatStringIsWord(p.numOfHostsInfected);
    HeaderOfWords(s, n);
    assert HeaderWords(p) == HeaderWordsOf(s, n);
    assert HeaderWords(p)[4] == s && HeaderWords(p)[7] == n;
    ParseIntOfIntString(p.species);
    ParseIntOfNatToString(p.numOfHostsInfected);
  }

  lemma HeaderOfWords(sp: string, n: string)
    requires |sp| > 0 && NoSpace(sp) && |n| > 0 && NoSpace(n)
    ensures IsLine(" " + Join(HeaderWordsOf(sp, n), ' ') + "\n")
    ensures Split(" " + Join(HeaderWordsOf(sp, n), ' ') + "\n") == HeaderWordsOf(sp, n)
  {
    assert NoSpace("===") && NoSpace("Patho.") && NoSpace("sp.") && NoSpace("No.");
    assert NoSpace("has") && NoSpace("infected") && NoSpace("hosts");
    assert Words(HeaderWordsOf(sp, n));
    BlankJoinedLine(HeaderWordsOf(sp, n));
  }

  /** Every field of the antigen line but the bit string is a non-empty word; so is the bit string when not empty. */
  lemma AntigenFieldsAreWords(a: AG.AntigenState)
    ensures |AntigenFields(a)| == 4 + |a.parentTags|
    ensures AntigenFields(a)[0] == ToBinaryString(a.theAntigen) && AntigenFields(a)[1] == "ch_pat"
    ensures NoNewline(AntigenFields(a)[0])
    ensures Words(AntigenFields(a)[1..])
    ensures |a.theAntigen| > 0 ==> Words(AntigenFields(a))
  {
    var f := AntigenFields(a);
    var b := ToBinaryString(a.theAntigen);
    ToBinaryStringIsBinary(a.theAntigen);
    BinaryTextIsWord(b);
    IntStringIsWord(a.timeOfOrigin);
    NatStringIsWord(a.antigenTag);
    forall i | 4 <= i < |f|
      ensures |f[i]| > 0 && NoSpace(f[i])
    {
      NatStringIsWord(a.parentTags[i - 4]);
    }
  }

  /** The antigen line is a single line. */
  lemma AntigenLineIsLine(a: AG.AntigenState)
    ensures IsLine(AntigenLine(a))
  {
    var f := AntigenFields(a);
    AntigenFieldsAreWords(a);
    WordsNoNewline(f[1..]);
    forall i | 0 <= i < |f|
      ensures NoNewline(f[i])
    {
      if i > 0 {
        assert f[i] == f[1..][i - 1];
      }
    }
    JoinNoNewline(f, '\t');
    LineOf(Join(f, '\t'));
  }

  /**
   * Splitting a non-empty antigen's line on whitespace gives back the bits,
   * "ch_pat", the origin time, the own tag and every parent tag in order, with
   * no mutation times; the numbers parse back to the stored values.
   */
  lemma AntigenLineReadBack(a: AG.AntigenState)
    ensures |a.theAntigen| > 0 ==> Split(AntigenLine(a)) == AntigenFields(a)
    ensures |AntigenFields(a)| == 4 + |a.parentTags|
    ensures AntigenFields(a)[0] == ToBinaryString(a.theAntigen) && AntigenFields(a)[1] == "ch_pat"
    ensures ParseInt(AntigenFields(a)[2]) == Some(a.timeOfOrigin)
    ensures ParseInt(AntigenFields(a)[3]) == Some(a.antigenTag)
    ensures forall j :: 0 <= j < |a.parentTags| ==> ParseInt(AntigenFields(a)[4 + j]) == Some(a.parentTags[j])
  {
    AntigenLineSplits(a);
    AntigenFieldsParse(a);
  }

  lemma AntigenLineSplits(a: AG.AntigenState)
    ensures |a.theAntigen| > 0 ==> Split(AntigenLine(a)) == AntigenFields(a)
  {
    AntigenFieldsAreWords(a);
    if |a.theAntigen| > 0 {
      SplitJoin(AntigenFields(a), '\t', "\n");
    }
  }

  lemma AntigenFieldsParse(a: AG.AntigenState)
    ensures |AntigenFields(a)| == 4 + |a.parentTags|
    ensures AntigenFields(a)[0] == ToBinaryString(a.theAntigen) && AntigenFields(a)[1] == "ch_pat"
    ensures ParseInt(AntigenFields(a)[2]) == Some(a.timeOfOrigin)
    ensures ParseInt(AntigenFields(a)[3]) == Some(a.antigenTag)
    ensures forall j :: 0 <= j < |a.parentTags| ==> ParseInt(AntigenFields(a)[4 + j]) == Some(a.parentTags[j])
  {
    AntigenFieldsAt(a);
    ParseIntOfIntString(a.timeOfOrigin);
    ParseIntOfNatToString(a.antigenTag);
    AntigenParentsParse(a);
  }

  lemma AntigenFieldsAt(a: AG.AntigenState)
    ensures |AntigenFields(a)| == 4 + |a.parentTags|
    ensures AntigenFields(a)[0] == ToBinaryString(a.theAntigen) && AntigenFields(a)[1] == "ch_pat"
    ensures AntigenFields(a)[2] == IntToString(a.timeOfOrigin) && AntigenFields(a)[3] == NatToString(a.antigenTag)
    ensures forall j :: 0 <= j < |a.parentTags| ==> AntigenFields(a)[4 + j] == NatToString(a.parentTags[j])
  {
  }

  lemma AntigenParentsParse(a: AG.AntigenState)
    ensures forall j :: 0 <= j < |a.parentTags| ==> ParseInt(AntigenFields(a)[4 + j]) == Some(a.parentTags[j])
  {
    AntigenFieldsAt(a);
    forall j | 0 <= j < |a.parentTags|
      ensures ParseInt(AntigenFields(a)[4 + j]) == Some(a.parentTags[j])
    {
      ParseIntOfNatToString(a.parentTags[j]);
    }
  }

  /** The genome text is exactly two lines: the header, then the antigen line. */
  lemma GenomeTextLines(p: PathogenState)
    ensures Lines(GenomeText(p)) == [Header(p), AntigenLine(p.pathoProtein)]
  {
    HeaderReadBack(p);
    AntigenLineIsLine(p.pathoProtein);
    TwoLines(Header(p), AntigenLine(p.pathoProtein));
  }

  /** The antigen line: the four leading fields, then the parent tags. */
  method StringAntigen(a: AG.AntigenState) returns (s: string)
    ensures s == AntigenLine(a)
  {
    var fields := [ToBinaryString(a.theAntigen)];
    s := ToBinaryString(a.theAntigen);
    s := AppendField("", s, fields, "ch_pat");
    fields := fields + ["ch_pat"];
    s := AppendField("", s, fields, IntToString(a.timeOfOrigin));
    fields := fields + [IntToString(a.timeOfOrigin)];
    s := AppendField("", s, fields, NatToString(a.antigenTag));
    fields := fields + [NatToString(a.antigenTag)];
    s := StringParentTags(s, a.parentTags, fields);
    assert fields + NatStrings(a.parentTags) == AntigenFields(a);
    s := s + "\n";
  }

  /** The loop appending "\t tag_j" for each parent j. */
  method StringParentTags(s0: string, pt: seq<nat>, ghost head: seq<string>) returns (s: string)
    requires |head| > 0 && s0 == "" + Join(head, '\t')
    ensures s == "" + Join(head + NatStrings(pt), '\t')
  {
    s := s0;
    ghost var fields := head;
    var j := 0;
    assert head + NatStrings(pt[..0]) == head;
    while j < |pt|
      invariant 0 <= j <= |pt|
      invariant fields == head + NatStrings(pt[..j])
      invariant s == "" + Join(fields, '\t')
    {
      s := AppendField("", s, fields, NatToString(pt[j]));
      fields := fields + [NatToString(pt[j])];
      NatStringsSnoc(pt, j);
      j := j + 1;
    }
    assert pt[..j] == pt;
  }

  /** A pathogen object; its antigen is a member object it owns. */
  class Pathogen {
    var species: int
    var numOfHostsInfected: nat
    var selectedToReproduct: int
    const pathoProtein: AG.Antigen

    function State(): PathogenState
      reads this, pathoProtein
    {
      PathogenState(species, numOfHostsInfected, selectedToReproduct, pathoProtein.State())
    }

    /** The defaulted constructor: an empty antigen, other fields unspecified. */
    constructor ()
      ensures fresh(pathoProtein)
      ensures pathoProtein.theAntigen == [] && pathoProtein.parentTags == [] && pathoProtein.mutationTime == []
    {
      pathoProtein := new AG.Antigen();
    }

    method SetNewPathogen(antigenSize: nat, mhcSize: nat, sp: int, timeStamp: int, uni: seq<real>,
                          tags: Tagging.TaggingSystem)
      requires |uni| == antigenSize && mhcSize <= antigenSize
      modifies this, pathoProtein, tags
      ensures State() == NewPathogen(old(State()), antigenSize, mhcSize, sp, timeStamp, old(tags.theTag), uni).pathogen
      ensures tags.theTag == old(tags.theTag) + 1
    {
      species := sp;
      numOfHostsInfected := 0;
      selectedToReproduct := 0;
      pathoProtein.SetNewAntigen(antigenSize, mhcSize, timeStamp, uni, tags);
    }

    method SetNewPathogenNthSwap(antigen: seq<bool>, tag: nat, mhcSize: nat, sp: int, timeStamp: int,
                                 nth: nat)
      requires nth > 0 && mhcSize <= |antigen|
      modifies this, pathoProtein
      ensures State() == NewPathogenNthSwap(old(State()), antigen, tag, mhcSize, sp, timeStamp, nth)
    {
      species := sp;
      numOfHostsInfected := 0;
      selectedToReproduct := 0;
      pathoProtein.SetAntigenFlipedPositions(antigen, tag, nth, mhcSize, timeStamp);
    }

    method ChromoMutProcess(prob: real, mhcSize: nat, timeStamp: int, draws: seq<real>,
                            tags: Tagging.TaggingSystem)
      requires |draws| == |pathoProtein.theAntigen|
      requires FlipWhere(pathoProtein.theAntigen, draws, prob, {}) != pathoProtein.theAntigen ==>
        mhcSize <= |pathoProtein.theAntigen|
      modifies pathoProtein, tags
      ensures State() == Mutate(old(State()), prob, draws, mhcSize, timeStamp, old(tags.theTag)).pathogen
      ensures tags.theTag == Mutate(old(State()), prob, draws, mhcSize, timeStamp, old(tags.theTag)).counter
    {
      pathoProtein.MutateAntigenBitByBit(prob, mhcSize, timeStamp, draws, tags);
    }

    method ChromoMutProcessWithRestric(prob: real, mhcSize: nat, timeStamp: int, noMutts: set<int>,
                                       draws: seq<real>, tags: Tagging.TaggingSystem)
      requires |draws| == |pathoProtein.theAntigen|
      requires FlipWhere(pathoProtein.theAntigen, draws, prob, noMutts) != pathoProtein.theAntigen ==>
        mhcSize <= |pathoProtein.theAntigen|
      modifies pathoProtein, tags
      ensures State() == MutateRestricted(old(State()), prob, draws, noMutts, mhcSize, timeStamp,
                                          old(tags.theTag)).pathogen
      ensures tags.theTag == MutateRestricted(old(State()), prob, draws, noMutts, mhcSize, timeStamp,
                                              old(tags.theTag)).counter
    {
      pathoProtein.MutateAntgBitByBitWithRes(prob, mhcSize, timeStamp, noMutts, draws, tags);
    }

    method SetNewSpeciesNumber(n: int)
      modifies this
      ensures State() == SetSpecies(old(State()), n)
    {
      species := n;
    }

    function GetSpeciesTag(): (s: int)
      reads this
      ensures s == State().species
    {
      species
    }

    method ClearInfections()
      modifies this
      ensures State() == Cleared(old(State()))
    {
      numOfHostsInfected := 0;
      selectedToReproduct := 0;
    }

    /** The text is the header followed by the antigen's line. */
    method StringGenesFromGenome() returns (s: string)
      ensures s == GenomeText(State())
    {
      s := Header(State());
      var line := StringAntigen(pathoProtein.State());
      s := s + line;
    }
  }
}
