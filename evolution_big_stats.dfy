/**
 * PyScripts/evolution_big_stats.py: reads the genes of a host genome file
 * back into ancestry chains and walks them down to the most recent common
 * ancestor.
 *
 * `loadHostPopulation` keeps, per distinct bit string, the first gene line
 * that carries it and turns it into two parallel chains: the tags of the
 * gene's ancestors followed by its own tag, and their mutation times followed
 * by its own origin time (all as text).  `findTheOnesAtBeginning` lists the
 * distinct chain items at one depth, `findMRCA` walks down while that list
 * has a single item, and `timeOfExistence` takes time differences.
 */
module EvolutionBigStats {
  import opened Wrappers
  import opened Text
  import opened Bits
  import opened SeqUtil
  import opened Python
  import G = Gene
  import HM = Host
  import DH = DataHandler
  import HF = HostFile

  // ----- loadHostPopulation -----

  /** The dedup key `bts.BitString(bin=LL[0]).int`; a blank line has no `LL[0]`. */
  function LineKey(ll: seq<string>): PyResult<int> {
    if |ll| == 0 then Raise(IndexError) else BitStringInt(ll[0])
  }

  /** `LL[5::2] + [LL[3]]`: the parents' tags, then the gene's own tag. */
  function TagChain(ll: seq<string>): seq<string>
    requires |ll| >= 4
  {
    Every2(ll, 5) + [ll[3]]
  }

  /** `LL[4::2] + [LL[2]]`: the parents' mutation times, then the gene's own origin time. */
  function TimeChain(ll: seq<string>): seq<string>
    requires |ll| >= 4
  {
    Every2(ll, 4) + [ll[2]]
  }

  /** The loader's three lists: `B_list`, `Mut_tags`, `Mut_times`. */
  datatype Loaded = Loaded(keys: seq<int>, tags: seq<seq<string>>, times: seq<seq<string>>)

  /** The loop body on a gene line split into `ll`: a new key appends both chains. */
  function LoadFields(acc: Loaded, ll: seq<string>): PyResult<Loaded> {
    match LineKey(ll)
    case Raise(e) => Raise(e)
    case Ok(bb) =>
      if bb in acc.keys then Ok(acc)
      else if |ll| < 4 then Raise(IndexError)
      else Ok(Loaded(acc.keys + [bb], acc.tags + [TagChain(ll)], acc.times + [TimeChain(ll)]))
  }

  /** One pass of the loop body over `line`. */
  function LoadStep(acc: Loaded, line: string): PyResult<Loaded> {
    if HF.Skipped(line) then Ok(acc) else LoadFields(acc, Split(line))
  }

  /** The loop over all lines; the first exception ends it. */
  function LoadLines(lines: seq<string>): PyResult<Loaded> {
    if lines == [] then Ok(Loaded([], [], []))
    else
      match LoadLines(lines[..|lines| - 1])
      case Raise(e) => Raise(e)
      case Ok(acc) => LoadStep(acc, lines[|lines| - 1])
  }

  /**
   * `loadHostPopulation(FILE)`: `(Mut_tags, Mut_times)`, or `None` when the
   * file cannot be opened (the IOError handler prints and falls off the end).
   * Any other exception propagates.
   */
  function HostPopulation(file: Option<seq<string>>): PyResult<Option<(seq<seq<string>>, seq<seq<string>>)>> {
    match file
    case None => Ok(None)
    case Some(lines) =>
      match LoadLines(lines)
      case Raise(e) => Raise(e)
      case Ok(l) => Ok(Some((l.tags, l.times)))
  }

  method LoadHostPopulation(file: Option<seq<string>>) returns (r: PyResult<Option<(seq<seq<string>>, seq<seq<string>>)>>)
    ensures r == HostPopulation(file)
  {
    if file.None? {
      return Ok(None);
    }
    var lines := file.value;
    var bList: seq<int> := [];
    var mutTags: seq<seq<string>> := [];
    var mutTimes: seq<seq<string>> := [];
    var i := 0;
    while i < |lines|
      invariant 0 <= i <= |lines|
      invariant LoadLines(lines[..i]) == Ok(Loaded(bList, mutTags, mutTimes))
    {
      var line := lines[i];
      LoadLinesNext(lines, i);
      if HF.Skipped(line) {
        i := i + 1;
        continue;
      }
      var ll := Split(line);
      var key := LineKey(ll);
      if key.Raise? {
        LoadLinesRaise(lines, i + 1, key.error);
        return Raise(key.error);
      }
      var bb := key.value;
      if bb !in bList {
        if |ll| < 4 {
          LoadLinesRaise(lines, i + 1, IndexError);
          return Raise(IndexError);
        }
        bList := bList + [bb];
        mutTags := mutTags + [TagChain(ll)];
        mutTimes := mutTimes + [TimeChain(ll)];
      }
      i := i + 1;
    }
    assert lines[..i] == lines;
    return Ok(Some((mutTags, mutTimes)));
  }

  /** One more line: the loop body applied to what the loop held before it. */
  lemma LoadLinesNext(lines: seq<string>, i: nat)
    requires i < |lines| && LoadLines(lines[..i]).Ok?
    ensures LoadLines(lines[..i + 1]) == LoadStep(LoadLines(lines[..i]).value, lines[i])
  {
    assert lines[..i + 1][..i] == lines[..i];
  }

  /** Once the loop has raised on a prefix, the whole file raises the same exception. */
  lemma {:induction false} LoadLinesRaise(lines: seq<string>, n: nat, e: PyError)
    requires n <= |lines| && LoadLines(lines[..n]) == Raise(e)
    ensures LoadLines(lines) == Raise(e)
    decreases |lines| - n
  {
    if n < |lines| {
      assert lines[..n + 1][..n] == lines[..n];
      LoadLinesRaise(lines, n + 1, e);
    } else {
      assert lines[..n] == lines;
    }
  }

  /** Skipped lines change nothing: the loader reads only the gene lines. */
  lemma {:induction false} LoadLinesData(lines: seq<string>)
    ensures LoadLines(lines) == LoadLines(HF.DataLines(lines))
  {
    if lines != [] {
      var p := lines[..|lines| - 1];
      var x := lines[|lines| - 1];
      LoadLinesData(p);
      if !HF.Skipped(x) {
        var d := HF.DataLines(p) + [x];
        assert d[..|d| - 1] == HF.DataLines(p);
      }
    }
  }

  /** The key of each line, 0 where it has none. */
  function KeyOf(ll: seq<string>): int {
    match LineKey(ll)
    case Ok(v) => v
    case Raise(_) => 0
  }

  /** The keys of the field lists, in order. */
  function Keys(df: seq<seq<string>>): (r: seq<int>)
    ensures |r| == |df|
    ensures forall i :: 0 <= i < |df| ==> r[i] == KeyOf(df[i])
  {
    seq(|df|, i requires 0 <= i < |df| => KeyOf(df[i]))
  }

  /**
   * Dedup on the bit string: after a successful load, every gene line has a
   * key, `B_list` is the distinct keys in first-appearance order, and the
   * k-th chains come from the first gene line carrying the k-th key.
   */
  predicate FirstLinesKept(df: seq<seq<string>>, l: Loaded) {
    var ks := Keys(df);
    (forall i :: 0 <= i < |df| ==> LineKey(df[i]).Ok?) &&
    l.keys == Distinct(ks) &&
    |l.tags| == |l.keys| && |l.times| == |l.keys| &&
    forall k :: 0 <= k < |l.keys| ==> KeptAt(df, ks, l, k)
  }

  /** The k-th chains are those of the first line whose key is the k-th key. */
  predicate KeptAt(df: seq<seq<string>>, ks: seq<int>, l: Loaded, k: nat) {
    k < |l.keys| && k < |l.tags| && k < |l.times| && |ks| == |df| && l.keys[k] in ks &&
    var line := df[FirstIndex(ks, l.keys[k])];
    |line| >= 4 && l.tags[k] == TagChain(line) && l.times[k] == TimeChain(line)
  }

  lemma {:induction false} LoadLinesFirst(lines: seq<string>)
    requires LoadLines(lines).Ok?
    ensures FirstLinesKept(HF.FieldsOf(HF.DataLines(lines)), LoadLines(lines).value)
  {
    if lines != [] {
      var p := lines[..|lines| - 1];
      var x := lines[|lines| - 1];
      LoadLinesFirst(p);
      if !HF.Skipped(x) {
        var d := HF.DataLines(p);
        assert HF.DataLines(lines) == d + [x];
        FirstKeptStep(HF.FieldsOf(d), LoadLines(p).value, Split(x));
        assert HF.FieldsOf(d + [x]) == HF.FieldsOf(d) + [Split(x)];
      }
    }
  }

  /** One more gene line keeps the invariant. */
  lemma {:induction false} FirstKeptStep(df: seq<seq<string>>, l: Loaded, ll: seq<string>)
    requires FirstLinesKept(df, l)
    requires LoadFields(l, ll).Ok?
    ensures FirstLinesKept(df + [ll], LoadFields(l, ll).value)
  {
    var ks := Keys(df);
    var key := KeyOf(ll);
    assert Keys(df + [ll]) == ks + [key];
    DistinctProps(ks);
    if key in ks {
      FirstKeptOld(df, l, ll);
    } else {
      FirstKeptNew(df, l, ll);
    }
  }

  lemma FirstKeptOld(df: seq<seq<string>>, l: Loaded, ll: seq<string>)
    requires FirstLinesKept(df, l)
    requires LineKey(ll).Ok? && KeyOf(ll) in Keys(df)
    requires Keys(df + [ll]) == Keys(df) + [KeyOf(ll)]
    ensures FirstLinesKept(df + [ll], l)
  {
    var ks := Keys(df);
    var ks2 := Keys(df + [ll]);
    DistinctProps(ks);
    assert ks2[..|ks2| - 1] == ks;
    assert Distinct(ks2) == Distinct(ks);
    forall k | 0 <= k < |l.keys|
      ensures KeptAt(df + [ll], ks2, l, k)
    {
      KeptAtExtend(df, l, ll, l, k);
    }
  }

  /** A key's chains still come from its first line once another line is appended. */
  lemma KeptAtExtend(df: seq<seq<string>>, l: Loaded, ll: seq<string>, l2: Loaded, k: nat)
    requires KeptAt(df, Keys(df), l, k)
    requires Keys(df + [ll]) == Keys(df) + [KeyOf(ll)]
    requires k < |l2.keys| && k < |l2.tags| && k < |l2.times|
    requires l2.keys[k] == l.keys[k] && l2.tags[k] == l.tags[k] && l2.times[k] == l.times[k]
    ensures KeptAt(df + [ll], Keys(df + [ll]), l2, k)
  {
    var ks := Keys(df);
    var y := l.keys[k];
    FirstIndexPrefix(ks, KeyOf(ll), y);
    assert (df + [ll])[FirstIndex(ks, y)] == df[FirstIndex(ks, y)];
  }

  lemma FirstKeptNew(df: seq<seq<string>>, l: Loaded, ll: seq<string>)
    requires FirstLinesKept(df, l)
    requires LineKey(ll).Ok? && KeyOf(ll) !in Keys(df) && |ll| >= 4
    requires Keys(df + [ll]) == Keys(df) + [KeyOf(ll)]
    ensures FirstLinesKept(df + [ll], Loaded(l.keys + [KeyOf(ll)], l.tags + [TagChain(ll)], l.times + [TimeChain(ll)]))
  {
    var ks := Keys(df);
    var key := KeyOf(ll);
    var df2 := df + [ll];
    var ks2 := Keys(df2);
    var l2 := Loaded(l.keys + [key], l.tags + [TagChain(ll)], l.times + [TimeChain(ll)]);
    DistinctProps(ks);
    assert ks2[..|ks2| - 1] == ks;
    assert Distinct(ks2) == Distinct(ks) + [key];
    forall k | 0 <= k < |l2.keys|
      ensures KeptAt(df2, ks2, l2, k)
    {
      if k < |l.keys| {
        KeptAtExtend(df, l, ll, l2, k);
      } else {
        FirstIndexLast(ks, key);
        assert l2.keys[k] == key && df2[|df|] == ll;
      }
    }
  }

  /** A line the loader can take: it has a key and at least four fields. */
  predicate Readable(ll: seq<string>) {
    LineKey(ll).Ok? && |ll| >= 4
  }

  /** The loader gets through lines whose gene lines are all readable. */
  lemma {:induction false} LoadLinesOk(lines: seq<string>)
    requires forall i :: 0 <= i < |lines| ==> HF.Skipped(lines[i]) || Readable(Split(lines[i]))
    ensures LoadLines(lines).Ok?
  {
    if lines != [] {
      LoadLinesOk(lines[..|lines| - 1]);
    }
  }

  // ----- the chains of a line the simulator wrote -----

  /**
   * Chain-length parity: the tag chain has one item per field pair after the
   * fourth field plus the own tag; the time chain is one longer exactly when
   * the number of fields is odd.
   */
  lemma ChainLengths(ll: seq<string>)
    requires |ll| >= 4
    ensures |TagChain(ll)| == (|ll| - 4) / 2 + 1
    ensures |TimeChain(ll)| == |TagChain(ll)| + |ll| % 2
  {
    Every2Items(ll, 5);
    Every2Items(ll, 4);
  }

  /** A gene line of a gene of non-zero length splits into its fields and has a key: the loader takes it. */
  lemma GeneLineReadable(g: G.GeneState, ch: string)
    requires |g.parentTags| <= |g.mutationTime| && HF.ChromName(ch) && g.bitStringLength > 0
    ensures Split(HM.GeneLine(g, ch)) == HM.GeneFields(g, ch)
    ensures Readable(Split(HM.GeneLine(g, ch)))
    ensures LineKey(Split(HM.GeneLine(g, ch))) == BitStringInt(ToBinaryString(G.BitGene(g)))
  {
    assert NoSpace(ch);
    HM.GeneLineSplits(g, ch);
    ToBinaryStringIsBinary(G.BitGene(g));
  }

  /**
   * A line with k >= 1 parent pairs gives two chains of length k + 1: the
   * parents' tags then the own tag, and the parents' mutation times then the
   * own origin time, each reading back as the stored number.
   */
  lemma GeneLineChains(g: G.GeneState, ch: string)
    requires |g.parentTags| <= |g.mutationTime| && HF.ChromName(ch) && g.bitStringLength > 0
    requires |g.parentTags| > 0
    ensures var ll := Split(HM.GeneLine(g, ch)); var k := |g.parentTags|;
      |ll| >= 4 && |TagChain(ll)| == k + 1 && |TimeChain(ll)| == k + 1 &&
      ParseInt(TagChain(ll)[k]) == Some(g.genesTag) && ParseInt(TimeChain(ll)[k]) == Some(g.timeOfOrigin) &&
      forall j :: 0 <= j < k ==>
        ParseInt(TagChain(ll)[j]) == Some(g.parentTags[j]) && ParseInt(TimeChain(ll)[j]) == Some(g.mutationTime[j])
  {
    GeneLineReadable(g, ch);
    HM.GeneHeadRead(g, ch);
    HM.GeneTailRead(g, ch);
    FieldChains(HM.GeneFields(g, ch), g.parentTags, g.mutationTime, g.genesTag, g.timeOfOrigin);
  }

  /** The chains of any field list laid out as a gene line with parents. */
  lemma FieldChains(ll: seq<string>, pt: seq<nat>, mt: seq<int>, tag: nat, origin: int)
    requires |pt| > 0 && |ll| == 4 + 2 * |pt| && |pt| <= |mt|
    requires ParseInt(ll[2]) == Some(origin) && ParseInt(ll[3]) == Some(tag)
    requires forall j :: 0 <= j < |pt| ==> ParseInt(ll[4 + 2 * j]) == Some(mt[j]) && ParseInt(ll[5 + 2 * j]) == Some(pt[j])
    ensures var k := |pt|;
      |TagChain(ll)| == k + 1 && |TimeChain(ll)| == k + 1 &&
      ParseInt(TagChain(ll)[k]) == Some(tag) && ParseInt(TimeChain(ll)[k]) == Some(origin) &&
      forall j :: 0 <= j < k ==> ParseInt(TagChain(ll)[j]) == Some(pt[j]) && ParseInt(TimeChain(ll)[j]) == Some(mt[j])
  {
    var k := |pt|;
    EvenChains(ll, k);
    forall j | 0 <= j < k
      ensures ParseInt(TagChain(ll)[j]) == Some(pt[j]) && ParseInt(TimeChain(ll)[j]) == Some(mt[j])
    {
      assert TagChain(ll)[j] == ll[5 + 2 * j];
      assert TimeChain(ll)[j] == ll[4 + 2 * j];
    }
  }

  /** With an even number of fields, item j of the chains is field pair j and the last items are fields 3 and 2. */
  lemma {:induction false} EvenChains(ll: seq<string>, k: nat)
    requires |ll| == 4 + 2 * k
    ensures |TagChain(ll)| == k + 1 && |TimeChain(ll)| == k + 1
    ensures TagChain(ll)[k] == ll[3] && TimeChain(ll)[k] == ll[2]
    ensures forall j :: 0 <= j < k ==> TagChain(ll)[j] == ll[5 + 2 * j] && TimeChain(ll)[j] == ll[4 + 2 * j]
  {
    Every2Items(ll, 5);
    Every2Items(ll, 4);
    assert |Every2(ll, 5)| == k && |Every2(ll, 4)| == k;
  }

  /**
   * The `-1` marker of a gene without parents lands in the time chain: the
   * tag chain is just the own tag, the time chain is "-1" then the origin time.
   */
  lemma GeneLineMarkerChains(g: G.GeneState, ch: string)
    requires |g.parentTags| <= |g.mutationTime| && HF.ChromName(ch) && g.bitStringLength > 0
    requires |g.parentTags| == 0
    ensures var ll := Split(HM.GeneLine(g, ch));
      |ll| >= 4 && TagChain(ll) == [NatToString(g.genesTag)] && TimeChain(ll) == ["-1", IntToString(g.timeOfOrigin)]
  {
    GeneLineReadable(g, ch);
    MarkerFields(g, ch);
    MarkerChains(ToBinaryString(G.BitGene(g)), ch, IntToString(g.timeOfOrigin), NatToString(g.genesTag));
  }

  /** The fields of a gene without parents: bits, chromosome, origin time, tag and the marker. */
  lemma MarkerFields(g: G.GeneState, ch: string)
    requires |g.parentTags| <= |g.mutationTime| && |g.parentTags| == 0
    ensures HM.GeneFields(g, ch) == [ToBinaryString(G.BitGene(g)), ch, IntToString(g.timeOfOrigin), NatToString(g.genesTag), "-1"]
  {
  }

  lemma MarkerChains(bits: string, ch: string, origin: string, tag: string)
    ensures TagChain([bits, ch, origin, tag, "-1"]) == [tag]
    ensures TimeChain([bits, ch, origin, tag, "-1"]) == ["-1", origin]
  {
    var ll := [bits, ch, origin, tag, "-1"];
    assert Every2(ll, 5) == [];
    assert Every2(ll, 4) == [ll[4]] + Every2(ll, 6);
  }

  lemma GeneLinesReadable(chr: seq<G.GeneState>, ch: string)
    requires HM.Printable(chr) && HF.ChromName(ch)
    requires forall k :: 0 <= k < |chr| ==> chr[k].bitStringLength > 0
    ensures forall i :: 0 <= i < |HM.GeneLines(chr, ch)| ==> Readable(Split(HM.GeneLines(chr, ch)[i]))
  {
    forall i | 0 <= i < |chr|
      ensures Readable(Split(HM.GeneLine(chr[i], ch)))
    {
      GeneLineReadable(chr[i], ch);
    }
  }

  lemma {:induction false} PopulationReadable(hosts: seq<HM.HostState>)
    requires DH.PrintableHosts(hosts) && HF.GenesNonEmpty(hosts)
    ensures forall i :: 0 <= i < |HF.PopulationGeneLines(hosts)| ==> Readable(Split(HF.PopulationGeneLines(hosts)[i]))
  {
    if hosts != [] {
      var n := |hosts| - 1;
      var h := hosts[n];
      PopulationReadable(hosts[..n]);
      GeneLinesReadable(h.chromosomeOne, "ch_one");
      GeneLinesReadable(h.chromosomeTwo, "ch_two");
      ReadableAppend3(HF.PopulationGeneLines(hosts[..n]), HM.GeneLines(h.chromosomeOne, "ch_one"),
        HM.GeneLines(h.chromosomeTwo, "ch_two"));
    }
  }

  lemma ReadableAppend3(a: seq<string>, b: seq<string>, c: seq<string>)
    requires forall i :: 0 <= i < |a| ==> Readable(Split(a[i]))
    requires forall i :: 0 <= i < |b| ==> Readable(Split(b[i]))
    requires forall i :: 0 <= i < |c| ==> Readable(Split(c[i]))
    ensures forall i :: 0 <= i < |a + (b + c)| ==> Readable(Split((a + (b + c))[i]))
  {
  }

  /**
   * The round trip: loading a host genome file that the simulator wrote
   * succeeds, skips the comment and header lines, and keeps the first gene
   * line per distinct bit string, in the order the hosts were written.
   */
  lemma HostFileLoads(hosts: seq<HM.HostState>, tayme: int)
    requires DH.PrintableHosts(hosts) && HF.GenesNonEmpty(hosts)
    ensures var genes := HF.PopulationGeneLines(hosts);
      LoadLines(genes).Ok? &&
      FirstLinesKept(HF.FieldsOf(genes), LoadLines(genes).value) &&
      HostPopulation(Some(Lines(DH.HostGenomesText(hosts, tayme)))) ==
        Ok(Some((LoadLines(genes).value.tags, LoadLines(genes).value.times)))
  {
    var lines := Lines(DH.HostGenomesText(hosts, tayme));
    var genes := HF.PopulationGeneLines(hosts);
    HF.HostGenomesFileRead(hosts, tayme);
    LoadLinesData(lines);
    PopulationReadable(hosts);
    LoadLinesOk(genes);
    LoadLinesFirst(genes);
    HF.DataLinesNoneSkipped(genes);
  }

  // ----- findTheOnesAtBeginning, numberOfMutList -----

  /** `itm[jj]` of every chain that has one, in order; the others raise IndexError, which is passed over. */
  function Column(m: seq<seq<string>>, jj: int): seq<string> {
    if m == [] then []
    else
      var c := Column(m[..|m| - 1], jj);
      match Index(m[|m| - 1], jj)
      case Some(v) => c + [v]
      case None => c
  }

  /** For a depth jj >= 0 the column holds exactly the items at jj of the chains longer than jj. */
  lemma {:induction false} ColumnItems(m: seq<seq<string>>, jj: nat)
    ensures forall x :: x in Column(m, jj) <==> exists i :: 0 <= i < |m| && jj < |m[i]| && m[i][jj] == x
  {
    if m != [] {
      var p := m[..|m| - 1];
      ColumnItems(p, jj);
      forall x | (exists i :: 0 <= i < |m| && jj < |m[i]| && m[i][jj] == x)
        ensures x in Column(m, jj)
      {
        var i :| 0 <= i < |m| && jj < |m[i]| && m[i][jj] == x;
        if i < |p| {
          assert p[i] == m[i];
        }
      }
      forall x | x in Column(m, jj)
        ensures exists i :: 0 <= i < |m| && jj < |m[i]| && m[i][jj] == x
      {
        if x in Column(p, jj) {
          var i :| 0 <= i < |p| && jj < |p[i]| && p[i][jj] == x;
          assert m[i] == p[i];
        } else {
          assert m[|m| - 1][jj] == x;
        }
      }
    }
  }

  /** `findTheOnesAtBeginning(Mut_tags, jj)`. */
  method FindTheOnesAtBeginning(mutTags: seq<seq<string>>, jj: int) returns (ll: seq<string>)
    ensures ll == Distinct(Column(mutTags, jj))
  {
    ll := [];
    var i := 0;
    while i < |mutTags|
      invariant 0 <= i <= |mutTags|
      invariant ll == Distinct(Column(mutTags[..i], jj))
    {
      assert mutTags[..i + 1][..i] == mutTags[..i];
      var itm := mutTags[i];
      var v := Index(itm, jj);
      if v.Some? {
        if v.value !in ll {
          ll := ll + [v.value];
        }
        assert Column(mutTags[..i + 1], jj) == Column(mutTags[..i], jj) + [v.value];
      }
      i := i + 1;
    }
    assert mutTags[..i] == mutTags;
  }

  /**
   * The distinct items at depth jj, each once, in the order in which they
   * first appear going down the chain list; chains too short for jj are skipped.
   */
  lemma OnesAtDepth(mutTags: seq<seq<string>>, jj: nat)
    ensures NoDup(Distinct(Column(mutTags, jj)))
    ensures forall x :: x in Distinct(Column(mutTags, jj)) <==>
      exists i :: 0 <= i < |mutTags| && jj < |mutTags[i]| && mutTags[i][jj] == x
    ensures FirstOrder(Column(mutTags, jj), Distinct(Column(mutTags, jj)))
  {
    DistinctProps(Column(mutTags, jj));
    DistinctOrder(Column(mutTags, jj));
    ColumnItems(mutTags, jj);
  }

  /** `numberOfMutList(Mut_tags)`: the length of each chain. */
  method NumberOfMutList(mutTags: seq<seq<string>>) returns (ll: seq<int>)
    ensures |ll| == |mutTags|
    ensures forall i :: 0 <= i < |mutTags| ==> ll[i] == |mutTags[i]|
  {
    ll := [];
    var i := 0;
    while i < |mutTags|
      invariant 0 <= i <= |mutTags| && |ll| == i
      invariant forall k :: 0 <= k < i ==> ll[k] == |mutTags[k]|
    {
      ll := ll + [|mutTags[i]|];
      i := i + 1;
    }
  }

  // ----- findMRCA -----

  /** `np.max` of the chain lengths. */
  function MaxLen(m: seq<seq<string>>): (r: nat)
    requires |m| > 0
    ensures forall i :: 0 <= i < |m| ==> |m[i]| <= r
    ensures exists i :: 0 <= i < |m| && |m[i]| == r
  {
    if |m| == 1 then |m[0]|
    else
      var r := MaxLen(m[..|m| - 1]);
      assert forall i :: 0 <= i < |m| - 1 ==> m[..|m| - 1][i] == m[i];
      if |m[|m| - 1]| > r then |m[|m| - 1]| else r
  }

  /** The number of distinct items at depth x. */
  function Ones(m: seq<seq<string>>, x: nat): nat {
    |Distinct(Column(m, x))|
  }

  /** The loop `for x in range(maxx)` from x on: the first depth whose distinct count is not 1, or maxx. */
  function WalkEnd(m: seq<seq<string>>, x: nat, maxx: nat): (e: nat)
    ensures x <= e && (x <= maxx ==> e <= maxx)
    decreases maxx - x
  {
    if x < maxx && Ones(m, x) == 1 then WalkEnd(m, x + 1, maxx) else x
  }

  /** The depth the walk ends on: the last one before the first depth without exactly one item. */
  function MRCADepth(m: seq<seq<string>>): (ii: nat)
    requires Ones(m, 0) == 1
    ensures |m| > 0 && ii < MaxLen(m) && Ones(m, ii) == 1
  {
    RootChainExists(m);
    WalkEndStops(m, 0, MaxLen(m));
    WalkEnd(m, 0, MaxLen(m)) - 1
  }

  /**
   * `findMRCA(Mut_tags, Mut_times)`: (tag, time, ii). Without a single root
   * the `return` evaluates `np.mnan`, which numpy does not have, so the call
   * raises AttributeError. `Mut_tags[0][0]` is read before the walk, and the
   * time is `int(Mut_times[0][ii])`.
   */
  function MRCA(mutTags: seq<seq<string>>, mutTimes: seq<seq<string>>): PyResult<(string, int, int)> {
    if Ones(mutTags, 0) != 1 then Raise(AttributeError)
    else
      RootChainExists(mutTags);
      if |mutTags[0]| == 0 then Raise(IndexError)
      else
      var ii := MRCADepth(mutTags);
      var tag := Distinct(Column(mutTags, ii))[0];
      if |mutTimes| == 0 || ii >= |mutTimes[0]| then Raise(IndexError)
      else
        match ParseInt(mutTimes[0][ii])
        case None => Raise(ValueError)
        case Some(t) => Ok((tag, t, ii))
  }

  method FindMRCA(mutTags: seq<seq<string>>, mutTimes: seq<seq<string>>) returns (r: PyResult<(string, int, int)>)
    ensures r == MRCA(mutTags, mutTimes)
  {
    var roots := FindTheOnesAtBeginning(mutTags, 0);
    if |roots| != 1 {
      return Raise(AttributeError);
    }
    var mutNumb := NumberOfMutList(mutTags);
    RootChainExists(mutTags);
    var maxx := MaxOf(mutNumb);
    assert maxx == MaxLen(mutTags) by {
      MaxOfLengths(mutTags, mutNumb, maxx);
    }
    if |mutTags[0]| == 0 {
      return Raise(IndexError);
    }
    var theMRCAtag := mutTags[0][0];
    var ii := 0;
    var x := 0;
    while x < maxx
      invariant 0 <= x <= maxx
      invariant WalkEnd(mutTags, x, maxx) == WalkEnd(mutTags, 0, maxx)
      invariant x > 0 ==> ii == x - 1 && Ones(mutTags, ii) == 1 && theMRCAtag == Distinct(Column(mutTags, ii))[0]
    {
      var ones := FindTheOnesAtBeginning(mutTags, x);
      if |ones| == 1 {
        var again := FindTheOnesAtBeginning(mutTags, x);
        theMRCAtag := again[0];
        ii := x;
      } else {
        assert x > 0 && WalkEnd(mutTags, x, maxx) == x;
        break;
      }
      x := x + 1;
    }
    assert x > 0 && WalkEnd(mutTags, x, maxx) == x;
    assert ii == MRCADepth(mutTags);
    if |mutTimes| == 0 || ii >= |mutTimes[0]| {
      return Raise(IndexError);
    }
    var t := ParseInt(mutTimes[0][ii]);
    if t.None? {
      return Raise(ValueError);
    }
    return Ok((theMRCAtag, t.value, ii));
  }

  /** A single root means some chain is non-empty. */
  lemma RootChainExists(m: seq<seq<string>>)
    requires Ones(m, 0) == 1
    ensures |m| > 0 && MaxLen(m) >= 1
  {
    var c := Column(m, 0);
    DistinctProps(c);
    ColumnItems(m, 0);
    assert Distinct(c)[0] in c;
    var i :| 0 <= i < |m| && 0 < |m[i]| && m[i][0] == Distinct(c)[0];
  }

  /** `np.max` of a non-empty array. */
  method MaxOf(a: seq<int>) returns (mx: int)
    requires |a| > 0
    ensures forall i :: 0 <= i < |a| ==> a[i] <= mx
    ensures exists i :: 0 <= i < |a| && a[i] == mx
  {
    mx := a[0];
    var i := 1;
    while i < |a|
      invariant 1 <= i <= |a|
      invariant forall k :: 0 <= k < i ==> a[k] <= mx
      invariant exists k :: 0 <= k < i && a[k] == mx
    {
      if a[i] > mx {
        mx := a[i];
      }
      i := i + 1;
    }
  }

  lemma MaxOfLengths(m: seq<seq<string>>, lens: seq<int>, mx: int)
    requires |m| > 0 && |lens| == |m| && forall i :: 0 <= i < |m| ==> lens[i] == |m[i]|
    requires forall i :: 0 <= i < |lens| ==> lens[i] <= mx
    requires exists i :: 0 <= i < |lens| && lens[i] == mx
    ensures mx == MaxLen(m)
  {
    var i :| 0 <= i < |lens| && lens[i] == mx;
    var j :| 0 <= j < |m| && |m[j]| == MaxLen(m);
    assert lens[j] <= mx && |m[i]| <= MaxLen(m);
  }

  /**
   * The walk-stop rule: every depth up to ii holds exactly one distinct item,
   * and depth ii + 1 is either past the longest chain or does not. Every
   * chain that reaches depth ii carries the returned tag there, and the time
   * is the first gene's time entry at ii.
   */
  lemma MRCAStop(mutTags: seq<seq<string>>, mutTimes: seq<seq<string>>)
    requires MRCA(mutTags, mutTimes).Ok?
    ensures var (tag, t, ii) := MRCA(mutTags, mutTimes).value;
      0 <= ii < MaxLen(mutTags) &&
      (forall x: nat :: x <= ii ==> Ones(mutTags, x) == 1) &&
      (ii + 1 == MaxLen(mutTags) || Ones(mutTags, ii + 1) != 1) &&
      (forall i :: 0 <= i < |mutTags| && ii < |mutTags[i]| ==> mutTags[i][ii] == tag) &&
      ParseInt(mutTimes[0][ii]) == Some(t)
  {
    var maxx := MaxLen(mutTags);
    WalkEndStops(mutTags, 0, maxx);
    OneColumnTag(mutTags, MRCADepth(mutTags));
  }

  /** At a depth with one distinct item, every chain reaching it carries that item. */
  lemma OneColumnTag(m: seq<seq<string>>, ii: nat)
    requires Ones(m, ii) == 1
    ensures forall i :: 0 <= i < |m| && ii < |m[i]| ==> m[i][ii] == Distinct(Column(m, ii))[0]
  {
    var c := Column(m, ii);
    DistinctProps(c);
    ColumnItems(m, ii);
    forall i | 0 <= i < |m| && ii < |m[i]|
      ensures m[i][ii] == Distinct(c)[0]
    {
      assert m[i][ii] in Distinct(c);
    }
  }

  /** WalkEnd passes only depths with one distinct item and stops at one without, or at maxx. */
  lemma {:induction false} WalkEndStops(m: seq<seq<string>>, x: nat, maxx: nat)
    requires x <= maxx
    ensures forall y: nat :: x <= y < WalkEnd(m, x, maxx) ==> Ones(m, y) == 1
    ensures WalkEnd(m, x, maxx) == maxx || Ones(m, WalkEnd(m, x, maxx)) != 1
    decreases maxx - x
  {
    if x < maxx && Ones(m, x) == 1 {
      WalkEndStops(m, x + 1, maxx);
    }
  }

  // ----- timeOfExistence -----

  /** `int(x)` of each entry, position by position. */
  function Parsed(itm: seq<string>): (os: seq<Option<int>>)
    ensures |os| == |itm|
  {
    seq(|itm|, i requires 0 <= i < |itm| => ParseInt(itm[i]))
  }

  /** All the values, or None when one of the entries is not an integer. */
  function Values(os: seq<Option<int>>): (r: Option<seq<int>>)
    ensures r.Some? ==> |r.value| == |os|
  {
    if os == [] then Some([])
    else
      match Values(os[..|os| - 1])
      case None => None
      case Some(xs) =>
        match os[|os| - 1]
        case None => None
        case Some(x) => Some(xs + [x])
  }

  /** Consecutive differences xs[j + 1] - xs[j]. */
  function Differences(xs: seq<int>): (d: seq<int>)
    ensures |d| == if |xs| < 2 then 0 else |xs| - 1
  {
    if |xs| < 2 then [] else Differences(xs[..|xs| - 1]) + [xs[|xs| - 1] - xs[|xs| - 2]]
  }

  /**
   * The inner loop `int(itm[ii]) - int(itm[ii-1])` for ii from 1: a chain of
   * length < 2 gives [] without reading anything, otherwise any entry that is
   * not an integer raises ValueError.
   */
  function Diffs(itm: seq<string>): PyResult<seq<int>> {
    if |itm| < 2 then Ok([])
    else
      match Values(Parsed(itm))
      case None => Raise(ValueError)
      case Some(xs) => Ok(Differences(xs))
  }

  /**
   * `timeOfExistence(Mut_tags, Mut_times)`: the `return` sits inside the
   * outer loop, so only the first gene's chain is used; with no genes the
   * function falls off the end and returns None.
   */
  function TimesOfExistence(mutTags: seq<seq<string>>, mutTimes: seq<seq<string>>): PyResult<Option<seq<int>>> {
    if mutTimes == [] then Ok(None)
    else
      match Diffs(mutTimes[0])
      case Raise(e) => Raise(e)
      case Ok(d) => Ok(Some(d))
  }

  method TimeOfExistence(mutTags: seq<seq<string>>, mutTimes: seq<seq<string>>) returns (r: PyResult<Option<seq<int>>>)
    ensures r == TimesOfExistence(mutTags, mutTimes)
  {
    for k := 0 to |mutTimes|
      invariant k == 0
    {
      var d := ChainDifferences(mutTimes[k]);
      if d.Raise? {
        return Raise(d.error);
      }
      return Ok(Some(d.value));
    }
    return Ok(None);
  }

  /** The inner loop of `timeOfExistence` over one chain of times. */
  method ChainDifferences(itm: seq<string>) returns (r: PyResult<seq<int>>)
    ensures r == Diffs(itm)
  {
    var times: seq<int> := [];
    ghost var os := Parsed(itm);
    ghost var xs: seq<int> := [];
    var ii := 1;
    while ii < |itm|
      invariant 1 <= ii && (|itm| > 0 ==> ii <= |itm|)
      invariant ii == 1 ==> times == []
      invariant ii >= 2 ==> ii <= |itm| && Values(os[..ii]) == Some(xs) && times == Differences(xs)
    {
      var a := ParseInt(itm[ii]);
      var b := ParseInt(itm[ii - 1]);
      assert os[ii] == a && os[ii - 1] == b;
      if a.None? {
        ValuesEntryNone(os, ii);
        return Raise(ValueError);
      } else if b.None? {
        ValuesEntryNone(os, ii - 1);
        return Raise(ValueError);
      }
      if ii >= 2 {
        ChainStep(os, ii, xs, times, a.value, b.value);
        times := times + [a.value - b.value];
        xs := xs + [a.value];
      } else {
        ValuesTwo(os, b.value, a.value);
        xs := [b.value, a.value];
        times := [a.value - b.value];
      }
      ii := ii + 1;
    }
    if |itm| >= 2 {
      assert os[..ii] == os;
    }
    return Ok(times);
  }

  /** One turn of the inner loop: one more value read and one more difference. */
  lemma {:induction false} ChainStep(os: seq<Option<int>>, ii: nat, xs: seq<int>, d: seq<int>, a: int, b: int)
    requires 2 <= ii < |os| && os[ii] == Some(a) && os[ii - 1] == Some(b)
    requires Values(os[..ii]) == Some(xs) && d == Differences(xs)
    ensures Values(os[..ii + 1]) == Some(xs + [a])
    ensures Differences(xs + [a]) == d + [a - b]
  {
    ValuesLast(os, ii, xs);
    ValuesSnoc(os, ii, xs, a);
    DifferencesSnoc(xs, d, a, b);
  }

  /** Reading one more entry. */
  lemma {:induction false} ValuesSnoc(os: seq<Option<int>>, i: nat, xs: seq<int>, x: int)
    requires i < |os| && Values(os[..i]) == Some(xs) && os[i] == Some(x)
    ensures Values(os[..i + 1]) == Some(xs + [x])
  {
    assert os[..i + 1][..i] == os[..i];
  }

  /** The last value read is that of the last entry. */
  lemma {:induction false} ValuesLast(os: seq<Option<int>>, i: nat, xs: seq<int>)
    requires 1 <= i <= |os| && Values(os[..i]) == Some(xs)
    ensures os[i - 1] == Some(xs[i - 1])
  {
    assert os[..i][..i - 1] == os[..i - 1];
  }

  lemma {:induction false} ValuesTwo(os: seq<Option<int>>, x0: int, x1: int)
    requires |os| >= 2 && os[0] == Some(x0) && os[1] == Some(x1)
    ensures Values(os[..2]) == Some([x0, x1])
    ensures Differences([x0, x1]) == [x1 - x0]
  {
    assert Values(os[..0]) == Some([]);
    ValuesSnoc(os, 0, [], x0);
    assert [] + [x0] == [x0];
    ValuesSnoc(os, 1, [x0], x1);
    assert [x0] + [x1] == [x0, x1];
  }

  /** An entry that is not an integer spoils the whole chain. */
  lemma {:induction false} ValuesEntryNone(os: seq<Option<int>>, j: nat)
    requires j < |os| && os[j].None?
    ensures Values(os).None?
  {
    assert os[..j + 1][..j] == os[..j];
    ValuesNone(os, j + 1);
  }

  lemma {:induction false} ValuesNone(os: seq<Option<int>>, n: nat)
    requires n <= |os| && Values(os[..n]).None?
    ensures Values(os).None?
    decreases |os| - n
  {
    if n < |os| {
      assert os[..n + 1][..n] == os[..n];
      ValuesNone(os, n + 1);
    } else {
      assert os[..n] == os;
    }
  }

  /** One more entry adds its difference from the previous one. */
  lemma {:induction false} DifferencesSnoc(xs: seq<int>, d: seq<int>, a: int, b: int)
    requires |xs| >= 1 && xs[|xs| - 1] == b && d == Differences(xs)
    ensures Differences(xs + [a]) == d + [a - b]
  {
    assert (xs + [a])[..|xs|] == xs;
  }

  // ----- what timeOfExistence gives on the simulator's gene lines -----

  /** Every entry read: the values are exactly the given numbers. */
  lemma {:induction false} ValuesAllSome(os: seq<Option<int>>, xs: seq<int>)
    requires |os| == |xs| && forall j :: 0 <= j < |os| ==> os[j] == Some(xs[j])
    ensures Values(os) == Some(xs)
  {
    if os != [] {
      var n := |os| - 1;
      ValuesAllSome(os[..n], xs[..n]);
      assert xs == xs[..n] + [xs[n]];
    }
  }

  /** Differences of a non-decreasing sequence are never negative. */
  lemma {:induction false} DifferencesNonNegative(xs: seq<int>)
    requires NonDecreasing(xs)
    ensures forall j :: 0 <= j < |Differences(xs)| ==> Differences(xs)[j] >= 0
  {
    if |xs| >= 2 {
      var n := |xs| - 1;
      assert NonDecreasing(xs[..n]);
      DifferencesNonNegative(xs[..n]);
    }
  }

  /**
   * On a line written for a gene with k >= 1 parents, whose mutation times are
   * recorded alongside its parent tags and grow over time, the inner loop of
   * `timeOfExistence` gives the k gaps between successive mutation times and
   * the origin time, none of them negative.
   */
  lemma GeneTimesOfExistence(g: G.GeneState, ch: string)
    requires G.HistoryParallel(g) && G.TimesOrdered(g) && HF.ChromName(ch) && g.bitStringLength > 0
    requires |g.parentTags| > 0
    ensures var ll := Split(HM.GeneLine(g, ch));
      |ll| >= 4 && Diffs(TimeChain(ll)) == Ok(Differences(g.mutationTime + [g.timeOfOrigin]))
    ensures var ll := Split(HM.GeneLine(g, ch));
      |ll| >= 4 && Diffs(TimeChain(ll)).Ok? && |Diffs(TimeChain(ll)).value| == |g.parentTags| &&
      forall j :: 0 <= j < |Diffs(TimeChain(ll)).value| ==> Diffs(TimeChain(ll)).value[j] >= 0
  {
    var ll := Split(HM.GeneLine(g, ch));
    var xs := g.mutationTime + [g.timeOfOrigin];
    GeneLineChains(g, ch);
    var tc := TimeChain(ll);
    ValuesAllSome(Parsed(tc), xs);
    DifferencesNonNegative(xs);
  }

  /**
   * On a line for a gene without parents the time chain is "-1" then the
   * origin time, so the loop reports one span of origin + 1: the marker is
   * read as the time -1.
   */
  lemma GeneMarkerTimeOfExistence(g: G.GeneState, ch: string)
    requires |g.parentTags| <= |g.mutationTime| && HF.ChromName(ch) && g.bitStringLength > 0
    requires |g.parentTags| == 0
    ensures var ll := Split(HM.GeneLine(g, ch));
      |ll| >= 4 && Diffs(TimeChain(ll)) == Ok([g.timeOfOrigin + 1])
  {
    GeneLineMarkerChains(g, ch);
    MarkerDiffs(g.timeOfOrigin);
  }

  lemma MarkerDiffs(t: int)
    ensures Diffs(["-1", IntToString(t)]) == Ok([t + 1])
  {
    assert IntToString(-1) == "-1";
    ParseIntOfIntString(-1);
    ParseIntOfIntString(t);
    PairDiffs("-1", IntToString(t), -1, t);
  }

  /** A chain of two entries gives the one gap between them. */
  lemma PairDiffs(a: string, b: string, x: int, y: int)
    requires ParseInt(a) == Some(x) && ParseInt(b) == Some(y)
    ensures Diffs([a, b]) == Ok([y - x])
  {
    var os := Parsed([a, b]);
    assert os[0] == Some(x) && os[1] == Some(y);
    ValuesAllSome(os, [x, y]);
    assert [x, y][..1] == [x];
    assert Differences([x, y]) == [] + [y - x];
    assert [] + [y - x] == [y - x];
  }
}
