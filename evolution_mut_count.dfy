/**
 * PyScripts/evolution_mut_count.py: counts, per distinct gene tag of a host
 * genome file, how many mutations the gene's line records.
 *
 * `loadHostPopulation` skips the lines holding '#' or "===", keys every other
 * line on its fourth field (the gene's own tag) and, the first time it meets
 * a key, records `(len(LL) - 4) // 2`: the number of (time, tag) parent pairs
 * the simulator wrote, or 0 for the lone "-1" marker of a gene without
 * parents.
 */
module EvolutionMutCount {
  import opened Wrappers
  import opened Text
  import opened SeqUtil
  import G = Gene
  import HM = Host
  import DH = DataHandler
  import HF = HostFile

  /** `int(LL[3])`: IndexError below four fields, ValueError when the field is not an integer. */
  function TagKey(ll: seq<string>): (r: PyResult<int>)
    ensures r.Ok? ==> |ll| >= 4 && ParseInt(ll[3]) == Some(r.value)
    ensures r.Raise? ==> (|ll| < 4 <==> r.error == IndexError)
    ensures r.Raise? ==> (|ll| >= 4 <==> r.error == ValueError)
  {
    if |ll| < 4 then Raise(IndexError)
    else
      match ParseInt(ll[3])
      case None => Raise(ValueError)
      case Some(v) => Ok(v)
  }

  /** `(len(LL) - 4) // 2`: the number of whole field pairs after the fourth field. */
  function MutCount(ll: seq<string>): (n: nat)
    requires |ll| >= 4
    ensures 4 + 2 * n <= |ll| <= 5 + 2 * n
  {
    (|ll| - 4) / 2
  }

  /** The loader's two lists: `B_list` (tags met so far) and `Mut_list`. */
  datatype Counted = Counted(keys: seq<int>, counts: seq<nat>)

  /** The loop body on a data line split into `ll`: a new tag appends its count. */
  function CountFields(acc: Counted, ll: seq<string>): PyResult<Counted> {
    match TagKey(ll)
    case Raise(e) => Raise(e)
    case Ok(bb) =>
      if bb in acc.keys then Ok(acc)
      else Ok(Counted(acc.keys + [bb], acc.counts + [MutCount(ll)]))
  }

  /** One pass of the loop body over `line`. */
  function CountStep(acc: Counted, line: string): PyResult<Counted> {
    if HF.Skipped(line) then Ok(acc) else CountFields(acc, Split(line))
  }

  /** The loop over all lines; the first exception ends it. */
  function CountLines(lines: seq<string>): PyResult<Counted> {
    if lines == [] then Ok(Counted([], []))
    else
      match CountLines(lines[..|lines| - 1])
      case Raise(e) => Raise(e)
      case Ok(acc) => CountStep(acc, lines[|lines| - 1])
  }

  /**
   * `loadHostPopulation(FILE)`: `np.array(Mut_list)`, or `None` when the file
   * cannot be opened (the IOError handler prints and falls off the end).
   * IndexError and ValueError propagate.
   */
  function MutCounts(file: Option<seq<string>>): PyResult<Option<seq<nat>>> {
    match file
    case None => Ok(None)
    case Some(lines) =>
      match CountLines(lines)
      case Raise(e) => Raise(e)
      case Ok(c) => Ok(Some(c.counts))
  }

  method LoadHostPopulation(file: Option<seq<string>>) returns (r: PyResult<Option<seq<nat>>>)
    ensures r == MutCounts(file)
  {
    if file.None? {
      return Ok(None);
    }
    var lines := file.value;
    var bList: seq<int> := [];
    var mutList: seq<nat> := [];
    var i := 0;
    while i < |lines|
      invariant 0 <= i <= |lines|
      invariant CountLines(lines[..i]) == Ok(Counted(bList, mutList))
    {
      var line := lines[i];
      assert lines[..i + 1][..i] == lines[..i];
      if HF.Skipped(line) {
        i := i + 1;
        continue;
      }
      var ll := Split(line);
      var key := TagKey(ll);
      if key.Raise? {
        CountLinesRaise(lines, i + 1, key.error);
        return Raise(key.error);
      }
      var bb := key.value;
      if bb !in bList {
        bList := bList + [bb];
        mutList := mutList + [MutCount(ll)];
      }
      i := i + 1;
    }
    assert lines[..i] == lines;
    return Ok(Some(mutList));
  }

  /** Once the loop has raised on a prefix, the whole file raises the same exception. */
  lemma {:induction false} CountLinesRaise(lines: seq<string>, n: nat, e: PyError)
    requires n <= |lines| && CountLines(lines[..n]) == Raise(e)
    ensures CountLines(lines) == Raise(e)
    decreases |lines| - n
  {
    if n < |lines| {
      assert lines[..n + 1][..n] == lines[..n];
      CountLinesRaise(lines, n + 1, e);
    } else {
      assert lines[..n] == lines;
    }
  }

  /** Lines holding '#' or "===" are never counted: the loader reads only the gene lines. */
  lemma {:induction false} CountLinesData(lines: seq<string>)
    ensures CountLines(lines) == CountLines(HF.DataLines(lines))
  {
    if lines != [] {
      var p := lines[..|lines| - 1];
      var x := lines[|lines| - 1];
      CountLinesData(p);
      if !HF.Skipped(x) {
        var d := HF.DataLines(p) + [x];
        assert d[..|d| - 1] == HF.DataLines(p);
      }
    }
  }

  // ----- dedup on the tag -----

  /** The tag of each line, 0 where it has none. */
  function KeyOf(ll: seq<string>): int {
    match TagKey(ll)
    case Ok(v) => v
    case Raise(_) => 0
  }

  /** The tags of the field lists, in order. */
  function Keys(df: seq<seq<string>>): (r: seq<int>)
    ensures |r| == |df|
    ensures forall i :: 0 <= i < |df| ==> r[i] == KeyOf(df[i])
  {
    seq(|df|, i requires 0 <= i < |df| => KeyOf(df[i]))
  }

  /**
   * Dedup on the tag: after a successful load every gene line has a tag,
   * `B_list` is the distinct tags in first-appearance order, and the k-th
   * count is that of the first line carrying the k-th tag.
   */
  predicate FirstCountsKept(df: seq<seq<string>>, c: Counted) {
    var ks := Keys(df);
    (forall i :: 0 <= i < |df| ==> TagKey(df[i]).Ok?) &&
    c.keys == Distinct(ks) &&
    |c.counts| == |c.keys| &&
    forall k :: 0 <= k < |c.keys| ==> CountedAt(df, ks, c, k)
  }

  /** The k-th count is that of the first line whose tag is the k-th tag. */
  predicate CountedAt(df: seq<seq<string>>, ks: seq<int>, c: Counted, k: nat) {
    k < |c.keys| && k < |c.counts| && |ks| == |df| && c.keys[k] in ks &&
    var line := df[FirstIndex(ks, c.keys[k])];
    |line| >= 4 && c.counts[k] == MutCount(line)
  }

  lemma {:induction false} CountLinesFirst(lines: seq<string>)
    requires CountLines(lines).Ok?
    ensures FirstCountsKept(HF.FieldsOf(HF.DataLines(lines)), CountLines(lines).value)
  {
    if lines != [] {
      var p := lines[..|lines| - 1];
      var x := lines[|lines| - 1];
      CountLinesFirst(p);
      if !HF.Skipped(x) {
        var d := HF.DataLines(p);
        assert HF.DataLines(lines) == d + [x];
        FirstCountsStep(HF.FieldsOf(d), CountLines(p).value, Split(x));
        assert HF.FieldsOf(d + [x]) == HF.FieldsOf(d) + [Split(x)];
      }
    }
  }

  /** One more gene line keeps the invariant. */
  lemma {:induction false} FirstCountsStep(df: seq<seq<string>>, c: Counted, ll: seq<string>)
    requires FirstCountsKept(df, c)
    requires CountFields(c, ll).Ok?
    ensures FirstCountsKept(df + [ll], CountFields(c, ll).value)
  {
    var ks := Keys(df);
    var key := KeyOf(ll);
    assert Keys(df + [ll]) == ks + [key];
    DistinctProps(ks);
    if key in ks {
      FirstCountsOld(df, c, ll);
    } else {
      FirstCountsNew(df, c, ll);
    }
  }

  lemma FirstCountsOld(df: seq<seq<string>>, c: Counted, ll: seq<string>)
    requires FirstCountsKept(df, c)
    requires TagKey(ll).Ok? && KeyOf(ll) in Keys(df)
    requires Keys(df + [ll]) == Keys(df) + [KeyOf(ll)]
    ensures FirstCountsKept(df + [ll], c)
  {
    var ks := Keys(df);
    var ks2 := Keys(df + [ll]);
    DistinctProps(ks);
    assert ks2[..|ks2| - 1] == ks;
    assert Distinct(ks2) == Distinct(ks);
    forall k | 0 <= k < |c.keys|
      ensures CountedAt(df + [ll], ks2, c, k)
    {
      CountedAtExtend(df, c, ll, c, k);
    }
  }

  /** A tag's count still comes from its first line once another line is appended. */
  lemma CountedAtExtend(df: seq<seq<string>>, c: Counted, ll: seq<string>, c2: Counted, k: nat)
    requires CountedAt(df, Keys(df), c, k)
    requires Keys(df + [ll]) == Keys(df) + [KeyOf(ll)]
    requires k < |c2.keys| && k < |c2.counts|
    requires c2.keys[k] == c.keys[k] && c2.counts[k] == c.counts[k]
    ensures CountedAt(df + [ll], Keys(df + [ll]), c2, k)
  {
    var ks := Keys(df);
    var y := c.keys[k];
    FirstIndexPrefix(ks, KeyOf(ll), y);
    assert (df + [ll])[FirstIndex(ks, y)] == df[FirstIndex(ks, y)];
  }

  lemma FirstCountsNew(df: seq<seq<string>>, c: Counted, ll: seq<string>)
    requires FirstCountsKept(df, c)
    requires TagKey(ll).Ok? && KeyOf(ll) !in Keys(df)
    requires Keys(df + [ll]) == Keys(df) + [KeyOf(ll)]
    ensures FirstCountsKept(df + [ll], Counted(c.keys + [KeyOf(ll)], c.counts + [MutCount(ll)]))
  {
    var ks := Keys(df);
    var key := KeyOf(ll);
    var df2 := df + [ll];
    var ks2 := Keys(df2);
    var c2 := Counted(c.keys + [key], c.counts + [MutCount(ll)]);
    DistinctProps(ks);
    assert ks2[..|ks2| - 1] == ks;
    assert Distinct(ks2) == Distinct(ks) + [key];
    forall k | 0 <= k < |c2.keys|
      ensures CountedAt(df2, ks2, c2, k)
    {
      if k < |c.keys| {
        CountedAtExtend(df, c, ll, c2, k);
      } else {
        FirstIndexLast(ks, key);
        assert c2.keys[k] == key && df2[|df|] == ll;
      }
    }
  }

  /** The loader gets through lines whose data lines all have a tag. */
  lemma {:induction false} CountLinesOk(lines: seq<string>)
    requires forall i :: 0 <= i < |lines| ==> HF.Skipped(lines[i]) || TagKey(Split(lines[i])).Ok?
    ensures CountLines(lines).Ok?
  {
    if lines != [] {
      CountLinesOk(lines[..|lines| - 1]);
    }
  }

  // ----- the count of a line the simulator wrote -----

  /**
   * The line of a gene of non-zero length reads back its own tag as key, and
   * its count is its number of parents: k for k parent pairs, and 0 for the
   * "-1" marker line, whose odd fifth field the floor division drops.
   */
  lemma GeneLineCount(g: G.GeneState, ch: string)
    requires |g.parentTags| <= |g.mutationTime| && HF.ChromName(ch) && g.bitStringLength > 0
    ensures var ll := Split(HM.GeneLine(g, ch));
      TagKey(ll) == Ok(g.genesTag as int) && |ll| >= 4 && MutCount(ll) == |g.parentTags|
  {
    assert NoSpace(ch);
    HM.GeneLineSplits(g, ch);
    HM.GeneHeadRead(g, ch);
    HM.GeneMarkerRead(g, ch);
    HM.GeneTailRead(g, ch);
  }

  lemma GeneLinesCounted(chr: seq<G.GeneState>, ch: string)
    requires HM.Printable(chr) && HF.ChromName(ch)
    requires forall k :: 0 <= k < |chr| ==> chr[k].bitStringLength > 0
    ensures forall i :: 0 <= i < |HM.GeneLines(chr, ch)| ==> TagKey(Split(HM.GeneLines(chr, ch)[i])).Ok?
  {
    forall i | 0 <= i < |chr|
      ensures TagKey(Split(HM.GeneLine(chr[i], ch))).Ok?
    {
      GeneLineCount(chr[i], ch);
    }
  }

  /** Every gene line of the population has a tag. */
  lemma {:induction false} PopulationCounted(hosts: seq<HM.HostState>)
    requires DH.PrintableHosts(hosts)
    requires HF.GenesNonEmpty(hosts)
    ensures forall i :: 0 <= i < |HF.PopulationGeneLines(hosts)| ==> TagKey(Split(HF.PopulationGeneLines(hosts)[i])).Ok?
  {
    if hosts != [] {
      var n := |hosts| - 1;
      var h := hosts[n];
      PopulationCounted(hosts[..n]);
      GeneLinesCounted(h.chromosomeOne, "ch_one");
      GeneLinesCounted(h.chromosomeTwo, "ch_two");
      CountedAppend3(HF.PopulationGeneLines(hosts[..n]), HM.GeneLines(h.chromosomeOne, "ch_one"),
        HM.GeneLines(h.chromosomeTwo, "ch_two"));
    }
  }

  lemma CountedAppend3(a: seq<string>, b: seq<string>, c: seq<string>)
    requires forall i :: 0 <= i < |a| ==> TagKey(Split(a[i])).Ok?
    requires forall i :: 0 <= i < |b| ==> TagKey(Split(b[i])).Ok?
    requires forall i :: 0 <= i < |c| ==> TagKey(Split(c[i])).Ok?
    ensures forall i :: 0 <= i < |a + (b + c)| ==> TagKey(Split((a + (b + c))[i])).Ok?
  {
  }

  /**
   * The round trip: counting a host genome file that the simulator wrote
   * succeeds, skips the comment and header lines, and gives one count per
   * distinct gene tag, in the order the genes were written, each the count of
   * the first gene line with that tag.
   */
  lemma HostFileCounts(hosts: seq<HM.HostState>, tayme: int)
    requires DH.PrintableHosts(hosts)
    requires HF.GenesNonEmpty(hosts)
    ensures var genes := HF.PopulationGeneLines(hosts);
      CountLines(genes).Ok? &&
      FirstCountsKept(HF.FieldsOf(genes), CountLines(genes).value) &&
      MutCounts(Some(Lines(DH.HostGenomesText(hosts, tayme)))) == Ok(Some(CountLines(genes).value.counts))
  {
    var lines := Lines(DH.HostGenomesText(hosts, tayme));
    var genes := HF.PopulationGeneLines(hosts);
    HF.HostGenomesFileRead(hosts, tayme);
    CountLinesData(lines);
    PopulationCounted(hosts);
    CountLinesOk(genes);
    CountLinesFirst(genes);
    HF.DataLinesNoneSkipped(genes);
  }
}
