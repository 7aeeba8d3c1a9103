/**
 * `loadThePopulation` of PyScripts/antigen_similiraty.py and its line-for-line
 * copy in PyScripts/anti_gen_similiraty.py: it reads a pathogen genome file,
 * cuts it into individuals on the "===" headers like the other loaders, and
 * groups the individuals into species by the species number of the headers.
 *
 * The species number of a header " === Patho. sp. No. S has infected N hosts ==="
 * is its fifth whitespace field. The species a run starts with comes from
 * field 5 of the third line split on single spaces, read before the file is
 * opened. The loop state has two variables that are unbound until first
 * assigned (`new_spec`, `endOfSpp`); reading them unbound raises
 * UnboundLocalError, so they are `Option`s here.
 */
module Population {
  import opened Wrappers
  import opened Text
  import HB = HeaderBlocks

  /** `linecache.getline(FILE, 3)`: the third line, or "" when the file cannot be read or is shorter. */
  function ThirdLine(file: Option<seq<string>>): string {
    if file.Some? && |file.value| >= 3 then file.value[2] else ""
  }

  /** `int(re.split(" ", line)[5])` on the third line: IndexError below six pieces, ValueError for a non-integer. */
  function InitialSpecies(file: Option<seq<string>>): (r: PyResult<int>)
    ensures r.Raise? ==> (r.error == IndexError <==> |SplitSep(ThirdLine(file), " ")| <= 5)
    ensures r.Raise? ==> (r.error == ValueError <==> |SplitSep(ThirdLine(file), " ")| > 5)
    ensures r.Ok? ==> |SplitSep(ThirdLine(file), " ")| > 5 && Some(r.value) == ParseInt(SplitSep(ThirdLine(file), " ")[5])
  {
    var l := SplitSep(ThirdLine(file), " ");
    if |l| <= 5 then Raise(IndexError)
    else
      match ParseInt(l[5])
      case None => Raise(ValueError)
      case Some(v) => Ok(v)
  }

  /** `int(line.split()[4])` inside `try ... except: pass`: `None` where it raises. */
  function SpeciesField(line: string): Option<int> {
    var f := Split(line);
    if |f| <= 4 then None else ParseInt(f[4])
  }

  /**
   * The loop state: the closed species `LL`, the open species `spp`, the
   * open individual `ll`, the flag `nextPatho`, and `endOfSpp`, `old_spec`,
   * `new_spec`.
   */
  datatype PopScan = PopScan(LL: seq<seq<seq<string>>>, spp: seq<seq<string>>, ll: seq<string>,
                             nextPatho: bool, endOfSpp: Option<bool>, oldSpec: int, newSpec: Option<int>)

  /** A header line whose species number is `ns` (the previous one where it does not parse). */
  function HeaderStep(st: PopScan, ns: Option<int>): PyResult<PopScan> {
    if !st.nextPatho then Ok(st.(newSpec := ns, nextPatho := true))
    else if ns.None? then Raise(UnboundLocalError)
    else if ns.value == st.oldSpec then
      Ok(st.(spp := st.spp + [st.ll], ll := [], endOfSpp := Some(false), newSpec := ns))
    else if st.endOfSpp.None? then Raise(UnboundLocalError)
    else if st.endOfSpp.value then
      Ok(st.(LL := st.LL + [st.spp], spp := [st.ll], ll := [], oldSpec := ns.value, endOfSpp := Some(true), newSpec := ns))
    else
      Ok(st.(spp := st.spp + [st.ll], ll := [], endOfSpp := Some(true), newSpec := ns))
  }

  /** One pass of the loop body. */
  function PopStep(st: PopScan, line: string): PyResult<PopScan> {
    if Contains(line, "#") then Ok(st)
    else if Contains(line, "===") then
      HeaderStep(st, if SpeciesField(line).Some? then SpeciesField(line) else st.newSpec)
    else
      match HB.FirstField(line)
      case Raise(e) => Raise(e)
      case Ok(x) => Ok(st.(ll := st.ll + [x]))
  }

  /** The loop over the lines, starting from species `spec0`; the first exception ends it. */
  function PopLines(lines: seq<string>, spec0: int): PyResult<PopScan> {
    if lines == [] then Ok(PopScan([], [], [], false, None, spec0, None))
    else
      match PopLines(lines[..|lines| - 1], spec0)
      case Raise(e) => Raise(e)
      case Ok(st) => PopStep(st, lines[|lines| - 1])
  }

  /**
   * What `loadThePopulation(FILE)` returns: the species, each a list of
   * individuals, each a list of bit strings; `None` where the IOError handler
   * prints and falls off the end.
   */
  function ThePopulation(file: Option<seq<string>>): PyResult<Option<seq<seq<seq<string>>>>> {
    match InitialSpecies(file)
    case Raise(e) => Raise(e)
    case Ok(spec0) =>
      match file
      case None => Ok(None)
      case Some(lines) =>
        match PopLines(lines, spec0)
        case Raise(e) => Raise(e)
        case Ok(st) => Ok(Some(st.LL + [st.spp + [st.ll]]))
  }

  lemma {:induction false} PopLinesRaise(lines: seq<string>, n: nat, spec0: int, e: PyError)
    requires n <= |lines| && PopLines(lines[..n], spec0) == Raise(e)
    ensures PopLines(lines, spec0) == Raise(e)
    decreases |lines| - n
  {
    if n < |lines| {
      assert lines[..n + 1][..n] == lines[..n];
      PopLinesRaise(lines, n + 1, spec0, e);
    } else {
      assert lines[..n] == lines;
    }
  }

  method LoadThePopulation(file: Option<seq<string>>) returns (r: PyResult<Option<seq<seq<seq<string>>>>>)
    ensures r == ThePopulation(file)
  {
    var l := SplitSep(ThirdLine(file), " ");
    if |l| <= 5 {
      return Raise(IndexError);
    }
    var parsed := ParseInt(l[5]);
    if parsed.None? {
      return Raise(ValueError);
    }
    var oldSpec := parsed.value;
    if file.None? {
      return Ok(None);
    }
    var lines := file.value;
    var LL: seq<seq<seq<string>>> := [];
    var sppList: seq<seq<string>> := [];
    var nextPatho := false;
    var ll: seq<string> := [];
    var endOfSpp: Option<bool> := None;
    var newSpec: Option<int> := None;
    var j := 0;
    while j < |lines|
      invariant 0 <= j <= |lines|
      invariant PopLines(lines[..j], parsed.value) == Ok(PopScan(LL, sppList, ll, nextPatho, endOfSpp, oldSpec, newSpec))
    {
      var line := lines[j];
      assert lines[..j + 1][..j] == lines[..j];
      if Contains(line, "#") {
      } else if Contains(line, "===") {
        var s := SpeciesField(line);
        if s.Some? {
          newSpec := s;
        }
        var next := OnHeader(PopScan(LL, sppList, ll, nextPatho, endOfSpp, oldSpec, newSpec));
        if next.Raise? {
          PopLinesRaise(lines, j + 1, parsed.value, next.error);
          return Raise(next.error);
        }
        LL, sppList, ll, nextPatho := next.value.LL, next.value.spp, next.value.ll, next.value.nextPatho;
        endOfSpp, oldSpec, newSpec := next.value.endOfSpp, next.value.oldSpec, next.value.newSpec;
      } else {
        var f := HB.FirstField(line);
        if f.Raise? {
          PopLinesRaise(lines, j + 1, parsed.value, f.error);
          return Raise(f.error);
        }
        ll := ll + [f.value];
      }
      j := j + 1;
    }
    assert lines[..j] == lines;
    return Ok(Some(LL + [sppList + [ll]]));
  }

  /** The header branch of the loop body, once `new_spec` is updated. */
  method OnHeader(st: PopScan) returns (r: PyResult<PopScan>)
    ensures r == HeaderStep(st, st.newSpec)
  {
    var LL, sppList, ll, endOfSpp, oldSpec, newSpec := st.LL, st.spp, st.ll, st.endOfSpp, st.oldSpec, st.newSpec;
    if st.nextPatho {
      if newSpec.None? {
        return Raise(UnboundLocalError);
      }
      if newSpec.value == oldSpec {
        sppList := sppList + [ll];
        ll := [];
        endOfSpp := Some(false);
      } else {
        if endOfSpp.None? {
          return Raise(UnboundLocalError);
        }
        if endOfSpp.value {
          LL := LL + [sppList];
          sppList := [ll];
          ll := [];
          oldSpec := newSpec.value;
        } else {
          sppList := sppList + [ll];
          ll := [];
        }
        endOfSpp := Some(true);
      }
    }
    return Ok(PopScan(LL, sppList, ll, true, endOfSpp, oldSpec, newSpec));
  }

  // ----- what the species grouping keeps -----

  /** A missing file raises IndexError on line 3 before `open` is reached, so the IOError handler never runs. */
  lemma MissingFileRaises()
    ensures ThePopulation(None) == Raise(IndexError)
  {
    assert SplitSep("", " ") == [""];
  }

  /** The loop state, with the species flattened, is the state of the generic header-split loop. */
  predicate Mirrors(st: PopScan, sc: HB.Scan<string>) {
    sc == HB.Scan(HB.Flatten(st.LL) + st.spp, st.ll, st.nextPatho)
  }

  lemma HeaderStepMirrors(st: PopScan, ns: Option<int>, sc: HB.Scan<string>)
    requires Mirrors(st, sc) && HeaderStep(st, ns).Ok?
    ensures sc.armed ==> Mirrors(HeaderStep(st, ns).value, HB.Scan(sc.done + [sc.cur], [], true))
    ensures !sc.armed ==> Mirrors(HeaderStep(st, ns).value, HB.Scan(sc.done, sc.cur, true))
  {
    if st.nextPatho && ns.value != st.oldSpec && st.endOfSpp.value {
      HB.FlattenSnoc(st.LL, st.spp);
    }
  }

  lemma {:induction false} PopLinesMirror(lines: seq<string>, spec0: int)
    requires PopLines(lines, spec0).Ok?
    ensures HB.ScanLines(lines, HB.OnHeader, HB.FirstField).Ok?
    ensures Mirrors(PopLines(lines, spec0).value, HB.ScanLines(lines, HB.OnHeader, HB.FirstField).value)
  {
    if lines != [] {
      var p, line := lines[..|lines| - 1], lines[|lines| - 1];
      PopLinesMirror(p, spec0);
      var st := PopLines(p, spec0).value;
      var sc := HB.ScanLines(p, HB.OnHeader, HB.FirstField).value;
      if !Contains(line, "#") && Contains(line, "===") {
        HeaderStepMirrors(st, if SpeciesField(line).Some? then SpeciesField(line) else st.newSpec, sc);
      }
    }
  }

  /**
   * Ignoring the species, `loadThePopulation` splits the file exactly like
   * the generic header-split loader: the species, concatenated, are its
   * individuals.
   */
  lemma PopulationIndividuals(file: Option<seq<string>>)
    requires ThePopulation(file).Ok? && ThePopulation(file).value.Some?
    ensures HB.Blocks(file.value, HB.OnHeader, HB.FirstField) == Ok(HB.Flatten(ThePopulation(file).value.value))
  {
    var lines := file.value;
    PopLinesMirror(lines, InitialSpecies(file).value);
    var st := PopLines(lines, InitialSpecies(file).value).value;
    var sc := HB.ScanLines(lines, HB.OnHeader, HB.FirstField).value;
    assert ThePopulation(file).value.value == st.LL + [st.spp + [st.ll]];
    HB.FlattenSnoc(st.LL, st.spp + [st.ll]);
    assert HB.Flatten(st.LL) + (st.spp + [st.ll]) == sc.done + [sc.cur];
  }

  /**
   * The result holds one individual per header line (one when there is no
   * header), and the individuals hold the first fields of the data lines, in
   * file order.
   */
  lemma PopulationCounts(file: Option<seq<string>>)
    requires ThePopulation(file).Ok? && ThePopulation(file).value.Some?
    ensures |HB.Flatten(ThePopulation(file).value.value)| ==
      (if HB.Headers(file.value) == 0 then 1 else HB.Headers(file.value))
    ensures HB.Items(file.value, HB.FirstField) == Ok(HB.Flatten(HB.Flatten(ThePopulation(file).value.value)))
  {
    PopulationIndividuals(file);
    HB.OnHeaderCount(file.value, HB.FirstField);
    HB.BlocksFlatten(file.value, HB.OnHeader, HB.FirstField);
  }

  /** Every closed species is non-empty, and so is the open one once a header has closed an individual. */
  predicate SpeciesFilled(st: PopScan) {
    (forall k :: 0 <= k < |st.LL| ==> st.LL[k] != []) &&
    (st.endOfSpp.Some? ==> st.spp != [])
  }

  lemma {:induction false} PopLinesFilled(lines: seq<string>, spec0: int)
    requires PopLines(lines, spec0).Ok?
    ensures SpeciesFilled(PopLines(lines, spec0).value)
  {
    if lines != [] {
      PopLinesFilled(lines[..|lines| - 1], spec0);
    }
  }

  /** No species of the result is empty. */
  lemma SpeciesNonEmpty(file: Option<seq<string>>)
    requires ThePopulation(file).Ok? && ThePopulation(file).value.Some?
    ensures forall k :: 0 <= k < |ThePopulation(file).value.value| ==> ThePopulation(file).value.value[k] != []
  {
    var st := PopLines(file.value, InitialSpecies(file).value).value;
    PopLinesFilled(file.value, InitialSpecies(file).value);
    assert ThePopulation(file).value.value == st.LL + [st.spp + [st.ll]];
  }
}
