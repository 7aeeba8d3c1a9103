/**
 * PyScripts/pathogen_spp_cooccur.py and PyScripts/co_occurence_of_presented_pathogen_spp.py:
 * how often two pathogen species were presented by the same host.
 *
 * The two scripts carry the same `loadPresentedSpecies` and
 * `calculateCoocurenceMtx`; they differ in `loadParams`, which reads a JSON
 * parameter file in the first and lines 8 and 9 of the CSV parameter file in
 * the second. Every exception inside a loader is caught and turned into
 * `None` (or `(None, None)`), so the loaders here return `Option`s.
 */
module CoPresence {
  import opened Wrappers
  import opened Text
  import opened SeqUtil
  import Py = Python

  // ------------------------------------------------------------- loadPresentedSpecies

  /**
   * The species listed on one " ===" line: the text after the first "are:"
   * up to the next "are:", cut at its first " ===", split into words.
   * Without "are:" the index `[1]` fails.
   */
  function PresentedEntry(line: string): Option<seq<int>> {
    var parts := SplitSep(line, "are:");
    if |parts| < 2 then None
    else ParseAll(Split(SplitSep(parts[1], " ===")[0]))
  }

  /** The loop over the lines from the list `LL`; any failure ends it with `None`. */
  function PresentedFrom(LL: seq<seq<int>>, lines: seq<string>): Option<seq<seq<int>>> {
    if lines == [] then Some(LL)
    else
      match PresentedFrom(LL, lines[..|lines| - 1])
      case None => None
      case Some(M) =>
        var line := lines[|lines| - 1];
        if !Contains(line, " ===") then Some(M)
        else match PresentedEntry(line)
          case None => None
          case Some(x) => Some(M + [x])
  }

  /** What `loadPresentedSpecies(filepath)` returns; a file that does not open gives `None`. */
  function PresentedSpecies(file: Option<seq<string>>): Option<seq<seq<int>>> {
    match file
    case None => None
    case Some(lines) => PresentedFrom([], lines)
  }

  method LoadPresentedSpecies(file: Option<seq<string>>) returns (r: Option<seq<seq<int>>>)
    ensures r == PresentedSpecies(file)
  {
    if file.None? {
      return None;
    }
    var lines := file.value;
    var LL: seq<seq<int>> := [];
    for i := 0 to |lines|
      invariant PresentedFrom([], lines[..i]) == Some(LL)
    {
      var line := lines[i];
      assert lines[..i + 1][..i] == lines[..i];
      if Contains(line, " ===") {
        var entry := PresentedEntry(line);
        if entry.None? {
          PresentedFromNone(lines, i + 1);
          return None;
        }
        LL := LL + [entry.value];
      }
    }
    assert lines[..|lines|] == lines;
    return Some(LL);
  }

  /** Once the loop has failed on a prefix, the whole file fails. */
  lemma {:induction false} PresentedFromNone(lines: seq<string>, n: nat)
    requires n <= |lines| && PresentedFrom([], lines[..n]).None?
    ensures PresentedFrom([], lines).None?
    decreases |lines| - n
  {
    if n < |lines| {
      assert lines[..n + 1][..n] == lines[..n];
      PresentedFromNone(lines, n + 1);
    } else {
      assert lines[..n] == lines;
    }
  }

  /** The number of lines holding " ===". */
  function Marked(lines: seq<string>): nat {
    if lines == [] then 0
    else Marked(lines[..|lines| - 1]) + (if Contains(lines[|lines| - 1], " ===") then 1 else 0)
  }

  /** A line the loader gets past: no " ===" in it, or a list of species after its "are:". */
  predicate Readable(line: string) {
    !Contains(line, " ===") || PresentedEntry(line).Some?
  }

  /**
   * The loader succeeds exactly when every " ===" line lists its species
   * after an "are:", and then it holds one list per such line.
   */
  lemma {:induction false} PresentedPerLine(LL: seq<seq<int>>, lines: seq<string>)
    ensures PresentedFrom(LL, lines).Some? <==> forall i :: 0 <= i < |lines| ==> Readable(lines[i])
    ensures PresentedFrom(LL, lines).Some? ==> |PresentedFrom(LL, lines).value| == |LL| + Marked(lines)
  {
    if lines != [] {
      var n := |lines| - 1;
      var p := lines[..n];
      PresentedPerLine(LL, p);
      assert forall i :: 0 <= i < n ==> lines[i] == p[i];
      if PresentedFrom(LL, p).None? {
        var i :| 0 <= i < |p| && !Readable(p[i]);
        assert lines[i] == p[i];
      }
    }
  }

  /** The text of a list of species as a header prints it: "are:", then one blank before each number. */
  function SpeciesText(xs: seq<int>): string {
    if xs == [] then "" else " " + IntToString(xs[0]) + SpeciesText(xs[1..])
  }

  /**
   * A line "… are: 3 7 1 ===" reads back as the list it names, whatever
   * precedes "are:" as long as that holds no "are:" itself.
   */
  lemma PresentedEntryReadBack(pre: string, xs: seq<int>)
    requires !Contains(pre + "are", "are:")
    ensures PresentedEntry(pre + "are:" + SpeciesText(xs) + " ===\n") == Some(xs)
  {
    var body := SpeciesText(xs);
    SpeciesTextAvoids(xs, 'a');
    SpeciesTextAvoids(xs, '=');
    AfterFirstAre(pre, body + " ===\n");
    assert pre + "are:" + body + " ===\n" == pre + "are:" + (body + " ===\n");
    BeforeFirstMark(body);
    SpeciesTextSplits(xs);
    ParseAllReadBack(xs);
  }

  /** The piece after the first "are:", when nothing after it holds an 'a'. */
  lemma AfterFirstAre(pre: string, rest: string)
    requires !Contains(pre + "are", "are:") && Avoids(rest, 'a')
    ensures |SplitSep(pre + "are:" + rest, "are:")| >= 2
    ensures SplitSep(pre + "are:" + rest, "are:")[1] == rest
  {
    assert "are:"[..3] == "are";
    SplitSepFirst(pre, "are:", rest);
    NotContainsFirst(rest, "are:");
    SplitSepNoSep(rest, "are:");
  }

  /** The piece before the first " ===", when the text before it holds no '='. */
  lemma BeforeFirstMark(body: string)
    requires Avoids(body, '=')
    ensures SplitSep(body + " ===\n", " ===")[0] == body
  {
    NoTripleEquals(body);
    assert " ==="[..3] == " ==";
    SplitSepFirst(body, " ===", "\n");
    assert body + " ===" + "\n" == body + " ===\n";
  }

  lemma {:induction false} SpeciesTextAvoids(xs: seq<int>, c: char)
    requires !IsDigit(c) && c != '-' && c != ' '
    ensures Avoids(SpeciesText(xs), c)
  {
    if xs != [] {
      IntStringAvoids(xs[0], c);
      SpeciesTextAvoids(xs[1..], c);
    }
  }

  /** Splitting the printed list gives one word per number. */
  lemma {:induction false} SpeciesTextSplits(xs: seq<int>)
    ensures Split(SpeciesText(xs)) == IntStrings(xs)
  {
    if xs != [] {
      var w := IntToString(xs[0]);
      var rest := SpeciesText(xs[1..]);
      IntStringIsWord(xs[0]);
      SpeciesTextSplits(xs[1..]);
      assert SpeciesText(xs) == " " + (w + rest);
      SplitSpaces(" ", w + rest);
      assert rest == [] || rest[0] == ' ';
      SplitWord(w, rest);
    }
  }

  /** A text free of '=' followed by " ==" holds no " ===". */
  lemma NoTripleEquals(body: string)
    requires Avoids(body, '=')
    ensures !Contains(body + " ==", " ===")
  {
    var s := body + " ==";
    forall k: nat | k + 4 <= |s|
      ensures !OccursAt(s, " ===", k)
    {
      assert s[k..k + 4][1] == s[k + 1];
    }
  }

  // ------------------------------------------------------------- loadParams

  /** `int(re.split(" ", line)[2])`. */
  function ThirdInt(line: string): (r: Option<int>)
    ensures r.Some? <==> |SplitSep(line, " ")| >= 3 && ParseInt(SplitSep(line, " ")[2]).Some?
    ensures r.Some? ==> r == ParseInt(SplitSep(line, " ")[2])
  {
    var l := SplitSep(line, " ");
    if |l| < 3 then None else ParseInt(l[2])
  }

  /**
   * `loadParams` of the CSV variant: the host population size from line 8
   * and the number of pathogen species from line 9; any failure gives `None`.
   */
  function ParamsFromCsv(file: Option<seq<string>>): (r: Option<(int, int)>)
    ensures r.Some? <==> ThirdInt(Py.GetLine(file, 8)).Some? && ThirdInt(Py.GetLine(file, 9)).Some?
    ensures r.Some? ==> r.value == (ThirdInt(Py.GetLine(file, 8)).value, ThirdInt(Py.GetLine(file, 9)).value)
  {
    match (ThirdInt(Py.GetLine(file, 8)), ThirdInt(Py.GetLine(file, 9)))
    case (Some(popSize), Some(sppNumber)) => Some((popSize, sppNumber))
    case _ => None
  }

  /** A missing file, or one shorter than nine lines, gives `None`. */
  lemma ParamsFromShortFile(file: Option<seq<string>>)
    requires file.None? || |file.value| < 9
    ensures ParamsFromCsv(file).None?
  {
    assert Py.GetLine(file, 9) == "";
    assert SplitSep("", " ") == [""];
  }

  /** Python's `int(v)`: floats are truncated toward zero, booleans are 0 or 1, text is parsed. */
  function PyInt(v: Py.JsonValue): (r: Option<int>)
    ensures v.JFloat? && v.f >= 0.0 ==> r.Some? && 0.0 <= r.value as real <= v.f < r.value as real + 1.0
    ensures v.JFloat? && v.f < 0.0 ==> r.Some? && r.value as real - 1.0 < v.f <= r.value as real <= 0.0
  {
    match v
    case JInt(i) => Some(i)
    case JFloat(f) => Some(if f >= 0.0 then f.Floor else -((-f).Floor))
    case JBool(b) => Some(if b then 1 else 0)
    case JString(s) => ParseInt(s)
    case JOther => None
  }

  /**
   * `loadParams` of the JSON variant: `None` when the file does not open or
   * does not hold an object, when a key is missing, or when a value is no integer.
   */
  function ParamsFromJson(prms: Option<map<string, Py.JsonValue>>): (r: Option<(int, int)>)
    ensures r.Some? ==> prms.Some? && "pathogen_population_size" in prms.value && "number_of_pathogen_species" in prms.value
    ensures r.Some? ==> Some(r.value.0) == PyInt(prms.value["pathogen_population_size"])
    ensures r.Some? ==> Some(r.value.1) == PyInt(prms.value["number_of_pathogen_species"])
  {
    if prms.None? then None
    else if "pathogen_population_size" !in prms.value || "number_of_pathogen_species" !in prms.value then None
    else match (PyInt(prms.value["pathogen_population_size"]), PyInt(prms.value["number_of_pathogen_species"]))
      case (Some(popSize), Some(sppNumber)) => Some((popSize, sppNumber))
      case _ => None
  }

  // ------------------------------------------------------------- calculateCoocurenceMtx

  /** How many of the lists hold both species. */
  function Both(LL: seq<seq<int>>, i: int, j: int): (n: nat)
    ensures n <= |LL|
  {
    if LL == [] then 0
    else Both(LL[..|LL| - 1], i, j) + (if i in LL[|LL| - 1] && j in LL[|LL| - 1] then 1 else 0)
  }

  /** The count the matrix holds at (i, j): the lists holding both, and 0 on the diagonal. */
  function CoCount(LL: seq<seq<int>>, i: int, j: int): nat {
    if i == j then 0 else Both(LL, i, j)
  }

  /**
   * `calculateCoocurenceMtx`: for each pair i < j every list holding both
   * adds one at (i, j) and at (j, i); the counts are then divided by the
   * population size.
   */
  method CalculateCoocurenceMtx(LL: seq<seq<int>>, sppNumber: nat, popSize: int) returns (mtx: array2<real>)
    ensures fresh(mtx) && mtx.Length0 == sppNumber && mtx.Length1 == sppNumber
    ensures popSize != 0 ==> forall a, b :: 0 <= a < sppNumber && 0 <= b < sppNumber ==>
      mtx[a, b] == CoCount(LL, a, b) as real / popSize as real
  {
    mtx := new real[sppNumber, sppNumber]((_, _) => 0.0);
    for i := 0 to sppNumber
      invariant forall a, b :: 0 <= a < sppNumber && 0 <= b < sppNumber ==>
        mtx[a, b] == if a < i || b < i then CoCount(LL, a, b) as real else 0.0
    {
      for j := i + 1 to sppNumber
        invariant forall a, b :: 0 <= a < sppNumber && 0 <= b < sppNumber ==>
          mtx[a, b] == if a < i || b < i || (a == i && i < b < j) || (b == i && i < a < j) then CoCount(LL, a, b) as real else 0.0
      {
        BothSymmetric(LL, i, j);
        AddPair(LL, i, j, mtx);
      }
    }
    if popSize != 0 {
      Scale(mtx, popSize as real);
    }
  }

  /** The innermost loop: every list holding both species adds one at (i, j) and at (j, i). */
  method AddPair(LL: seq<seq<int>>, i: nat, j: nat, mtx: array2<real>)
    requires i < j < mtx.Length0 && j < mtx.Length1 && i < mtx.Length1 && j < mtx.Length0
    modifies mtx
    ensures mtx[i, j] == old(mtx[i, j]) + Both(LL, i, j) as real
    ensures mtx[j, i] == old(mtx[j, i]) + Both(LL, i, j) as real
    ensures forall a, b :: 0 <= a < mtx.Length0 && 0 <= b < mtx.Length1 && !(a == i && b == j) && !(a == j && b == i) ==>
      mtx[a, b] == old(mtx[a, b])
  {
    for k := 0 to |LL|
      invariant mtx[i, j] == old(mtx[i, j]) + Both(LL[..k], i, j) as real
      invariant mtx[j, i] == old(mtx[j, i]) + Both(LL[..k], i, j) as real
      invariant forall a, b :: 0 <= a < mtx.Length0 && 0 <= b < mtx.Length1 && !(a == i && b == j) && !(a == j && b == i) ==>
        mtx[a, b] == old(mtx[a, b])
    {
      assert LL[..k + 1][..k] == LL[..k];
      if i in LL[k] && j in LL[k] {
        mtx[i, j] := mtx[i, j] + 1.0;
        mtx[j, i] := mtx[j, i] + 1.0;
      }
    }
    assert LL[..|LL|] == LL;
  }

  /** `mtx / float(popSize)`, entry by entry. */
  method Scale(mtx: array2<real>, d: real)
    requires d != 0.0
    modifies mtx
    ensures forall a, b :: 0 <= a < mtx.Length0 && 0 <= b < mtx.Length1 ==> mtx[a, b] == old(mtx[a, b]) / d
  {
    for a := 0 to mtx.Length0
      invariant forall x, y :: 0 <= x < mtx.Length0 && 0 <= y < mtx.Length1 ==>
        mtx[x, y] == if x < a then old(mtx[x, y]) / d else old(mtx[x, y])
    {
      for b := 0 to mtx.Length1
        invariant forall x, y :: 0 <= x < mtx.Length0 && 0 <= y < mtx.Length1 ==>
          mtx[x, y] == if x < a || (x == a && y < b) then old(mtx[x, y]) / d else old(mtx[x, y])
      {
        mtx[a, b] := mtx[a, b] / d;
      }
    }
  }

  /** The count is symmetric and at most the number of lists. */
  lemma {:induction false} BothSymmetric(LL: seq<seq<int>>, i: int, j: int)
    ensures Both(LL, i, j) == Both(LL, j, i)
  {
    if LL != [] {
      BothSymmetric(LL[..|LL| - 1], i, j);
    }
  }

  /**
   * The matrix is symmetric with a zero diagonal; with a positive population
   * size no smaller than the number of lists, every entry lies in [0, 1].
   */
  lemma CoCountShape(LL: seq<seq<int>>, popSize: int, i: int, j: int)
    ensures CoCount(LL, i, j) == CoCount(LL, j, i)
    ensures CoCount(LL, i, i) == 0
    ensures 0 < popSize && |LL| <= popSize ==> 0.0 <= CoCount(LL, i, j) as real / popSize as real <= 1.0
  {
    BothSymmetric(LL, i, j);
    if 0 < popSize && |LL| <= popSize {
      RatioRange(CoCount(LL, i, j), popSize);
    }
  }

  /** A pair counts a list exactly when that list names both species. */
  lemma {:induction false} BothCountsLists(LL: seq<seq<int>>, i: int, j: int)
    ensures Both(LL, i, j) == 0 <==> forall k :: 0 <= k < |LL| ==> !(i in LL[k] && j in LL[k])
    ensures Both(LL, i, j) == |LL| <==> forall k :: 0 <= k < |LL| ==> i in LL[k] && j in LL[k]
  {
    if LL != [] {
      var n := |LL| - 1;
      BothCountsLists(LL[..n], i, j);
      assert forall k :: 0 <= k < n ==> LL[..n][k] == LL[k];
    }
  }
}
