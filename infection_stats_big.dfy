/**
 * PyScripts/infectionStatsBig.py: the line-level helpers that read the
 * per-generation gene files (`InfectionGeneID.csv` and its companions) and
 * reshape the per-gene statistics.
 *
 * A file is its list of lines, each keeping its "\n"; a file that does not
 * open is `None`, and since these helpers do not catch IOError, opening it
 * raises. Line numbers from `enumerate` count from 0; those handed to
 * `linecache.getline` count from 1.
 */
module InfectionStatsBig {
  import opened Wrappers
  import opened Text
  import opened SeqUtil
  import HB = HeaderBlocks
  import Py = Python

  // ------------------------------------------------------------- file_len

  /**
   * `file_len(fname)`: the number of lines. The loop variable of an empty
   * file is never bound, so `i + 1` raises UnboundLocalError.
   */
  method FileLen(file: Option<seq<string>>) returns (r: PyResult<nat>)
    ensures file.None? ==> r == Raise(IOError)
    ensures file.Some? && file.value == [] ==> r == Raise(UnboundLocalError)
    ensures file.Some? && file.value != [] ==> r == Ok(|file.value|)
  {
    if file.None? {
      return Raise(IOError);
    }
    var i: Option<nat> := None;
    for k := 0 to |file.value|
      invariant k == 0 ==> i.None?
      invariant k > 0 ==> i == Some(k - 1)
    {
      i := Some(k);
    }
    if i.None? {
      return Raise(UnboundLocalError);
    }
    return Ok(i.value + 1);
  }

  // ------------------------------------------------------------- getUniqueGenes

  /** Line i (from 0) is read: it holds no '#' and does not come before `firstIndex`. */
  predicate Counted(i: int, line: string, firstIndex: int) {
    !HB.IsComment(line) && i >= firstIndex
  }

  /** The fields after the first: `LL[j]` for j in `range(1, len(LL))`. */
  function Rest(ll: seq<string>): (r: seq<string>)
    ensures |r| == (if ll == [] then 0 else |ll| - 1)
    ensures forall k :: 0 <= k < |r| ==> r[k] == ll[k + 1]
  {
    if ll == [] then [] else ll[1..]
  }

  /** The fields after the first of every line read, in file order. */
  function IdWords(lines: seq<string>, firstIndex: int): seq<string> {
    if lines == [] then []
    else
      var n := |lines| - 1;
      IdWords(lines[..n], firstIndex) + (if Counted(n, lines[n], firstIndex) then Rest(Split(lines[n])) else [])
  }

  /** What `getUniqueGenes(FILE, firstIndex)` returns. */
  function UniqueGenes(file: Option<seq<string>>, firstIndex: int): PyResult<seq<int>> {
    match file
    case None => Raise(IOError)
    case Some(lines) =>
      match ParseAll(IdWords(lines, firstIndex))
      case None => Raise(ValueError)
      case Some(ids) => Ok(Distinct(ids))
  }

  method GetUniqueGenes(file: Option<seq<string>>, firstIndex: int) returns (r: PyResult<seq<int>>)
    ensures r == UniqueGenes(file, firstIndex)
  {
    if file.None? {
      return Raise(IOError);
    }
    var lines := file.value;
    var uniqueGenes: seq<int> := [];
    for i := 0 to |lines|
      invariant ParseAll(IdWords(lines[..i], firstIndex)).Some?
      invariant uniqueGenes == Distinct(ParseAll(IdWords(lines[..i], firstIndex)).value)
    {
      var line := lines[i];
      IdWordsStep(lines, i, firstIndex);
      if HB.IsComment(line) {
        continue;
      } else if i < firstIndex {
        continue;
      }
      var ok, out := AddIds(IdWords(lines[..i], firstIndex), Rest(Split(line)), uniqueGenes);
      if !ok {
        IdWordsPrefix(lines, i + 1, firstIndex);
        ParseAllPrefixNone(IdWords(lines[..i + 1], firstIndex), IdWords(lines, firstIndex));
        return Raise(ValueError);
      }
      uniqueGenes := out;
    }
    assert lines[..|lines|] == lines;
    return Ok(uniqueGenes);
  }

  /** One more line read. */
  lemma IdWordsStep(lines: seq<string>, i: nat, firstIndex: int)
    requires i < |lines|
    ensures IdWords(lines[..i + 1], firstIndex) ==
      IdWords(lines[..i], firstIndex) + (if Counted(i, lines[i], firstIndex) then Rest(Split(lines[i])) else [])
    ensures !Counted(i, lines[i], firstIndex) ==> IdWords(lines[..i + 1], firstIndex) == IdWords(lines[..i], firstIndex)
  {
    assert lines[..i + 1][..i] == lines[..i];
    assert IdWords(lines[..i], firstIndex) + [] == IdWords(lines[..i], firstIndex);
  }

  /** The inner loop over the fields after the first of one line. */
  method AddIds(ghost words: seq<string>, ws: seq<string>, uniqueGenes: seq<int>) returns (ok: bool, out: seq<int>)
    requires ParseAll(words).Some? && uniqueGenes == Distinct(ParseAll(words).value)
    ensures ok <==> ParseAll(words + ws).Some?
    ensures ok ==> out == Distinct(ParseAll(words + ws).value)
  {
    out := uniqueGenes;
    ghost var vals := ParseAll(words).value;
    assert words + ws[..0] == words;
    for j := 0 to |ws|
      invariant ParseAll(words + ws[..j]) == Some(vals)
      invariant out == Distinct(vals)
    {
      ParseAllStep(words, ws, j);
      var geneID := ParseInt(ws[j]);
      if geneID.None? {
        return false, out;
      }
      assert (vals + [geneID.value])[..|vals|] == vals;
      if geneID.value !in out {
        out := out + [geneID.value];
      }
      vals := vals + [geneID.value];
    }
    assert ws[..|ws|] == ws;
    return true, out;
  }

  /** Reading word j after a prefix that reads: the read grows by one value, or the whole fails. */
  lemma ParseAllStep(words: seq<string>, ws: seq<string>, j: nat)
    requires j < |ws| && ParseAll(words + ws[..j]).Some?
    ensures ParseInt(ws[j]).None? ==> ParseAll(words + ws).None?
    ensures ParseInt(ws[j]).Some? ==>
      ParseAll(words + ws[..j + 1]) == Some(ParseAll(words + ws[..j]).value + [ParseInt(ws[j]).value])
  {
    assert words + ws[..j + 1] == (words + ws[..j]) + [ws[j]];
    ParseAllSnoc(words + ws[..j], ws[j]);
    if ParseInt(ws[j]).None? {
      ParseAllPrefixNone(words + ws[..j + 1], words + ws);
    }
  }

  /** A read that fails on a prefix fails on the whole. */
  lemma ParseAllPrefixNone(a: seq<string>, b: seq<string>)
    requires a <= b && ParseAll(a).None?
    ensures ParseAll(b).None?
  {
    var i :| 0 <= i < |a| && ParseInt(a[i]).None?;
    assert b[i] == a[i];
  }

  /** The words of the first m lines come first among the words of the file. */
  lemma {:induction false} IdWordsPrefix(lines: seq<string>, m: nat, firstIndex: int)
    requires m <= |lines|
    ensures IdWords(lines[..m], firstIndex) <= IdWords(lines, firstIndex)
  {
    if m < |lines| {
      var n := |lines| - 1;
      assert lines[..n][..m] == lines[..m];
      IdWordsPrefix(lines[..n], m, firstIndex);
    } else {
      assert lines[..m] == lines;
    }
  }

  /** Line `line`, the i-th (from 0), is read and holds w as a field after the first. */
  predicate Gives(i: int, line: string, firstIndex: int, w: string) {
    Counted(i, line, firstIndex) && w in Rest(Split(line))
  }

  /** A word is collected exactly when it is a field after the first of a line that is read. */
  lemma IdWordsMembers(lines: seq<string>, firstIndex: int, w: string)
    ensures w in IdWords(lines, firstIndex) <==> exists i :: 0 <= i < |lines| && Gives(i, lines[i], firstIndex, w)
  {
    if w in IdWords(lines, firstIndex) {
      var i := IdWordsSource(lines, firstIndex, w);
    }
    if exists i :: 0 <= i < |lines| && Gives(i, lines[i], firstIndex, w) {
      var i :| 0 <= i < |lines| && Gives(i, lines[i], firstIndex, w);
      IdWordsHas(lines, firstIndex, i, w);
    }
  }

  /** Every collected word comes from a line that is read. */
  lemma {:induction false} IdWordsSource(lines: seq<string>, firstIndex: int, w: string) returns (i: nat)
    requires w in IdWords(lines, firstIndex)
    ensures i < |lines| && Gives(i, lines[i], firstIndex, w)
  {
    var n := |lines| - 1;
    var p := lines[..n];
    if w in IdWords(p, firstIndex) {
      i := IdWordsSource(p, firstIndex, w);
      assert lines[i] == p[i];
    } else {
      i := n;
    }
  }

  /** A field after the first of a line that is read is collected. */
  lemma IdWordsHas(lines: seq<string>, firstIndex: int, i: nat, w: string)
    requires i < |lines| && Gives(i, lines[i], firstIndex, w)
    ensures w in IdWords(lines, firstIndex)
  {
    var q := lines[..i + 1];
    assert q[..i] == lines[..i];
    assert q[i] == lines[i];
    assert IdWords(q, firstIndex) == IdWords(q[..i], firstIndex) + Rest(Split(lines[i]));
    IdWordsPrefix(lines, i + 1, firstIndex);
  }

  /**
   * `getUniqueGenes` lists each number once; a number is listed exactly when
   * it is the value of a field after the first of a line that is read; and
   * it raises ValueError exactly when such a field is not an integer.
   */
  lemma UniqueGenesMeaning(lines: seq<string>, firstIndex: int)
    ensures UniqueGenes(Some(lines), firstIndex).Raise? <==>
      exists w :: w in IdWords(lines, firstIndex) && ParseInt(w).None?
    ensures UniqueGenes(Some(lines), firstIndex).Ok? ==> NoDup(UniqueGenes(Some(lines), firstIndex).value)
    ensures UniqueGenes(Some(lines), firstIndex).Ok? ==> forall x ::
      x in UniqueGenes(Some(lines), firstIndex).value <==> exists w :: w in IdWords(lines, firstIndex) && ParseInt(w) == Some(x)
  {
    var ws := IdWords(lines, firstIndex);
    var p := ParseAll(ws);
    if p.Some? {
      DistinctProps(p.value);
      forall x
        ensures x in p.value <==> exists w :: w in ws && ParseInt(w) == Some(x)
      {
        if x in p.value {
          var k :| 0 <= k < |p.value| && p.value[k] == x;
          assert ws[k] in ws && ParseInt(ws[k]) == Some(x);
        }
        if exists w :: w in ws && ParseInt(w) == Some(x) {
          var w :| w in ws && ParseInt(w) == Some(x);
          var k :| 0 <= k < |ws| && ws[k] == w;
          assert p.value[k] == x;
        }
      }
    } else {
      var k :| 0 <= k < |ws| && ParseInt(ws[k]).None?;
      assert ws[k] in ws;
    }
  }

  // ------------------------------------------------------------- getIndexGivenGeneID

  /** Line i is read and holds a blank followed by the number's text. */
  predicate Mentions(i: int, line: string, firstIndex: int, strID: string) {
    Counted(i, line, firstIndex) && Contains(line, " " + strID)
  }

  /** `(i + 1, LL.index(strID))`: the first field equal to the text, or ValueError when none is. */
  function PairAt(i: nat, line: string, strID: string): (r: PyResult<(int, nat)>)
    ensures r.Ok? <==> strID in Split(line)
    ensures r.Ok? ==> r.value.0 == i + 1 && r.value.1 < |Split(line)| && Split(line)[r.value.1] == strID
    ensures r.Ok? ==> forall q :: 0 <= q < r.value.1 ==> Split(line)[q] != strID
    ensures r.Raise? ==> r.error == ValueError
  {
    var LL := Split(line);
    if strID in LL then Ok((i + 1, FirstIndex(LL, strID))) else Raise(ValueError)
  }

  /** The loop of `getIndexGivenGeneID` over the lines. */
  function IndexPairs(lines: seq<string>, firstIndex: int, strID: string): PyResult<seq<(int, nat)>> {
    if lines == [] then Ok([])
    else
      var n := |lines| - 1;
      match IndexPairs(lines[..n], firstIndex, strID)
      case Raise(e) => Raise(e)
      case Ok(ps) =>
        if !Mentions(n, lines[n], firstIndex, strID) then Ok(ps)
        else match PairAt(n, lines[n], strID)
          case Raise(e) => Raise(e)
          case Ok(p) => Ok(ps + [p])
  }

  /** What `getIndexGivenGeneID(FILE, geneID, firstIndex)` returns. */
  function IndexInFile(file: Option<seq<string>>, geneID: int, firstIndex: int): PyResult<seq<(int, nat)>> {
    match file
    case None => Raise(IOError)
    case Some(lines) => IndexPairs(lines, firstIndex, IntToString(geneID))
  }

  method GetIndexGivenGeneID(file: Option<seq<string>>, geneID: int, firstIndex: int) returns (r: PyResult<seq<(int, nat)>>)
    ensures r == IndexInFile(file, geneID, firstIndex)
  {
    if file.None? {
      return Raise(IOError);
    }
    var lines := file.value;
    var strID := IntToString(geneID);
    var indexInFile: seq<(int, nat)> := [];
    for i := 0 to |lines|
      invariant IndexPairs(lines[..i], firstIndex, strID) == Ok(indexInFile)
    {
      assert lines[..i + 1][..i] == lines[..i];
      var line := lines[i];
      if HB.IsComment(line) {
        continue;
      } else if i < firstIndex {
        continue;
      } else if Contains(line, " " + strID) {
        var LL := Split(line);
        if strID !in LL {
          IndexPairsRaise(lines, i + 1, firstIndex, strID);
          return Raise(ValueError);
        }
        indexInFile := indexInFile + [(i + 1, FirstIndex(LL, strID))];
      }
    }
    assert lines[..|lines|] == lines;
    return Ok(indexInFile);
  }

  /** Once the loop has raised on a prefix, the whole file raises the same. */
  lemma {:induction false} IndexPairsRaise(lines: seq<string>, m: nat, firstIndex: int, strID: string)
    requires m <= |lines| && IndexPairs(lines[..m], firstIndex, strID).Raise?
    ensures IndexPairs(lines, firstIndex, strID) == IndexPairs(lines[..m], firstIndex, strID)
    decreases |lines| - m
  {
    if m < |lines| {
      assert lines[..m + 1][..m] == lines[..m];
      IndexPairsRaise(lines, m + 1, firstIndex, strID);
    } else {
      assert lines[..m] == lines;
    }
  }

  /** The number of lines that are read and mention the text. */
  function MentionCount(lines: seq<string>, firstIndex: int, strID: string): (n: nat)
    ensures n <= |lines|
  {
    if lines == [] then 0
    else
      var n := |lines| - 1;
      MentionCount(lines[..n], firstIndex, strID) + (if Mentions(n, lines[n], firstIndex, strID) then 1 else 0)
  }

  /** The loop succeeds exactly when every mentioning line holds the text as a whole field. */
  lemma {:induction false} IndexPairsOk(lines: seq<string>, firstIndex: int, strID: string)
    ensures IndexPairs(lines, firstIndex, strID).Ok? <==>
      forall i :: 0 <= i < |lines| && Mentions(i, lines[i], firstIndex, strID) ==> strID in Split(lines[i])
  {
    if lines != [] {
      var n := |lines| - 1;
      var p := lines[..n];
      IndexPairsOk(p, firstIndex, strID);
      assert forall i :: 0 <= i < n ==> lines[i] == p[i];
    }
  }

  /** Pair p names a line (from 1) that mentions the text, and a field of it equal to the text. */
  predicate PairFor(lines: seq<string>, p: (int, nat), firstIndex: int, strID: string) {
    1 <= p.0 <= |lines| && Mentions(p.0 - 1, lines[p.0 - 1], firstIndex, strID) &&
    p.1 < |Split(lines[p.0 - 1])| && Split(lines[p.0 - 1])[p.1] == strID
  }

  lemma PairForExtend(lines: seq<string>, n: nat, p: (int, nat), firstIndex: int, strID: string)
    requires n <= |lines| && PairFor(lines[..n], p, firstIndex, strID)
    ensures PairFor(lines, p, firstIndex, strID) && p.0 <= n
  {
    assert lines[..n][p.0 - 1] == lines[p.0 - 1];
  }

  /**
   * One pair per mentioning line, in file order: each names the line (from 1)
   * and the position of a field equal to the number's text.
   */
  lemma {:induction false} IndexPairsPoint(lines: seq<string>, firstIndex: int, strID: string)
    requires IndexPairs(lines, firstIndex, strID).Ok?
    ensures |IndexPairs(lines, firstIndex, strID).value| == MentionCount(lines, firstIndex, strID)
    ensures forall k :: 0 <= k < |IndexPairs(lines, firstIndex, strID).value| ==>
      PairFor(lines, IndexPairs(lines, firstIndex, strID).value[k], firstIndex, strID)
    ensures LinesAscend(IndexPairs(lines, firstIndex, strID).value)
  {
    if lines != [] {
      var n := |lines| - 1;
      IndexPairsPoint(lines[..n], firstIndex, strID);
      var qs := IndexPairs(lines[..n], firstIndex, strID).value;
      forall k | 0 <= k < |qs|
        ensures PairFor(lines, qs[k], firstIndex, strID) && qs[k].0 <= n
      {
        PairForExtend(lines, n, qs[k], firstIndex, strID);
      }
      if Mentions(n, lines[n], firstIndex, strID) {
        LinesAscendSnoc(qs, PairAt(n, lines[n], strID).value);
      }
    }
  }

  /** The pairs name strictly later lines one after another. */
  predicate LinesAscend(ps: seq<(int, nat)>) {
    forall k, l :: 0 <= k < l < |ps| ==> ps[k].0 < ps[l].0
  }

  lemma LinesAscendSnoc(ps: seq<(int, nat)>, p: (int, nat))
    requires LinesAscend(ps) && forall k :: 0 <= k < |ps| ==> ps[k].0 < p.0
    ensures LinesAscend(ps + [p])
  {
  }

  /**
   * The line test looks for the number's text anywhere after a blank, so a
   * longer number that starts with the same digits passes it; the field is
   * then not found and `LL.index` raises ValueError. With the default
   * `firstIndex` 1 that every caller uses, line 0 is skipped, so the file
   * shown has any first line and the longer number on its second.
   */
  lemma LongerIdRaises(head: string, t: int, id: int)
    requires t != id
    ensures IndexInFile(Some([head, IntToString(t) + " " + IntToString(id) + "0\n"]), id, 1) == Raise(ValueError)
  {
    var strID := IntToString(id);
    var line := IntToString(t) + " " + strID + "0\n";
    LongerIdLineRead(t, id);
    LongerIdNotField(t, id);
    SecondLineRaises(head, line, strID);
  }

  /** The single line's split holds neither number as the shorter text. */
  lemma LongerIdNotField(t: int, id: int)
    requires t != id
    ensures IntToString(id) !in Split(IntToString(t) + " " + IntToString(id) + "0\n")
  {
    var strID := IntToString(id);
    LongerIdLineSplit(t, id);
    ParseIntOfIntString(t);
    ParseIntOfIntString(id);
    assert IntToString(t) != strID;
    assert |strID + "0"| != |strID|;
  }

  /**
   * Under the default `firstIndex` 1, a file whose second line mentions the
   * text without holding it as a field raises, whatever its first line.
   */
  lemma SecondLineRaises(head: string, line: string, strID: string)
    requires Mentions(1, line, 1, strID) && strID !in Split(line)
    ensures IndexPairs([head, line], 1, strID) == Raise(ValueError)
  {
    assert [head, line][..1] == [head];
    assert [head][..0] == [];
    assert !Mentions(0, head, 1, strID);
    assert IndexPairs([head], 1, strID) == Ok([]);
    assert PairAt(1, line, strID) == Raise(ValueError);
  }

  /** The line is no comment and holds a blank followed by the shorter number. */
  lemma LongerIdLineRead(t: int, id: int)
    ensures !HB.IsComment(IntToString(t) + " " + IntToString(id) + "0\n")
    ensures Contains(IntToString(t) + " " + IntToString(id) + "0\n", " " + IntToString(id))
  {
    var strID := IntToString(id);
    var line := IntToString(t) + " " + strID + "0\n";
    IntStringAvoids(t, '#');
    IntStringAvoids(id, '#');
    assert Avoids(line, '#');
    NotContainsFirst(line, "#");
    assert line[|IntToString(t)|..|IntToString(t)| + |" " + strID|] == " " + strID;
    ContainsAt(line, " " + strID, |IntToString(t)|);
  }

  /** The line's fields are the two numbers as printed. */
  lemma LongerIdLineSplit(t: int, id: int)
    ensures Split(IntToString(t) + " " + IntToString(id) + "0\n") == [IntToString(t), IntToString(id) + "0"]
  {
    var strID := IntToString(id);
    var w := strID + "0";
    IntStringIsWord(t);
    IntStringIsWord(id);
    assert IntToString(t) + " " + strID + "0\n" == IntToString(t) + " " + (w + "\n");
    SplitWordBlank(IntToString(t), w + "\n");
    assert NoSpace(w) by {
      assert forall k :: 0 <= k < |strID| ==> w[k] == strID[k];
    }
    SplitWord(w, "\n");
    assert Split("\n") == [];
  }

  /** The evidently intended test: the number's text is one of the fields after the first. */
  predicate MentionsField(i: int, line: string, firstIndex: int, strID: string) {
    Counted(i, line, firstIndex) && strID in Rest(Split(line))
  }

  /** The intended loop: one pair per line holding the number as a field after the first. */
  function FieldPairs(lines: seq<string>, firstIndex: int, strID: string): seq<(int, nat)> {
    if lines == [] then []
    else
      var n := |lines| - 1;
      FieldPairs(lines[..n], firstIndex, strID) + LinePair(n, lines[n], firstIndex, strID)
  }

  /** The pair of line n (from 0), when it holds the text as a field after the first. */
  function LinePair(n: nat, line: string, firstIndex: int, strID: string): seq<(int, nat)> {
    if MentionsField(n, line, firstIndex, strID) then [(n + 1, 1 + FirstIndex(Rest(Split(line)), strID))] else []
  }

  /** Pair p names a line (from 1) holding the text as a field after the first, and that field. */
  predicate FieldPairFor(lines: seq<string>, p: (int, nat), firstIndex: int, strID: string) {
    1 <= p.0 <= |lines| && MentionsField(p.0 - 1, lines[p.0 - 1], firstIndex, strID) &&
    1 <= p.1 < |Split(lines[p.0 - 1])| && Split(lines[p.0 - 1])[p.1] == strID
  }

  lemma FieldPairForExtend(lines: seq<string>, n: nat, p: (int, nat), firstIndex: int, strID: string)
    requires n <= |lines| && FieldPairFor(lines[..n], p, firstIndex, strID)
    ensures FieldPairFor(lines, p, firstIndex, strID) && p.0 <= n
  {
    assert lines[..n][p.0 - 1] == lines[p.0 - 1];
  }

  /** The number of lines that are read and hold the text as a field after the first. */
  function FieldCount(lines: seq<string>, firstIndex: int, strID: string): nat {
    if lines == [] then 0
    else
      var n := |lines| - 1;
      FieldCount(lines[..n], firstIndex, strID) + (if MentionsField(n, lines[n], firstIndex, strID) then 1 else 0)
  }

  /**
   * One pair per line holding the number as a field after the first: each
   * names such a line and the field; the lines come in file order.
   */
  lemma {:induction false} FieldPairsPoint(lines: seq<string>, firstIndex: int, strID: string)
    ensures |FieldPairs(lines, firstIndex, strID)| == FieldCount(lines, firstIndex, strID)
    ensures forall k :: 0 <= k < |FieldPairs(lines, firstIndex, strID)| ==>
      FieldPairFor(lines, FieldPairs(lines, firstIndex, strID)[k], firstIndex, strID)
    ensures LinesAscend(FieldPairs(lines, firstIndex, strID))
  {
    if lines != [] {
      var n := |lines| - 1;
      FieldPairsPoint(lines[..n], firstIndex, strID);
      var qs := FieldPairs(lines[..n], firstIndex, strID);
      forall k | 0 <= k < |qs|
        ensures FieldPairFor(lines, qs[k], firstIndex, strID) && qs[k].0 <= n
      {
        FieldPairForExtend(lines, n, qs[k], firstIndex, strID);
      }
      if MentionsField(n, lines[n], firstIndex, strID) {
        var pn := (n + 1, 1 + FirstIndex(Rest(Split(lines[n])), strID));
        FieldPairLast(lines, firstIndex, strID);
        LinesAscendSnoc(qs, pn);
        assert LinePair(n, lines[n], firstIndex, strID) == [pn];
      } else {
        assert LinePair(n, lines[n], firstIndex, strID) == [];
      }
    }
  }

  /** The pair of the last line, when it holds the text as a field, names that field. */
  lemma FieldPairLast(lines: seq<string>, firstIndex: int, strID: string)
    requires lines != [] && MentionsField(|lines| - 1, lines[|lines| - 1], firstIndex, strID)
    ensures var n := |lines| - 1;
      FieldPairFor(lines, (n + 1, 1 + FirstIndex(Rest(Split(lines[n])), strID)), firstIndex, strID)
  {
    var n := |lines| - 1;
    var rest := Rest(Split(lines[n]));
    var j := FirstIndex(rest, strID);
    assert Split(lines[n])[1 + j] == rest[j];
  }

  /** `getIndexGivenGeneID` as intended: it raises only when the file does not open. */
  function IndexInFileByField(file: Option<seq<string>>, geneID: int, firstIndex: int): (r: PyResult<seq<(int, nat)>>)
    ensures r.Raise? <==> file.None?
  {
    match file
    case None => Raise(IOError)
    case Some(lines) => Ok(FieldPairs(lines, firstIndex, IntToString(geneID)))
  }

  // ------------------------------------------------------------- getFirstOccurence

  /** The first line from `from` on that is read and mentions the text. */
  function FirstMention(lines: seq<string>, firstIndex: int, strID: string, from: nat): (r: Option<nat>)
    ensures r.Some? ==> from <= r.value < |lines| && Mentions(r.value, lines[r.value], firstIndex, strID)
    ensures forall i :: from <= i < |lines| && (r.None? || i < r.value) ==> !Mentions(i, lines[i], firstIndex, strID)
    decreases |lines| - from
  {
    if from >= |lines| then None
    else if Mentions(from, lines[from], firstIndex, strID) then Some(from)
    else FirstMention(lines, firstIndex, strID, from + 1)
  }

  /** What `getFirstOccurence(FILE, geneID, firstIndex)` returns: at most one pair. */
  function FirstOccurrence(file: Option<seq<string>>, geneID: int, firstIndex: int): PyResult<seq<(int, nat)>> {
    match file
    case None => Raise(IOError)
    case Some(lines) =>
      var strID := IntToString(geneID);
      match FirstMention(lines, firstIndex, strID, 0)
      case None => Ok([])
      case Some(i) =>
        match PairAt(i, lines[i], strID)
        case Raise(e) => Raise(e)
        case Ok(p) => Ok([p])
  }

  /** The loop stops at the first mentioning line; the "not found" branch after it is never taken. */
  method GetFirstOccurence(file: Option<seq<string>>, geneID: int, firstIndex: int) returns (r: PyResult<seq<(int, nat)>>)
    ensures r == FirstOccurrence(file, geneID, firstIndex)
  {
    if file.None? {
      return Raise(IOError);
    }
    var lines := file.value;
    var strID := IntToString(geneID);
    var i := 0;
    while i < |lines|
      invariant i <= |lines|
      invariant forall k :: 0 <= k < i ==> !Mentions(k, lines[k], firstIndex, strID)
    {
      var line := lines[i];
      if !HB.IsComment(line) && i >= firstIndex && Contains(line, " " + strID) {
        ghost var fm := FirstMention(lines, firstIndex, strID, 0);
        assert fm == Some(i);
        var LL := Split(line);
        if strID !in LL {
          return Raise(ValueError);
        }
        return Ok([(i + 1, FirstIndex(LL, strID))]);
      }
      i := i + 1;
    }
    ghost var fm := FirstMention(lines, firstIndex, strID, 0);
    assert fm.None?;
    return Ok([]);
  }

  /**
   * Where `getIndexGivenGeneID` succeeds, `getFirstOccurence` gives its first
   * pair, or nothing when it found none.
   */
  lemma {:induction false} FirstOfIndexPairs(lines: seq<string>, firstIndex: int, strID: string)
    requires IndexPairs(lines, firstIndex, strID).Ok?
    ensures var ps := IndexPairs(lines, firstIndex, strID).value;
      match FirstMention(lines, firstIndex, strID, 0)
      case None => ps == []
      case Some(i) => ps != [] && PairAt(i, lines[i], strID) == Ok(ps[0])
  {
    if lines != [] {
      var n := |lines| - 1;
      var p := lines[..n];
      FirstOfIndexPairs(p, firstIndex, strID);
      assert forall i :: 0 <= i < n ==> lines[i] == p[i];
      FirstMentionSnoc(lines, firstIndex, strID);
    }
  }

  /** The first mention in a longer list is the prefix's, or else the new last line when it mentions. */
  lemma FirstMentionSnoc(lines: seq<string>, firstIndex: int, strID: string)
    requires lines != []
    ensures var n := |lines| - 1;
      var fp := FirstMention(lines[..n], firstIndex, strID, 0);
      FirstMention(lines, firstIndex, strID, 0) ==
        if fp.Some? then fp else if Mentions(n, lines[n], firstIndex, strID) then Some(n) else None
  {
    var n := |lines| - 1;
    var p := lines[..n];
    var fp := FirstMention(p, firstIndex, strID, 0);
    var k := if fp.Some? then fp else if Mentions(n, lines[n], firstIndex, strID) then Some(n) else None;
    if fp.Some? {
      assert lines[fp.value] == p[fp.value];
    }
    forall i | 0 <= i < |lines| && (k.None? || i < k.value)
      ensures !Mentions(i, lines[i], firstIndex, strID)
    {
      if i < n {
        assert lines[i] == p[i];
      }
    }
    FirstMentionUnique(lines, firstIndex, strID, k);
  }

  /** The first mention is the only position that mentions with no mention before it. */
  lemma FirstMentionUnique(lines: seq<string>, firstIndex: int, strID: string, k: Option<nat>)
    requires k.Some? ==> k.value < |lines| && Mentions(k.value, lines[k.value], firstIndex, strID)
    requires forall i :: 0 <= i < |lines| && (k.None? || i < k.value) ==> !Mentions(i, lines[i], firstIndex, strID)
    ensures FirstMention(lines, firstIndex, strID, 0) == k
  {
  }

  lemma FirstOccurrenceOfIndex(file: Option<seq<string>>, geneID: int, firstIndex: int)
    requires IndexInFile(file, geneID, firstIndex).Ok?
    ensures var ps := IndexInFile(file, geneID, firstIndex).value;
      FirstOccurrence(file, geneID, firstIndex) == Ok(if ps == [] then [] else [ps[0]])
  {
    FirstOfIndexPairs(file.value, firstIndex, IntToString(geneID));
  }

  // ------------------------------------------------------------- getBkgroundDataOfGivenGeneByID

  /**
   * One row: the line split on single blanks, the queried position deleted
   * (a negative one counting from the end, IndexError outside the line),
   * then field 0 dropped and the rest read as integers.
   */
  function BackgroundRow(line: string, pos: int): (r: PyResult<seq<int>>)
    ensures r.Raise? ==> (r.error == IndexError <==> !(-|SplitSep(line, " ")| <= pos < |SplitSep(line, " ")|))
  {
    var ll := SplitSep(line, " ");
    if !(-|ll| <= pos < |ll|) then Raise(IndexError)
    else
      var q := if pos < 0 then |ll| + pos else pos;
      match ParseAll(Rest(ll[..q] + ll[q + 1..]))
      case None => Raise(ValueError)
      case Some(v) => Ok(v)
  }

  /**
   * A row holds every field but field 0 and the queried one, in line order:
   * entry k is field k + 1 before the queried position and field k + 2 from it on.
   */
  lemma BackgroundRowFields(line: string, pos: int)
    requires BackgroundRow(line, pos).Ok?
    ensures var ll := SplitSep(line, " ");
      var q := if pos < 0 then |ll| + pos else pos;
      var r := BackgroundRow(line, pos).value;
      |r| == (if |ll| >= 2 then |ll| - 2 else 0) &&
      forall k :: 0 <= k < |r| ==> Some(r[k]) == ParseInt(ll[if k + 1 < q then k + 1 else k + 2])
  {
    var ll := SplitSep(line, " ");
    var q := if pos < 0 then |ll| + pos else pos;
    DeleteThenRest(ll, q);
  }

  /** Deleting position q and then dropping the first item. */
  lemma DeleteThenRest(ll: seq<string>, q: nat)
    requires q < |ll|
    ensures var r := Rest(ll[..q] + ll[q + 1..]);
      |r| == (if |ll| >= 2 then |ll| - 2 else 0) &&
      forall k :: 0 <= k < |r| ==> r[k] == ll[if k + 1 < q then k + 1 else k + 2]
  {
    var d := ll[..q] + ll[q + 1..];
    assert forall k :: 0 <= k < |d| ==> d[k] == ll[if k < q then k else k + 1];
  }

  /** The loop of `getBkgroundDataOfGivenGeneByID`: the row of every index pair in turn. */
  function BackgroundData(file: Option<seq<string>>, idxArr: seq<(int, int)>): PyResult<seq<seq<int>>> {
    Py.MapAll(idxArr, (p: (int, int)) => BackgroundRow(Py.GetLine(file, p.0), p.1))
  }

  method GetBkgroundDataOfGivenGeneByID(file: Option<seq<string>>, idxArr: seq<(int, int)>) returns (r: PyResult<seq<seq<int>>>)
    ensures r == BackgroundData(file, idxArr)
  {
    ghost var f := (p: (int, int)) => BackgroundRow(Py.GetLine(file, p.0), p.1);
    var dataInFile: seq<seq<int>> := [];
    for k := 0 to |idxArr|
      invariant Py.MapAll(idxArr[..k], f) == Ok(dataInFile)
    {
      assert idxArr[..k + 1][..k] == idxArr[..k];
      var row := BackgroundRow(Py.GetLine(file, idxArr[k].0), idxArr[k].1);
      assert f(idxArr[k]) == row;
      if row.Raise? {
        Py.MapAllRaise(idxArr, f, k + 1);
        return Raise(row.error);
      }
      dataInFile := dataInFile + [row.value];
    }
    assert idxArr[..|idxArr|] == idxArr;
    return Ok(dataInFile);
  }

  /** `row` is what the line numbered `p.0` gives with `p.1` removed. */
  predicate RowAt(file: Option<seq<string>>, p: (int, int), row: seq<int>) {
    BackgroundRow(Py.GetLine(file, p.0), p.1) == Ok(row)
  }

  /** One row per index pair, each the row of the line the pair names. */
  lemma BackgroundDataRows(file: Option<seq<string>>, idxArr: seq<(int, int)>)
    requires BackgroundData(file, idxArr).Ok?
    ensures |BackgroundData(file, idxArr).value| == |idxArr|
    ensures forall k :: 0 <= k < |idxArr| ==> RowAt(file, idxArr[k], BackgroundData(file, idxArr).value[k])
  {
    Py.MapAllOk(idxArr, (p: (int, int)) => BackgroundRow(Py.GetLine(file, p.0), p.1));
  }

  // ------------------------------------------------------------- removeShortLivedMHC

  /** The items that lasted at least `minGeneAge` generations, in order. */
  function Kept<T>(items: seq<seq<T>>, minGeneAge: int): (r: seq<seq<T>>)
    ensures |r| <= |items|
  {
    if items == [] then []
    else
      var n := |items| - 1;
      Kept(items[..n], minGeneAge) + (if |items[n]| >= minGeneAge then [items[n]] else [])
  }

  /**
   * What `removeShortLivedMHC(mhcStatList, minGeneAge)` returns: the kept
   * items, the number of items and the number kept. An empty list divides by
   * zero when the fraction kept is computed.
   */
  function RemoveShortLived<T>(items: seq<seq<T>>, minGeneAge: int): PyResult<(seq<seq<T>>, nat, nat)> {
    if items == [] then Raise(ZeroDivisionError)
    else Ok((Kept(items, minGeneAge), |items|, |Kept(items, minGeneAge)|))
  }

  method RemoveShortLivedMHC<T>(mhcStatList: seq<seq<T>>, minGeneAge: int) returns (r: PyResult<(seq<seq<T>>, nat, nat)>)
    ensures r == RemoveShortLived(mhcStatList, minGeneAge)
  {
    var totalGeneCount := |mhcStatList|;
    var trimm: seq<seq<T>> := [];
    for k := 0 to |mhcStatList|
      invariant trimm == Kept(mhcStatList[..k], minGeneAge)
    {
      assert mhcStatList[..k + 1][..k] == mhcStatList[..k];
      if |mhcStatList[k]| >= minGeneAge {
        trimm := trimm + [mhcStatList[k]];
      }
    }
    assert mhcStatList[..|mhcStatList|] == mhcStatList;
    if totalGeneCount == 0 {
      return Raise(ZeroDivisionError);
    }
    return Ok((trimm, totalGeneCount, |trimm|));
  }

  /** Filtering a concatenation filters each part: the kept items stay in their order. */
  lemma {:induction false} KeptAppend<T>(a: seq<seq<T>>, b: seq<seq<T>>, minGeneAge: int)
    ensures Kept(a + b, minGeneAge) == Kept(a, minGeneAge) + Kept(b, minGeneAge)
  {
    if b != [] {
      var n := |b| - 1;
      assert (a + b)[..|a + b| - 1] == a + b[..n];
      KeptAppend(a, b[..n], minGeneAge);
    } else {
      assert a + b == a;
    }
  }

  /** Exactly the long-lived items are kept. */
  lemma {:induction false} KeptMembers<T>(items: seq<seq<T>>, minGeneAge: int)
    ensures forall x :: x in Kept(items, minGeneAge) <==> x in items && |x| >= minGeneAge
  {
    if items != [] {
      var n := |items| - 1;
      var p := items[..n];
      KeptMembers(p, minGeneAge);
      assert items == p + [items[n]];
    }
  }

  /** Filtering the kept items again changes nothing. */
  lemma {:induction false} KeptIdempotent<T>(items: seq<seq<T>>, minGeneAge: int)
    ensures Kept(Kept(items, minGeneAge), minGeneAge) == Kept(items, minGeneAge)
  {
    if items != [] {
      var n := |items| - 1;
      var p := items[..n];
      KeptIdempotent(p, minGeneAge);
      var tail := if |items[n]| >= minGeneAge then [items[n]] else [];
      assert Kept(items, minGeneAge) == Kept(p, minGeneAge) + tail;
      KeptAppend(Kept(p, minGeneAge), tail, minGeneAge);
      assert Kept(tail, minGeneAge) == tail by {
        if tail != [] {
          assert tail[..0] == [];
        }
      }
    }
  }

  // ------------------------------------------------------------- getTheMeanRelatFitt

  /** The length of the longest item, 0 for none. */
  function MaxLen<T>(items: seq<seq<T>>): nat {
    if items == [] then 0
    else
      var n := |items| - 1;
      var m := MaxLen(items[..n]);
      if |items[n]| > m then |items[n]| else m
  }

  /** Entry i of every item longer than i, in item order. */
  function Column<T>(items: seq<seq<T>>, i: nat): seq<T> {
    if items == [] then []
    else
      var n := |items| - 1;
      Column(items[..n], i) + (if i < |items[n]| then [items[n][i]] else [])
  }

  /** How many items are longer than i. */
  function Longer<T>(items: seq<seq<T>>, i: nat): nat {
    if items == [] then 0
    else
      var n := |items| - 1;
      Longer(items[..n], i) + (if i < |items[n]| then 1 else 0)
  }

  /** `getTheMeanRelatFitt`: the items turned into columns, one per generation of the longest. */
  method GetTheMeanRelatFitt<T>(items: seq<seq<T>>) returns (statList: seq<seq<T>>)
    ensures |statList| == MaxLen(items)
    ensures forall i :: 0 <= i < |statList| ==> statList[i] == Column(items, i)
  {
    var maxaxX := 0;
    for k := 0 to |items|
      invariant maxaxX == MaxLen(items[..k])
    {
      assert items[..k + 1][..k] == items[..k];
      var maxX := |items[k]|;
      if maxX > maxaxX {
        maxaxX := maxX;
      }
    }
    assert items[..|items|] == items;
    statList := [];
    for i := 0 to maxaxX
      invariant |statList| == i
      invariant forall c :: 0 <= c < i ==> statList[c] == Column(items, c)
    {
      var ll := ColumnOf(items, i);
      statList := statList + [ll];
    }
  }

  /** The inner loop: entry i of every item that has one. */
  method ColumnOf<T>(items: seq<seq<T>>, i: nat) returns (ll: seq<T>)
    ensures ll == Column(items, i)
  {
    ll := [];
    for k := 0 to |items|
      invariant ll == Column(items[..k], i)
    {
      assert items[..k + 1][..k] == items[..k];
      if i < |items[k]| {
        ll := ll + [items[k][i]];
      }
    }
    assert items[..|items|] == items;
  }

  /** No item is longer than the longest, and some item is that long. */
  lemma {:induction false} MaxLenIsMax<T>(items: seq<seq<T>>)
    ensures forall k :: 0 <= k < |items| ==> |items[k]| <= MaxLen(items)
    ensures items != [] ==> exists k :: 0 <= k < |items| && |items[k]| == MaxLen(items)
  {
    if items != [] {
      var n := |items| - 1;
      MaxLenIsMax(items[..n]);
      assert forall k :: 0 <= k < n ==> items[..n][k] == items[k];
      if n > 0 && |items[n]| <= MaxLen(items[..n]) {
        var k :| 0 <= k < n && |items[..n][k]| == MaxLen(items[..n]);
        assert |items[k]| == MaxLen(items);
      }
    }
  }

  /**
   * Column i holds one entry per item longer than i, so every column of the
   * result holds at least one entry.
   */
  lemma {:induction false} ColumnSize<T>(items: seq<seq<T>>, i: nat)
    ensures |Column(items, i)| == Longer(items, i)
    ensures i < MaxLen(items) ==> Longer(items, i) >= 1
  {
    if items != [] {
      var n := |items| - 1;
      ColumnSize(items[..n], i);
    }
  }
}
