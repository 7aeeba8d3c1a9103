/**
 * PyScripts/packed_plots_of_MHC_alleles.py: picking the runs whose
 * parametrisation matches a template, and reading the day a run started.
 *
 * Python's `float()` is a parameter `toFloat` of the comparison (`None` where
 * it raises); the model assumes nothing about it but that it is a function.
 * Its values keep the one float that is not equal to itself, NaN, apart.
 */
module PackedPlots {
  import opened Wrappers
  import opened Text
  import Py = Python

  // ------------------------------------------------------------- loadParamSettings

  /**
   * What one line adds to the list: its third field, unless it holds '#' or
   * has fewer than three fields (the IndexError is swallowed). A line read
   * from a file is never "", so the script's `line == ""` test never fires.
   */
  function ParamOf(line: string): Option<string> {
    if Contains(line, "#") || |Split(line)| < 3 then None else Some(Split(line)[2])
  }

  /** The list of parameter values, in line order. */
  function Params(lines: seq<string>): seq<string> {
    if lines == [] then []
    else
      var n := |lines| - 1;
      Params(lines[..n]) + (match ParamOf(lines[n]) case Some(v) => [v] case None => [])
  }

  /** What `loadParamSettings(filepath)` returns; `None` when the file does not open. */
  function ParamSettings(file: Option<seq<string>>): Option<seq<string>> {
    match file
    case None => None
    case Some(lines) => Some(Params(lines))
  }

  method LoadParamSettings(file: Option<seq<string>>) returns (r: Option<seq<string>>)
    ensures r == ParamSettings(file)
  {
    if file.None? {
      return None;
    }
    var lines := file.value;
    var paramzList: seq<string> := [];
    for ii := 0 to |lines|
      invariant paramzList == Params(lines[..ii])
    {
      assert lines[..ii + 1][..ii] == lines[..ii];
      var line := lines[ii];
      if !Contains(line, "#") {
        var ll := Split(line);
        if |ll| >= 3 {
          paramzList := paramzList + [ll[2]];
        }
      }
    }
    assert lines[..|lines|] == lines;
    return Some(paramzList);
  }

  /** The list of a file is the lists of its parts one after the other. */
  lemma {:induction false} ParamsAppend(a: seq<string>, b: seq<string>)
    ensures Params(a + b) == Params(a) + Params(b)
  {
    if b != [] {
      var n := |b| - 1;
      assert (a + b)[..|a + b| - 1] == a + b[..n];
      assert (a + b)[|a + b| - 1] == b[n];
      ParamsAppend(a, b[..n]);
    } else {
      assert a + b == a;
    }
  }

  /** Comments and lines of fewer than three fields add nothing. */
  lemma {:induction false} ParamsOfOtherLines(lines: seq<string>)
    requires forall k :: 0 <= k < |lines| ==> Contains(lines[k], "#") || |Split(lines[k])| < 3
    ensures Params(lines) == []
  {
    if lines != [] {
      var n := |lines| - 1;
      ParamsOfOtherLines(lines[..n]);
      assert ParamOf(lines[n]).None?;
    }
  }

  /** In a file of parameter lines (no '#', at least three fields each) item k of the list is the third field of line k. */
  lemma {:induction false} ParamsOfParameterLines(lines: seq<string>)
    requires forall k :: 0 <= k < |lines| ==> !Contains(lines[k], "#") && |Split(lines[k])| >= 3
    ensures |Params(lines)| == |lines| && forall k :: 0 <= k < |lines| ==> Params(lines)[k] == Split(lines[k])[2]
  {
    if lines != [] {
      var n := |lines| - 1;
      var p := lines[..n];
      assert forall k :: 0 <= k < n ==> p[k] == lines[k];
      ParamsOfParameterLines(p);
      assert Params(lines) == Params(p) + [Split(lines[n])[2]];
      forall k | 0 <= k < |lines|
        ensures Params(lines)[k] == Split(lines[k])[2]
      {
        if k < n {
          assert Params(lines)[k] == Params(p)[k];
        }
      }
    }
  }

  // ------------------------------------------------------------- compareParams

  /** A Python float: `Num` stands for every value equal to itself, `NaN` for "nan". */
  datatype PyFloat = Num(v: real) | NaN

  /** `x == y` on floats: NaN equals nothing, not even itself. */
  predicate FloatEq(x: PyFloat, y: PyFloat) {
    x.Num? && y.Num? && x.v == y.v
  }

  /** Two items agree as numbers when both read as floats, and as text otherwise. */
  predicate SameParam(a: string, b: string, toFloat: string -> Option<PyFloat>) {
    if toFloat(a).Some? && toFloat(b).Some? then FloatEq(toFloat(a).value, toFloat(b).value) else a == b
  }

  /** Pair j takes part: not one of the first two, and its template item is no VAR/VARX marker. */
  predicate Compared(j: int, t: string) {
    j > 1 && t != "VAR" && t != "VARX"
  }

  /** The loop over the pairs: `None` until a pair is compared, `Some(false)` from the first mismatch on. */
  function Verdict(ps: seq<(string, string)>, toFloat: string -> Option<PyFloat>): Option<bool> {
    if ps == [] then None
    else
      var n := |ps| - 1;
      var v := Verdict(ps[..n], toFloat);
      if v == Some(false) || !Compared(n, ps[n].0) then v
      else Some(SameParam(ps[n].0, ps[n].1, toFloat))
  }

  /**
   * What `compareParams(template, paramz)` returns: `None` for lists of
   * different lengths, else the verdict over every third item from the end.
   */
  function Comparison(template: seq<string>, paramz: seq<string>, toFloat: string -> Option<PyFloat>): Option<bool> {
    if |template| != |paramz| then None
    else Verdict(Py.Zip(Py.Every3Back(template), Py.Every3Back(paramz)), toFloat)
  }

  method CompareParams(template: seq<string>, paramz: seq<string>, toFloat: string -> Option<PyFloat>) returns (same: Option<bool>)
    ensures same == Comparison(template, paramz, toFloat)
  {
    same := None;
    if |template| != |paramz| {
      return;
    }
    var pairs := Py.Zip(Py.Every3Back(template), Py.Every3Back(paramz));
    for ii := 0 to |pairs|
      invariant same == Verdict(pairs[..ii], toFloat) && same != Some(false)
    {
      VerdictStep(pairs, ii, toFloat);
      var itm := pairs[ii];
      var agree;
      if toFloat(itm.0).Some? && toFloat(itm.1).Some? {
        agree := FloatEq(toFloat(itm.0).value, toFloat(itm.1).value);
      } else {
        agree := itm.0 == itm.1;
      }
      if itm.0 == "VARX" || itm.0 == "VAR" || ii <= 1 {
      } else if agree {
        same := Some(true);
      } else {
        same := Some(false);
        VerdictMismatchStays(pairs, ii + 1, toFloat);
        return;
      }
    }
    assert pairs[..|pairs|] == pairs;
  }

  /** One more pair: the verdict so far stands after a mismatch or when the pair does not take part. */
  lemma VerdictStep(ps: seq<(string, string)>, i: nat, toFloat: string -> Option<PyFloat>)
    requires i < |ps|
    ensures var v := Verdict(ps[..i], toFloat);
      Verdict(ps[..i + 1], toFloat) ==
        if v == Some(false) || !Compared(i, ps[i].0) then v else Some(SameParam(ps[i].0, ps[i].1, toFloat))
  {
    assert ps[..i + 1][..i] == ps[..i];
  }

  /** Once a prefix has a mismatch, the whole list has it. */
  lemma {:induction false} VerdictMismatchStays(ps: seq<(string, string)>, m: nat, toFloat: string -> Option<PyFloat>)
    requires m <= |ps| && Verdict(ps[..m], toFloat) == Some(false)
    ensures Verdict(ps, toFloat) == Some(false)
    decreases |ps| - m
  {
    if m < |ps| {
      assert ps[..m + 1][..m] == ps[..m];
      VerdictMismatchStays(ps, m + 1, toFloat);
    } else {
      assert ps[..m] == ps;
    }
  }

  /** Pair j takes part and its two items differ. */
  predicate Mismatch(ps: seq<(string, string)>, j: int, toFloat: string -> Option<PyFloat>) {
    0 <= j < |ps| && Compared(j, ps[j].0) && !SameParam(ps[j].0, ps[j].1, toFloat)
  }

  /** Pair j takes part. */
  predicate Checks(ps: seq<(string, string)>, j: int) {
    0 <= j < |ps| && Compared(j, ps[j].0)
  }

  /**
   * The verdict is `Some(false)` exactly when a compared pair differs, and
   * `None` exactly when no pair is compared; otherwise it is `Some(true)`.
   */
  lemma {:induction false} VerdictMeaning(ps: seq<(string, string)>, toFloat: string -> Option<PyFloat>)
    ensures Verdict(ps, toFloat) == Some(false) <==> exists j :: Mismatch(ps, j, toFloat)
    ensures Verdict(ps, toFloat).None? <==> forall j :: !Checks(ps, j)
  {
    if ps != [] {
      var n := |ps| - 1;
      var p := ps[..n];
      VerdictMeaning(p, toFloat);
      MismatchPrefix(ps, toFloat);
      if Verdict(p, toFloat) == Some(false) {
        var j :| Mismatch(p, j, toFloat);
        assert Mismatch(ps, j, toFloat);
      } else if Compared(n, ps[n].0) {
        assert Checks(ps, n);
        if !SameParam(ps[n].0, ps[n].1, toFloat) {
          assert Mismatch(ps, n, toFloat);
        } else {
          assert !Mismatch(ps, n, toFloat);
        }
      } else {
        assert !Mismatch(ps, n, toFloat) && !Checks(ps, n);
      }
    }
  }

  /** A pair of the list without its last pair takes part, or differs, exactly as it does in the list. */
  lemma MismatchPrefix(ps: seq<(string, string)>, toFloat: string -> Option<PyFloat>)
    requires ps != []
    ensures var p := ps[..|ps| - 1];
      (forall j :: Mismatch(ps, j, toFloat) <==> Mismatch(p, j, toFloat) || (j == |p| && Mismatch(ps, j, toFloat))) &&
      (forall j :: Checks(ps, j) <==> Checks(p, j) || (j == |p| && Checks(ps, j)))
  {
    var p := ps[..|ps| - 1];
    assert forall j :: 0 <= j < |p| ==> p[j] == ps[j];
  }

  /** Item `|template| - 1 - 3j` of the template takes part in the comparison. */
  predicate Checked(template: seq<string>, j: int) {
    0 <= j && 3 * j < |template| && Compared(j, template[|template| - 1 - 3 * j])
  }

  /** Item `|template| - 1 - 3j` is the same in both lists. */
  predicate Agrees(template: seq<string>, paramz: seq<string>, j: int, toFloat: string -> Option<PyFloat>)
    requires |template| == |paramz|
  {
    0 <= j && 3 * j < |template| &&
    SameParam(template[|template| - 1 - 3 * j], paramz[|template| - 1 - 3 * j], toFloat)
  }

  /**
   * `compareParams` on lists of equal length is False exactly when a compared
   * item differs and None exactly when no item is compared.
   */
  lemma ComparisonMeaning(template: seq<string>, paramz: seq<string>, toFloat: string -> Option<PyFloat>)
    ensures |template| != |paramz| ==> Comparison(template, paramz, toFloat).None?
    ensures |template| == |paramz| ==>
      (Comparison(template, paramz, toFloat) == Some(false) <==>
        exists j :: Checked(template, j) && !Agrees(template, paramz, j, toFloat))
    ensures |template| == |paramz| ==>
      (Comparison(template, paramz, toFloat).None? <==> forall j :: !Checked(template, j))
  {
    if |template| == |paramz| {
      var ps := Py.Zip(Py.Every3Back(template), Py.Every3Back(paramz));
      VerdictMeaning(ps, toFloat);
      PairsOfTemplate(template, paramz, toFloat);
      if Comparison(template, paramz, toFloat) == Some(false) {
        var j :| Mismatch(ps, j, toFloat);
        assert Checked(template, j) && !Agrees(template, paramz, j, toFloat);
      }
      if exists j :: Checked(template, j) && !Agrees(template, paramz, j, toFloat) {
        var j :| Checked(template, j) && !Agrees(template, paramz, j, toFloat);
        assert Mismatch(ps, j, toFloat);
      }
      if exists j :: Checked(template, j) {
        var j :| Checked(template, j);
        assert Checks(ps, j);
      }
      if Comparison(template, paramz, toFloat).Some? {
        var j :| Checks(ps, j);
        assert Checked(template, j);
      }
    }
  }

  /** `compareParams` is True exactly when some item is compared and every compared item agrees. */
  lemma ComparisonTrue(template: seq<string>, paramz: seq<string>, toFloat: string -> Option<PyFloat>)
    requires |template| == |paramz|
    ensures Comparison(template, paramz, toFloat) == Some(true) <==>
      (exists j :: Checked(template, j)) && forall j :: Checked(template, j) ==> Agrees(template, paramz, j, toFloat)
  {
    ComparisonMeaning(template, paramz, toFloat);
    var r := Comparison(template, paramz, toFloat);
    if (exists j :: Checked(template, j)) && forall j :: Checked(template, j) ==> Agrees(template, paramz, j, toFloat) {
      var j0 :| Checked(template, j0);
      assert r.Some?;
      assert r.value != false;
    }
  }

  /** Pair j of the zipped step slices is item |template| - 1 - 3j of both lists. */
  lemma PairsOfTemplate(template: seq<string>, paramz: seq<string>, toFloat: string -> Option<PyFloat>)
    requires |template| == |paramz|
    ensures var ps := Py.Zip(Py.Every3Back(template), Py.Every3Back(paramz));
      (forall j :: Checks(ps, j) <==> Checked(template, j)) &&
      (forall j :: Mismatch(ps, j, toFloat) <==> Checked(template, j) && !Agrees(template, paramz, j, toFloat))
  {
    var a := Py.Every3Back(template);
    var b := Py.Every3Back(paramz);
    Py.Every3BackItems(template);
    Py.Every3BackItems(paramz);
    var ps := Py.Zip(a, b);
    assert |ps| == |a| == (|template| + 2) / 3;
    forall j
      ensures Checks(ps, j) <==> Checked(template, j)
      ensures Mismatch(ps, j, toFloat) <==> Checked(template, j) && !Agrees(template, paramz, j, toFloat)
    {
      if 0 <= j < |ps| {
        assert ps[j] == (template[|template| - 1 - 3 * j], paramz[|template| - 1 - 3 * j]);
      }
    }
  }

  /**
   * A parametrisation mismatches itself exactly when one of its compared
   * items reads as NaN: every other item equals itself as a float or as text.
   */
  lemma CompareSelf(template: seq<string>, toFloat: string -> Option<PyFloat>)
    ensures Comparison(template, template, toFloat) == Some(false) <==>
      exists j :: Checked(template, j) && toFloat(template[|template| - 1 - 3 * j]) == Some(NaN)
  {
    ComparisonMeaning(template, template, toFloat);
  }

  // ------------------------------------------------------------- lookForVAR

  /** `varrs`: the positions recorded for "VAR" and "VARX". */
  datatype Varrs = Varrs(varAt: nat, varxAt: nat)

  function VarPositions(template: seq<string>): Varrs {
    if template == [] then Varrs(0, 0)
    else
      var n := |template| - 1;
      var v := VarPositions(template[..n]);
      if template[n] == "VAR" then v.(varAt := n)
      else if template[n] == "VARX" then v.(varxAt := n)
      else v
  }

  method LookForVAR(template: seq<string>) returns (varrs: Varrs)
    ensures varrs == VarPositions(template)
  {
    varrs := Varrs(0, 0);
    for ii := 0 to |template|
      invariant varrs == VarPositions(template[..ii])
    {
      assert template[..ii + 1][..ii] == template[..ii];
      if template[ii] == "VAR" {
        varrs := varrs.(varAt := ii);
      } else if template[ii] == "VARX" {
        varrs := varrs.(varxAt := ii);
      }
    }
    assert template[..|template|] == template;
  }

  /** Position of the last occurrence of w, or 0 when w does not occur. */
  predicate LastOr0(template: seq<string>, w: string, i: nat) {
    if w in template then i < |template| && template[i] == w && forall k :: i < k < |template| ==> template[k] != w
    else i == 0
  }

  /** Each marker is found at its last position, or at 0 when the template lacks it. */
  lemma {:induction false} VarPositionsMeaning(template: seq<string>)
    ensures LastOr0(template, "VAR", VarPositions(template).varAt)
    ensures LastOr0(template, "VARX", VarPositions(template).varxAt)
  {
    if template != [] {
      var n := |template| - 1;
      var p := template[..n];
      VarPositionsMeaning(p);
      var v := VarPositions(p);
      LastOr0Snoc(p, template[n], "VAR", v.varAt);
      LastOr0Snoc(p, template[n], "VARX", v.varxAt);
      assert template == p + [template[n]];
    }
  }

  /** Appending an item moves the last position of w to the new item exactly when the item is w. */
  lemma LastOr0Snoc(p: seq<string>, x: string, w: string, i: nat)
    requires LastOr0(p, w, i)
    ensures LastOr0(p + [x], w, if x == w then |p| else i)
  {
    var t := p + [x];
    assert forall k :: 0 <= k < |p| ==> t[k] == p[k];
    if x != w {
      if w in t {
        var k :| 0 <= k < |t| && t[k] == w;
        assert k < |p| && p[k] == w;
      }
    }
  }

  // ------------------------------------------------------------- readDate

  /** `datetime.date`. */
  datatype Date = Date(year: int, month: int, day: int)

  predicate LeapYear(y: int) {
    y % 4 == 0 && (y % 100 != 0 || y % 400 == 0)
  }

  function DaysIn(y: int, m: int): int {
    if m == 2 then (if LeapYear(y) then 29 else 28)
    else if m == 4 || m == 6 || m == 9 || m == 11 then 30
    else 31
  }

  /** What `datetime.date(y, m, d)` accepts: years 1 to 9999 and a day of that month. */
  predicate ValidDate(d: Date) {
    1 <= d.year <= 9999 && 1 <= d.month <= 12 && 1 <= d.day <= DaysIn(d.year, d.month)
  }

  /**
   * `dt.date(int(dd[0]), int(dd[1]), int(dd[2]))` with every exception
   * caught: a date exactly when there are three parts that read as integers
   * forming a valid date; later parts are ignored.
   */
  function DateOf(dd: seq<string>): (r: Option<Date>)
    ensures r.Some? <==> (|dd| >= 3 && ParseInt(dd[0]).Some? && ParseInt(dd[1]).Some? && ParseInt(dd[2]).Some? &&
      ValidDate(Date(ParseInt(dd[0]).value, ParseInt(dd[1]).value, ParseInt(dd[2]).value)))
    ensures r.Some? ==> (ValidDate(r.value) &&
      Some(r.value.year) == ParseInt(dd[0]) && Some(r.value.month) == ParseInt(dd[1]) && Some(r.value.day) == ParseInt(dd[2]))
  {
    if |dd| < 3 then None
    else match (ParseInt(dd[0]), ParseInt(dd[1]), ParseInt(dd[2]))
      case (Some(y), Some(m), Some(d)) => if ValidDate(Date(y, m, d)) then Some(Date(y, m, d)) else None
      case _ => None
  }

  /** What `readDate(string)` returns. */
  function ReadDate(s: string): Option<Date> {
    DateOf(SplitSep(s, "-"))
  }

  /** A date written as year-month-day, without leading zeros. */
  function DateText(d: Date): string
    requires ValidDate(d)
  {
    NatToString(d.year) + "-" + NatToString(d.month) + "-" + NatToString(d.day)
  }

  /** Splitting on a separator character that the first piece avoids cuts that piece off. */
  lemma SplitAfter(a: string, c: char, rest: string)
    requires Avoids(a, c)
    ensures SplitSep(a + [c] + rest, [c]) == [a] + SplitSep(rest, [c])
  {
    NotContainsFirst(a, [c]);
    assert a + [c][..0] == a;
    SplitSepFirst(a, [c], rest);
  }

  /** Three pieces without '-' joined by '-' split back into themselves. */
  lemma SplitThree(y: string, m: string, dd: string, rest: string)
    requires Avoids(y, '-') && Avoids(m, '-') && Avoids(dd, '-')
    ensures SplitSep(y + "-" + m + "-" + dd, "-") == [y, m, dd]
    ensures SplitSep(y + "-" + m + "-" + dd + "-" + rest, "-") == [y, m, dd] + SplitSep(rest, "-")
  {
    NotContainsFirst(dd, "-");
    SplitSepNoSep(dd, "-");
    SplitAfter(m, '-', dd);
    assert [m] + [dd] == [m, dd];
    Regroup(y, m, dd);
    SplitAfter(y, '-', m + "-" + dd);
    SplitAfter(dd, '-', rest);
    Regroup(m, dd, rest);
    SplitAfter(m, '-', dd + "-" + rest);
    Regroup(y, m + "-" + dd, rest);
    Regroup(y, m, dd + "-" + rest);
    SplitAfter(y, '-', m + "-" + dd + "-" + rest);
    ListRegroup(y, m, dd, SplitSep(rest, "-"));
  }

  lemma ListRegroup(y: string, m: string, dd: string, xs: seq<string>)
    ensures [y] + [m, dd] == [y, m, dd]
    ensures [y] + ([m] + ([dd] + xs)) == [y, m, dd] + xs
  {
  }

  /** `a-b-c` read as `a-(b-c)`. */
  lemma Regroup(a: string, b: string, c: string)
    ensures a + "-" + b + "-" + c == a + "-" + (b + "-" + c)
  {
  }

  /** The date text splits on '-' into its three numbers. */
  lemma DateTextSplits(d: Date, rest: string)
    requires ValidDate(d)
    ensures SplitSep(DateText(d), "-") == [NatToString(d.year), NatToString(d.month), NatToString(d.day)]
    ensures SplitSep(DateText(d) + "-" + rest, "-") ==
      [NatToString(d.year), NatToString(d.month), NatToString(d.day)] + SplitSep(rest, "-")
  {
    NatStringAvoids(d.year, '-');
    NatStringAvoids(d.month, '-');
    NatStringAvoids(d.day, '-');
    SplitThree(NatToString(d.year), NatToString(d.month), NatToString(d.day), rest);
  }

  /** A valid date read back from its text, with or without further '-' parts. */
  lemma ReadDateOfText(d: Date, rest: string)
    requires ValidDate(d)
    ensures ReadDate(DateText(d)) == Some(d)
    ensures ReadDate(DateText(d) + "-" + rest) == Some(d)
  {
    DateTextSplits(d, rest);
    ParseIntOfNatToString(d.year);
    ParseIntOfNatToString(d.month);
    ParseIntOfNatToString(d.day);
  }

  // ------------------------------------------------------------- loadTheDateFromParamFile

  /**
   * What `loadTheDateFromParamFile(filePar)` returns: line 2 split on single
   * blanks, its third piece cut at the first '.', read as a date. A missing
   * file or line reads as "" and gives `None`.
   */
  function DateFromParamFile(file: Option<seq<string>>): Option<Date> {
    var ll := SplitSep(Py.GetLine(file, 2), " ");
    if |ll| < 3 then None else DateOf(SplitSep(SplitSep(ll[2], ".")[0], "-"))
  }

  /** A file without a second line gives no date. */
  lemma DateFromShortFile(file: Option<seq<string>>)
    requires file.None? || |file.value| < 2
    ensures DateFromParamFile(file).None?
  {
    assert Py.GetLine(file, 2) == "";
    assert SplitSep("", " ") == [""];
  }

  /**
   * A second line "w0 w1 y-m-d.tail" (w0, w1 and tail without blanks) gives
   * the date y-m-d.
   */
  lemma DateFromParamLine(first: string, w0: string, w1: string, d: Date, tail: string, rest: seq<string>)
    requires ValidDate(d) && Avoids(w0, ' ') && Avoids(w1, ' ') && Avoids(tail, ' ')
    ensures DateFromParamFile(Some([first, w0 + " " + w1 + " " + DateText(d) + "." + tail] + rest)) == Some(d)
  {
    var file := Some([first, w0 + " " + w1 + " " + DateText(d) + "." + tail] + rest);
    var dt := DateText(d);
    assert Py.GetLine(file, 2) == w0 + " " + w1 + " " + dt + "." + tail;
    DateTextAvoids(d, ' ');
    DateTextAvoids(d, '.');
    ThirdPieceCut(w0, w1, dt, tail);
    ReadDateOfText(d, "");
  }

  /** In "w0 w1 x.tail" with no blank inside the words, the third piece cut at '.' is x. */
  lemma ThirdPieceCut(w0: string, w1: string, x: string, tail: string)
    requires Avoids(w0, ' ') && Avoids(w1, ' ') && Avoids(x, ' ') && Avoids(tail, ' ') && Avoids(x, '.')
    ensures var ll := SplitSep(w0 + " " + w1 + " " + x + "." + tail, " ");
      |ll| >= 3 && SplitSep(ll[2], ".")[0] == x
  {
    var y := x + "." + tail;
    assert Avoids(y, ' ');
    NotContainsFirst(y, " ");
    SplitSepNoSep(y, " ");
    SplitAfter(w1, ' ', y);
    RegroupLine(w0, w1, x, tail);
    SplitAfter(w0, ' ', w1 + " " + y);
    SplitAfter(x, '.', tail);
  }

  lemma RegroupLine(w0: string, w1: string, x: string, tail: string)
    ensures w0 + " " + w1 + " " + x + "." + tail == w0 + " " + (w1 + " " + (x + "." + tail))
  {
  }

  /** The date text holds only digits and '-'. */
  lemma DateTextAvoids(d: Date, c: char)
    requires ValidDate(d) && !IsDigit(c) && c != '-'
    ensures Avoids(DateText(d), c)
  {
    NatStringAvoids(d.year, c);
    NatStringAvoids(d.month, c);
    NatStringAvoids(d.day, c);
  }
}
