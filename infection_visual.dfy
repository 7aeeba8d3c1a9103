/**
 * PyScripts/infectionStatsVisual.py: reading the comma-separated results of
 * many runs, and listing the parameter pairs the runs were made with.
 *
 * Python's `float()`, and numpy's conversion of a text to a float, is the
 * parameter `toFloat` (`None` where it raises ValueError); the model assumes
 * nothing about it but that it is a function.
 */
module InfectionVisual {
  import opened Wrappers
  import opened Text
  import opened SeqUtil
  import Py = Python

  /** One result line: four numbers and the series held in its fifth field. */
  datatype Record = Record(f0: real, f1: real, f2: real, f3: real, series: seq<real>)

  /** `np.array(ws, dtype=float)`: every text read as a float, or `None` as soon as one is not. */
  function Floats(ws: seq<string>, toFloat: string -> Option<real>): (r: Option<seq<real>>)
    ensures r.Some? <==> forall i :: 0 <= i < |ws| ==> toFloat(ws[i]).Some?
    ensures r.Some? ==> |r.value| == |ws| && forall i :: 0 <= i < |ws| ==> Some(r.value[i]) == toFloat(ws[i])
  {
    if ws == [] then Some([])
    else match (toFloat(ws[0]), Floats(ws[1..], toFloat))
      case (Some(x), Some(rest)) => Some([x] + rest)
      case _ => None
  }

  /**
   * One data line, from its ','-separated fields: field 4 is split on ';'
   * before anything is converted, so fewer than five fields raise
   * IndexError; then fields 0 to 3, and every ';' piece but the last, are
   * read as floats, ValueError when one is not.
   */
  function FieldsRecord(one: seq<string>, toFloat: string -> Option<real>): (r: PyResult<Record>)
    ensures r.Raise? ==> (r.error == IndexError <==> |one| < 5)
    ensures r.Raise? ==> r.error == IndexError || r.error == ValueError
    ensures r.Ok? ==> |one| >= 5
    ensures r.Ok? ==>
      Some(r.value.f0) == toFloat(one[0]) && Some(r.value.f1) == toFloat(one[1]) &&
      Some(r.value.f2) == toFloat(one[2]) && Some(r.value.f3) == toFloat(one[3])
    ensures r.Ok? ==> var ww := SplitSep(one[4], ";");
      |r.value.series| == |ww| - 1 && forall k :: 0 <= k < |ww| - 1 ==> Some(r.value.series[k]) == toFloat(ww[k])
  {
    if |one| < 5 then Raise(IndexError)
    else
      var ww := SplitSep(one[4], ";");
      match (toFloat(one[0]), toFloat(one[1]), toFloat(one[2]), toFloat(one[3]), Floats(ww[..|ww| - 1], toFloat))
      case (Some(a), Some(b), Some(c), Some(d), Some(s)) => Ok(Record(a, b, c, d, s))
      case _ => Raise(ValueError)
  }

  /** The record of one data line, split on ','. */
  function RecordOf(line: string, toFloat: string -> Option<real>): PyResult<Record> {
    FieldsRecord(SplitSep(line, ","), toFloat)
  }

  /** `RecordOf` with the float reader fixed, as the comprehension applies it. */
  function Reader(toFloat: string -> Option<real>): string -> PyResult<Record> {
    (l: string) => RecordOf(l, toFloat)
  }

  /** The lines without '#', in file order. */
  function DataLines(lines: seq<string>): seq<string> {
    if lines == [] then []
    else
      var n := |lines| - 1;
      DataLines(lines[..n]) + (if Contains(lines[n], "#") then [] else [lines[n]])
  }

  /** What `loadDataFromDataFile(FILE)` returns: the record of every data line, or the first exception. */
  function DataList(file: Option<seq<string>>, toFloat: string -> Option<real>): PyResult<seq<Record>> {
    match file
    case None => Raise(IOError)
    case Some(lines) => Py.MapAll(DataLines(lines), Reader(toFloat))
  }

  method LoadDataFromDataFile(file: Option<seq<string>>, toFloat: string -> Option<real>) returns (r: PyResult<seq<Record>>)
    ensures r == DataList(file, toFloat)
  {
    if file.None? {
      return Raise(IOError);
    }
    var lines := file.value;
    ghost var f := Reader(toFloat);
    var dataList: seq<Record> := [];
    for i := 0 to |lines|
      invariant Py.MapAll(DataLines(lines[..i]), f) == Ok(dataList)
    {
      DataLinesStep(lines, i);
      var line := lines[i];
      if Contains(line, "#") {
        continue;
      }
      Py.MapAllSnoc(DataLines(lines[..i]), line, f);
      var rec := RecordOf(line, toFloat);
      assert f(line) == rec;
      if rec.Raise? {
        DataLinesRaise(lines, i + 1, f);
        return Raise(rec.error);
      }
      dataList := dataList + [rec.value];
      assert Py.MapAll(DataLines(lines[..i]) + [line], f) == Ok(dataList);
    }
    assert lines[..|lines|] == lines;
    return Ok(dataList);
  }

  /** One more line: it joins the data lines unless it holds '#'. */
  lemma DataLinesStep(lines: seq<string>, i: nat)
    requires i < |lines|
    ensures Contains(lines[i], "#") ==> DataLines(lines[..i + 1]) == DataLines(lines[..i])
    ensures !Contains(lines[i], "#") ==> DataLines(lines[..i + 1]) == DataLines(lines[..i]) + [lines[i]]
  {
    assert lines[..i + 1][..i] == lines[..i];
    assert DataLines(lines[..i]) + [] == DataLines(lines[..i]);
  }

  /** Once the lines up to m raise, the whole file raises the same exception. */
  lemma DataLinesRaise(lines: seq<string>, m: nat, f: string -> PyResult<Record>)
    requires m <= |lines| && Py.MapAll(DataLines(lines[..m]), f).Raise?
    ensures Py.MapAll(DataLines(lines), f) == Py.MapAll(DataLines(lines[..m]), f)
  {
    assert lines[..m] + lines[m..] == lines;
    DataLinesAppend(lines[..m], lines[m..]);
    Py.MapAllAppendRaise(DataLines(lines[..m]), DataLines(lines[m..]), f);
  }

  /** The data lines of a file are those of its parts one after the other. */
  lemma {:induction false} DataLinesAppend(a: seq<string>, b: seq<string>)
    ensures DataLines(a + b) == DataLines(a) + DataLines(b)
  {
    if b != [] {
      var n := |b| - 1;
      assert (a + b)[..|a + b| - 1] == a + b[..n];
      assert (a + b)[|a + b| - 1] == b[n];
      DataLinesAppend(a, b[..n]);
    } else {
      assert a + b == a;
    }
  }

  /** The data lines are exactly the lines without '#'. */
  lemma {:induction false} DataLinesMembers(lines: seq<string>)
    ensures forall l :: l in DataLines(lines) <==> l in lines && !Contains(l, "#")
  {
    if lines != [] {
      var n := |lines| - 1;
      DataLinesMembers(lines[..n]);
      assert lines == lines[..n] + [lines[n]];
    }
  }

  /**
   * The file is read without an exception exactly when every line without
   * '#' gives a record; then there is one record per such line, in order.
   */
  lemma DataListMeaning(lines: seq<string>, toFloat: string -> Option<real>)
    ensures DataList(Some(lines), toFloat).Raise? <==>
      exists k :: 0 <= k < |DataLines(lines)| && RecordOf(DataLines(lines)[k], toFloat).Raise?
    ensures DataList(Some(lines), toFloat).Ok? ==>
      |DataList(Some(lines), toFloat).value| == |DataLines(lines)| &&
      forall k :: 0 <= k < |DataLines(lines)| ==>
        RecordOf(DataLines(lines)[k], toFloat) == Ok(DataList(Some(lines), toFloat).value[k])
  {
    var f := Reader(toFloat);
    var xs := DataLines(lines);
    forall k | 0 <= k < |xs|
      ensures f(xs[k]) == RecordOf(xs[k], toFloat)
    {
    }
    Py.MapAllRaises(xs, f);
    if DataList(Some(lines), toFloat).Ok? {
      Py.MapAllOk(xs, f);
      forall k | 0 <= k < |xs|
        ensures RecordOf(xs[k], toFloat) == Ok(DataList(Some(lines), toFloat).value[k])
      {
        assert f(xs[k]) == Ok(Py.MapAll(xs, f).value[k]);
      }
    }
  }

  // ------------------------------------------------------------- getListOfParamsSets

  /** `(itm[0], itm[1])` of every record. */
  function ParamPairs(dataList: seq<Record>): seq<(real, real)> {
    seq(|dataList|, i requires 0 <= i < |dataList| => (dataList[i].f0, dataList[i].f1))
  }

  /** `getListOfParamsSets(dataList)`: a pair is appended when it is not yet listed. */
  method GetListOfParamsSets(dataList: seq<Record>) returns (paramz: seq<(real, real)>)
    ensures paramz == Distinct(ParamPairs(dataList))
  {
    ghost var pairs := ParamPairs(dataList);
    paramz := [];
    for i := 0 to |dataList|
      invariant paramz == Distinct(pairs[..i])
    {
      assert pairs[..i + 1][..i] == pairs[..i];
      var tupparamz := (dataList[i].f0, dataList[i].f1);
      if tupparamz !in paramz {
        paramz := paramz + [tupparamz];
      }
    }
    assert pairs[..|dataList|] == pairs;
  }

  /**
   * Each parameter pair of the records is listed once, nothing else is, and
   * the pairs come in the order of their first record.
   */
  lemma ParamsSetsMeaning(dataList: seq<Record>)
    ensures NoDup(Distinct(ParamPairs(dataList)))
    ensures forall x :: x in Distinct(ParamPairs(dataList)) <==>
      exists i :: 0 <= i < |dataList| && (dataList[i].f0, dataList[i].f1) == x
    ensures FirstOrder(ParamPairs(dataList), Distinct(ParamPairs(dataList)))
  {
    var pairs := ParamPairs(dataList);
    DistinctProps(pairs);
    DistinctOrder(pairs);
    forall x
      ensures x in pairs <==> exists i :: 0 <= i < |dataList| && (dataList[i].f0, dataList[i].f1) == x
    {
      if x in pairs {
        var i :| 0 <= i < |pairs| && pairs[i] == x;
        assert (dataList[i].f0, dataList[i].f1) == x;
      }
      if exists i :: 0 <= i < |dataList| && (dataList[i].f0, dataList[i].f1) == x {
        var i :| 0 <= i < |dataList| && (dataList[i].f0, dataList[i].f1) == x;
        assert pairs[i] == x;
      }
    }
  }
}
