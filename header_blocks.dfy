/**
 * The line-oriented loaders of the post-processing scripts that cut a genome
 * file into individuals on "===" header lines.
 *
 * Each of them skips lines holding '#', keeps the current individual in a
 * list `ll`, and keeps a flag (`nextHost`, `contin`, `nextPatho`) that says
 * whether a header closes the current individual. Two rules set the flag:
 * the host loaders set it on the first data line (`OnData`); the pathogen
 * loader and the per-chromosome host loader set it on the first header
 * (`OnHeader`). At end of file the open individual is always appended.
 *
 * `Blocks` is that loop written as a fold over the lines. `Items`, `Closers`
 * and `Headers` describe its result without the loop state, and the lemmas
 * connect the two: the blocks concatenate to the items of the data lines in
 * file order, and there is one block more than there are closing headers.
 */
module HeaderBlocks {
  import opened Wrappers
  import opened Text

  /** `re.search(r"#", line)`: a comment line. */
  predicate IsComment(line: string) {
    Contains(line, "#")
  }

  /** A header: no '#', but "===". */
  predicate IsHeader(line: string) {
    !IsComment(line) && Contains(line, "===")
  }

  /** A data line: neither '#' nor "===". */
  predicate IsData(line: string) {
    !IsComment(line) && !Contains(line, "===")
  }

  /** Which kind of line sets a loader's flag. */
  datatype Opening = OnData | OnHeader

  predicate Opens(line: string, rule: Opening) {
    if rule == OnData then IsData(line) else IsHeader(line)
  }

  /** The loop state: the closed individuals, the open one and the flag. */
  datatype Scan<T> = Scan(done: seq<seq<T>>, cur: seq<T>, armed: bool)

  /** One pass of the loop body; `item` reads a data line and may raise. */
  function ScanStep<T(==)>(st: Scan<T>, line: string, rule: Opening, item: string -> PyResult<T>): PyResult<Scan<T>> {
    if IsComment(line) then Ok(st)
    else if Contains(line, "===") then
      if st.armed then Ok(Scan(st.done + [st.cur], [], true))
      else Ok(Scan(st.done, st.cur, rule == OnHeader))
    else
      match item(line)
      case Raise(e) => Raise(e)
      case Ok(x) => Ok(Scan(st.done, st.cur + [x], st.armed || rule == OnData))
  }

  /** The loop over all lines; the first exception ends it. */
  function ScanLines<T(==)>(lines: seq<string>, rule: Opening, item: string -> PyResult<T>): PyResult<Scan<T>> {
    if lines == [] then Ok(Scan([], [], false))
    else
      match ScanLines(lines[..|lines| - 1], rule, item)
      case Raise(e) => Raise(e)
      case Ok(st) => ScanStep(st, lines[|lines| - 1], rule, item)
  }

  /** What the loader returns: the closed individuals and the one open at end of file. */
  function Blocks<T(==)>(lines: seq<string>, rule: Opening, item: string -> PyResult<T>): PyResult<seq<seq<T>>> {
    match ScanLines(lines, rule, item)
    case Raise(e) => Raise(e)
    case Ok(st) => Ok(st.done + [st.cur])
  }

  /**
   * A loader over a file that may not open: `None` where the IOError handler
   * prints a message and the function falls off its end.
   */
  function Loaded<T(==)>(file: Option<seq<string>>, rule: Opening, item: string -> PyResult<T>): PyResult<Option<seq<seq<T>>>> {
    match file
    case None => Ok(None)
    case Some(lines) =>
      match Blocks(lines, rule, item)
      case Raise(e) => Raise(e)
      case Ok(bs) => Ok(Some(bs))
  }

  /**
   * The loop of the loaders: `LL` holds the closed individuals, `ll` the open
   * one and `flag` says whether a header closes it.
   */
  method LoadFile<T(==)>(file: Option<seq<string>>, rule: Opening, item: string -> PyResult<T>) returns (r: PyResult<Option<seq<seq<T>>>>)
    ensures r == Loaded(file, rule, item)
  {
    if file.None? {
      return Ok(None);
    }
    var lines := file.value;
    var LL: seq<seq<T>> := [];
    var ll: seq<T> := [];
    var flag := false;
    var i := 0;
    while i < |lines|
      invariant 0 <= i <= |lines|
      invariant ScanLines(lines[..i], rule, item) == Ok(Scan(LL, ll, flag))
    {
      var line := lines[i];
      assert lines[..i + 1][..i] == lines[..i];
      if Contains(line, "#") {
      } else if Contains(line, "===") {
        if flag {
          LL := LL + [ll];
          ll := [];
        } else if rule == OnHeader {
          flag := true;
        }
      } else {
        var x := item(line);
        if x.Raise? {
          ScanLinesRaise(lines, i + 1, rule, item, x.error);
          return Raise(x.error);
        }
        ll := ll + [x.value];
        if rule == OnData {
          flag := true;
        }
      }
      i := i + 1;
    }
    assert lines[..i] == lines;
    return Ok(Some(LL + [ll]));
  }

  /** Once the loop has raised on a prefix, the whole file raises the same exception. */
  lemma {:induction false} ScanLinesRaise<T>(lines: seq<string>, n: nat, rule: Opening, item: string -> PyResult<T>, e: PyError)
    requires n <= |lines| && ScanLines(lines[..n], rule, item) == Raise(e)
    ensures ScanLines(lines, rule, item) == Raise(e)
    decreases |lines| - n
  {
    if n < |lines| {
      assert lines[..n + 1][..n] == lines[..n];
      ScanLinesRaise(lines, n + 1, rule, item, e);
    } else {
      assert lines[..n] == lines;
    }
  }

  // ----- the result without the loop state -----

  /** The individuals one after another. */
  function Flatten<T(==)>(bs: seq<seq<T>>): seq<T> {
    if bs == [] then [] else Flatten(bs[..|bs| - 1]) + bs[|bs| - 1]
  }

  /** The items of the data lines in file order, or the first data line's exception. */
  function Items<T(==)>(lines: seq<string>, item: string -> PyResult<T>): PyResult<seq<T>> {
    if lines == [] then Ok([])
    else
      match Items(lines[..|lines| - 1], item)
      case Raise(e) => Raise(e)
      case Ok(xs) =>
        var line := lines[|lines| - 1];
        if !IsData(line) then Ok(xs)
        else
          match item(line)
          case Raise(e) => Raise(e)
          case Ok(x) => Ok(xs + [x])
  }

  /** Some line sets the flag. */
  predicate Armed(lines: seq<string>, rule: Opening) {
    exists i :: 0 <= i < |lines| && Opens(lines[i], rule)
  }

  /** The number of header lines. */
  function Headers(lines: seq<string>): nat {
    if lines == [] then 0
    else Headers(lines[..|lines| - 1]) + (if IsHeader(lines[|lines| - 1]) then 1 else 0)
  }

  /** The number of headers that come after a line that set the flag. */
  function Closers(lines: seq<string>, rule: Opening): nat {
    if lines == [] then 0
    else
      var p := lines[..|lines| - 1];
      Closers(p, rule) + (if IsHeader(lines[|lines| - 1]) && Armed(p, rule) then 1 else 0)
  }

  lemma {:induction false} ArmedSnoc(p: seq<string>, x: string, rule: Opening)
    ensures Armed(p + [x], rule) <==> Armed(p, rule) || Opens(x, rule)
  {
    var l := p + [x];
    if Armed(p, rule) {
      var i :| 0 <= i < |p| && Opens(p[i], rule);
      assert l[i] == p[i];
    }
    if Opens(x, rule) {
      assert l[|p|] == x;
    }
    if Armed(l, rule) {
      var i :| 0 <= i < |l| && Opens(l[i], rule);
      if i < |p| {
        assert p[i] == l[i];
      }
    }
  }

  /** The loop state after a prefix, described by the reference definitions. */
  predicate Describes<T(==)>(st: Scan<T>, lines: seq<string>, rule: Opening, xs: seq<T>) {
    Flatten(st.done) + st.cur == xs &&
    |st.done| == Closers(lines, rule) &&
    st.armed == Armed(lines, rule)
  }

  lemma {:induction false} FlattenSnoc<T>(bs: seq<seq<T>>, b: seq<T>)
    ensures Flatten(bs + [b]) == Flatten(bs) + b
  {
    assert (bs + [b])[..|bs|] == bs;
  }

  /** One step of the loop keeps the description. */
  lemma {:induction false} ScanStepDescribes<T>(st: Scan<T>, p: seq<string>, line: string, rule: Opening,
                                               item: string -> PyResult<T>, xs: seq<T>)
    requires Describes(st, p, rule, xs)
    ensures ScanStep(st, line, rule, item).Ok? <==> (!IsData(line) || item(line).Ok?)
    ensures ScanStep(st, line, rule, item).Raise? ==> ScanStep(st, line, rule, item) == Raise(item(line).error)
    ensures ScanStep(st, line, rule, item).Ok? ==>
      Describes(ScanStep(st, line, rule, item).value, p + [line], rule,
                if IsData(line) then xs + [item(line).value] else xs)
  {
    var l := p + [line];
    assert l[..|l| - 1] == p;
    ArmedSnoc(p, line, rule);
    if IsComment(line) {
    } else if Contains(line, "===") {
      if st.armed {
        FlattenSnoc(st.done, st.cur);
      }
    } else if item(line).Ok? {
      assert Flatten(st.done) + (st.cur + [item(line).value]) == xs + [item(line).value];
    }
  }

  /** The loop's state is described by the items, closers and flag of the lines read. */
  lemma {:induction false} ScanLinesDescribed<T>(lines: seq<string>, rule: Opening, item: string -> PyResult<T>)
    ensures ScanLines(lines, rule, item).Ok? <==> Items(lines, item).Ok?
    ensures ScanLines(lines, rule, item).Raise? ==> ScanLines(lines, rule, item) == Raise(Items(lines, item).error)
    ensures ScanLines(lines, rule, item).Ok? ==> Describes(ScanLines(lines, rule, item).value, lines, rule, Items(lines, item).value)
  {
    if lines != [] {
      var p := lines[..|lines| - 1];
      var line := lines[|lines| - 1];
      assert lines == p + [line];
      ScanLinesDescribed(p, rule, item);
      if ScanLines(p, rule, item).Ok? {
        ScanStepDescribes(ScanLines(p, rule, item).value, p, line, rule, item, Items(p, item).value);
      }
    }
  }

  /**
   * Nothing is lost or reordered: the loader fails exactly when a data line
   * fails to read, with that line's exception, and otherwise its individuals
   * concatenate to the items of the data lines in file order.
   */
  lemma BlocksFlatten<T>(lines: seq<string>, rule: Opening, item: string -> PyResult<T>)
    ensures Blocks(lines, rule, item).Ok? <==> Items(lines, item).Ok?
    ensures Blocks(lines, rule, item).Raise? ==> Blocks(lines, rule, item).error == Items(lines, item).error
    ensures Blocks(lines, rule, item).Ok? ==> Flatten(Blocks(lines, rule, item).value) == Items(lines, item).value
  {
    ScanLinesDescribed(lines, rule, item);
    if ScanLines(lines, rule, item).Ok? {
      var st := ScanLines(lines, rule, item).value;
      FlattenSnoc(st.done, st.cur);
    }
  }

  /** One individual per closing header, plus the one closed at end of file. */
  lemma BlocksCount<T>(lines: seq<string>, rule: Opening, item: string -> PyResult<T>)
    requires Blocks(lines, rule, item).Ok?
    ensures |Blocks(lines, rule, item).value| == Closers(lines, rule) + 1
  {
    ScanLinesDescribed(lines, rule, item);
  }

  /** Before the flag is set no header closes anything. */
  lemma {:induction false} ClosersUnarmed(lines: seq<string>, rule: Opening)
    requires !Armed(lines, rule)
    ensures Closers(lines, rule) == 0
  {
    if lines != [] {
      var p := lines[..|lines| - 1];
      assert lines == p + [lines[|lines| - 1]];
      ArmedSnoc(p, lines[|lines| - 1], rule);
      ClosersUnarmed(p, rule);
    }
  }

  /** Once the flag is set, every later header closes one individual. */
  lemma {:induction false} ClosersArmed(pre: seq<string>, post: seq<string>, rule: Opening)
    requires Armed(pre, rule)
    ensures Closers(pre + post, rule) == Closers(pre, rule) + Headers(post)
    ensures Armed(pre + post, rule)
    decreases |post|
  {
    if post == [] {
      assert pre + post == pre;
    } else {
      var q := post[..|post| - 1];
      var x := post[|post| - 1];
      ClosersArmed(pre, q, rule);
      assert (pre + post)[..|pre + post| - 1] == pre + q;
      assert pre + post == (pre + q) + [x];
      ArmedSnoc(pre + q, x, rule);
    }
  }

  /** Under `OnHeader` the flag is set exactly when a header has been read. */
  lemma {:induction false} ArmedOnHeader(lines: seq<string>)
    ensures Armed(lines, OnHeader) <==> Headers(lines) > 0
  {
    if lines != [] {
      var p := lines[..|lines| - 1];
      assert lines == p + [lines[|lines| - 1]];
      ArmedSnoc(p, lines[|lines| - 1], OnHeader);
      ArmedOnHeader(p);
    }
  }

  /** Under `OnHeader` every header but the first closes an individual. */
  lemma {:induction false} ClosersOnHeader(lines: seq<string>)
    ensures Closers(lines, OnHeader) + 1 == (if Headers(lines) == 0 then 1 else Headers(lines))
  {
    if lines != [] {
      var p := lines[..|lines| - 1];
      ClosersOnHeader(p);
      ArmedOnHeader(p);
    }
  }

  /** Under `OnHeader` the loader returns one individual per header, or one when there is no header. */
  lemma OnHeaderCount<T>(lines: seq<string>, item: string -> PyResult<T>)
    requires Blocks(lines, OnHeader, item).Ok?
    ensures |Blocks(lines, OnHeader, item).value| == (if Headers(lines) == 0 then 1 else Headers(lines))
  {
    BlocksCount(lines, OnHeader, item);
    ClosersOnHeader(lines);
  }

  // ----- the fields the loaders keep -----

  /** `line.split()[0]`: IndexError on a blank line. */
  function FirstField(line: string): (r: PyResult<string>)
    ensures r.Raise? <==> Split(line) == []
    ensures r.Ok? ==> r.value == Split(line)[0]
  {
    var f := Split(line);
    if |f| == 0 then Raise(IndexError) else Ok(f[0])
  }

  /** `int(line.split()[3])`: IndexError below four fields, ValueError when it is not an integer. */
  function TagField(line: string): (r: PyResult<int>)
    ensures r.Ok? <==> |Split(line)| >= 4 && ParseInt(Split(line)[3]).Some?
    ensures r.Ok? ==> Some(r.value) == ParseInt(Split(line)[3])
    ensures r.Raise? ==> (r.error == IndexError <==> |Split(line)| < 4)
    ensures r.Raise? ==> (r.error == ValueError <==> |Split(line)| >= 4)
  {
    var f := Split(line);
    if |f| < 4 then Raise(IndexError)
    else
      match ParseInt(f[3])
      case None => Raise(ValueError)
      case Some(v) => Ok(v)
  }
}
