/**
 * PyScripts/transform_paramInput_2_json.py: turning the old
 * InputParameters.csv of a run into the map written as InputParameters.json.
 *
 * Python's `float()` is the parameter `toFloat` (`None` where it raises
 * ValueError); the model assumes nothing about it but that it is a function.
 */
module ParamJson {
  import opened Wrappers
  import opened Text
  import Py = Python

  /** `paramz`: the keys looked for, in the order they are tried on each line. */
  const ParamKeys: seq<string> := [
    "alpha_factor_for_the_host_fitness_function",
    "heterozygote_advantage", "host_gene_deletion_probability",
    "host_gene_duplication_probability",
    "host_maximal_number_of_genes_in_chromosome", "host_population_size",
    "mutation_probability_in_host", "mutation_probability_in_pathogen",
    "number_of_bits_per_antigen", "number_of_bits_per_gene",
    "number_of_genes_per_host_one_chromosome",
    "number_of_host_generations",
    "number_of_pathogen_generation_per_one_host_generation",
    "number_of_pathogen_species", "number_of_sex_mates",
    "number_of_threads", "pathogen_population_size",
    "point_mutation_in_host_is_used", "run_start_date_and_time",
    "separated_species_genomes"]

  /** The two keys written as 0 whatever the file says. */
  const SexMates: string := "number_of_sex_mates"
  const Threads: string := "number_of_threads"

  /** `s.lower()` on ASCII letters. */
  function Lower(s: string): (r: string)
    ensures |r| == |s|
    ensures forall k :: 0 <= k < |s| ==> r[k] == (if 'A' <= s[k] <= 'Z' then (s[k] as int + 32) as char else s[k])
  {
    seq(|s|, k requires 0 <= k < |s| => if 'A' <= s[k] <= 'Z' then (s[k] as int + 32) as char else s[k])
  }

  /** `s.rstrip('\n')`: every trailing newline removed. */
  function StripNewlines(s: string): (r: string)
    ensures r <= s && (r == [] || r[|r| - 1] != '\n')
    ensures forall k :: |r| <= k < |s| ==> s[k] == '\n'
  {
    if s != [] && s[|s| - 1] == '\n' then StripNewlines(s[..|s| - 1]) else s
  }

  /** `line.rstrip('\n')[1::]`: the line without its trailing newlines and its first character. */
  function Trimmed(line: string): string {
    var t := StripNewlines(line);
    if t == [] then [] else t[1..]
  }

  /** The list comprehension over the file: every line trimmed. */
  function TrimmedLines(lines: seq<string>): (r: seq<string>)
    ensures |r| == |lines| && forall i :: 0 <= i < |lines| ==> r[i] == Trimmed(lines[i])
  {
    seq(|lines|, i requires 0 <= i < |lines| => Trimmed(lines[i]))
  }

  /** `re.search(kk, ii.lower())`: the keys hold no pattern characters, so this is a text search. */
  predicate Matches(ii: string, kk: string) {
    Contains(Lower(ii), kk)
  }

  /**
   * The value of a line, `ii.split(" = ")[1]` read as an int if it is one,
   * else as a float, else kept as text. A line without " = " raises
   * IndexError, in the last handler, where nothing catches it.
   */
  function ValueOf(ii: string, toFloat: string -> Option<real>): (r: PyResult<Py.JsonValue>)
    ensures r.Raise? <==> |SplitSep(ii, " = ")| < 2
    ensures r.Raise? ==> r.error == IndexError
    ensures r.Ok? ==> var v := SplitSep(ii, " = ")[1];
      (ParseInt(v).Some? ==> r.value == Py.JInt(ParseInt(v).value)) &&
      (ParseInt(v).None? && toFloat(v).Some? ==> r.value == Py.JFloat(toFloat(v).value)) &&
      (ParseInt(v).None? && toFloat(v).None? ==> r.value == Py.JString(v))
  {
    var parts := SplitSep(ii, " = ");
    if |parts| < 2 then Raise(IndexError)
    else
      var v := parts[1];
      match ParseInt(v)
      case Some(i) => Ok(Py.JInt(i))
      case None =>
        match toFloat(v)
        case Some(f) => Ok(Py.JFloat(f))
        case None => Ok(Py.JString(v))
  }

  /** The keys a line holds, as the inner loop tests them. */
  function Hit(ii: string): string -> bool {
    (kk: string) => Matches(ii, kk)
  }

  /** The loop over the keys for one line: each key the line holds gets the line's value. */
  function KeyLoop(ww: map<string, Py.JsonValue>, ii: string, keys: seq<string>, toFloat: string -> Option<real>): PyResult<map<string, Py.JsonValue>> {
    Py.SetWhere(ww, keys, Hit(ii), ValueOf(ii, toFloat))
  }

  /** The loop over the trimmed lines. */
  function Collect(rows: seq<string>, keys: seq<string>, toFloat: string -> Option<real>): PyResult<map<string, Py.JsonValue>> {
    if rows == [] then Ok(map[])
    else
      var n := |rows| - 1;
      match Collect(rows[..n], keys, toFloat)
      case Raise(e) => Raise(e)
      case Ok(w) => KeyLoop(w, rows[n], keys, toFloat)
  }

  /**
   * The map `transformInputFile` writes: IOError when the file does not
   * open; otherwise the collected values with the two forced keys set to 0.
   */
  function Transformed(file: Option<seq<string>>, toFloat: string -> Option<real>): PyResult<map<string, Py.JsonValue>> {
    match file
    case None => Raise(IOError)
    case Some(lines) =>
      match Collect(TrimmedLines(lines), ParamKeys, toFloat)
      case Raise(e) => Raise(e)
      case Ok(ww) => Ok(ww[SexMates := Py.JInt(0)][Threads := Py.JInt(0)])
  }

  method TransformInputFile(file: Option<seq<string>>, toFloat: string -> Option<real>) returns (r: PyResult<map<string, Py.JsonValue>>)
    ensures r == Transformed(file, toFloat)
  {
    if file.None? {
      return Raise(IOError);
    }
    var rows := TrimmedLines(file.value);
    var ww: map<string, Py.JsonValue> := map[];
    for i := 0 to |rows|
      invariant Collect(rows[..i], ParamKeys, toFloat) == Ok(ww)
    {
      CollectStep(rows, i, ParamKeys, toFloat);
      var next := UpdateFromLine(ww, rows[i], toFloat);
      if next.Raise? {
        CollectRaise(rows, i + 1, ParamKeys, toFloat);
        return Raise(next.error);
      }
      ww := next.value;
    }
    assert rows[..|rows|] == rows;
    ww := ww[SexMates := Py.JInt(0)];
    ww := ww[Threads := Py.JInt(0)];
    return Ok(ww);
  }

  /** The inner loop: `for kk in paramz`. */
  method UpdateFromLine(ww0: map<string, Py.JsonValue>, ii: string, toFloat: string -> Option<real>) returns (r: PyResult<map<string, Py.JsonValue>>)
    ensures r == KeyLoop(ww0, ii, ParamKeys, toFloat)
  {
    ghost var hit := Hit(ii);
    ghost var val := ValueOf(ii, toFloat);
    var ww := ww0;
    for j := 0 to |ParamKeys|
      invariant Py.SetWhere(ww0, ParamKeys[..j], hit, val) == Ok(ww)
    {
      assert ParamKeys[..j + 1][..j] == ParamKeys[..j];
      var kk := ParamKeys[j];
      assert hit(kk) == Contains(Lower(ii), kk);
      if Contains(Lower(ii), kk) {
        var parts := SplitSep(ii, " = ");
        if |parts| < 2 {
          Py.SetWhereRaise(ww0, ParamKeys, hit, val, j + 1);
          return Raise(IndexError);
        }
        var v := parts[1];
        match ParseInt(v)
        case Some(i) => ww := ww[kk := Py.JInt(i)];
        case None =>
          match toFloat(v)
          case Some(f) => ww := ww[kk := Py.JFloat(f)];
          case None => ww := ww[kk := Py.JString(v)];
      }
    }
    assert ParamKeys[..|ParamKeys|] == ParamKeys;
    return Ok(ww);
  }

  /** One more line goes through the loop over the keys. */
  lemma CollectStep(rows: seq<string>, i: nat, keys: seq<string>, toFloat: string -> Option<real>)
    requires i < |rows| && Collect(rows[..i], keys, toFloat).Ok?
    ensures Collect(rows[..i + 1], keys, toFloat) == KeyLoop(Collect(rows[..i], keys, toFloat).value, rows[i], keys, toFloat)
  {
    assert rows[..i + 1][..i] == rows[..i];
  }

  lemma {:induction false} CollectRaise(lines: seq<string>, m: nat, keys: seq<string>, toFloat: string -> Option<real>)
    requires m <= |lines| && Collect(lines[..m], keys, toFloat).Raise?
    ensures Collect(lines, keys, toFloat) == Collect(lines[..m], keys, toFloat)
    decreases |lines| - m
  {
    if m < |lines| {
      assert lines[..m + 1][..m] == lines[..m];
      CollectRaise(lines, m + 1, keys, toFloat);
    } else {
      assert lines[..m] == lines;
    }
  }

  // ------------------------------------------------------------- properties

  /** Some listed key is found in the line. */
  predicate AnyMatch(ii: string, keys: seq<string>) {
    exists j :: 0 <= j < |keys| && Matches(ii, keys[j])
  }

  /** The lines that hold kk. */
  function Holds(kk: string): string -> bool {
    (ii: string) => Matches(ii, kk)
  }

  /** The last line (from 0) whose lower-cased text holds kk. */
  function LastLine(rows: seq<string>, kk: string): Option<nat> {
    Py.LastWhere(rows, Holds(kk))
  }

  /**
   * One line raises exactly when it holds a key but no " = ", and the
   * exception is IndexError; otherwise every key it holds gets its value and
   * every other entry stays.
   */
  lemma KeyLoopMeaning(w: map<string, Py.JsonValue>, ii: string, keys: seq<string>, toFloat: string -> Option<real>)
    ensures KeyLoop(w, ii, keys, toFloat).Raise? <==> AnyMatch(ii, keys) && ValueOf(ii, toFloat).Raise?
    ensures KeyLoop(w, ii, keys, toFloat).Raise? ==> KeyLoop(w, ii, keys, toFloat).error == IndexError
    ensures KeyLoop(w, ii, keys, toFloat).Ok? ==> forall k ::
      (k in KeyLoop(w, ii, keys, toFloat).value <==> k in w || (k in keys && Matches(ii, k))) &&
      (k in keys && Matches(ii, k) ==> Ok(KeyLoop(w, ii, keys, toFloat).value[k]) == ValueOf(ii, toFloat)) &&
      (k in w && !(k in keys && Matches(ii, k)) ==> KeyLoop(w, ii, keys, toFloat).value[k] == w[k])
  {
    var hit := Hit(ii);
    Py.SetWhereRaises(w, keys, hit, ValueOf(ii, toFloat));
    if KeyLoop(w, ii, keys, toFloat).Ok? {
      Py.SetWhereOk(w, keys, hit, ValueOf(ii, toFloat));
    }
    assert forall k :: hit(k) == Matches(ii, k);
  }

  /** Line i (from 0) holds a key but no " = ". */
  predicate Unreadable(rows: seq<string>, i: int, keys: seq<string>, toFloat: string -> Option<real>) {
    0 <= i < |rows| && AnyMatch(rows[i], keys) && ValueOf(rows[i], toFloat).Raise?
  }

  /** Line i of the first lines is unreadable exactly when it is in the whole file. */
  lemma UnreadablePrefix(rows: seq<string>, m: nat, i: int, keys: seq<string>, toFloat: string -> Option<real>)
    requires m <= |rows| && 0 <= i < m
    ensures Unreadable(rows[..m], i, keys, toFloat) == Unreadable(rows, i, keys, toFloat)
  {
    assert rows[..m][i] == rows[i];
  }

  /** Once the lines before it are read, the last line raises exactly when it is unreadable. */
  lemma CollectLast(rows: seq<string>, keys: seq<string>, toFloat: string -> Option<real>)
    requires rows != [] && Collect(rows[..|rows| - 1], keys, toFloat).Ok?
    ensures Collect(rows, keys, toFloat).Raise? <==> Unreadable(rows, |rows| - 1, keys, toFloat)
    ensures Collect(rows, keys, toFloat).Raise? ==> Collect(rows, keys, toFloat).error == IndexError
  {
    var n := |rows| - 1;
    KeyLoopMeaning(Collect(rows[..n], keys, toFloat).value, rows[n], keys, toFloat);
  }

  /**
   * The lines are read without an exception exactly when no line holds a key
   * without " = "; the exception is IndexError.
   */
  lemma {:induction false} CollectRaises(rows: seq<string>, keys: seq<string>, toFloat: string -> Option<real>)
    ensures Collect(rows, keys, toFloat).Raise? <==> exists i :: Unreadable(rows, i, keys, toFloat)
    ensures Collect(rows, keys, toFloat).Raise? ==> Collect(rows, keys, toFloat).error == IndexError
  {
    if rows != [] {
      var n := |rows| - 1;
      CollectRaises(rows[..n], keys, toFloat);
      if Collect(rows[..n], keys, toFloat).Raise? {
        var i :| Unreadable(rows[..n], i, keys, toFloat);
        UnreadablePrefix(rows, n, i, keys, toFloat);
      } else {
        CollectLast(rows, keys, toFloat);
        if Collect(rows, keys, toFloat).Ok? {
          forall i | 0 <= i < n
            ensures !Unreadable(rows, i, keys, toFloat)
          {
            UnreadablePrefix(rows, n, i, keys, toFloat);
          }
        }
      }
    }
  }

  /** The last line holding kk is the new line when it holds kk, else the one before. */
  lemma LastLineSnoc(lines: seq<string>, kk: string)
    requires lines != []
    ensures LastLine(lines, kk) ==
      if Matches(lines[|lines| - 1], kk) then Some(|lines| - 1) else LastLine(lines[..|lines| - 1], kk)
  {
  }

  /**
   * Without an exception, a key is in the map exactly when it is listed and
   * some line holds it, and it holds the value of the last such line.
   */
  lemma {:induction false} CollectOk(lines: seq<string>, keys: seq<string>, toFloat: string -> Option<real>)
    requires Collect(lines, keys, toFloat).Ok?
    ensures forall k ::
      (k in Collect(lines, keys, toFloat).value <==> k in keys && LastLine(lines, k).Some?) &&
      (k in Collect(lines, keys, toFloat).value ==>
        Ok(Collect(lines, keys, toFloat).value[k]) == ValueOf(lines[LastLine(lines, k).value], toFloat))
  {
    if lines != [] {
      var n := |lines| - 1;
      var p := lines[..n];
      var ii := lines[n];
      assert Collect(p, keys, toFloat).Ok?;
      CollectOk(p, keys, toFloat);
      var w := Collect(p, keys, toFloat).value;
      KeyLoopMeaning(w, ii, keys, toFloat);
      assert Collect(lines, keys, toFloat) == KeyLoop(w, ii, keys, toFloat);
      forall k
        ensures k in Collect(lines, keys, toFloat).value <==> k in keys && LastLine(lines, k).Some?
        ensures k in Collect(lines, keys, toFloat).value ==>
          Ok(Collect(lines, keys, toFloat).value[k]) == ValueOf(lines[LastLine(lines, k).value], toFloat)
      {
        LastLineSnoc(lines, k);
        if !Matches(ii, k) {
          var j := LastLine(p, k);
          if j.Some? {
            assert lines[j.value] == p[j.value];
          }
        }
      }
    }
  }

  /**
   * What the JSON map holds, in terms of the trimmed lines: the only
   * exception is IndexError; only listed keys; both forced keys at 0; every
   * other key exactly when some line holds it, with the last such line's value.
   */
  lemma TransformedMeaning(lines: seq<string>, toFloat: string -> Option<real>)
    ensures Transformed(Some(lines), toFloat).Raise? <==> exists i :: Unreadable(TrimmedLines(lines), i, ParamKeys, toFloat)
    ensures Transformed(Some(lines), toFloat).Raise? ==> Transformed(Some(lines), toFloat).error == IndexError
    ensures Transformed(Some(lines), toFloat).Ok? ==> var ww := Transformed(Some(lines), toFloat).value;
      (forall k :: k in ww ==> k in ParamKeys) &&
      SexMates in ww && ww[SexMates] == Py.JInt(0) && Threads in ww && ww[Threads] == Py.JInt(0) &&
      forall k :: k != SexMates && k != Threads ==>
        (k in ww <==> k in ParamKeys && LastLine(TrimmedLines(lines), k).Some?) &&
        (k in ww ==> Ok(ww[k]) == ValueOf(TrimmedLines(lines)[LastLine(TrimmedLines(lines), k).value], toFloat))
  {
    var rows := TrimmedLines(lines);
    CollectRaises(rows, ParamKeys, toFloat);
    if Collect(rows, ParamKeys, toFloat).Ok? {
      CollectOk(rows, ParamKeys, toFloat);
    }
    assert SexMates in ParamKeys && Threads in ParamKeys;
  }
}
