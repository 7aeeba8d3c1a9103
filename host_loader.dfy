/**
 * The host loader `loadHostPopulation` shared line for line by
 * PyScripts/MHC_similiraty.py, PyScripts/infection_vs_MHC_stats.py and the
 * notebook copy of the latter: it keeps the first field of every data line,
 * opens a host at the first data line and closes it at the next header.
 * A file that cannot be opened gives `None` (the IOError handler prints a
 * message and returns nothing).
 */
module HostLoader {
  import opened Wrappers
  import opened Text
  import HB = HeaderBlocks

  /** What `loadHostPopulation(FILE)` returns: per host, the first fields of its data lines. */
  function HostBitStrings(file: Option<seq<string>>): PyResult<Option<seq<seq<string>>>> {
    HB.Loaded(file, HB.OnData, HB.FirstField)
  }

  method LoadHostPopulation(file: Option<seq<string>>) returns (r: PyResult<Option<seq<seq<string>>>>)
    ensures r == HostBitStrings(file)
  {
    r := HB.LoadFile(file, HB.OnData, HB.FirstField);
  }

  /** A file that cannot be opened gives `None`, not an exception. */
  lemma MissingFileGivesNone()
    ensures HostBitStrings(None) == Ok(None)
  {
  }

  /**
   * The loader raises exactly when some data line is blank (its first field
   * does not exist), and then the exception is IndexError; otherwise the hosts,
   * one after another, hold the first fields of all data lines in file order.
   */
  lemma HostsHoldFirstFields(lines: seq<string>)
    ensures HostBitStrings(Some(lines)).Raise? <==> HB.Items(lines, HB.FirstField).Raise?
    ensures HostBitStrings(Some(lines)).Raise? ==> HostBitStrings(Some(lines)).error == IndexError
    ensures HostBitStrings(Some(lines)).Ok? ==>
      HB.Flatten(HostBitStrings(Some(lines)).value.value) == HB.Items(lines, HB.FirstField).value
  {
    HB.BlocksFlatten(lines, HB.OnData, HB.FirstField);
    if HB.Items(lines, HB.FirstField).Raise? {
      FirstFieldRaises(lines);
    }
  }

  lemma {:induction false} FirstFieldRaises(lines: seq<string>)
    requires HB.Items(lines, HB.FirstField).Raise?
    ensures HB.Items(lines, HB.FirstField).error == IndexError
  {
    if lines != [] && HB.Items(lines[..|lines| - 1], HB.FirstField).Raise? {
      FirstFieldRaises(lines[..|lines| - 1]);
    }
  }

  /**
   * Headers before the first data line close nothing; after it every header
   * closes one host; and the host open at end of file is always appended.
   */
  lemma HostsCount(pre: seq<string>, line: string, post: seq<string>)
    requires forall k :: 0 <= k < |pre| ==> !HB.IsData(pre[k])
    requires HB.IsData(line)
    requires HostBitStrings(Some(pre + [line] + post)).Ok?
    ensures |HostBitStrings(Some(pre + [line] + post)).value.value| == HB.Headers(post) + 1
  {
    var lines := pre + [line] + post;
    HB.BlocksCount(lines, HB.OnData, HB.FirstField);
    HB.ArmedSnoc(pre, line, HB.OnData);
    HB.ClosersUnarmed(pre, HB.OnData);
    HB.ClosersArmed(pre + [line], post, HB.OnData);
    assert HB.Closers(pre + [line], HB.OnData) == 0 by {
      assert (pre + [line])[..|pre|] == pre;
      assert !HB.IsHeader(line);
    }
  }
}
