/**
 * PyScripts/host_heterozygoty_check.py: the fraction of hosts whose gene
 * tags are all different.
 *
 * The loader is the `OnData` block loader keeping `int(LL[3])` of every
 * data line: headers before the first data line are skipped, later ones
 * close the current host, and the last host is appended at end of file.
 */
module Heterozygosity {
  import opened Wrappers
  import opened Text
  import opened SeqUtil
  import HB = HeaderBlocks

  /** What `loadHostPopulation(FILE)` returns; `None` when the file does not open. */
  function HostTags(file: Option<seq<string>>): PyResult<Option<seq<seq<int>>>> {
    HB.Loaded(file, HB.OnData, HB.TagField)
  }

  method LoadHostPopulation(file: Option<seq<string>>) returns (r: PyResult<Option<seq<seq<int>>>>)
    ensures r == HostTags(file)
  {
    r := HB.LoadFile(file, HB.OnData, HB.TagField);
  }

  /**
   * The hosts hold, one after another, the tags of all data lines in file
   * order; the loader raises exactly when some data line's tag cannot be read.
   */
  lemma HostTagsInOrder(lines: seq<string>)
    ensures HostTags(Some(lines)).Raise? <==> HB.Items(lines, HB.TagField).Raise?
    ensures HostTags(Some(lines)).Ok? ==>
      HB.Flatten(HostTags(Some(lines)).value.value) == HB.Items(lines, HB.TagField).value
  {
    HB.BlocksFlatten(lines, HB.OnData, HB.TagField);
  }

  /** `len(itm) == len(set(itm))`: no tag repeats. */
  predicate NoRepeats(itm: seq<int>) {
    |itm| == |set x | x in itm|
  }

  /** The equal-lengths test holds exactly when no two positions carry the same tag. */
  lemma NoRepeatsIsNoDup(itm: seq<int>)
    ensures NoRepeats(itm) <==> NoDup(itm)
  {
    DistinctCardinality(itm);
    DistinctProps(itm);
    if NoDup(itm) {
      DistinctOfNoDup(itm);
    } else {
      DistinctShorter(itm);
    }
  }

  /** A list with a repeat loses an item when its repeats are dropped. */
  lemma {:induction false} DistinctShorter(s: seq<int>)
    requires !NoDup(s)
    ensures |Distinct(s)| < |s|
  {
    var p := s[..|s| - 1];
    DistinctProps(p);
    if NoDup(p) {
      DistinctOfNoDup(p);
      assert s == p + [s[|s| - 1]];
      assert s[|s| - 1] in p by {
        var i, j :| 0 <= i < j < |s| && s[i] == s[j];
        if j == |s| - 1 {
          assert p[i] == s[i];
        } else {
          assert false;
        }
      }
    } else {
      DistinctShorter(p);
    }
  }

  /** How many hosts carry no repeated tag. */
  function Heterozygous(hh: seq<seq<int>>): (n: nat)
    ensures n <= |hh|
  {
    if hh == [] then 0 else Heterozygous(hh[..|hh| - 1]) + (if NoRepeats(hh[|hh| - 1]) then 1 else 0)
  }

  /** `checkHeteroZyg(HH)`: that number over the number of hosts; none divides by zero. */
  function HeteroFraction(hh: seq<seq<int>>): PyResult<real> {
    if |hh| == 0 then Raise(ZeroDivisionError) else Ok(Heterozygous(hh) as real / |hh| as real)
  }

  method CheckHeteroZyg(hh: seq<seq<int>>) returns (r: PyResult<real>)
    ensures r == HeteroFraction(hh)
  {
    var ii := 0;
    for k := 0 to |hh|
      invariant ii == Heterozygous(hh[..k])
    {
      assert hh[..k + 1][..k] == hh[..k];
      if |hh[k]| == |set x | x in hh[k]| {
        ii := ii + 1;
      }
    }
    assert hh[..|hh|] == hh;
    if |hh| == 0 {
      return Raise(ZeroDivisionError);
    }
    return Ok(ii as real / |hh| as real);
  }

  /**
   * The fraction lies in [0, 1]; it is 1 exactly when no host repeats a
   * tag and 0 exactly when every host does.
   */
  lemma {:induction false} FractionRange(hh: seq<seq<int>>)
    requires |hh| > 0
    ensures 0.0 <= HeteroFraction(hh).value <= 1.0
    ensures HeteroFraction(hh).value == 1.0 <==> forall k :: 0 <= k < |hh| ==> NoDup(hh[k])
    ensures HeteroFraction(hh).value == 0.0 <==> forall k :: 0 <= k < |hh| ==> !NoDup(hh[k])
  {
    AllOrNone(hh);
    forall k | 0 <= k < |hh| {
      NoRepeatsIsNoDup(hh[k]);
    }
    RatioRange(Heterozygous(hh), |hh|);
  }

  /** The count reaches the number of hosts, or zero, exactly when every host, or none, qualifies. */
  lemma {:induction false} AllOrNone(hh: seq<seq<int>>)
    ensures Heterozygous(hh) == |hh| <==> forall k :: 0 <= k < |hh| ==> NoRepeats(hh[k])
    ensures Heterozygous(hh) == 0 <==> forall k :: 0 <= k < |hh| ==> !NoRepeats(hh[k])
  {
    if hh != [] {
      var n := |hh| - 1;
      AllOrNone(hh[..n]);
      assert forall k :: 0 <= k < n ==> hh[..n][k] == hh[k];
    }
  }
}
