/**
 * The pieces of Python and its libraries that the post-processing scripts
 * lean on: indexing with negative positions, slices and step slices, `zip`,
 * list comprehensions that stop at an exception, `linecache.getline`, JSON values,
 * and `bitstring.BitString(bin=t).int`, the signed value of a binary text.
 */
module Python {
  import opened Wrappers
  import opened Bits

  /** `s[i]`: negative positions count from the end; `None` where Python raises IndexError. */
  function Index<T>(s: seq<T>, i: int): (r: Option<T>)
    ensures r.Some? <==> -|s| <= i < |s|
    ensures 0 <= i < |s| ==> r == Some(s[i])
    ensures -|s| <= i < 0 ==> r == Some(s[|s| + i])
  {
    if 0 <= i < |s| then Some(s[i])
    else if -|s| <= i < 0 then Some(s[|s| + i])
    else None
  }

  /** `s[start::2]`: the items at start, start + 2, start + 4, … */
  function Every2<T>(s: seq<T>, start: nat): (r: seq<T>)
    decreases |s| - start
  {
    if start >= |s| then [] else [s[start]] + Every2(s, start + 2)
  }

  /** The step slice has one item per position start + 2j below |s|, and item j is s[start + 2j]. */
  lemma {:induction false} Every2Items<T>(s: seq<T>, start: nat)
    ensures |Every2(s, start)| == (if start < |s| then (|s| - start + 1) / 2 else 0)
    ensures forall j :: 0 <= j < |Every2(s, start)| ==> start + 2 * j < |s| && Every2(s, start)[j] == s[start + 2 * j]
    decreases |s| - start
  {
    if start < |s| {
      Every2Items(s, start + 2);
      var r := Every2(s, start);
      assert r == [s[start]] + Every2(s, start + 2);
      forall j | 0 <= j < |r|
        ensures start + 2 * j < |s| && r[j] == s[start + 2 * j]
      {
        if j > 0 {
          assert r[j] == Every2(s, start + 2)[j - 1];
        }
      }
    }
  }

  /** A slice bound: a negative one counts from the end; both are clipped to 0..n. */
  function SliceBound(i: int, n: nat): (r: nat)
    ensures r <= n
    ensures 0 <= i <= n ==> r == i
    ensures -(n as int) <= i < 0 ==> r == n + i
  {
    if i < 0 then (if n + i < 0 then 0 else n + i)
    else if i > n then n else i
  }

  /** `s[i:j]`: never raises; an empty result when the bounds cross. */
  function Slice<T>(s: seq<T>, i: int, j: int): seq<T> {
    var a := SliceBound(i, |s|);
    var b := SliceBound(j, |s|);
    if a < b then s[a..b] else []
  }

  /** `s[i:-1]` drops the last item and the first i: empty unless more than i + 1 items. */
  lemma SliceToLast<T>(s: seq<T>, i: nat)
    ensures Slice(s, i, -1) == (if i + 1 < |s| then s[i..|s| - 1] else [])
    ensures |Slice(s, i, -1)| == (if i + 1 < |s| then |s| - 1 - i else 0)
  {
  }

  /** `s[::-3]`: the last item, then every third one going back to the front. */
  function Every3Back<T>(s: seq<T>): seq<T>
    decreases |s|
  {
    if s == [] then [] else [s[|s| - 1]] + Every3Back(s[..if |s| >= 3 then |s| - 3 else 0])
  }

  /** The step slice has one item per position |s| - 1 - 3j at or above 0, and item j is that one. */
  lemma {:induction false} Every3BackItems<T>(s: seq<T>)
    ensures |Every3Back(s)| == (|s| + 2) / 3
    ensures forall j :: 0 <= j < |Every3Back(s)| ==> 3 * j < |s| && Every3Back(s)[j] == s[|s| - 1 - 3 * j]
    decreases |s|
  {
    if s != [] {
      var t := s[..if |s| >= 3 then |s| - 3 else 0];
      Every3BackItems(t);
      var r := Every3Back(s);
      assert r == [s[|s| - 1]] + Every3Back(t);
      forall j | 0 <= j < |r|
        ensures 3 * j < |s| && r[j] == s[|s| - 1 - 3 * j]
      {
        if j > 0 {
          assert r[j] == Every3Back(t)[j - 1];
        }
      }
    }
  }

  /** `zip(a, b)`: pairs of items at the same position, as many as the shorter list has. */
  function Zip<A, B>(a: seq<A>, b: seq<B>): (r: seq<(A, B)>)
    ensures |r| == (if |a| <= |b| then |a| else |b|)
    ensures forall i :: 0 <= i < |r| ==> r[i] == (a[i], b[i])
  {
    if a == [] || b == [] then [] else [(a[0], b[0])] + Zip(a[1..], b[1..])
  }

  /** `[f(x) for x in xs]`: f applied to every item in order, stopping at the first exception. */
  function MapAll<A, B>(xs: seq<A>, f: A -> PyResult<B>): PyResult<seq<B>> {
    if xs == [] then Ok([])
    else
      var n := |xs| - 1;
      match MapAll(xs[..n], f)
      case Raise(e) => Raise(e)
      case Ok(ys) =>
        match f(xs[n])
        case Raise(e) => Raise(e)
        case Ok(y) => Ok(ys + [y])
  }

  /** Once a prefix raises, the whole list raises the same exception. */
  lemma {:induction false} MapAllRaise<A, B>(xs: seq<A>, f: A -> PyResult<B>, m: nat)
    requires m <= |xs| && MapAll(xs[..m], f).Raise?
    ensures MapAll(xs, f) == MapAll(xs[..m], f)
    decreases |xs| - m
  {
    if m < |xs| {
      assert xs[..m + 1][..m] == xs[..m];
      MapAllRaise(xs, f, m + 1);
    } else {
      assert xs[..m] == xs;
    }
  }

  /** Without an exception there is one result per item, each what `f` gives for it. */
  lemma {:induction false} MapAllOk<A, B>(xs: seq<A>, f: A -> PyResult<B>)
    requires MapAll(xs, f).Ok?
    ensures |MapAll(xs, f).value| == |xs|
    ensures forall k :: 0 <= k < |xs| ==> f(xs[k]) == Ok(MapAll(xs, f).value[k])
  {
    if xs != [] {
      var n := |xs| - 1;
      MapAllOk(xs[..n], f);
      assert forall k :: 0 <= k < n ==> xs[..n][k] == xs[k];
    }
  }

  /** Items after an exception change nothing. */
  lemma MapAllAppendRaise<A, B>(xs: seq<A>, ys: seq<A>, f: A -> PyResult<B>)
    requires MapAll(xs, f).Raise?
    ensures MapAll(xs + ys, f) == MapAll(xs, f)
  {
    assert (xs + ys)[..|xs|] == xs;
    MapAllRaise(xs + ys, f, |xs|);
  }

  /** The list raises exactly when f raises for some item. */
  lemma {:induction false} MapAllRaises<A, B>(xs: seq<A>, f: A -> PyResult<B>)
    ensures MapAll(xs, f).Raise? <==> exists k :: 0 <= k < |xs| && f(xs[k]).Raise?
  {
    if xs != [] {
      var n := |xs| - 1;
      MapAllRaises(xs[..n], f);
      assert forall k :: 0 <= k < n ==> xs[..n][k] == xs[k];
      if exists k :: 0 <= k < |xs| && f(xs[k]).Raise? {
        var k :| 0 <= k < |xs| && f(xs[k]).Raise?;
        if k < n {
          assert f(xs[..n][k]).Raise?;
        }
      }
    }
  }

  /** One more item: the exception so far stands, else f of the new item is appended or raised. */
  lemma MapAllSnoc<A, B>(xs: seq<A>, x: A, f: A -> PyResult<B>)
    ensures MapAll(xs + [x], f) ==
      match MapAll(xs, f)
      case Raise(e) => Raise(e)
      case Ok(ys) => (match f(x) case Raise(e) => Raise(e) case Ok(y) => Ok(ys + [y]))
  {
    assert (xs + [x])[..|xs|] == xs;
  }

  /**
   * `for k in keys: if hit(k): w[k] = <value>`, where working out the value
   * gives v each time: every hit key gets the value, or the first hit raises.
   */
  function SetWhere<K, V>(w: map<K, V>, keys: seq<K>, hit: K -> bool, v: PyResult<V>): PyResult<map<K, V>> {
    if keys == [] then Ok(w)
    else
      var n := |keys| - 1;
      match SetWhere(w, keys[..n], hit, v)
      case Raise(e) => Raise(e)
      case Ok(w') =>
        if !hit(keys[n]) then Ok(w')
        else match v
          case Raise(e) => Raise(e)
          case Ok(x) => Ok(w'[keys[n] := x])
  }

  /** Once the first keys raise, the rest change nothing. */
  lemma {:induction false} SetWhereRaise<K, V>(w: map<K, V>, keys: seq<K>, hit: K -> bool, v: PyResult<V>, m: nat)
    requires m <= |keys| && SetWhere(w, keys[..m], hit, v).Raise?
    ensures SetWhere(w, keys, hit, v) == SetWhere(w, keys[..m], hit, v)
    decreases |keys| - m
  {
    if m < |keys| {
      assert keys[..m + 1][..m] == keys[..m];
      SetWhereRaise(w, keys, hit, v, m + 1);
    } else {
      assert keys[..m] == keys;
    }
  }

  /** One more key: a miss keeps the map, a hit stores v's value or raises. */
  lemma SetWhereSnoc<K, V>(w: map<K, V>, keys: seq<K>, hit: K -> bool, v: PyResult<V>)
    requires keys != []
    ensures var n := |keys| - 1; var prev := SetWhere(w, keys[..n], hit, v);
      SetWhere(w, keys, hit, v) ==
        if prev.Raise? || !hit(keys[n]) then prev
        else if v.Raise? then Raise(v.error)
        else Ok(prev.value[keys[n] := v.value])
  {
  }

  /** The loop raises v's exception exactly when some key is hit and v is an exception. */
  lemma {:induction false} SetWhereRaises<K, V>(w: map<K, V>, keys: seq<K>, hit: K -> bool, v: PyResult<V>)
    ensures SetWhere(w, keys, hit, v).Raise? <==> (exists j :: 0 <= j < |keys| && hit(keys[j])) && v.Raise?
    ensures SetWhere(w, keys, hit, v).Raise? ==> SetWhere(w, keys, hit, v).error == v.error
  {
    if keys != [] {
      var n := |keys| - 1;
      var p := keys[..n];
      SetWhereRaises(w, p, hit, v);
      SetWhereSnoc(w, keys, hit, v);
      if exists j :: 0 <= j < |p| && hit(p[j]) {
        var j :| 0 <= j < |p| && hit(p[j]);
        assert hit(keys[j]);
      }
      if exists j :: 0 <= j < |keys| && hit(keys[j]) {
        var j :| 0 <= j < |keys| && hit(keys[j]);
        if j < n {
          assert hit(p[j]);
        }
      }
    }
  }

  /** Without an exception, the hit keys hold v's value and every other entry stays. */
  lemma {:induction false} SetWhereOk<K, V>(w: map<K, V>, keys: seq<K>, hit: K -> bool, v: PyResult<V>)
    requires SetWhere(w, keys, hit, v).Ok?
    ensures forall k ::
      (k in SetWhere(w, keys, hit, v).value <==> k in w || (k in keys && hit(k))) &&
      (k in keys && hit(k) ==> Ok(SetWhere(w, keys, hit, v).value[k]) == v) &&
      (k in w && !(k in keys && hit(k)) ==> SetWhere(w, keys, hit, v).value[k] == w[k])
  {
    if keys != [] {
      var n := |keys| - 1;
      var p := keys[..n];
      SetWhereSnoc(w, keys, hit, v);
      SetWhereOk(w, p, hit, v);
      assert keys == p + [keys[n]];
    }
  }

  /** The last position whose item satisfies p. */
  function LastWhere<T>(xs: seq<T>, p: T -> bool): (r: Option<nat>)
    ensures r.Some? ==> r.value < |xs| && p(xs[r.value])
    ensures forall i :: 0 <= i < |xs| && (r.None? || r.value < i) ==> !p(xs[i])
  {
    if xs == [] then None
    else
      var n := |xs| - 1;
      if p(xs[n]) then Some(n) else LastWhere(xs[..n], p)
  }

  /** A value of a parsed JSON document. */
  datatype JsonValue = JInt(i: int) | JFloat(f: real) | JBool(b: bool) | JString(s: string) | JOther

  /** `linecache.getline(path, n)`: line n counted from 1, or "" when there is none or no file. */
  function GetLine(file: Option<seq<string>>, n: int): string {
    if file.Some? && 1 <= n <= |file.value| then file.value[n - 1] else ""
  }

  // ------------------------------------------------------------- bitstring

  /** The unsigned value of a text of '0'/'1' digits, most significant first. */
  function BinValue(t: string): (v: nat)
    ensures v < Pow2(|t|)
  {
    if t == [] then 0 else 2 * BinValue(t[..|t| - 1]) + (if t[|t| - 1] == '1' then 1 else 0)
  }

  /**
   * `bitstring.BitString(bin=t).int`: the two's-complement value of the digits,
   * so a leading '1' makes it negative. An empty text has no value to interpret
   * and a character other than '0'/'1' cannot be read; both raise ValueError.
   */
  function BitStringInt(t: string): (r: PyResult<int>)
    ensures r.Ok? <==> |t| > 0 && IsBinaryText(t)
  {
    if |t| == 0 || !IsBinaryText(t) then Raise(ValueError)
    else Ok(BinValue(t) - (if t[0] == '1' then Pow2(|t|) else 0))
  }

  /** The first digit is '1' exactly when the value reaches the top bit's weight. */
  lemma {:induction false} BinValueTop(t: string)
    requires |t| > 0 && IsBinaryText(t)
    ensures BinValue(t) >= Pow2(|t| - 1) <==> t[0] == '1'
  {
    var p := t[..|t| - 1];
    if |t| > 1 {
      assert p[0] == t[0];
      BinValueTop(p);
      assert Pow2(|t| - 1) == 2 * Pow2(|p| - 1);
    }
  }

  /** Two binary texts of one length with the same unsigned value are equal. */
  lemma {:induction false} BinValueInjective(a: string, b: string)
    requires |a| == |b| && IsBinaryText(a) && IsBinaryText(b)
    requires BinValue(a) == BinValue(b)
    ensures a == b
  {
    if |a| > 0 {
      var n := |a| - 1;
      assert a[n] == b[n];
      BinValueInjective(a[..n], b[..n]);
      assert a == a[..n] + [a[n]];
      assert b == b[..n] + [b[n]];
    }
  }

  /** The key `BitString(bin=t).int` tells apart any two different binary texts of one length. */
  lemma BitStringIntInjective(a: string, b: string)
    requires |a| == |b|
    requires BitStringInt(a).Ok? && BitStringInt(a) == BitStringInt(b)
    ensures a == b
  {
    BinValueTop(a);
    BinValueTop(b);
    BinValueInjective(a, b);
  }

  /** The printed bitset reads back as its `to_ulong` value. */
  lemma {:induction false} BinValueOfBits(b: seq<bool>)
    ensures BinValue(ToBinaryString(b)) == BitsToNat(b)
  {
    if |b| > 0 {
      var t := ToBinaryString(b);
      assert t[..|t| - 1] == ToBinaryString(b[1..]);
      BinValueOfBits(b[1..]);
    }
  }

  /** The key of a printed bitset is its value with the highest bit as sign. */
  lemma {:induction false} BitStringIntOfBits(b: seq<bool>)
    requires |b| > 0
    ensures BitStringInt(ToBinaryString(b)) == Ok(BitsToNat(b) - (if b[|b| - 1] then Pow2(|b|) else 0))
  {
    var t := ToBinaryString(b);
    ToBinaryStringIsBinary(b);
    BinValueOfBits(b);
    assert t[0] == (if b[|b| - 1] then '1' else '0');
  }
}
