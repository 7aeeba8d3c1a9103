/**
 * Text as the modelled programs see it: strings are sequences of characters,
 * a text file is the sequence of its lines, each line keeping its trailing
 * newline (Python's `for line in infile`).  This module holds Python's
 * whitespace `str.split()`, `str.split(sep)`, substring search (`in`,
 * `re.search` with a literal pattern), `int()`, and the decimal printing of
 * integers done by C++'s `std::to_string`.
 */
module Text {
  import opened Wrappers

  /** The characters Python's `str.split()` and `str.strip()` treat as whitespace (ASCII range). */
  predicate IsSpace(c: char) {
    c == ' ' || c == '\t' || c == '\n' || c == '\r' || c == '\U{000B}' || c == '\U{000C}'
    || c == '\U{001C}' || c == '\U{001D}' || c == '\U{001E}' || c == '\U{001F}'
  }

  predicate NoSpace(s: string) {
    forall k :: 0 <= k < |s| ==> !IsSpace(s[k])
  }

  predicate AllSpace(s: string) {
    forall k :: 0 <= k < |s| ==> IsSpace(s[k])
  }

  // ---------------------------------------------------------------- words

  /** Length of the run of non-space characters that starts `s`. */
  function WordLen(s: string): (n: nat)
    ensures n <= |s|
    ensures NoSpace(s[..n])
    ensures n == |s| || IsSpace(s[n])
  {
    if s == [] || IsSpace(s[0]) then 0
    else
      var m := WordLen(s[1..]);
      assert s[1..][..m] == s[1..m + 1];
      1 + m
  }

  /** Python's `s.split()`: the maximal runs of non-space characters, in order. */
  function Split(s: string): seq<string>
    decreases |s|
  {
    if s == [] then []
    else if IsSpace(s[0]) then Split(s[1..])
    else
      var n := WordLen(s);
      [s[..n]] + Split(s[n..])
  }

  lemma {:induction false} SplitFieldsAreWords(s: string)
    ensures forall i :: 0 <= i < |Split(s)| ==> |Split(s)[i]| > 0 && NoSpace(Split(s)[i])
    decreases |s|
  {
    if s == [] {
    } else if IsSpace(s[0]) {
      SplitFieldsAreWords(s[1..]);
    } else {
      SplitFieldsAreWords(s[WordLen(s)..]);
    }
  }

  lemma {:induction false} SplitSpaces(w: string, rest: string)
    requires AllSpace(w)
    ensures Split(w + rest) == Split(rest)
    decreases |w|
  {
    if w != [] {
      assert (w + rest)[1..] == w[1..] + rest;
      SplitSpaces(w[1..], rest);
    } else {
      assert w + rest == rest;
    }
  }

  lemma SplitWord(w: string, rest: string)
    requires |w| > 0 && NoSpace(w)
    requires rest == [] || IsSpace(rest[0])
    ensures Split(w + rest) == [w] + Split(rest)
  {
    var s := w + rest;
    WordLenOf(w, rest);
    assert s[..|w|] == w;
    assert s[|w|..] == rest;
  }

  /** A word followed by a blank splits off as the first field. */
  lemma SplitWordBlank(w: string, rest: string)
    requires |w| > 0 && NoSpace(w)
    ensures Split(w + " " + rest) == [w] + Split(rest)
  {
    assert w + " " + rest == w + (" " + rest);
    SplitWord(w, " " + rest);
    SplitSpaces(" ", rest);
  }

  lemma {:induction false} WordLenOf(w: string, rest: string)
    requires NoSpace(w)
    requires rest == [] || IsSpace(rest[0])
    ensures WordLen(w + rest) == |w|
    decreases |w|
  {
    if w == [] {
      assert w + rest == rest;
    } else {
      assert (w + rest)[1..] == w[1..] + rest;
      WordLenOf(w[1..], rest);
    }
  }

  /** Fields joined with one separator character between neighbours. */
  function Join(fields: seq<string>, sep: char): string
  {
    if fields == [] then ""
    else if |fields| == 1 then fields[0]
    else fields[0] + [sep] + Join(fields[1..], sep)
  }

  predicate Words(fields: seq<string>) {
    forall i :: 0 <= i < |fields| ==> |fields[i]| > 0 && NoSpace(fields[i])
  }

  /**
   * Splitting a line made of non-empty space-free fields joined by one
   * whitespace separator, followed by trailing whitespace, gives the fields back.
   */
  lemma {:induction false} SplitJoin(fields: seq<string>, sep: char, tail: string)
    requires Words(fields)
    requires IsSpace(sep)
    requires AllSpace(tail)
    ensures Split(Join(fields, sep) + tail) == fields
    decreases |fields|
  {
    if fields == [] {
      SplitSpaces(tail, "");
      assert tail + "" == tail;
      assert Join(fields, sep) + tail == tail;
    } else if |fields| == 1 {
      SplitSpaces(tail, "");
      assert tail + "" == tail;
      assert Split(tail) == [];
      assert tail == [] || IsSpace(tail[0]);
      SplitWord(fields[0], tail);
    } else {
      var rest := Join(fields[1..], sep);
      var after := [sep] + (rest + tail);
      assert Join(fields, sep) + tail == fields[0] + after;
      SplitWord(fields[0], after);
      SplitSpaces([sep], rest + tail);
      assert Words(fields[1..]);
      SplitJoin(fields[1..], sep, tail);
    }
  }

  /** Appending one more field adds one separator and the field. */
  lemma {:induction false} JoinSnoc(fields: seq<string>, x: string, sep: char)
    requires |fields| > 0
    ensures Join(fields + [x], sep) == Join(fields, sep) + [sep] + x
    decreases |fields|
  {
    if |fields| > 1 {
      assert (fields + [x])[1..] == fields[1..] + [x];
      JoinSnoc(fields[1..], x, sep);
    }
  }

  /** One more tab and field appended to a text that ends in tab-joined fields. */
  method AppendField(ghost h: string, s: string, ghost fields: seq<string>, x: string) returns (r: string)
    requires |fields| > 0 && s == h + Join(fields, '\t')
    ensures r == h + Join(fields + [x], '\t')
  {
    JoinSnoc(fields, x, '\t');
    r := s + "\t" + x;
  }

  /** The decimal texts of a sequence of counters, in order. */
  function NatStrings(s: seq<nat>): (r: seq<string>)
    ensures |r| == |s|
    ensures forall i :: 0 <= i < |s| ==> r[i] == NatToString(s[i])
  {
    if s == [] then [] else [NatToString(s[0])] + NatStrings(s[1..])
  }

  lemma NatStringsSnoc(s: seq<nat>, j: nat)
    requires j < |s|
    ensures NatStrings(s[..j + 1]) == NatStrings(s[..j]) + [NatToString(s[j])]
  {
    var l := NatStrings(s[..j + 1]);
    var r := NatStrings(s[..j]) + [NatToString(s[j])];
    assert |l| == |r|;
    forall k | 0 <= k < |l|
      ensures l[k] == r[k]
    {
      if k < j {
        assert s[..j + 1][k] == s[..j][k];
      }
    }
  }

  /** The decimal texts of a sequence of signed integers, in order. */
  function IntStrings(s: seq<int>): (r: seq<string>)
    ensures |r| == |s|
    ensures forall i :: 0 <= i < |s| ==> r[i] == IntToString(s[i])
  {
    if s == [] then [] else [IntToString(s[0])] + IntStrings(s[1..])
  }

  /** Printed numbers are words: non-empty and free of whitespace. */
  lemma IntStringIsWord(i: int)
    ensures |IntToString(i)| > 0 && NoSpace(IntToString(i))
  {
    var t := IntToString(i);
    forall k | 0 <= k < |t|
      ensures !IsSpace(t[k])
    {
      assert IsDigit(t[k]) || t[k] == '-';
    }
  }

  lemma NatStringIsWord(n: nat)
    ensures |NatToString(n)| > 0 && NoSpace(NatToString(n))
  {
    var t := NatToString(n);
    forall k | 0 <= k < |t|
      ensures !IsSpace(t[k])
    {
      assert IsDigit(t[k]);
    }
  }

  /** No character of s is a newline. */
  predicate NoNewline(s: string) {
    forall k :: 0 <= k < |s| ==> s[k] != '\n'
  }

  /** Fields free of newlines, joined by a separator other than newline, hold no newline. */
  lemma {:induction false} JoinNoNewline(fields: seq<string>, sep: char)
    requires forall i :: 0 <= i < |fields| ==> NoNewline(fields[i])
    requires sep != '\n'
    ensures NoNewline(Join(fields, sep))
    decreases |fields|
  {
    if |fields| > 1 {
      JoinNoNewline(fields[1..], sep);
    }
  }

  /** Words hold no newline, since a newline is whitespace. */
  lemma WordsNoNewline(fields: seq<string>)
    requires Words(fields)
    ensures forall i :: 0 <= i < |fields| ==> NoNewline(fields[i])
  {
    forall i, k | 0 <= i < |fields| && 0 <= k < |fields[i]|
      ensures fields[i][k] != '\n'
    {
      assert !IsSpace(fields[i][k]);
    }
  }

  /** A text made only of '0' and '1' holds neither whitespace nor a newline. */
  lemma BinaryTextIsWord(s: string)
    requires forall k :: 0 <= k < |s| ==> s[k] == '0' || s[k] == '1'
    ensures NoSpace(s) && NoNewline(s)
  {
  }

  /** A text without newlines followed by one newline is a single line. */
  lemma LineOf(s: string)
    requires NoNewline(s)
    ensures IsLine(s + "\n")
  {
  }

  // ----------------------------------------------------- substring search

  /** `pat` occurs in `s` starting at index `k`. */
  predicate OccursAt(s: string, pat: string, k: nat) {
    k + |pat| <= |s| && s[k..k + |pat|] == pat
  }

  lemma OccursShift(s: string, pat: string)
    requires |s| > 0
    ensures forall k: nat :: k >= 1 ==> OccursAt(s, pat, k) == OccursAt(s[1..], pat, k - 1)
  {
    forall k: nat | k >= 1
      ensures OccursAt(s, pat, k) == OccursAt(s[1..], pat, k - 1)
    {
      if k + |pat| <= |s| {
        var a := s[k..k + |pat|];
        var b := s[1..][k - 1..k - 1 + |pat|];
        assert |a| == |b|;
        forall j | 0 <= j < |a| ensures a[j] == b[j] {
          assert a[j] == s[k + j] && b[j] == s[1..][k - 1 + j];
        }
        assert a == b;
      }
    }
  }

  /** Index of the first occurrence of `pat` in `s`. */
  function IndexOf(s: string, pat: string): (r: Option<nat>)
    ensures r.Some? ==> OccursAt(s, pat, r.value)
    ensures r.Some? ==> forall k: nat :: k < r.value ==> !OccursAt(s, pat, k)
    ensures r.None? ==> forall k: nat :: !OccursAt(s, pat, k)
    decreases |s|
  {
    if |s| < |pat| then None
    else if s[..|pat|] == pat then Some(0)
    else
      OccursShift(s, pat);
      assert !OccursAt(s, pat, 0);
      match IndexOf(s[1..], pat)
      case None => None
      case Some(i) =>
        assert OccursAt(s, pat, i + 1);
        Some(i + 1)
  }

  /** `pat in s`, and `re.search(pat, s)` for a pattern with no special characters. */
  predicate Contains(s: string, pat: string) {
    IndexOf(s, pat).Some?
  }

  lemma ContainsAt(s: string, pat: string, k: nat)
    requires OccursAt(s, pat, k)
    ensures Contains(s, pat)
  {
  }

  lemma NotContainsChar(s: string, c: char)
    requires forall k :: 0 <= k < |s| ==> s[k] != c
    ensures !Contains(s, [c])
  {
    forall k: nat | k + 1 <= |s|
      ensures !OccursAt(s, [c], k)
    {
      assert s[k..k + 1][0] == s[k];
    }
  }

  /** Python's `s.split(sep)` for a non-empty separator: never empty, pieces in order. */
  function SplitSep(s: string, sep: string): (r: seq<string>)
    requires |sep| > 0
    ensures |r| >= 1
    decreases |s|
  {
    match IndexOf(s, sep)
    case None => [s]
    case Some(i) => [s[..i]] + SplitSep(s[i + |sep|..], sep)
  }

  lemma {:induction false} SplitSepNoSep(s: string, sep: string)
    requires |sep| > 0 && !Contains(s, sep)
    ensures SplitSep(s, sep) == [s]
  {
  }

  /** Python's `s.split(sep)` with `sep` occurring nowhere in `a`: the first piece is `a`. */
  lemma SplitSepFirst(a: string, sep: string, b: string)
    requires |sep| > 0 && !Contains(a + sep[..|sep| - 1], sep)
    ensures SplitSep(a + sep + b, sep) == [a] + SplitSep(b, sep)
  {
    var s := a + sep + b;
    var a' := a + sep[..|sep| - 1];
    assert s[|a|..|a| + |sep|] == sep;
    assert OccursAt(s, sep, |a|);
    forall k: nat | k < |a|
      ensures !OccursAt(s, sep, k)
    {
      assert !OccursAt(a', sep, k);
      if k + |sep| <= |a'| {
        assert a'[k..k + |sep|] == s[k..k + |sep|];
      }
    }
    var i := IndexOf(s, sep).value;
    assert i == |a|;
    assert s[..i] == a;
    assert s[i + |sep|..] == b;
  }

  // ------------------------------------------------------------- numbers

  function DigitChar(d: nat): char
    requires d < 10
  {
    ('0' as int + d) as char
  }

  predicate IsDigit(c: char) {
    '0' <= c <= '9'
  }

  function DigitValue(c: char): nat
    requires IsDigit(c)
  {
    (c as int - '0' as int) as nat
  }

  /** Decimal digits of `n` without leading zeros, as `std::to_string` prints an unsigned value. */
  function NatToString(n: nat): (s: string)
    ensures |s| > 0
    ensures forall k :: 0 <= k < |s| ==> IsDigit(s[k])
  {
    if n < 10 then [DigitChar(n)] else NatToString(n / 10) + [DigitChar(n % 10)]
  }

  /** `std::to_string` of a signed integer. */
  function IntToString(i: int): (s: string)
    ensures |s| > 0
    ensures forall k :: 0 <= k < |s| ==> IsDigit(s[k]) || s[k] == '-'
  {
    if i < 0 then "-" + NatToString(-i) else NatToString(i)
  }

  /** The value of a string of decimal digits, most significant first. */
  function DigitsValue(s: string): nat
    requires forall k :: 0 <= k < |s| ==> IsDigit(s[k])
  {
    if s == [] then 0 else 10 * DigitsValue(s[..|s| - 1]) + DigitValue(s[|s| - 1])
  }

  lemma {:induction false} DigitsValueOfNatToString(n: nat)
    ensures DigitsValue(NatToString(n)) == n
  {
    if n >= 10 {
      var s := NatToString(n / 10) + [DigitChar(n % 10)];
      assert s[..|s| - 1] == NatToString(n / 10);
      DigitsValueOfNatToString(n / 10);
    }
  }

  /** Python's `s.lstrip()`: leading whitespace removed. */
  function StripLeft(s: string): string {
    if s != [] && IsSpace(s[0]) then StripLeft(s[1..]) else s
  }

  /** Python's `s.rstrip()`: trailing whitespace removed. */
  function StripRight(s: string): string {
    if s != [] && IsSpace(s[|s| - 1]) then StripRight(s[..|s| - 1]) else s
  }

  /** Python's `s.strip()`. */
  function Strip(s: string): string {
    StripRight(StripLeft(s))
  }

  predicate AllDigits(s: string) {
    forall k :: 0 <= k < |s| ==> IsDigit(s[k])
  }

  /**
   * Python's `int(s)` on a string: surrounding whitespace is ignored, then an
   * optional sign and at least one decimal digit; anything else is a ValueError
   * (`None`).
   */
  function ParseInt(s: string): (r: Option<int>)
  {
    ParseSignedDigits(Strip(s))
  }

  /** An optional sign followed by at least one digit, and nothing else. */
  function ParseSignedDigits(t: string): Option<int>
  {
    if |t| > 0 && (t[0] == '-' || t[0] == '+') then
      var ds := t[1..];
      if |ds| > 0 && AllDigits(ds) then
        Some(if t[0] == '-' then -(DigitsValue(ds) as int) else DigitsValue(ds))
      else None
    else if |t| > 0 && AllDigits(t) then Some(DigitsValue(t))
    else None
  }

  lemma ParseSignedDigitsOfNatToString(n: nat)
    ensures ParseSignedDigits(NatToString(n)) == Some(n)
  {
    var t := NatToString(n);
    assert IsDigit(t[0]);
    assert AllDigits(t);
    DigitsValueOfNatToString(n);
  }

  lemma ParseNegative(ds: string)
    requires |ds| > 0 && AllDigits(ds)
    ensures ParseSignedDigits("-" + ds) == Some(-(DigitsValue(ds) as int))
  {
    assert ("-" + ds)[1..] == ds;
  }

  lemma ParseSignedDigitsOfIntToString(i: int)
    ensures ParseSignedDigits(IntToString(i)) == Some(i)
  {
    if i < 0 {
      var ds := NatToString(-i);
      assert AllDigits(ds);
      DigitsValueOfNatToString(-i);
      ParseNegative(ds);
    } else {
      ParseSignedDigitsOfNatToString(i);
    }
  }

  lemma StripNoSpaceEnds(s: string)
    requires |s| > 0 && !IsSpace(s[0]) && !IsSpace(s[|s| - 1])
    ensures Strip(s) == s
  {
  }

  lemma StripPadded(pre: string, s: string, post: string)
    requires AllSpace(pre) && AllSpace(post)
    requires |s| > 0 && !IsSpace(s[0]) && !IsSpace(s[|s| - 1])
    ensures Strip(pre + s + post) == s
  {
    var t := pre + s + post;
    var body := s + post;
    assert body[0] == s[0];
    assert t == pre + body;
    StripLeftPadded(pre, body);
    assert StripLeft(t) == body;
    StripRightPadded(s, post);
  }

  lemma {:induction false} StripLeftPadded(pre: string, s: string)
    requires AllSpace(pre) && |s| > 0 && !IsSpace(s[0])
    ensures StripLeft(pre + s) == s
    decreases |pre|
  {
    if pre != [] {
      var t := pre + s;
      assert IsSpace(t[0]);
      assert t[1..] == pre[1..] + s;
      StripLeftPadded(pre[1..], s);
    } else {
      assert pre + s == s;
    }
  }

  lemma {:induction false} StripRightPadded(s: string, post: string)
    requires AllSpace(post) && |s| > 0 && !IsSpace(s[|s| - 1])
    ensures StripRight(s + post) == s
    decreases |post|
  {
    if post != [] {
      assert (s + post)[..|s + post| - 1] == s + post[..|post| - 1];
      StripRightPadded(s, post[..|post| - 1]);
    } else {
      assert s + post == s;
    }
  }

  /** Python's `int()` reads back what `std::to_string` printed, even with surrounding whitespace. */
  lemma ParseIntOfIntToString(i: int, pre: string, post: string)
    requires AllSpace(pre) && AllSpace(post)
    ensures ParseInt(pre + IntToString(i) + post) == Some(i)
  {
    var s := IntToString(i);
    assert !IsSpace(s[0]) && !IsSpace(s[|s| - 1]);
    StripPadded(pre, s, post);
    ParseSignedDigitsOfIntToString(i);
  }

  lemma ParseIntOfIntString(i: int)
    ensures ParseInt(IntToString(i)) == Some(i)
  {
    var t := IntToString(i);
    assert !IsSpace(t[0]) && !IsSpace(t[|t| - 1]);
    StripNoSpaceEnds(t);
    ParseSignedDigitsOfIntToString(i);
  }

  lemma ParseIntOfNatToString(n: nat)
    ensures ParseInt(NatToString(n)) == Some(n)
  {
    var t := NatToString(n);
    assert !IsSpace(t[0]) && !IsSpace(t[|t| - 1]);
    StripNoSpaceEnds(t);
    ParseSignedDigitsOfNatToString(n);
  }

  // --------------------------------------------------------------- lines

  /** A text cut into lines, each keeping its "\n"; a last line without one is kept too. */
  function Lines(s: string): (r: seq<string>)
    decreases |s|
  {
    if s == [] then []
    else
      match IndexOf(s, "\n")
      case None => [s]
      case Some(i) => [s[..i + 1]] + Lines(s[i + 1..])
  }

  predicate IsLine(l: string) {
    |l| > 0 && l[|l| - 1] == '\n' && forall k :: 0 <= k < |l| - 1 ==> l[k] != '\n'
  }

  lemma LinesOfLine(l: string, rest: string)
    requires IsLine(l)
    ensures Lines(l + rest) == [l] + Lines(rest)
  {
    var s := l + rest;
    var p := |l| - 1;
    assert s[p..p + 1] == "\n";
    assert OccursAt(s, "\n", p);
    forall k: nat | k < p
      ensures !OccursAt(s, "\n", k)
    {
      assert s[k..k + 1][0] == l[k];
    }
    var i := IndexOf(s, "\n").value;
    assert i == p;
    assert s[..i + 1] == l;
    assert s[i + 1..] == rest;
  }

  /** Two complete lines read back as exactly those two lines. */
  lemma TwoLines(a: string, b: string)
    requires IsLine(a) && IsLine(b)
    ensures Lines(a + b) == [a, b]
  {
    LinesOfLine(a, b);
    LinesOfLine(b, "");
    assert b + "" == b;
  }

  /** Concatenation of the strings of a sequence. */
  function Concat(ss: seq<string>): string {
    if ss == [] then "" else ss[0] + Concat(ss[1..])
  }

  lemma {:induction false} ConcatAppend(a: seq<string>, b: seq<string>)
    ensures Concat(a + b) == Concat(a) + Concat(b)
    decreases |a|
  {
    if a == [] {
      assert a + b == b;
    } else {
      assert (a + b)[1..] == a[1..] + b;
      ConcatAppend(a[1..], b);
    }
  }

  /** Every entry is a complete line. */
  predicate AllLines(ls: seq<string>) {
    forall i :: 0 <= i < |ls| ==> IsLine(ls[i])
  }

  lemma AllLinesAppend(a: seq<string>, b: seq<string>)
    requires AllLines(a) && AllLines(b)
    ensures AllLines(a + b)
  {
    forall i | 0 <= i < |a + b|
      ensures IsLine((a + b)[i])
    {
      if i >= |a| {
        assert (a + b)[i] == b[i - |a|];
      }
    }
  }

  /** A text written as a sequence of complete lines reads back as exactly those lines. */
  lemma {:induction false} LinesOfConcat(ls: seq<string>)
    requires AllLines(ls)
    ensures Lines(Concat(ls)) == ls
    decreases |ls|
  {
    if ls != [] {
      LinesOfLine(ls[0], Concat(ls[1..]));
      assert AllLines(ls[1..]);
      LinesOfConcat(ls[1..]);
    }
  }

  lemma ConcatSnoc(ls: seq<string>, x: string)
    ensures Concat(ls + [x]) == Concat(ls) + x
  {
    ConcatAppend(ls, [x]);
    assert Concat([x]) == x + Concat([]);
  }

  /** A head line followed by two runs of lines reads back as those lines. */
  lemma LinesOfParts(hd: string, l1: seq<string>, l2: seq<string>)
    requires IsLine(hd) && AllLines(l1) && AllLines(l2)
    ensures Lines(hd + Concat(l1) + Concat(l2)) == [hd] + l1 + l2
  {
    ConcatParts(hd, l1, l2);
    AllLinesAppend([hd], l1);
    AllLinesAppend([hd] + l1, l2);
    LinesOfConcat([hd] + l1 + l2);
  }

  lemma ConcatParts(hd: string, l1: seq<string>, l2: seq<string>)
    ensures Concat([hd] + l1 + l2) == hd + Concat(l1) + Concat(l2)
  {
    ConcatAppend([hd] + l1, l2);
    ConcatAppend([hd], l1);
    assert Concat([hd]) == hd + Concat([]);
  }

  lemma PrefixSnoc<T>(s: seq<T>, i: nat)
    requires i < |s|
    ensures s[..i + 1] == s[..i] + [s[i]]
  {
  }

  /** Appending the next line of `all` to a text holding its first i lines. */
  lemma ConcatStep(s0: string, all: seq<string>, i: nat, s: string, line: string)
    requires i < |all| && s == s0 + Concat(all[..i]) && line == all[i]
    ensures s + line == s0 + Concat(all[..i + 1])
  {
    PrefixSnoc(all, i);
    ConcatSnoc(all[..i], line);
  }

  /** A blank, words joined by blanks, and a newline: one line that splits back into the words. */
  lemma BlankJoinedLine(w: seq<string>)
    requires Words(w)
    ensures IsLine(" " + Join(w, ' ') + "\n")
    ensures Split(" " + Join(w, ' ') + "\n") == w
  {
    var j := Join(w, ' ');
    assert " " + j + "\n" == " " + (j + "\n");
    SplitSpaces(" ", j + "\n");
    SplitJoin(w, ' ', "\n");
    WordsNoNewline(w);
    JoinNoNewline(w, ' ');
    assert NoNewline(" " + j);
    LineOf(" " + j);
  }

  // ------------------------------------------------------ absent characters

  /** No character of s is c. */
  predicate Avoids(s: string, c: char) {
    forall k :: 0 <= k < |s| ==> s[k] != c
  }

  /** Fields that avoid c, joined by a separator other than c, avoid c. */
  lemma {:induction false} JoinAvoids(fields: seq<string>, sep: char, c: char)
    requires forall i :: 0 <= i < |fields| ==> Avoids(fields[i], c)
    requires sep != c
    ensures Avoids(Join(fields, sep), c)
    decreases |fields|
  {
    if |fields| > 1 {
      JoinAvoids(fields[1..], sep, c);
    }
  }

  /** A pattern whose first character never occurs in s does not occur in s. */
  lemma NotContainsFirst(s: string, pat: string)
    requires |pat| > 0 && Avoids(s, pat[0])
    ensures !Contains(s, pat)
  {
    forall k: nat | k + |pat| <= |s|
      ensures !OccursAt(s, pat, k)
    {
      assert s[k..k + |pat|][0] == s[k];
    }
  }

  /** Printed numbers hold only digits and '-'. */
  lemma IntStringAvoids(i: int, c: char)
    requires !IsDigit(c) && c != '-'
    ensures Avoids(IntToString(i), c)
  {
  }

  lemma NatStringAvoids(n: nat, c: char)
    requires !IsDigit(c)
    ensures Avoids(NatToString(n), c)
  {
  }

  /** `list(map(int, words))`: every word as an integer, or `None` as soon as one is not. */
  function ParseAll(ws: seq<string>): (r: Option<seq<int>>)
    ensures r.Some? <==> forall i :: 0 <= i < |ws| ==> ParseInt(ws[i]).Some?
    ensures r.Some? ==> |r.value| == |ws| && forall i :: 0 <= i < |ws| ==> r.value[i] == ParseInt(ws[i]).value
  {
    if ws == [] then Some([])
    else match (ParseInt(ws[0]), ParseAll(ws[1..]))
      case (Some(x), Some(rest)) => Some([x] + rest)
      case _ => None
  }

  lemma {:induction false} ParseAllReadBack(xs: seq<int>)
    ensures ParseAll(IntStrings(xs)) == Some(xs)
  {
    if xs != [] {
      var ws := IntStrings(xs);
      ParseIntOfIntString(xs[0]);
      ParseAllReadBack(xs[1..]);
      assert ws[1..] == IntStrings(xs[1..]);
      assert ws[0] == IntToString(xs[0]);
      assert ParseAll(ws) == Some([xs[0]] + xs[1..]);
      assert [xs[0]] + xs[1..] == xs;
    }
  }

  /** Reading one more word: the list grows by its value, or the whole read fails. */
  lemma ParseAllSnoc(ws: seq<string>, w: string)
    ensures ParseAll(ws + [w]).Some? <==> ParseAll(ws).Some? && ParseInt(w).Some?
    ensures ParseAll(ws + [w]).Some? ==> ParseAll(ws + [w]).value == ParseAll(ws).value + [ParseInt(w).value]
  {
    var s := ws + [w];
    assert forall i :: 0 <= i < |ws| ==> s[i] == ws[i];
    assert s[|ws|] == w;
  }
}
