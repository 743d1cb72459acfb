/**
 * The separator-delimited field splitter `getValue` (src/Watchy.cpp:30-44),
 * of which `WatchyRTC::_getValue` (src/WatchyRTC.cpp:190-204) is a
 * character-for-character copy.  It is used to pick the fields of a
 * "YYYY:MM:DD:hh:mm:ss" date string.
 *
 * The splitter has one quirk that the specification below makes explicit:
 * the last character of the string always closes the last field, so a
 * separator in that position stays inside the last field ("a,b," splits into
 * "a" and "b,").
 */
module Fields {

  /** Standard split of `s[..n]`: every separator ends a field; always at least one field. */
  function Split(s: string, n: nat, sep: char): (fs: seq<string>)
    requires n <= |s|
    ensures |fs| >= 1
  {
    if n == 0 then [[]]
    else
      var fs := Split(s, n - 1, sep);
      if s[n - 1] == sep then fs + [[]] else WithLast(fs, fs[|fs| - 1] + [s[n - 1]])
  }

  /**
   * The fields `getValue` sees in `data`: the standard split of all but the
   * last character, with the last character appended to the last field.
   * An empty string has no fields at all.
   */
  function Fields(data: string, sep: char): seq<string>
  {
    if data == [] then []
    else
      var fs := Split(data, |data| - 1, sep);
      WithLast(fs, fs[|fs| - 1] + [data[|data| - 1]])
  }

  /** The fields joined back together with the separator between them. */
  function Join(fs: seq<string>, sep: char): string
    requires |fs| >= 1
    decreases |fs|
  {
    if |fs| == 1 then fs[0] else Join(fs[..|fs| - 1], sep) + [sep] + fs[|fs| - 1]
  }

  /**
   * Arduino's `String::substring(left, right)`: both bounds are unsigned
   * (a negative argument wraps to a large value), they are swapped when
   * `left > right`, `left` at or past the end gives "", and `right` is
   * clamped to the length.
   */
  function Substring(s: string, left: int, right: int): string
  {
    var l := left % 0x1_0000_0000;
    var r := right % 0x1_0000_0000;
    var (lo, hi) := if l > r then (r, l) else (l, r);
    if lo >= |s| then [] else s[lo..if hi > |s| then |s| else hi]
  }

  /** What `getValue(data, sep, index)` returns. */
  function FieldAt(data: string, sep: char, index: int): string
  {
    var fs := Fields(data, sep);
    if index < 0 then data
    else if index < |fs| then fs[index]
    else []
  }

  /** Replacing the last element of a non-empty list. */
  function WithLast<T>(w: seq<T>, e: T): (r: seq<T>)
    requires |w| >= 1
    ensures |r| == |w| && r[|w| - 1] == e
    ensures forall k :: 0 <= k < |w| - 1 ==> r[k] == w[k]
  {
    w[..|w| - 1] + [e]
  }

  // ---------------------------------------------------------------------
  // Facts about Split used by the loop proof and the round trip.

  lemma {:induction false} WithLastTwice<T>(w: seq<T>, e1: T, e2: T)
    requires |w| >= 1
    ensures WithLast(WithLast(w, e1), e2) == WithLast(w, e2)
  {
  }

  lemma {:induction false} WithLastAppend<T>(w: seq<T>, x: T, e: T)
    ensures WithLast(w + [x], e) == w + [e]
  {
    assert (w + [x])[..|w|] == w;
  }

  lemma {:induction false} WithLastSame<T>(w: seq<T>)
    requires |w| >= 1
    ensures WithLast(w, w[|w| - 1]) == w
  {
  }

  /** The split of a prefix depends only on the characters of that prefix. */
  lemma {:induction false} SplitPrefix(s: string, t: string, n: nat, sep: char)
    requires n <= |s| && n <= |t|
    requires forall k :: 0 <= k < n ==> s[k] == t[k]
    ensures Split(s, n, sep) == Split(t, n, sep)
  {
    if n > 0 {
      SplitPrefix(s, t, n - 1, sep);
    }
  }

  /** A run without separators extends the last field and nothing else. */
  lemma {:induction false} SplitNoSep(s: string, m: nat, n: nat, sep: char)
    requires m <= n <= |s|
    requires forall k :: m <= k < n ==> s[k] != sep
    ensures var f := Split(s, m, sep);
            Split(s, n, sep) == WithLast(f, f[|f| - 1] + s[m..n])
    decreases n
  {
    if n == m {
      SplitNoSepEmpty(s, m, sep);
    } else {
      SplitNoSep(s, m, n - 1, sep);
      SplitNoSepStep(s, m, n, sep);
    }
  }

  lemma {:induction false} SplitNoSepEmpty(s: string, m: nat, sep: char)
    requires m <= |s|
    ensures var f := Split(s, m, sep);
            Split(s, m, sep) == WithLast(f, f[|f| - 1] + s[m..m])
  {
    var f := Split(s, m, sep);
    assert f[|f| - 1] + s[m..m] == f[|f| - 1];
    WithLastSame(f);
  }

  lemma {:induction false} SplitNoSepStep(s: string, m: nat, n: nat, sep: char)
    requires m < n <= |s| && s[n - 1] != sep
    requires var f := Split(s, m, sep);
             Split(s, n - 1, sep) == WithLast(f, f[|f| - 1] + s[m..n - 1])
    ensures var f := Split(s, m, sep);
            Split(s, n, sep) == WithLast(f, f[|f| - 1] + s[m..n])
  {
    var f := Split(s, m, sep);
    var before := f[|f| - 1] + s[m..n - 1];
    var after := before + [s[n - 1]];
    SplitSnocOther(s, n, sep);
    WithLastTwice(f, before, after);
    SliceSnoc(f[|f| - 1], s, m, n);
  }

  lemma {:induction false} SplitSnocOther(s: string, n: nat, sep: char)
    requires 0 < n <= |s| && s[n - 1] != sep
    ensures var g := Split(s, n - 1, sep);
            Split(s, n, sep) == WithLast(g, g[|g| - 1] + [s[n - 1]])
  {
  }

  lemma {:induction false} SliceSnoc(x: string, s: string, m: nat, n: nat)
    requires m < n <= |s|
    ensures x + s[m..n - 1] + [s[n - 1]] == x + s[m..n]
  {
    assert s[m..n] == s[m..n - 1] + [s[n - 1]];
  }

  /** `fn` keeps the length and every completed field of `fi`. */
  ghost predicate Extends(fn: seq<string>, fi: seq<string>)
  {
    ExtendsCore(fn, fi)
  }

  ghost predicate ExtendsCore(fn: seq<string>, fi: seq<string>)
  {
    |fn| >= |fi| && forall k :: 0 <= k < |fi| - 1 ==> fn[k] == fi[k]
  }

  lemma {:induction false} ExtendsTrans(a: seq<string>, b: seq<string>, c: seq<string>)
    requires Extends(a, b) && Extends(b, c)
    ensures Extends(a, c)
  {
  }

  lemma {:induction false} SplitExtendsStep(s: string, n: nat, sep: char)
    requires 0 < n <= |s|
    ensures Extends(Split(s, n, sep), Split(s, n - 1, sep))
  {
  }

  /** Completed fields of a shorter prefix stay completed in a longer one. */
  lemma {:induction false} SplitMono(s: string, i: nat, n: nat, sep: char)
    requires i <= n <= |s|
    ensures Extends(Split(s, n, sep), Split(s, i, sep))
    decreases n
  {
    if n > i {
      SplitMono(s, i, n - 1, sep);
      SplitExtendsStep(s, n, sep);
      ExtendsTrans(Split(s, n, sep), Split(s, n - 1, sep), Split(s, i, sep));
    }
  }

  /** Splitting a joined list gives the list back when no field holds the separator. */
  lemma {:induction false} SplitJoin(fs: seq<string>, sep: char)
    requires |fs| >= 1
    requires forall k :: 0 <= k < |fs| ==> sep !in fs[k]
    ensures var j := Join(fs, sep); Split(j, |j|, sep) == fs
    decreases |fs|
  {
    if |fs| == 1 {
      SplitSingle(fs[0], sep);
    } else {
      var init := fs[..|fs| - 1];
      assert forall k :: 0 <= k < |init| ==> init[k] == fs[k];
      SplitJoin(init, sep);
      SplitAppendField(Join(init, sep), init, fs[|fs| - 1], sep);
      assert init + [fs[|fs| - 1]] == fs;
    }
  }

  /** A separator-free string is a single field. */
  lemma {:induction false} SplitSingle(x: string, sep: char)
    requires sep !in x
    ensures Split(x, |x|, sep) == [x]
  {
    forall k | 0 <= k < |x|
      ensures x[k] != sep
    {
      assert x[k] in x;
    }
    SplitNoSep(x, 0, |x|, sep);
    assert [] + x[0..|x|] == x;
    assert WithLast([[]], x) == [x];
  }

  /** A separator and a separator-free field after a string whose split is known. */
  lemma {:induction false} SplitAppendField(p: string, fp: seq<string>, last: string, sep: char)
    requires Split(p, |p|, sep) == fp
    requires sep !in last
    ensures var j := p + [sep] + last; Split(j, |j|, sep) == fp + [last]
  {
    var j := p + [sep] + last;
    SplitAfterSeparator(p, fp, last, sep);
    AppendedNoSep(p, last, sep);
    SplitNoSep(j, |p| + 1, |j|, sep);
    assert [] + last == last;
    WithLastAppend(fp, [], last);
  }

  lemma {:induction false} SplitAfterSeparator(p: string, fp: seq<string>, last: string, sep: char)
    requires Split(p, |p|, sep) == fp
    ensures var j := p + [sep] + last; Split(j, |p| + 1, sep) == fp + [[]]
  {
    var j := p + [sep] + last;
    assert forall k :: 0 <= k < |p| ==> j[k] == p[k];
    SplitPrefix(j, p, |p|, sep);
    assert j[|p|] == sep;
  }

  lemma {:induction false} AppendedNoSep(p: string, last: string, sep: char)
    requires sep !in last
    ensures var j := p + [sep] + last;
            && j[|p| + 1..|j|] == last
            && forall k :: |p| + 1 <= k < |j| ==> j[k] != sep
  {
    var j := p + [sep] + last;
    assert j[|p| + 1..|j|] == last;
    forall k | |p| + 1 <= k < |j|
      ensures j[k] != sep
    {
      assert j[k] == last[k - |p| - 1];
    }
  }

  lemma {:induction false} JoinLastChar(fs: seq<string>, sep: char)
    requires |fs| >= 1 && fs[|fs| - 1] != []
    ensures var j := Join(fs, sep); var last := fs[|fs| - 1];
            |j| >= 1 && j[|j| - 1] == last[|last| - 1]
  {
  }

  /** When the last character is not a separator, `getValue` sees the standard split. */
  lemma {:induction false} FieldsSplit(data: string, sep: char)
    requires data != [] && data[|data| - 1] != sep
    ensures Fields(data, sep) == Split(data, |data|, sep)
  {
  }

  /**
   * Round trip of the splitter: the fields of a joined list are the list,
   * provided no field contains the separator and the last field is not empty
   * (otherwise the joined string ends in the separator, which then stays
   * inside the previous field).
   */
  lemma {:induction false} FieldsOfJoin(fs: seq<string>, sep: char)
    requires |fs| >= 1
    requires forall k :: 0 <= k < |fs| ==> sep !in fs[k]
    requires fs[|fs| - 1] != []
    ensures Fields(Join(fs, sep), sep) == fs
    ensures forall i :: 0 <= i < |fs| ==> FieldAt(Join(fs, sep), sep, i) == fs[i]
    ensures forall i :: i >= |fs| ==> FieldAt(Join(fs, sep), sep, i) == []
  {
    var j := Join(fs, sep);
    var last := fs[|fs| - 1];
    JoinLastChar(fs, sep);
    assert last[|last| - 1] in last;
    FieldsSplit(j, sep);
    SplitJoin(fs, sep);
  }

  /** The empty string has no field: every non-negative index yields "". */
  lemma {:induction false} EmptyHasNoFields(sep: char, index: int)
    requires index >= 0
    ensures FieldAt([], sep, index) == []
  {
  }

  /** A trailing separator stays inside the last field. */
  lemma {:induction false} TrailingSeparatorStays()
    ensures Fields("a,b,", ',') == ["a", "b,"]
  {
    var s := "a,b,";
    var fs := Fields(s, ',');
    SplitOfExample();
    LastStartOfExample();
    LastOfFields(s, ',');
    assert fs[1] == s[2..4] == "b,";
  }

  lemma {:induction false} SplitOfExample()
    ensures Split("a,b,", 3, ',') == ["a", "b"]
  {
    assert ["a", "b"][..1] == ["a"];
    assert Join(["a", "b"], ',') == "a,b";
    SplitJoin(["a", "b"], ',');
    SplitPrefix("a,b,", "a,b", 3, ',');
  }

  lemma {:induction false} LastStartOfExample()
    ensures LastStart("a,b,", 3, ',') == 2
  {
  }

  // ---------------------------------------------------------------------
  // The loop.

  /** The variables `found`, `start` and `end` of the `getValue` loop. */
  datatype ScanState = ScanState(found: int, start: int, end: int)

  /**
   * The loop state after `i` iterations, by recursion on `i`: a separator or
   * the last character completes a field whose bounds are remembered.
   */
  function Scan(data: string, sep: char, i: nat): ScanState
    requires i <= |data|
  {
    if i == 0 then ScanState(0, 0, -1)
    else
      var st := Scan(data, sep, i - 1);
      var j := i - 1;
      if data[j] == sep || j == |data| - 1 then
        ScanState(st.found + 1, st.end + 1, if j == |data| - 1 then j + 1 else j)
      else st
  }

  /** Where the last field of `s[..n]` starts: just after the last separator, or at 0. */
  function LastStart(s: string, n: nat, sep: char): (p: nat)
    requires n <= |s|
    ensures p <= n
  {
    if n == 0 then 0 else if s[n - 1] == sep then n else LastStart(s, n - 1, sep)
  }

  /** The last field of the split of `s[..n]` is the text after the last separator. */
  lemma {:induction false} LastField(s: string, n: nat, sep: char)
    requires n <= |s|
    ensures var f := Split(s, n, sep); f[|f| - 1] == s[LastStart(s, n, sep)..n]
    decreases n
  {
    if n > 0 && s[n - 1] != sep {
      LastField(s, n - 1, sep);
      var p := LastStart(s, n - 1, sep);
      assert s[p..n] == s[p..n - 1] + [s[n - 1]];
    }
  }

  /** A separator at position `e` completes the field that runs from `LastStart` up to it. */
  lemma {:induction false} FieldBeforeSep(s: string, e: nat, sep: char)
    requires e < |s| && s[e] == sep
    ensures var f := Split(s, e + 1, sep);
            |f| == |Split(s, e, sep)| + 1 && f[|f| - 2] == s[LastStart(s, e, sep)..e]
  {
    LastField(s, e, sep);
  }

  /** The last field `getValue` sees ends with the last character. */
  lemma {:induction false} LastOfFields(data: string, sep: char)
    requires data != []
    ensures var fs := Fields(data, sep); var n := |data|;
            |fs| == |Split(data, n - 1, sep)| && fs[|fs| - 1] == data[LastStart(data, n - 1, sep)..n]
  {
    var n := |data|;
    var p := LastStart(data, n - 1, sep);
    LastField(data, n - 1, sep);
    assert data[p..n] == data[p..n - 1] + [data[n - 1]];
  }

  /** The loop counts the completed fields and remembers where the field in progress starts. */
  lemma {:induction false} ScanCounts(data: string, sep: char, i: nat)
    requires i < |data|
    ensures var st := Scan(data, sep, i);
            st.found == |Split(data, i, sep)| - 1 && st.end + 1 == LastStart(data, i, sep)
    decreases i
  {
    if i > 0 {
      ScanCounts(data, sep, i - 1);
      if data[i - 1] == sep {
        ScanAfterSep(data, sep, i);
      } else {
        ScanAfterOther(data, sep, i);
      }
    }
  }

  /** The remembered field is the one the last separator seen completed. */
  lemma {:induction false} ScanPrevious(data: string, sep: char, i: nat)
    requires i < |data|
    ensures var st := Scan(data, sep, i);
            if st.found == 0 then st.start == 0 && st.end == -1
            else && 0 <= st.end < i && data[st.end] == sep
                 && st.start == LastStart(data, st.end, sep)
                 && |Split(data, st.end, sep)| == st.found
    decreases i
  {
    if i > 0 {
      if data[i - 1] == sep {
        ScanCounts(data, sep, i - 1);
        ScanAfterSep(data, sep, i);
      } else {
        ScanPrevious(data, sep, i - 1);
        ScanAfterOther(data, sep, i);
      }
    }
  }

  lemma {:induction false} ScanAfterSep(data: string, sep: char, i: nat)
    requires 0 < i < |data| && data[i - 1] == sep
    ensures var st := Scan(data, sep, i - 1);
            var st' := Scan(data, sep, i);
            st'.found == st.found + 1 && st'.start == st.end + 1 && st'.end == i - 1
  {
  }

  lemma {:induction false} ScanAfterOther(data: string, sep: char, i: nat)
    requires 0 < i < |data| && data[i - 1] != sep
    ensures Scan(data, sep, i) == Scan(data, sep, i - 1)
  {
  }

  lemma {:induction false} ScanAfterLast(data: string, sep: char)
    requires data != []
    ensures var st := Scan(data, sep, |data| - 1);
            var st' := Scan(data, sep, |data|);
            st'.found == st.found + 1 && st'.start == st.end + 1 && st'.end == |data|
  {
  }

  /**
   * `getValue`: scans the characters, counting field ends (a separator, or
   * the last character) in `found` and remembering the bounds of the last
   * completed field in `start`/`end`, until the requested field is complete.
   */
  method GetValue(data: string, separator: char, index: int) returns (r: string)
    requires |data| < 0x8000_0000  // the loop indexes the string with a signed 32-bit int
    ensures r == FieldAt(data, separator, index)
  {
    var found := 0;
    var start, end := 0, -1;
    var maxIndex := |data| - 1;
    var i := 0;
    while i <= maxIndex && found <= index
      invariant 0 <= i <= |data|
      invariant ScanState(found, start, end) == Scan(data, separator, i)
      invariant index >= 0 ==> found <= index + 1
      invariant index < 0 ==> i == 0
    {
      if data[i] == separator || i == maxIndex {
        found := found + 1;
        start := end + 1;
        end := if i == maxIndex then i + 1 else i;
      }
      i := i + 1;
    }
    ScanResult(data, separator, index, i);
    r := if found > index then Substring(data, start, end) else "";
  }

  /** What the loop state means once the loop has stopped. */
  lemma {:induction false} ScanResult(data: string, sep: char, index: int, i: nat)
    requires |data| < 0x8000_0000 && i <= |data|
    requires index >= 0 ==> Scan(data, sep, i).found <= index + 1
    requires index < 0 ==> i == 0
    requires !(i <= |data| - 1 && Scan(data, sep, i).found <= index)
    ensures var st := Scan(data, sep, i);
            if st.found > index then Substring(data, st.start, st.end) == FieldAt(data, sep, index)
            else FieldAt(data, sep, index) == []
  {
    if index < 0 {
      SubstringWhole(data);
    } else if i < |data| {
      ResultEarly(data, sep, index, i);
    } else if data != [] {
      ResultAtEnd(data, sep, index);
    }
  }

  /** The loop stopped before the end: the requested field was completed. */
  lemma {:induction false} ResultEarly(data: string, sep: char, index: nat, i: nat)
    requires |data| < 0x8000_0000 && i < |data|
    requires Scan(data, sep, i).found == index + 1
    ensures var st := Scan(data, sep, i);
            Substring(data, st.start, st.end) == FieldAt(data, sep, index)
  {
    var st := Scan(data, sep, i);
    ScanPrevious(data, sep, i);
    FieldBeforeSep(data, st.end, sep);
    FieldStaysFrom(data, sep, st.end + 1, i, index);
    SubstringSlice(data, st.start, st.end);
  }

  /** A field completed at `m` is still field `k` of every longer prefix and of the whole string. */
  lemma {:induction false} FieldStaysFrom(data: string, sep: char, m: nat, i: nat, k: nat)
    requires m <= i < |data| && k < |Split(data, m, sep)| - 1
    ensures k < |Fields(data, sep)| && Fields(data, sep)[k] == Split(data, m, sep)[k]
  {
    SplitMono(data, m, i, sep);
    SplitStable(data, i, sep);
  }

  /** The loop ran to the end: the last field was completed, or there are too few. */
  lemma {:induction false} ResultAtEnd(data: string, sep: char, index: nat)
    requires |data| < 0x8000_0000 && data != []
    requires Scan(data, sep, |data|).found <= index + 1
    ensures var st := Scan(data, sep, |data|);
            if st.found > index then Substring(data, st.start, st.end) == FieldAt(data, sep, index)
            else FieldAt(data, sep, index) == []
  {
    var st := Scan(data, sep, |data|);
    ScanAfterLast(data, sep);
    ScanCounts(data, sep, |data| - 1);
    LastOfFields(data, sep);
    if st.found > index {
      SubstringSlice(data, st.start, st.end);
    }
  }

  lemma {:induction false} SubstringWhole(data: string)
    requires |data| < 0x8000_0000
    ensures Substring(data, 0, -1) == data
  {
    assert -1 % 0x1_0000_0000 == 0xffff_ffff;
    assert data[0..|data|] == data;
  }

  lemma {:induction false} SubstringSlice(data: string, start: int, end: int)
    requires 0 <= start <= end <= |data| < 0x8000_0000
    ensures Substring(data, start, end) == data[start..end]
  {
    assert start % 0x1_0000_0000 == start;
    assert end % 0x1_0000_0000 == end;
  }

  /** Completed fields of a prefix that stops before the last character are fields of the whole. */
  lemma {:induction false} SplitStable(data: string, i: nat, sep: char)
    requires i < |data|
    ensures var fp := Split(data, i, sep);
            |Fields(data, sep)| >= |fp| &&
            forall k :: 0 <= k < |fp| - 1 ==> Fields(data, sep)[k] == fp[k]
  {
    SplitMono(data, i, |data| - 1, sep);
  }
}
