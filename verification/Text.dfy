/** Python's view of a text: whitespace, stripping, and `splitlines(keepends=True)`. */
module Text {

  datatype Option<+T> = None | Some(value: T)

  /** Characters removed by `str.strip()`. */
  predicate IsSpace(c: char) {
    || '\t' <= c <= '\r' || '\U{1c}' <= c <= ' '
    || c in ['\U{85}', '\U{a0}', '\U{1680}', '\U{2028}', '\U{2029}', '\U{202f}', '\U{205f}', '\U{3000}']
    || '\U{2000}' <= c <= '\U{200a}'
  }

  /** Characters at which `str.splitlines()` breaks; "\r\n" counts as one break. */
  predicate IsBreak(c: char) {
    || '\n' <= c <= '\r' || '\U{1c}' <= c <= '\U{1e}'
    || c == '\U{85}' || c == '\U{2028}' || c == '\U{2029}'
  }

  predicate Blank(s: string) {
    forall i :: 0 <= i < |s| ==> IsSpace(s[i])
  }

  function RStrip(s: string): string {
    if s != "" && IsSpace(s[|s| - 1]) then RStrip(s[..|s| - 1]) else s
  }

  function LStrip(s: string): string {
    if s != "" && IsSpace(s[0]) then LStrip(s[1..]) else s
  }

  function Strip(s: string): string {
    LStrip(RStrip(s))
  }

  /** `rstrip("\n\r")`. */
  function ChopBreak(s: string): string {
    if s != "" && (s[|s| - 1] == '\n' || s[|s| - 1] == '\r') then ChopBreak(s[..|s| - 1]) else s
  }

  function Repeat(c: char, n: nat): (s: string)
    ensures |s| == n && forall i :: 0 <= i < n ==> s[i] == c
  {
    seq(n, _ => c)
  }

  predicate EndsWith(s: string, t: string) {
    |t| <= |s| && s[|s| - |t|..] == t
  }

  /* ---------- stripping ---------- */

  /** `s[i:j]`, clamped to what there is. */
  function Slice<T>(s: seq<T>, i: nat, j: nat): seq<T> {
    var hi := if j <= |s| then j else |s|;
    if i < hi then s[i..hi] else []
  }

  /** `s` with a newline added unless it is empty or ends in one. */
  function Ended(s: string): string {
    if s != "" && !EndsWith(s, "\n") then s + "\n" else s
  }

  predicate Distinct<T(==)>(xs: seq<T>) {
    forall i, j :: 0 <= i < j < |xs| ==> xs[i] != xs[j]
  }

  /** The elements that pass the test, in order, as often as they occur. */
  function Filter<T>(xs: seq<T>, keep: T -> bool): seq<T> {
    if xs == [] then [] else (if keep(xs[0]) then [xs[0]] else []) + Filter(xs[1..], keep)
  }

  lemma {:induction false} FilterCounts<T>(xs: seq<T>, keep: T -> bool, x: T)
    ensures multiset(Filter(xs, keep))[x] == if keep(x) then multiset(xs)[x] else 0
  {
    if xs != [] {
      FilterCounts(xs[1..], keep, x);
      assert xs == [xs[0]] + xs[1..];
    }
  }

  lemma {:induction false} FilterConcat<T>(a: seq<T>, b: seq<T>, keep: T -> bool)
    ensures Filter(a + b, keep) == Filter(a, keep) + Filter(b, keep)
  {
    if a == [] {
      assert a + b == b;
    } else {
      assert (a + b)[1..] == a[1..] + b && (a + b)[0] == a[0];
      FilterConcat(a[1..], b, keep);
    }
  }

  lemma {:induction false} RStripPrefix(s: string)
    ensures RStrip(s) <= s
    ensures Blank(s[|RStrip(s)|..])
    ensures RStrip(s) != "" ==> !IsSpace(RStrip(s)[|RStrip(s)| - 1])
  {
    if s != "" && IsSpace(s[|s| - 1]) {
      RStripPrefix(s[..|s| - 1]);
    }
  }

  lemma {:induction false} RStripAppendBlank(s: string, t: string)
    requires Blank(t)
    ensures RStrip(s + t) == RStrip(s)
  {
    if t == "" {
      assert s + t == s;
    } else {
      var u := t[..|t| - 1];
      assert (s + t)[..|s + t| - 1] == s + u;
      RStripAppendBlank(s, u);
    }
  }

  lemma {:induction false} LStripPrependBlank(t: string, s: string)
    requires Blank(t)
    ensures LStrip(t + s) == LStrip(s)
  {
    if t == "" {
      assert t + s == s;
    } else {
      assert (t + s)[1..] == t[1..] + s;
      LStripPrependBlank(t[1..], s);
    }
  }

  lemma {:induction false} RStripPrependBlank(t: string, s: string)
    requires Blank(t)
    ensures RStrip(t + s) == if RStrip(s) == "" then "" else t + RStrip(s)
  {
    if s == "" {
      assert t + s == "" + t;
      RStripAppendBlank("", t);
    } else {
      assert (t + s)[|t + s| - 1] == s[|s| - 1];
      if IsSpace(s[|s| - 1]) {
        assert (t + s)[..|t + s| - 1] == t + s[..|s| - 1];
        RStripPrependBlank(t, s[..|s| - 1]);
      }
    }
  }

  /** Blank padding on either side is invisible to `strip`. */
  lemma StripPadded(before: string, s: string, after: string)
    requires Blank(before) && Blank(after)
    ensures Strip(before + s + after) == Strip(s)
  {
    hide RStrip, LStrip, IsSpace;
    RStripAppendBlank(before + s, after);
    RStripPrependBlank(before, s);
    LStripPrependBlank(before, RStrip(s));
  }

  lemma {:induction false} StripBlank(s: string)
    ensures Strip(s) == "" <==> Blank(s)
  {
    if Blank(s) {
      RStripAppendBlank("", s);
      assert "" + s == s;
    } else if Strip(s) == "" {
      RStripPrefix(s);
      var core := RStrip(s);
      if core != "" {
        LStripLast(core);
      }
      assert false;
    }
  }

  lemma {:induction false} LStripLast(s: string)
    requires s != "" && !IsSpace(s[|s| - 1])
    ensures LStrip(s) != ""
  {
    if IsSpace(s[0]) {
      LStripLast(s[1..]);
    }
  }

  /** A text that starts and ends with ink is untouched. */
  lemma StripInk(s: string)
    requires s != "" && !IsSpace(s[0]) && !IsSpace(s[|s| - 1])
    ensures Strip(s) == s
  {
  }

  lemma {:induction false} StripFirst(s: string)
    requires s != "" && !IsSpace(s[0])
    ensures Strip(s) != "" && Strip(s)[0] == s[0]
  {
    RStripPrefix(s);
  }

  lemma {:induction false} LStripSuffix(s: string)
    ensures EndsWith(s, LStrip(s))
    ensures LStrip(s) != "" ==> !IsSpace(LStrip(s)[0])
  {
    if s != "" && IsSpace(s[0]) {
      LStripSuffix(s[1..]);
      assert s[1..][|s| - 1 - |LStrip(s)|..] == s[|s| - |LStrip(s)|..];
    }
  }

  /** What `strip` returns has ink at both ends. */
  lemma StripEnds(s: string)
    ensures |Strip(s)| <= |s|
    ensures Strip(s) != "" ==> !IsSpace(Strip(s)[0]) && !IsSpace(Strip(s)[|Strip(s)| - 1])
  {
    RStripPrefix(s);
    LStripSuffix(RStrip(s));
  }

  /* ---------- lines ---------- */

  /** Length of the first line of `s`, its break included. */
  function FirstLine(s: string): (n: nat)
    ensures n <= |s| && (s != "" ==> 0 < n)
  {
    if s == "" then 0
    else if IsBreak(s[0]) then (if s[0] == '\r' && |s| > 1 && s[1] == '\n' then 2 else 1)
    else 1 + FirstLine(s[1..])
  }

  /** `splitlines(keepends=True)`. */
  function SplitLines(s: string): seq<string> {
    if s == "" then [] else [s[..FirstLine(s)]] + SplitLines(s[FirstLine(s)..])
  }

  function Join(lines: seq<string>): string {
    if lines == [] then "" else lines[0] + Join(lines[1..])
  }

  predicate OneLine(l: string) {
    l != "" && FirstLine(l) == |l|
  }

  predicate Terminated(l: string) {
    l != "" && IsBreak(l[|l| - 1])
  }

  /** Cutting `a + b` between `a` and `b` falls on a line boundary. */
  predicate Seam(a: string, b: string) {
    a == "" || b == "" || (Terminated(a) && !(a[|a| - 1] == '\r' && b[0] == '\n'))
  }

  predicate GoodLines(lines: seq<string>) {
    && (forall i :: 0 <= i < |lines| ==> OneLine(lines[i]))
    && (forall i :: 0 <= i < |lines| - 1 ==> Seam(lines[i], lines[i + 1]))
  }

  lemma {:induction false} JoinConcat(a: seq<string>, b: seq<string>)
    ensures Join(a + b) == Join(a) + Join(b)
  {
    if a == [] {
      assert a + b == b;
    } else {
      assert (a + b)[1..] == a[1..] + b;
      JoinConcat(a[1..], b);
    }
  }

  lemma {:induction false} JoinSplit(s: string)
    ensures Join(SplitLines(s)) == s
    decreases |s|
  {
    if s != "" {
      JoinSplit(s[FirstLine(s)..]);
      assert s == s[..FirstLine(s)] + s[FirstLine(s)..];
    }
  }

  lemma {:induction false} FirstLineSeam(l: string, rest: string)
    requires OneLine(l) && Seam(l, rest)
    ensures FirstLine(l + rest) == |l|
  {
    if rest == "" {
      assert l + rest == l;
    } else if !IsBreak(l[0]) {
      assert (l + rest)[1..] == l[1..] + rest;
      FirstLineSeam(l[1..], rest);
    }
  }

  lemma {:induction false} FirstLineIsLine(s: string)
    requires s != ""
    ensures OneLine(s[..FirstLine(s)])
    ensures Seam(s[..FirstLine(s)], s[FirstLine(s)..])
  {
    var n := FirstLine(s);
    if !IsBreak(s[0]) && |s| > 1 {
      FirstLineIsLine(s[1..]);
      assert s[..n][1..] == s[1..][..n - 1];
      assert s[1..][n - 1..] == s[n..];
    }
  }

  lemma {:induction false} SplitCons(l: string, rest: string)
    requires OneLine(l) && Seam(l, rest)
    ensures SplitLines(l + rest) == [l] + SplitLines(rest)
  {
    FirstLineSeam(l, rest);
    assert (l + rest)[..|l|] == l && (l + rest)[|l|..] == rest;
  }

  lemma SeamTail(l: string, r: string, b: string)
    requires l != "" && Seam(l, r) && Seam(l + r, b)
    ensures Seam(r, b) && Seam(l, r + b)
  {
    if r == "" {
      assert l + r == l && r + b == b;
    } else {
      assert (l + r)[|l + r| - 1] == r[|r| - 1] && (r + b)[0] == r[0];
    }
  }

  /** Splitting distributes over a concatenation at a line boundary. */
  lemma {:induction false} SplitSeam(a: string, b: string)
    requires Seam(a, b)
    ensures SplitLines(a + b) == SplitLines(a) + SplitLines(b)
    decreases |a|, 1
  {
    if a == "" {
      assert a + b == b;
    } else {
      FirstLineIsLine(a);
      SplitSeamStep(a[..FirstLine(a)], a[FirstLine(a)..], a, b);
    }
  }

  lemma {:induction false} SplitSeamStep(l: string, r: string, a: string, b: string)
    requires a == l + r && OneLine(l) && Seam(l, r) && Seam(a, b)
    ensures SplitLines(a + b) == SplitLines(a) + SplitLines(b)
    decreases |a|, 0
  {
    hide SplitLines, FirstLine, Seam;
    SeamTail(l, r, b);
    SplitCons(l, r);
    SplitCons(l, r + b);
    assert a + b == l + (r + b);
    SplitSeam(r, b);
  }

  lemma {:induction false} SplitGood(s: string)
    ensures GoodLines(SplitLines(s))
    decreases |s|
  {
    if s != "" {
      var n := FirstLine(s);
      FirstLineIsLine(s);
      SplitGood(s[n..]);
      if s[n..] != "" {
        assert SplitLines(s)[1] == s[n..][..FirstLine(s[n..])];
      }
    }
  }

  lemma {:induction false} JoinFirst(lines: seq<string>)
    requires GoodLines(lines) && lines != []
    ensures Join(lines) != "" && Join(lines)[0] == lines[0][0]
  {
  }

  lemma {:induction false} SplitJoin(lines: seq<string>)
    requires GoodLines(lines)
    ensures SplitLines(Join(lines)) == lines
  {
    if lines != [] {
      assert GoodLines(lines[1..]) by {
        forall i | 0 <= i < |lines[1..]| - 1 ensures Seam(lines[1..][i], lines[1..][i + 1]) {
          assert Seam(lines[i + 1], lines[i + 2]);
        }
      }
      SplitJoin(lines[1..]);
      if |lines| > 1 {
        JoinFirst(lines[1..]);
        assert Seam(lines[0], lines[1]);
      }
      SplitCons(lines[0], Join(lines[1..]));
    }
  }

  lemma GoodSlice(lines: seq<string>, a: nat, b: nat)
    requires GoodLines(lines) && a <= b <= |lines|
    ensures GoodLines(lines[a..b])
  {
    forall i | 0 <= i < b - a - 1 ensures Seam(lines[a..b][i], lines[a..b][i + 1]) {
      assert Seam(lines[a + i], lines[a + i + 1]);
    }
  }

  /** `_char_upto`: the offset of line `k`. */
  function Upto(lines: seq<string>, k: nat): nat
    requires k <= |lines|
  {
    |Join(lines[..k])|
  }

  /** A text splits at any of its line boundaries into the lines before and after. */
  lemma CutAt(text: string, k: nat)
    requires k <= |SplitLines(text)|
    ensures Upto(SplitLines(text), k) <= |text|
    ensures text[..Upto(SplitLines(text), k)] == Join(SplitLines(text)[..k])
    ensures text[Upto(SplitLines(text), k)..] == Join(SplitLines(text)[k..])
    ensures SplitLines(Join(SplitLines(text)[..k])) == SplitLines(text)[..k]
    ensures SplitLines(Join(SplitLines(text)[k..])) == SplitLines(text)[k..]
  {
    var lines := SplitLines(text);
    JoinSplit(text);
    SplitGood(text);
    assert lines == lines[..k] + lines[k..];
    JoinConcat(lines[..k], lines[k..]);
    GoodSlice(lines, 0, k);
    GoodSlice(lines, k, |lines|);
    SplitJoin(lines[..k]);
    SplitJoin(lines[k..]);
  }
}
