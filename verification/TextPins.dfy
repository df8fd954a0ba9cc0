/** Whitespace, line breaks, lines and stripping, said without the functions that compute them. */
module TextPins {
  import opened Text
  import opened MarkdownFence
  import opened Outline
  import opened Insert
  import opened HeadingText

  /** Python's whitespace, by code point. */
  lemma SpacesAre(c: char)
    ensures IsSpace(c) <==>
      c as int in {9, 10, 11, 12, 13, 28, 29, 30, 31, 32, 133, 160, 5760, 8232, 8233, 8239, 8287, 12288} || 8192 <= c as int <= 8202
  {
  }

  /** Python's line breaks, by code point. */
  lemma BreaksAre(c: char)
    ensures IsBreak(c) <==> c as int in {10, 11, 12, 13, 28, 29, 30, 133, 8232, 8233}
  {
  }

  /** A break that ends a line: any break, but not the first half of "\r\n". */
  predicate Ends(s: string, i: nat) {
    i < |s| && IsBreak(s[i]) && !(s[i] == '\r' && i + 1 < |s| && s[i + 1] == '\n')
  }

  lemma NewlineBreaks()
    ensures IsBreak('\n')
  {
  }

  /** The first line reaches to its first end, or is all there is. */
  lemma {:induction false} FirstLineIs(s: string)
    requires s != ""
    ensures var n := FirstLine(s);
      && (forall i :: 0 <= i < n - 1 ==> !Ends(s, i))
      && (n < |s| ==> Ends(s, n - 1))
  {
    NewlineBreaks();
    hide IsBreak;
    if !IsBreak(s[0]) && |s| > 1 {
      FirstLineIs(s[1..]);
      var n := FirstLine(s);
      forall i | 0 <= i < n - 1 ensures !Ends(s, i) {
        if i > 0 { assert !Ends(s[1..], i - 1); }
      }
      assert n < |s| ==> Ends(s[1..], n - 2);
    }
  }

  /** One line: no end before its last character. */
  lemma OneLineIff(s: string)
    ensures OneLine(s) <==> s != "" && forall i :: 0 <= i < |s| - 1 ==> !Ends(s, i)
  {
    if s != "" {
      FirstLineIs(s);
      if FirstLine(s) < |s| {
        assert Ends(s, FirstLine(s) - 1);
      }
    }
  }

  /**
   * `splitlines(keepends=True)`: the lines make up the text, each is one line, and each but the last is ended.
   */
  lemma LinesAre(s: string)
    ensures Join(SplitLines(s)) == s
    ensures forall k :: 0 <= k < |SplitLines(s)| ==> OneLine(SplitLines(s)[k])
    ensures forall k :: 0 <= k < |SplitLines(s)| - 1 ==> Terminated(SplitLines(s)[k])
  {
    hide SplitLines, OneLine;
    JoinSplit(s);
    SplitGood(s);
    var lines := SplitLines(s);
    forall k | 0 <= k < |lines| - 1 ensures Terminated(lines[k]) {
      assert Seam(lines[k], lines[k + 1]);
      assert OneLine(lines[k]) && OneLine(lines[k + 1]);
      OneLineIff(lines[k]);
      OneLineIff(lines[k + 1]);
    }
  }

  /** Stripping cuts blank text off both ends and leaves ink, or nothing, there. */
  lemma StripIs(s: string) returns (before: string, after: string)
    ensures s == before + Strip(s) + after && Blank(before) && Blank(after)
    ensures Strip(s) != "" ==> !IsSpace(Strip(s)[0]) && !IsSpace(Strip(s)[|Strip(s)| - 1])
  {
    hide IsSpace, RStrip, LStrip, Blank, Strip;
    var r := RStrip(s);
    RStripPrefix(s);
    LStripBlank(r);
    StripEnds(s);
    assert Strip(s) == LStrip(r) by { StripMeans(s); }
    before, after := r[..|r| - |LStrip(r)|], s[|r|..];
    assert r == s[..|r|];
    assert s == r + after;
    assert r == before + LStrip(r);
  }

  lemma StripMeans(s: string)
    ensures Strip(s) == LStrip(RStrip(s))
  {
  }

  lemma {:induction false} LStripBlank(s: string)
    ensures |LStrip(s)| <= |s| && LStrip(s) == s[|s| - |LStrip(s)|..] && Blank(s[..|s| - |LStrip(s)|])
  {
    hide IsSpace;
    if s != "" && IsSpace(s[0]) {
      LStripBlank(s[1..]);
      var n := |s| - |LStrip(s)|;
      assert s[1..][n - 1..] == s[n..];
      assert s[..n] == [s[0]] + s[1..][..n - 1];
    }
  }

  /** `rstrip("\n\r")` cuts off newlines and carriage returns at the end, all of them and nothing else. */
  lemma {:induction false} ChopIs(s: string)
    ensures var t := ChopBreak(s);
      && t <= s && (forall i :: |t| <= i < |s| ==> s[i] == '\n' || s[i] == '\r')
      && (t != "" ==> t[|t| - 1] != '\n' && t[|t| - 1] != '\r')
  {
    if s != "" && (s[|s| - 1] == '\n' || s[|s| - 1] == '\r') {
      ChopIs(s[..|s| - 1]);
    }
  }

  /* ---------- headings ---------- */

  predicate Pad(c: char) {
    c == ' ' || c == '\t'
  }

  predicate Pads(s: string) {
    forall i :: 0 <= i < |s| ==> Pad(s[i])
  }

  lemma {:induction false} RunIs(s: string, c: char, n: nat)
    requires n <= |s| && (forall i :: 0 <= i < n ==> s[i] == c) && (n < |s| ==> s[n] != c)
    ensures RunLen(s, c) == n
  {
    if n > 0 {
      RunIs(s[1..], c, n - 1);
    }
  }

  /** A line is a heading exactly when one to six `#` are followed by a blank or tab and at least one more character. */
  lemma HeadingIff(line: string)
    ensures var s := ChopBreak(line);
      HeadingOf(line).Some? <==>
        exists n :: 1 <= n <= 6 && n + 1 < |s| && (forall i :: 0 <= i < n ==> s[i] == '#') && Pad(s[n])
  {
    hide ChopBreak, TextLen, Strip;
    var s := ChopBreak(line);
    var n := RunLen(s, '#');
    if m :| 1 <= m <= 6 && m + 1 < |s| && (forall i :: 0 <= i < m ==> s[i] == '#') && Pad(s[m]) {
      RunIs(s, '#', m);
      assert s[m..][0] == s[m];
    }
    if HeadingOf(line).Some? {
      assert s[n..][0] == s[n];
      assert forall i :: 0 <= i < n ==> s[i] == '#';
    }
  }

  lemma {:induction false} PadIs(s: string, n: nat)
    requires n <= |s| && Pads(s[..n]) && (n < |s| ==> !Pad(s[n]))
    ensures PadLen(s) == n
  {
    if n > 0 {
      assert s[..n][0] == s[0];
      assert s[1..][..n - 1] == s[..n][1..];
      PadIs(s[1..], n - 1);
    }
  }

  /** A closing run: blanks, `#`s, blanks, any of them possibly none. */
  lemma ClosingRunIs(q: string, n: nat, r: string)
    requires Pads(q) && Pads(r)
    ensures ClosingRun(q + Repeat('#', n) + r)
  {
    var x := q + Repeat('#', n) + r;
    if n == 0 {
      assert x == q + r;
      assert x[..|x|] == x;
      PadIs(x, |x|);
      assert x[|x|..] == "";
    } else {
      assert x[..|q|] == q && x[|q|] == '#';
      PadIs(x, |q|);
      var hashes := x[|q|..];
      assert hashes == Repeat('#', n) + r;
      RunIs(hashes, '#', n);
      assert hashes[n..] == r && r[..|r|] == r;
      PadIs(r, |r|);
    }
  }

  /** And nothing else is in one. */
  lemma ClosingChars(x: string)
    requires ClosingRun(x)
    ensures forall i :: 0 <= i < |x| ==> Pad(x[i]) || x[i] == '#'
  {
    var a := PadLen(x);
    var hashes := x[a..];
    var n := RunLen(hashes, '#');
    var pads := hashes[n..];
    forall i | 0 <= i < |x| ensures Pad(x[i]) || x[i] == '#' {
      if i >= a + n {
        assert x[i] == pads[i - a - n];
      } else if i >= a {
        assert x[i] == hashes[i - a];
      }
    }
  }

  lemma {:induction false} TextStops(rest: string, k: nat, at: nat)
    requires k <= at <= |rest| && ClosingRun(rest[at..]) && forall i :: k <= i < at ==> !ClosingRun(rest[i..])
    ensures TextLen(rest, k) == at
    decreases at - k
  {
    hide ClosingRun;
    if k < at {
      TextStops(rest, k + 1, at);
    }
  }

  lemma InkNotClosing(t: string, tail: string, i: nat)
    requires ValidHeading(t) && 1 <= i < |t|
    ensures !ClosingRun((t + tail)[i..])
  {
    hide Strip, ClosingRun, IsSpace;
    StripEnds(t);
    var x, k := (t + tail)[i..], |t| - 1 - i;
    assert x[k] == t[|t| - 1];
    InkIsNoPad(t[|t| - 1]);
    if ClosingRun(x) {
      ClosingChars(x);
    }
  }

  lemma TextLenIs(t: string, q: string, n: nat, r: string)
    requires ValidHeading(t) && Pads(q) && Pads(r)
    ensures TextLen(t + (q + Repeat('#', n) + r), 1) == |t|
  {
    hide Strip, ClosingRun, TextLen;
    var tail := q + Repeat('#', n) + r;
    ClosingRunIs(q, n, r);
    assert (t + tail)[|t|..] == tail;
    forall i | 1 <= i < |t| ensures !ClosingRun((t + tail)[i..]) {
      InkNotClosing(t, tail, i);
    }
    TextStops(t + tail, 1, |t|);
  }

  lemma ChopNone(s: string)
    requires s != "" && s[|s| - 1] != '\n' && s[|s| - 1] != '\r'
    ensures ChopBreak(s) == s
  {
  }

  lemma InkIsNoPad(c: char)
    ensures Pad(c) ==> IsSpace(c)
  {
  }

  /**
   * Whatever blanks and tabs stand after the `#`s, before a closing run and after it, and however long that run is, the
   * heading is the text between, up to the line end.
   */
  lemma HeadingRead(level: nat, p: string, t: string, q: string, n: nat, r: string, eol: string)
    requires 1 <= level <= 6 && p != "" && Pads(p) && ValidHeading(t) && Pads(q) && Pads(r) && EolOk(eol)
    ensures HeadingOf(Repeat('#', level) + (p + (t + (q + Repeat('#', n) + r))) + eol) == Some(Heading(level, t))
  {
    hide Strip, ClosingRun, ChopBreak, TextLen, IsSpace;
    var rest := t + (q + Repeat('#', n) + r);
    var after := p + rest;
    var s := Repeat('#', level) + after;
    StripEnds(t);
    TextLenIs(t, q, n, r);
    InkIsNoPad(t[0]);
    HeadingEnd(level, p, t, q, n, r);
    ChopEol(s, eol);
    ChopNone(s);
    assert s[level..] == after && s[level] == p[0];
    RunIs(s, '#', level);
    assert after[..|p|] == p && after[|p|..] == rest && after[|p|] == t[0];
    PadIs(after, |p|);
    assert rest[..|t|] == t;
  }

  /** No line end is left at the end of such a line. */
  lemma HeadingEnd(level: nat, p: string, t: string, q: string, n: nat, r: string)
    requires ValidHeading(t) && Pads(q) && Pads(r)
    ensures var s := Repeat('#', level) + (p + (t + (q + Repeat('#', n) + r)));
      s != "" && s[|s| - 1] != '\n' && s[|s| - 1] != '\r'
  {
    hide Strip;
    var tail := q + Repeat('#', n) + r;
    var s := Repeat('#', level) + (p + (t + tail));
    StripEnds(t);
    if tail == "" {
      assert s[|s| - 1] == t[|t| - 1];
    } else {
      assert s[|s| - 1] == tail[|tail| - 1];
      assert tail[|tail| - 1] == '#' || Pad(tail[|tail| - 1]);
    }
  }
}
