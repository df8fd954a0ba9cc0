/** Which heading texts survive writing and parsing. */
module HeadingText {
  import opened Text
  import opened MarkdownFence
  import opened Outline
  import opened Body
  import opened Replace
  import opened Insert

  /** A line break can only be the last character. */
  predicate BreaksLast(s: string) {
    forall i :: 0 <= i < |s| - 1 ==> !IsBreak(s[i])
  }

  /** In one line, breaks are at the end: one character, or "\r\n". */
  lemma {:induction false} OneLineBreaks(l: string, i: nat)
    requires OneLine(l) && i < |l| && IsBreak(l[i])
    ensures i == |l| - 1 || (i == |l| - 2 && l[i] == '\r' && l[i + 1] == '\n')
  {
    if i > 0 && !IsBreak(l[0]) {
      OneLineBreaks(l[1..], i - 1);
    }
  }

  lemma {:induction false} Chopped(s: string)
    ensures ChopBreak(s) <= s
    ensures ChopBreak(s) == "" || (ChopBreak(s)[|ChopBreak(s)| - 1] != '\n' && ChopBreak(s)[|ChopBreak(s)| - 1] != '\r')
  {
    if s != "" && (s[|s| - 1] == '\n' || s[|s| - 1] == '\r') {
      Chopped(s[..|s| - 1]);
    }
  }

  lemma ChoppedLine(l: string)
    requires OneLine(l)
    ensures BreaksLast(ChopBreak(l))
  {
    hide ChopBreak, OneLine;
    var s := ChopBreak(l);
    Chopped(l);
    forall i | 0 <= i < |s| - 1 ensures !IsBreak(s[i]) {
      if IsBreak(s[i]) {
        assert l[i] == s[i] && l[|s| - 1] == s[|s| - 1];
        OneLineBreaks(l, i);
      }
    }
  }

  lemma BreakIsSpace(c: char)
    ensures IsBreak(c) ==> IsSpace(c)
  {
  }

  /** Stripping leaves no break in a text that has one at its end only. */
  lemma StrippedUnbroken(s: string)
    requires BreaksLast(s)
    ensures Unbroken(Strip(s))
  {
    hide LStrip, RStrip, IsSpace, IsBreak;
    var r, t := RStrip(s), Strip(s);
    RStripPrefix(s);
    LStripSuffix(r);
    StripEnds(s);
    forall i | 0 <= i < |t| ensures !IsBreak(t[i]) {
      BreakIsSpace(t[i]);
      var k := |r| - |t| + i;
      assert t[i] == r[k] == s[k];
    }
  }

  lemma SliceBreaks(s: string, i: nat, j: nat)
    requires BreaksLast(s) && i <= j <= |s|
    ensures BreaksLast(s[i..j])
  {
    forall k | 0 <= k < |s[i..j]| - 1 ensures !IsBreak(s[i..j][k]) {
      assert s[i..j][k] == s[i + k];
    }
  }

  /** The text of a heading is a stripped piece of its line. */
  lemma HeadingPiece(line: string) returns (n: nat, m: nat)
    requires HeadingOf(line).Some?
    ensures n <= m <= |ChopBreak(line)| && HeadingOf(line).value.text == Strip(ChopBreak(line)[n..m])
  {
    hide ChopBreak, Strip, TextLen, RunLen, PadLen;
    var s := ChopBreak(line);
    var level := RunLen(s, '#');
    var t := s[level..];
    var rest := t[PadLen(t)..];
    if rest == "" {
      n, m := 0, 0;
      assert Strip("") == "" by { StripNone(); }
    } else {
      n := level + PadLen(t);
      m := n + TextLen(rest, 1);
      assert rest[..TextLen(rest, 1)] == s[n..m];
    }
  }

  lemma StripNone()
    ensures Strip("") == ""
  {
  }

  /** A heading read from one line holds no line break. */
  lemma HeadingUnbroken(line: string)
    requires OneLine(line) && HeadingOf(line).Some?
    ensures Unbroken(HeadingOf(line).value.text)
  {
    hide ChopBreak, OneLine, Strip, HeadingOf, BreaksLast;
    ChoppedLine(line);
    var n, m := HeadingPiece(line);
    SliceBreaks(ChopBreak(line), n, m);
    StrippedUnbroken(ChopBreak(line)[n..m]);
  }

  lemma {:induction false} HeadsUnbroken(f: Fence, lines: seq<string>, i: nat)
    requires (forall k :: 0 <= k < |lines| ==> OneLine(lines[k])) && i < |HeadsFrom(f, lines)|
    ensures Unbroken(HeadsFrom(f, lines)[i].text)
    decreases |lines|
  {
    hide HeadingOf, Next, OneLine, Unbroken;
    if Head(f, lines[0]).Some? {
      HeadingUnbroken(lines[0]);
      if i > 0 { HeadsUnbroken(Next(f, lines[0]), lines[1..], i - 1); }
    } else {
      HeadsUnbroken(Next(f, lines[0]), lines[1..], i);
    }
  }

  /** A written heading line whose text has no break is one line, read as a heading by its pattern alone. */
  lemma OneHeadLine(level: nat, heading: string, eol: string)
    requires 1 <= level <= 6 && EolOk(eol) && Unbroken(heading)
    ensures var line := HeadLine(level, heading, eol);
      HeadsIn(line) == match HeadingOf(line) case None => [] case Some(h) => [h]
  {
    hide HeadingOf, Next, Seam;
    var body, line := Repeat('#', level) + " " + heading, HeadLine(level, heading, eol);
    assert Unbroken(body);
    UnbrokenLine(body, eol);
    SeamEmpty(line);
    SplitCons(line, "");
    assert line + "" == line;
    assert SplitLines(line) == [line] && [line][1..] == [];
    assert HeadsFrom(Next(NoFence, line), []) == [];
    assert line[0] == '#';
    InkIsNotFence(line);
  }

  /**
   * A heading written by the section tools is read back by the parser as itself, and as nothing else, exactly
   * when its text is stripped, not empty, not ended by a closing `#` run, and holds no line break.
   */
  lemma HeadingReadsBack(level: nat, heading: string, eol: string)
    requires 1 <= level <= 6 && EolOk(eol)
    ensures HeadsIn(HeadLine(level, heading, eol)) == [Heading(level, heading)] <==> ValidHeading(heading) && Unbroken(heading)
  {
    hide HeadsIn, HeadLine, HeadingOf, ValidHeading, Unbroken;
    var line := HeadLine(level, heading, eol);
    if HeadsIn(line) == [Heading(level, heading)] {
      SplitGood(line);
      HeadsInUnbroken(line);
    }
    if Unbroken(heading) {
      OneHeadLine(level, heading, eol);
      HeadLineReadsBack(level, heading, eol);
    }
  }

  lemma HeadsInUnbroken(s: string)
    requires |HeadsIn(s)| > 0
    ensures Unbroken(HeadsIn(s)[0].text)
  {
    hide HeadsFrom, SplitLines, OneLine;
    SplitGood(s);
    HeadsUnbroken(NoFence, SplitLines(s), 0);
  }

  /* ---------- texts that do not survive ---------- */

  /** A heading with a line break is cut there. */
  lemma BrokenHeadingCut()
    ensures HeadsIn(HeadLine(1, "a\nb", "\n")) == [Heading(1, "a")]
  {
    hide HeadsIn, FenceEnd, HeadLine;
    assert ValidHeading("a");
    HeadLineHeads(1, "a", "\n");
    NewlineSeam(HeadLine(1, "a", "\n"), "b\n");
    HeadsSeam(HeadLine(1, "a", "\n"), "b\n");
    NoHeadLine();
    TwoLines();
    assert HeadsIn("b\n") == [];
    assert [Heading(1, "a")] + [] == [Heading(1, "a")];
  }

  lemma TwoLines()
    ensures HeadLine(1, "a\nb", "\n") == HeadLine(1, "a", "\n") + "b\n"
  {
    assert Repeat('#', 1) + " " + "a\nb" + "\n" == Repeat('#', 1) + " " + "a" + "\n" + "b\n";
  }

  lemma NoHeadLine()
    ensures HeadsIn("b\n") == []
  {
    hide Next;
    UnbrokenLine("b", "\n");
    assert "b" + "\n" == "b\n";
    SeamEmpty("b\n");
    SplitCons("b\n", "");
    assert "b\n" + "" == "b\n" && ["b\n"][1..] == [];
    if HeadingOf("b\n").Some? { HeadingInk("b\n"); }
  }

  /** A closing `#` run is dropped. */
  lemma ClosingRunDropped()
    ensures HeadsIn(HeadLine(1, "a##", "\n")) == [Heading(1, "a")]
  {
    hide HeadsIn, HeadingOf;
    OneHeadLine(1, "a##", "\n");
    var line := "# a##\n";
    assert Repeat('#', 1) == "#";
    assert HeadLine(1, "a##", "\n") == line;
    ReadsA();
  }

  lemma ReadsA()
    ensures HeadingOf("# a##\n") == Some(Heading(1, "a"))
  {
    assert ChopBreak("# a##\n") == "# a##" by { assert "# a##\n"[..5] == "# a##"; assert ChopBreak("# a##") == "# a##"; }
    assert RunLen("# a##", '#') == 1 by { assert "# a##"[1..] == " a##"; }
    assert "# a##"[1..] == " a##";
    assert PadLen(" a##") == 1 by { assert " a##"[1..] == "a##"; }
    assert " a##"[1..] == "a##";
    assert ClosingRun("##") by { assert RunLen("##", '#') == 2 by { assert "##"[1..] == "#" && "#"[1..] == ""; } }
    assert "a##"[1..] == "##";
    assert TextLen("a##", 1) == 1;
    assert "a##"[..1] == "a";
    StripOneA();
  }

  lemma StripOneA()
    ensures Strip("a") == "a"
  {
  }
}
