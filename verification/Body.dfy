/** Texts seen only through their headings: line endings and blank padding are invisible. */
module Body {
  import opened Text
  import opened MarkdownFence
  import opened Outline

  function HeadsFrom(f: Fence, lines: seq<string>): seq<Heading>
    decreases |lines|
  {
    if lines == [] then []
    else
      (match Head(f, lines[0]) case None => [] case Some(h) => [h]) + HeadsFrom(Next(f, lines[0]), lines[1..])
  }

  /** The headings of a text read from outside any fence, and the fence state it leaves. */
  function HeadsIn(s: string): seq<Heading> {
    HeadsFrom(NoFence, SplitLines(s))
  }

  function FenceEnd(s: string): Fence {
    FenceAfter(NoFence, SplitLines(s))
  }

  /** Heading-free and fence-balanced. */
  predicate PlainBody(s: string) {
    HeadsIn(s) == [] && FenceEnd(s) == NoFence
  }

  lemma {:induction false} HeadsConcat(f: Fence, a: seq<string>, b: seq<string>)
    ensures HeadsFrom(f, a + b) == HeadsFrom(f, a) + HeadsFrom(FenceAfter(f, a), b)
    decreases |a|
  {
    hide Head, Next;
    if a == [] {
      assert a + b == b;
    } else {
      assert (a + b)[1..] == a[1..] + b;
      HeadsConcat(Next(f, a[0]), a[1..], b);
    }
  }

  /** Two texts joined at a line boundary, the first leaving no fence open. */
  lemma HeadsSeam(a: string, b: string)
    requires Seam(a, b) && FenceEnd(a) == NoFence
    ensures HeadsIn(a + b) == HeadsIn(a) + HeadsIn(b) && FenceEnd(a + b) == FenceEnd(b)
  {
    hide SplitLines, HeadsFrom, FenceAfter, Seam;
    SplitSeam(a, b);
    HeadsConcat(NoFence, SplitLines(a), SplitLines(b));
    FenceAfterConcat(NoFence, SplitLines(a), SplitLines(b));
  }

  lemma {:induction false} QuietIffNoHeads(f: Fence, lines: seq<string>)
    ensures Quiet(f, lines) <==> HeadsFrom(f, lines) == []
    decreases |lines|
  {
    hide Head, Next;
    if lines != [] {
      QuietIffNoHeads(Next(f, lines[0]), lines[1..]);
    }
  }

  lemma PlainBodyLines(s: string)
    ensures PlainBody(s) <==> Quiet(NoFence, SplitLines(s)) && Balanced(SplitLines(s))
  {
    hide SplitLines, Quiet, HeadsFrom, FenceAfter;
    QuietIffNoHeads(NoFence, SplitLines(s));
  }

  /** The headings of a text are those of its outline's blocks. */
  function Shape(blocks: seq<Block>): seq<Heading> {
    if blocks == [] then [] else [Heading(blocks[0].level, blocks[0].heading)] + Shape(blocks[1..])
  }

  lemma {:induction false} HeadsAreShape(f: Fence, lines: seq<string>)
    ensures HeadsFrom(f, lines) == Shape(OutlineFrom(f, lines).blocks)
    decreases |lines|
  {
    hide Head, Next;
    if lines != [] {
      var rest := OutlineFrom(Next(f, lines[0]), lines[1..]);
      HeadsAreShape(Next(f, lines[0]), lines[1..]);
      match Head(f, lines[0])
      case None =>
      case Some(h) =>
        var bs := [Block(h.level, h.text, lines[0], rest.pre)] + rest.blocks;
        assert bs[1..] == rest.blocks;
    }
  }

  lemma {:induction false} ShapeAt(blocks: seq<Block>, k: nat)
    requires k < |blocks|
    ensures |Shape(blocks)| == |blocks| && Shape(blocks)[k] == Heading(blocks[k].level, blocks[k].heading)
    decreases k
  {
    if k > 0 {
      ShapeAt(blocks[1..], k - 1);
    } else {
      ShapeLen(blocks);
    }
  }

  lemma {:induction false} ShapeLen(blocks: seq<Block>)
    ensures |Shape(blocks)| == |blocks|
  {
    if blocks != [] {
      ShapeLen(blocks[1..]);
    }
  }

  /* ---------- line endings ---------- */

  lemma LineEolKept(f: Fence, l: string, eol: string)
    requires EolOk(eol)
    ensures Next(f, l + eol) == Next(f, l) && Head(f, l + eol) == Head(f, l)
  {
    hide ParseFenceOpen, IsClosingFenceLine, Strip, RunLen, PadLen, TextLen;
    assert l + eol == "" + l + eol;
    StripPadded("", l, eol);
    ChopEol(l, eol);
  }

  lemma EolIsQuiet(eol: string)
    requires EolOk(eol)
    ensures HeadsIn(eol) == [] && FenceEnd(eol) == NoFence && OneLine(eol) && SplitLines(eol) == [eol]
  {
    hide Head, Next, OneLine, Seam;
    BlankIsNotFence(eol);
    EolHead(eol);
    EolOneLine(eol);
    SeamEmpty(eol);
    SplitCons(eol, "");
    assert eol + "" == eol;
    assert SplitLines("") == [];
    assert SplitLines(eol) == [eol];
    assert HeadsFrom(NoFence, []) == [] && FenceAfter(NoFence, []) == NoFence;
    assert [eol][0] == eol && [eol][1..] == [];
  }

  lemma EolHead(eol: string)
    requires EolOk(eol)
    ensures Head(NoFence, eol) == None
  {
    hide Next;
    assert eol == "" + eol;
    ChopEol("", eol);
  }

  lemma EolOneLine(eol: string)
    requires EolOk(eol)
    ensures OneLine(eol)
  {
  }

  lemma {:induction false} UnterminatedPlusEol(l: string, eol: string)
    requires OneLine(l) && EolOk(eol) && !Seam(l, eol)
    ensures OneLine(l + eol)
  {
    if |l| == 1 {
      assert (l + eol)[1..] == eol;
      EolOneLine(eol);
    } else {
      assert (l + eol)[1..] == l[1..] + eol;
      if !IsBreak(l[0]) {
        UnterminatedPlusEol(l[1..], eol);
      }
    }
  }

  /** A line end added to a text either ends its last line or adds a blank one. */
  lemma SplitPlusEol(s: string, eol: string)
    requires EolOk(eol)
    ensures var lines, more := SplitLines(s), SplitLines(s + eol);
      || more == lines + [eol]
      || (lines != [] && more == lines[..|lines| - 1] + [lines[|lines| - 1] + eol])
  {
    hide OneLine, Terminated;
    EolIsQuiet(eol);
    if Seam(s, eol) {
      SplitSeam(s, eol);
    } else {
      var lines := SplitLines(s);
      var n := |lines| - 1;
      hide SplitLines, Seam;
      CutLast(s);
      var init, l := Join(lines[..n]), lines[n];
      LastSeam(init, l, s, eol);
      UnterminatedPlusEol(l, eol);
      assert s + eol == init + (l + eol);
      SplitSeam(init, l + eol);
      assert l + eol == (l + eol) + "";
      assert Seam(l + eol, "") by { SeamEmpty(l + eol); }
      SplitCons(l + eol, "");
      assert SplitLines("") == [] by { SplitNothing(); }
    }
  }

  lemma SplitNothing()
    ensures SplitLines("") == []
  {
  }

  lemma SeamEmpty(a: string)
    ensures Seam(a, "")
  {
  }

  /** The last line of a non-empty text and the text before it. */
  lemma CutLast(s: string)
    requires s != ""
    ensures var lines := SplitLines(s); var n := |lines| - 1;
      && n >= 0 && OneLine(lines[n]) && s == Join(lines[..n]) + lines[n]
      && Seam(Join(lines[..n]), lines[n]) && SplitLines(Join(lines[..n])) == lines[..n]
  {
    hide OneLine, Terminated, Seam;
    var lines := SplitLines(s);
    assert lines != [];
    var n := |lines| - 1;
    hide SplitLines;
    SplitGood(s);
    CutAt(s, n);
    JoinSplit(s);
    assert lines[n..] == [lines[n]];
    assert Join([lines[n]]) == lines[n];
    if n > 0 {
      JoinTail(lines, n);
    } else {
      SeamNothing(lines[n]);
    }
  }

  lemma SeamNothing(b: string)
    ensures Seam("", b)
  {
  }

  lemma JoinTail(lines: seq<string>, n: nat)
    requires GoodLines(lines) && 0 < n < |lines|
    ensures Seam(Join(lines[..n]), lines[n])
  {
    assert lines[..n] == lines[..n - 1] + [lines[n - 1]];
    JoinConcat(lines[..n - 1], [lines[n - 1]]);
    assert Join([lines[n - 1]]) == lines[n - 1];
    assert Seam(lines[n - 1], lines[n]);
    assert OneLine(lines[n - 1]) && OneLine(lines[n]);
  }

  lemma LastSeam(init: string, l: string, s: string, eol: string)
    requires s == init + l && OneLine(l) && Seam(init, l) && EolOk(eol) && !Seam(s, eol)
    ensures !Seam(l, eol) && Seam(init, l + eol)
  {
    assert s[|s| - 1] == l[|l| - 1];
    assert (l + eol)[0] == l[0];
  }

  /** Ending a text with a line break changes none of its headings. */
  lemma AddEol(s: string, eol: string)
    requires EolOk(eol) && FenceEnd(s) == NoFence
    ensures HeadsIn(s + eol) == HeadsIn(s) && FenceEnd(s + eol) == NoFence
  {
    hide SplitLines, Head, Next;
    var lines, more := SplitLines(s), SplitLines(s + eol);
    SplitPlusEol(s, eol);
    EolIsQuiet(eol);
    if more == lines + [eol] {
      HeadsConcat(NoFence, lines, [eol]);
      FenceAfterConcat(NoFence, lines, [eol]);
    } else {
      var n := |lines| - 1;
      var init, l := lines[..n], lines[n];
      assert lines == init + [l];
      HeadsConcat(NoFence, init, [l]);
      HeadsConcat(NoFence, init, [l + eol]);
      FenceAfterConcat(NoFence, init, [l]);
      FenceAfterConcat(NoFence, init, [l + eol]);
      LineEolKept(FenceAfter(NoFence, init), l, eol);
    }
  }
}
