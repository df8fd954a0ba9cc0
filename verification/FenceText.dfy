/** Which lines are fences, character by character, and what a fence hides. */
module FenceText {
  import opened Text
  import opened MarkdownFence
  import opened Outline
  import opened Body

  /** Letters, digits and underscores. */
  predicate WordText(s: string) {
    forall i :: 0 <= i < |s| ==> 'a' <= s[i] <= 'z' || 'A' <= s[i] <= 'Z' || '0' <= s[i] <= '9' || s[i] == '_'
  }

  predicate FenceChar(c: char) {
    c == '`' || c == '~'
  }

  lemma {:induction false} RunThenWord(c: char, n: nat, info: string)
    requires FenceChar(c) && WordText(info)
    ensures RunLen(Repeat(c, n) + info, c) == n
    decreases n
  {
    var s := Repeat(c, n) + info;
    if n > 0 {
      assert s[1..] == Repeat(c, n - 1) + info;
      RunThenWord(c, n - 1, info);
    }
  }

  lemma FenceInk(c: char, n: nat, info: string)
    requires FenceChar(c) && n >= 1 && WordText(info)
    ensures Strip(Repeat(c, n) + info) == Repeat(c, n) + info
  {
    var s := Repeat(c, n) + info;
    assert s[0] == c;
    assert s[|s| - 1] == if info == "" then c else info[|info| - 1];
    StripInk(s);
  }

  /** A run of `n` fence characters and an info word open a fence of length `n` from three on, wherever the line stands. */
  lemma FenceOpens(before: string, c: char, n: nat, info: string, after: string)
    requires Blank(before) && Blank(after) && FenceChar(c) && n >= 1 && WordText(info)
    ensures Next(NoFence, before + (Repeat(c, n) + info) + after) == if n >= 3 then InFence(c, n) else NoFence
  {
    hide Strip, RunLen;
    var s := Repeat(c, n) + info;
    StripPadded(before, s, after);
    FenceInk(c, n, info);
    RunThenWord(c, n, info);
    assert s[0] == c;
    assert s[n..] == info;
    assert forall i :: n <= i < |s| ==> s[i] == info[i - n];
  }

  /** Inside a fence exactly a line of its own run, blanks around it aside, closes it. */
  lemma FenceCloses(c: char, n: nat, line: string)
    ensures Next(InFence(c, n), line) == NoFence <==> Strip(line) == Repeat(c, n)
    ensures Strip(line) != Repeat(c, n) ==> Next(InFence(c, n), line) == InFence(c, n)
  {
    StripTwice(line);
  }

  lemma StripTwice(s: string)
    ensures Strip(Strip(s)) == Strip(s)
  {
    hide LStrip, RStrip;
    StripEnds(s);
    if Strip(s) != "" {
      StripInk(Strip(s));
    } else {
      StripBlank("");
    }
  }

  /** Every fence is one of those lines. */
  lemma OpensOnlySo(line: string, c: char, n: nat)
    requires Next(NoFence, line) == InFence(c, n)
    ensures FenceChar(c) && n >= 3 && exists info :: WordText(info) && Strip(line) == Repeat(c, n) + info
  {
    hide Strip;
    StripTwice(line);
    var s := Strip(line);
    assert s[..n] == Repeat(c, n);
    assert WordText(s[n..]);
    assert s == Repeat(c, n) + s[n..];
  }

  /** Inside a fence nothing is read and the fence stays open until a line closes it. */
  lemma {:induction false} FenceHides(c: char, n: nat, lines: seq<string>)
    requires forall i :: 0 <= i < |lines| ==> Strip(lines[i]) != Repeat(c, n)
    ensures HeadsFrom(InFence(c, n), lines) == [] && FenceAfter(InFence(c, n), lines) == InFence(c, n)
    decreases |lines|
  {
    hide HeadingOf, Next, Strip;
    if lines != [] {
      FenceCloses(c, n, lines[0]);
      FenceHides(c, n, lines[1..]);
    }
  }

  /** A line that is not inside a fence and opens one. */
  ghost predicate Opener(line: string, c: char, n: nat) {
    OneLine(line) && Terminated(line) && FenceChar(c) && n >= 3 && exists info :: WordText(info) && Strip(line) == Repeat(c, n) + info
  }

  lemma OpenerOpens(line: string, c: char, n: nat)
    requires Opener(line, c, n)
    ensures Next(NoFence, line) == InFence(c, n) && Head(NoFence, line) == None
  {
    hide OneLine, Terminated, HeadingOf;
    var info :| WordText(info) && Strip(line) == Repeat(c, n) + info;
    FenceOpens("", c, n, info, "");
    assert "" + (Repeat(c, n) + info) + "" == Strip(line);
    NextOfStrip(line);
  }

  lemma NextOfStrip(line: string)
    ensures Next(NoFence, Strip(line)) == Next(NoFence, line)
  {
    hide Strip;
    StripTwice(line);
  }

  /**
   * From a fence line of length three or more to the first line that closes it nothing is read as a heading, and
   * after that line reading goes on as from the start of a text.
   */
  lemma FencedBlockHidden(opener: string, inside: seq<string>, closer: string, rest: seq<string>, c: char, n: nat)
    requires Opener(opener, c, n) && (forall i :: 0 <= i < |inside| ==> Strip(inside[i]) != Repeat(c, n))
    requires Strip(closer) == Repeat(c, n)
    ensures HeadsFrom(NoFence, [opener] + inside + [closer] + rest) == HeadsFrom(NoFence, rest)
    ensures HeadsFrom(NoFence, [opener] + inside) == []
  {
    hide Head, Next, Strip, Opener, HeadsFrom, FenceAfter;
    OpenerOpens(opener, c, n);
    FenceHides(c, n, inside);
    CloserCloses(closer, c, n);
    HeadsOne(NoFence, opener);
    HeadsOne(InFence(c, n), closer);
    var a, b := [opener] + inside, [opener] + inside + [closer];
    HeadsConcat(NoFence, [opener], inside);
    FenceAfterConcat(NoFence, [opener], inside);
    HeadsConcat(NoFence, a, [closer]);
    FenceAfterConcat(NoFence, a, [closer]);
    HeadsConcat(NoFence, b, rest);
  }

  lemma HeadsOne(f: Fence, line: string)
    ensures HeadsFrom(f, [line]) == match Head(f, line) case None => [] case Some(h) => [h]
    ensures FenceAfter(f, [line]) == Next(f, line)
  {
    hide Head, Next;
    assert [line][1..] == [];
    assert HeadsFrom(Next(f, line), []) == [] && FenceAfter(Next(f, line), []) == Next(f, line);
  }

  lemma CloserCloses(line: string, c: char, n: nat)
    requires Strip(line) == Repeat(c, n)
    ensures Next(InFence(c, n), line) == NoFence && Head(InFence(c, n), line) == None
  {
    hide Next, Strip, HeadingOf;
    FenceCloses(c, n, line);
  }

  /** In whole texts: a fenced block, closed or running to the end, hides the headings in it and no others. */
  lemma FencedTextHidden(opener: string, inside: string, closer: string, rest: string, c: char, n: nat)
    requires Opener(opener, c, n) && Strip(closer) == Repeat(c, n) && OneLine(closer) && Terminated(closer)
    requires (forall i :: 0 <= i < |SplitLines(inside)| ==> Strip(SplitLines(inside)[i]) != Repeat(c, n))
    requires Seam(opener, inside) && Seam(opener + inside, closer) && Seam(opener + inside + closer, rest)
    ensures HeadsIn(opener + inside + closer + rest) == HeadsIn(rest)
    ensures HeadsIn(opener + inside) == []
  {
    hide HeadsFrom, SplitLines, Seam, Strip;
    FencedBlockHidden(opener, SplitLines(inside), closer, SplitLines(rest), c, n);
    SplitSeam(opener, inside);
    SplitSeam(opener + inside, closer);
    SplitSeam(opener + inside + closer, rest);
    SplitOne(opener);
    SplitOne(closer);
  }

  lemma SplitOne(line: string)
    requires OneLine(line)
    ensures SplitLines(line) == [line]
  {
    hide OneLine, Seam;
    SeamEmpty(line);
    SplitCons(line, "");
    SplitNothing();
    assert line + "" == line;
  }
}
