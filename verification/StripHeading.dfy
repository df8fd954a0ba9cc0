/** When a leading heading of a new body is dropped. */
module StripHeading {
  import opened Text
  import opened MarkdownFence
  import opened Outline
  import opened Sections
  import opened Splice
  import opened Edits
  import opened Body
  import opened Replace
  import opened Insert
  import opened AppendReparse
  import opened InsertReparse

  lemma BlankLineIsPlain(line: string)
    requires line != "" && Blank(line)
    ensures Head(NoFence, line) == None && Next(NoFence, line) == NoFence
  {
    hide HeadingOf;
    BlankIsNotFence(line);
    if HeadingOf(line).Some? {
      HeadingInk(line);
    }
  }

  /** Blank text holds no heading and no fence. */
  lemma {:induction false} BlankIsPlain(s: string)
    requires Blank(s)
    ensures PlainBody(s)
    decreases |s|
  {
    hide Head, Next, FirstLine, IsSpace;
    if s == "" {
      SplitNothing();
    } else {
      var n := FirstLine(s);
      BlankLineIsPlain(s[..n]);
      BlankIsPlain(s[n..]);
    }
  }

  /** The first heading of `content`: what it says, where its line and its body start. */
  predicate FirstIs(content: string, level: nat, heading: string, at: nat, start: nat) {
    && |SectionsOf(content)| > 1
    && var first := SectionsOf(content)[1];
    && first.level == level && first.heading == heading && first.start == start
    && 1 <= first.line <= |SplitLines(content)| + 1 && Upto(SplitLines(content), first.line - 1) == at
  }

  /** The first section of a text whose first heading line stands after a plain introduction. */
  lemma FirstSection(intro: string, level: nat, heading: string, eol: string, rest: string)
    requires 1 <= level <= 6 && EolOk(eol) && ValidHeading(heading) && Unbroken(heading)
    requires PlainBody(intro) && (intro == "" || EndsWith(intro, "\n"))
    ensures var line := HeadLine(level, heading, eol);
      FirstIs(intro + (line + rest), level, heading, |intro|, |intro| + |line|)
  {
    hide OutlineOf, SectionsOf, HeadsIn, FenceEnd, ValidHeading, Unbroken, Off, HeadAt, EndIdx, StackAt, SlashJoin, AfterNewline,
      SplitLines, Upto, HeadLine, OneLine, Seam;
    var line := HeadLine(level, heading, eol);
    var content := intro + (line + rest);
    HeadLineParses(level, heading, eol, rest);
    NewlineSeam(intro, line + rest);
    OffOfSeam(intro, line + rest);
    HeadsSeam(intro, line + rest);
    HeadLineHeads(level, heading, eol);
    NewlineSeam(line, rest);
    HeadsSeam(line, rest);
    assert |HeadsIn(content)| > 0 && HeadsIn(content)[0] == Heading(level, heading);
    HeadCount(content);
    PreambleIs(content);
    PairsAreHeads(content, 1);
    SectionsAre(content, 0);
    UptoHead(content, 0);
    assert content[|intro|..|intro| + |line|] == line;
    HeadNewline(content, |intro|, line);
    SectionBounds(content, 1);
  }

  lemma HeadCount(text: string)
    ensures |OutlineOf(text).blocks| == |HeadsIn(text)|
  {
    hide OutlineFrom, HeadsFrom, Shape;
    HeadsAreShape(NoFence, SplitLines(text));
    ShapeLen(OutlineOf(text).blocks);
  }

  /** A body that repeats the section's own heading, after blank lines at most, loses exactly that. */
  lemma OwnHeadingDropped(pad: string, level: nat, heading: string, eol: string, rest: string)
    requires 1 <= level <= 6 && EolOk(eol) && ValidHeading(heading) && Unbroken(heading)
    requires Blank(pad) && (pad == "" || EndsWith(pad, "\n"))
    ensures StripLeadingHeading(pad + (HeadLine(level, heading, eol) + rest), level, heading) == (rest, true)
  {
    hide SectionsOf, ValidHeading, Unbroken, SplitLines, Upto, HeadLine, Strip, PlainBody;
    var content := pad + (HeadLine(level, heading, eol) + rest);
    BlankIsPlain(pad);
    FirstSection(pad, level, heading, eol, rest);
    StripBlank(pad);
    assert content[..|pad|] == pad;
    assert content[|pad| + |HeadLine(level, heading, eol)|..] == rest;
  }

  /** The body opens, after blank lines at most, with a heading of this level and text. */
  predicate OpensWith(content: string, level: nat, heading: string) {
    var d := OutlineOf(content);
    d.blocks != [] && Blank(Join(d.pre)) && d.blocks[0].level == level && d.blocks[0].heading == heading
  }

  /** The first heading of any body: what it says, and where its line stands. */
  lemma FirstBlock(content: string)
    requires OutlineOf(content).blocks != []
    ensures var b, pre := OutlineOf(content).blocks[0], Join(OutlineOf(content).pre);
      && |SectionsOf(content)| > 1
      && FirstIs(content, b.level, b.heading, |pre|, SectionsOf(content)[1].start)
      && |pre| + |b.head| <= |content| && content[..|pre|] == pre && content[|pre|..|pre| + |b.head|] == b.head
  {
    hide OutlineOf, SectionsOf, SplitLines, Upto, Join, EndIdx, StackAt, SlashJoin, OneLine, Off, AfterNewline;
    var d := OutlineOf(content);
    PreambleIs(content);
    SectionsAre(content, 0);
    UptoHead(content, 0);
    OffCut(content, 0);
    NothingBefore(d);
    HeadIsLine(content, 0);
    SectionBounds(content, 1);
  }

  lemma NothingBefore(d: Doc)
    ensures LinesBefore(d, 0) == d.pre && Off(d, 0) == |Join(d.pre)|
  {
    assert d.blocks[..0] == [];
  }

  lemma FirstStart(content: string)
    requires OutlineOf(content).blocks != [] && EndsWith(OutlineOf(content).blocks[0].head, "\n")
    ensures |SectionsOf(content)| > 1
    ensures SectionsOf(content)[1].start == |Join(OutlineOf(content).pre)| + |OutlineOf(content).blocks[0].head|
  {
    hide OutlineOf, SectionsOf, SplitLines, Join, EndIdx, StackAt, SlashJoin, OneLine, Off, AfterNewline;
    SectionsAre(content, 0);
    NothingBefore(OutlineOf(content));
    HeadIsLine(content, 0);
    HeadNewline(content, Off(OutlineOf(content), 0), OutlineOf(content).blocks[0].head);
  }

  lemma Regained(content: string, pre: string, head: string)
    requires |pre| + |head| <= |content| && content[..|pre|] == pre && content[|pre|..|pre| + |head|] == head
    ensures content == pre + head + content[|pre| + |head|..]
  {
  }

  /**
   * For every body: a leading heading is dropped exactly when the body opens with the section's own heading, and
   * what goes is the blank opening and that line; any other body is kept whole.
   */
  lemma HeadingDroppedIff(content: string, level: nat, heading: string)
    ensures var (kept, dropped) := StripLeadingHeading(content, level, heading);
      && (dropped <==> OpensWith(content, level, heading))
      && (!dropped ==> kept == content)
      && (dropped && EndsWith(OutlineOf(content).blocks[0].head, "\n") ==>
            content == Join(OutlineOf(content).pre) + OutlineOf(content).blocks[0].head + kept)
  {
    hide OutlineOf, SectionsOf, SplitLines, Upto, Strip, Join, Blank;
    var d := OutlineOf(content);
    PreambleIs(content);
    if d.blocks != [] {
      FirstBlock(content);
      StripBlank(Join(d.pre));
      Regained(content, Join(d.pre), d.blocks[0].head);
      if EndsWith(d.blocks[0].head, "\n") { FirstStart(content); }
    }
  }
}
