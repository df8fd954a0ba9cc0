/** The one-pass section parser, proved against the section list of the outline. */
module Parser {
  import opened Text
  import opened MarkdownFence
  import opened Outline
  import opened Sections

  /** The outline after one more line, read with fence state `f`. */
  function AddLine(d: Doc, f: Fence, line: string): Doc {
    match Head(f, line)
    case Some(h) => Doc(d.pre, d.blocks + [Block(h.level, h.text, line, [])])
    case None =>
      if d.blocks == [] then Doc(d.pre + [line], [])
      else
        var n := |d.blocks| - 1;
        Doc(d.pre, d.blocks[..n] + [d.blocks[n].(body := d.blocks[n].body + [line])])
  }

  lemma AddAfterCons(h: Option<Heading>, line: string, rest: Doc, f: Fence, last: string)
    ensures AddLine(ConsLine(h, line, rest), f, last) == ConsLine(h, line, AddLine(rest, f, last))
  {
    hide Head;
    var n := |rest.blocks|;
    match h
    case None =>
    case Some(g) =>
      var b := Block(g.level, g.text, line, rest.pre);
      var bs := [b] + rest.blocks;
      if Head(f, last).None? && n > 0 {
        assert bs[..n] == [b] + rest.blocks[..n - 1];
      }
  }

  lemma {:induction false} OutlineSnoc(f: Fence, lines: seq<string>, last: string)
    ensures OutlineFrom(f, lines + [last]) == AddLine(OutlineFrom(f, lines), FenceAfter(f, lines), last)
    decreases |lines|
  {
    hide Head, Next;
    if lines == [] {
      assert lines + [last] == [last];
      assert OutlineFrom(Next(f, last), [last][1..]) == Doc([], []);
    } else {
      var more := lines + [last];
      assert more[0] == lines[0] && more[1..] == lines[1..] + [last];
      OutlineSnoc(Next(f, lines[0]), lines[1..], last);
      OutlineIsCons(f, more);
      OutlineIsCons(f, lines);
      AddAfterCons(Head(f, lines[0]), lines[0], OutlineFrom(Next(f, lines[0]), lines[1..]), FenceAfter(f, lines), last);
    }
  }

  /** A section as first appended by the scan: it runs to the end of the text. */
  function Draft(text: string, d: Doc, k: nat): Section
    requires k < |d.blocks| && Off(d, k) <= |text|
  {
    var b := d.blocks[k];
    Section(b.heading, b.level, SlashJoin(StackAt(d.blocks, k + 1)), HeadAt(d, k) + 1,
            AfterNewline(text, Off(d, k)), |text|, 0)
  }

  predicate Drafted(text: string, d: Doc, sections: seq<Section>) {
    && |sections| == |d.blocks|
    && forall k :: 0 <= k < |sections| ==> Off(d, k) <= |text| && sections[k] == Draft(text, d, k)
  }

  lemma {:induction false} StackPrefix(a: seq<Block>, b: seq<Block>, k: nat)
    requires k <= |a| && k <= |b|
    requires forall t :: 0 <= t < k ==> a[t].level == b[t].level && a[t].heading == b[t].heading
    ensures StackAt(a, k) == StackAt(b, k)
  {
    if k > 0 {
      StackPrefix(a, b, k - 1);
    }
  }

  lemma DraftSame(text: string, d: Doc, e: Doc, k: nat)
    requires k < |d.blocks| && k < |e.blocks| && Off(d, k) <= |text|
    requires e.pre == d.pre && e.blocks[..k] == d.blocks[..k]
    requires e.blocks[k].level == d.blocks[k].level && e.blocks[k].heading == d.blocks[k].heading
    ensures Off(e, k) == Off(d, k) && Draft(text, e, k) == Draft(text, d, k)
  {
    hide Push, SlashJoin, BlockLines, Join;
    forall t | 0 <= t < k + 1
      ensures d.blocks[t].level == e.blocks[t].level && d.blocks[t].heading == e.blocks[t].heading
    {
      if t < k {
        assert d.blocks[..k][t] == e.blocks[..k][t];
      }
    }
    StackPrefix(d.blocks, e.blocks, k + 1);
  }

  /** Adding a body line leaves every draft as it is. */
  lemma DraftsKept(text: string, d: Doc, f: Fence, line: string, sections: seq<Section>)
    requires Drafted(text, d, sections) && Head(f, line).None?
    ensures Drafted(text, AddLine(d, f, line), sections)
    ensures StackAt(AddLine(d, f, line).blocks, |d.blocks|) == StackAt(d.blocks, |d.blocks|)
  {
    hide Head, StackAt, Draft, Off;
    var e := AddLine(d, f, line);
    StackPrefix(d.blocks, e.blocks, |d.blocks|);
    forall k | 0 <= k < |sections| ensures Off(e, k) <= |text| && sections[k] == Draft(text, e, k) {
      assert e.blocks[..k] == d.blocks[..k];
      DraftSame(text, d, e, k);
    }
  }

  /** A heading line appends its own draft. */
  lemma DraftAdded(text: string, d: Doc, f: Fence, line: string, sections: seq<Section>)
    requires Drafted(text, d, sections) && Head(f, line).Some? && |Join(LinesOf(d))| <= |text|
    ensures var e := AddLine(d, f, line);
      |e.blocks| == |d.blocks| + 1 && Off(e, |d.blocks|) == |Join(LinesOf(d))| && HeadAt(e, |d.blocks|) == |LinesOf(d)|
      && StackAt(e.blocks, |e.blocks|) == Push(StackAt(d.blocks, |d.blocks|), e.blocks[|d.blocks|])
      && Drafted(text, e, sections + [Draft(text, e, |d.blocks|)])
  {
    hide Head, Push, Join, Draft;
    var e := AddLine(d, f, line);
    var n := |d.blocks|;
    assert e.blocks[..n] == d.blocks;
    StackPrefix(d.blocks, e.blocks, n);
    forall k | 0 <= k < n ensures Off(e, k) <= |text| && sections[k] == Draft(text, e, k) {
      assert e.blocks[..k] == d.blocks[..k];
      DraftSame(text, d, e, k);
    }
  }

  /** `_HEADING_RE.match` and the path stack: one heading becomes one section. */
  method AddHeading(text: string, lineIdx: nat, charOffset: nat, stack: seq<Frame>, level: nat, headingText: string)
    returns (section: Section, stack': seq<Frame>)
    requires charOffset <= |text|
    ensures stack' == Pop(stack, level) + [Frame(level, Escape(headingText))]
    ensures section == Section(headingText, level, SlashJoin(stack'), lineIdx + 1,
                               AfterNewline(text, charOffset), |text|, 0)
  {
    var pathStack := stack;
    while pathStack != [] && pathStack[|pathStack| - 1].level >= level
      invariant Pop(pathStack, level) == Pop(stack, level)
    {
      pathStack := pathStack[..|pathStack| - 1];
    }
    var esc := Escape(headingText);
    stack' := pathStack + [Frame(level, esc)];
    assert stack'[..|stack'| - 1] == pathStack;
    var path := if pathStack != [] then SlashJoin(pathStack) + "/" + esc else esc;
    section := Section(headingText, level, path, lineIdx + 1, AfterNewline(text, charOffset), |text|, 0);
  }

  method ScanHeadings(text: string, lines: seq<string>) returns (sections: seq<Section>)
    requires lines == SplitLines(text)
    ensures Drafted(text, OutlineOf(text), sections)
  {
    hide Next, Pop, ParseFenceOpen, IsClosingFenceLine, HeadingOf, SplitLines, OutlineFrom, Join, AddLine,
      Drafted, StackAt, FenceAfter, SlashJoin, Escape, AfterNewline;
    sections := [];
    var fence := NoFence;
    var charOffset := 0;
    var stack: seq<Frame> := [];
    ghost var d := Doc([], []);
    ScanStart(text, lines);
    for i := 0 to |lines|
      invariant d == OutlineFrom(NoFence, lines[..i]) && fence == FenceAfter(NoFence, lines[..i])
      invariant charOffset == Upto(lines, i)
      invariant stack == StackAt(d.blocks, |d.blocks|) && Drafted(text, d, sections)
    {
      var line := lines[i];
      ghost var before := fence;
      ScanStep(text, lines, i, d, sections);
      var shown;
      fence, shown := FenceLine(fence, line);
      if shown {
        var m := HeadingOf(line);
        if m.Some? {
          var section;
          section, stack := AddHeading(text, i, charOffset, stack, m.value.level, m.value.text);
          sections := sections + [section];
        }
      }
      d := AddLine(d, before, line);
      charOffset := charOffset + |line|;
    }
    assert lines[..|lines|] == lines;
  }

  lemma ScanStart(text: string, lines: seq<string>)
    ensures OutlineFrom(NoFence, lines[..0]) == Doc([], []) && FenceAfter(NoFence, lines[..0]) == NoFence
    ensures Upto(lines, 0) == 0 && Drafted(text, Doc([], []), []) && StackAt([], 0) == []
  {
  }

  /** What the loop invariant says about line `i`, whatever that line turns out to be. */
  lemma ScanStep(text: string, lines: seq<string>, i: nat, d: Doc, sections: seq<Section>)
    requires lines == SplitLines(text) && i < |lines| && d == OutlineFrom(NoFence, lines[..i]) && Drafted(text, d, sections)
    ensures var f := FenceAfter(NoFence, lines[..i]);
      var e := AddLine(d, f, lines[i]);
      && OutlineFrom(NoFence, lines[..i + 1]) == e
      && FenceAfter(NoFence, lines[..i + 1]) == Next(f, lines[i])
      && Upto(lines, i + 1) == Upto(lines, i) + |lines[i]|
      && Upto(lines, i) <= |text|
      && match Head(f, lines[i])
         case None => Drafted(text, e, sections) && StackAt(e.blocks, |e.blocks|) == StackAt(d.blocks, |d.blocks|)
         case Some(h) =>
           var stack := Push(StackAt(d.blocks, |d.blocks|), Block(h.level, h.text, lines[i], []));
           StackAt(e.blocks, |e.blocks|) == stack
           && Drafted(text, e, sections + [Section(h.text, h.level, SlashJoin(stack), i + 1,
                                                   AfterNewline(text, Upto(lines, i)), |text|, 0)])
  {
    hide Head, Next, Push, Drafted, SplitLines, OutlineFrom, FenceAfter;
    var f := FenceAfter(NoFence, lines[..i]);
    assert lines[..i + 1] == lines[..i] + [lines[i]];
    OutlineSnoc(NoFence, lines[..i], lines[i]);
    FenceAfterSnoc(NoFence, lines, i);
    JoinConcat(lines[..i], [lines[i]]);
    assert Join([lines[i]]) == lines[i];
    CutAt(text, i);
    LinesOfOutline(NoFence, lines[..i]);
    if Head(f, lines[i]).None? {
      DraftsKept(text, d, f, lines[i], sections);
    } else {
      DraftAdded(text, d, f, lines[i], sections);
    }
  }

  /** The inner loop: the offset of the next heading whose level does not exceed that of section `i`. */
  method FindEnd(text: string, lines: seq<string>, sections: seq<Section>, i: nat) returns (end: nat)
    requires lines == SplitLines(text) && i < |sections| == |OutlineOf(text).blocks| && sections[i].end == |text|
    requires forall k :: 0 <= k < |sections| ==>
      sections[k].level == OutlineOf(text).blocks[k].level && sections[k].line == HeadAt(OutlineOf(text), k) + 1
    ensures end == Off(OutlineOf(text), EndIdx(OutlineOf(text).blocks, i))
  {
    hide OutlineOf, SplitLines, Off, HeadAt, Upto;
    ghost var blocks := OutlineOf(text).blocks;
    end := sections[i].end;
    OffEnd(text);
    for j := i + 1 to |sections|
      invariant NextAtMost(blocks, blocks[i].level, j) == EndIdx(blocks, i) && end == |text|
    {
      if sections[j].level <= sections[i].level {
        UptoHead(text, j);
        return Upto(lines, sections[j].line - 1);
      }
    }
  }

  /** Closes each section at the next heading of no greater level. */
  method CloseSections(text: string, lines: seq<string>, drafts: seq<Section>) returns (sections: seq<Section>)
    requires lines == SplitLines(text) && Drafted(text, OutlineOf(text), drafts)
    ensures |sections| == |drafts|
    ensures forall k :: 0 <= k < |drafts| ==>
      sections[k] == drafts[k].(end := Off(OutlineOf(text), EndIdx(OutlineOf(text).blocks, k)))
  {
    hide OutlineOf, SplitLines, Off, HeadAt, StackAt, SlashJoin, EndIdx;
    ghost var d := OutlineOf(text);
    sections := drafts;
    for i := 0 to |sections|
      invariant |sections| == |drafts|
      invariant forall k :: 0 <= k < i ==> sections[k] == drafts[k].(end := Off(d, EndIdx(d.blocks, k)))
      invariant forall k :: i <= k < |drafts| ==> sections[k] == drafts[k]
    {
      var end := FindEnd(text, lines, sections, i);
      sections := sections[i := sections[i].(end := end)];
    }
  }

  method ParseSections(text: string) returns (sections: seq<Section>)
    ensures sections == SectionsOf(text)
  {
    hide OutlineOf, SectionsOf, SplitLines, Off, HeadAt, Upto, Drafted, SlashJoin, StackAt;
    var lines := SplitLines(text);
    var drafts := ScanHeadings(text, lines);
    var closed := CloseSections(text, lines, drafts);
    ghost var d := OutlineOf(text);
    assert |closed| == |d.blocks| && forall k :: 0 <= k < |closed| ==>
      Off(d, k) <= |text| && SectionAt(text, d, k) == closed[k].(chars := Span(closed[k].start, closed[k].end)) by {
      DraftsToSections(text, drafts, closed);
    }
    UptoHead(text, 0);
    var preambleEnd := |text|;
    if closed != [] {
      preambleEnd := Upto(lines, closed[0].line - 1);
    } else {
      OffEnd(text);
    }
    assert preambleEnd == Off(d, 0) by { FirstLineIdx(text, drafts, closed); }
    var listed := [Section("", 0, "", 1, 0, preambleEnd, 0)] + closed;
    sections := CountChars(listed);
    PreambleIs(text);
    forall k | 0 <= k < |sections| ensures sections[k] == SectionsOf(text)[k] {
      if k > 0 {
        assert listed[k] == closed[k - 1];
        SectionsAre(text, k - 1);
      }
    }
  }

  /** The last loop: the length of each section's range. */
  method CountChars(listed: seq<Section>) returns (sections: seq<Section>)
    ensures |sections| == |listed|
    ensures forall k :: 0 <= k < |listed| ==> sections[k] == listed[k].(chars := Span(listed[k].start, listed[k].end))
  {
    sections := listed;
    for i := 0 to |sections|
      invariant |sections| == |listed|
      invariant forall k :: 0 <= k < i ==> sections[k] == listed[k].(chars := Span(listed[k].start, listed[k].end))
      invariant forall k :: i <= k < |sections| ==> sections[k] == listed[k]
    {
      sections := sections[i := sections[i].(chars := Span(sections[i].start, sections[i].end))];
    }
  }

  lemma DraftsToSections(text: string, drafts: seq<Section>, closed: seq<Section>)
    requires Drafted(text, OutlineOf(text), drafts) && |closed| == |drafts|
    requires forall k :: 0 <= k < |drafts| ==>
      closed[k] == drafts[k].(end := Off(OutlineOf(text), EndIdx(OutlineOf(text).blocks, k)))
    ensures var d := OutlineOf(text);
      |closed| == |d.blocks| && forall k :: 0 <= k < |closed| ==>
        Off(d, k) <= |text| && SectionAt(text, d, k) == closed[k].(chars := Span(closed[k].start, closed[k].end))
  {
    hide OutlineOf, Off, HeadAt, SlashJoin, StackAt;
  }

  lemma FirstLineIdx(text: string, drafts: seq<Section>, closed: seq<Section>)
    requires Drafted(text, OutlineOf(text), drafts) && |closed| == |drafts|
    requires closed != [] ==> closed[0].line == drafts[0].line
    ensures closed != [] ==>
      && 0 < closed[0].line <= |SplitLines(text)| + 1
      && Upto(SplitLines(text), closed[0].line - 1) == Off(OutlineOf(text), 0)
    ensures closed == [] ==> |text| == Off(OutlineOf(text), 0)
  {
    hide OutlineOf, SplitLines, Off, HeadAt, Upto;
    UptoHead(text, 0);
    OffEnd(text);
  }
}
