/** Re-parsing after an append: the section reads its old body, then the fragment. */
module AppendReparse {
  import opened Text
  import opened MarkdownFence
  import opened Outline
  import opened Sections
  import opened Splice
  import opened Edits
  import opened Body
  import opened Replace
  import opened ReplaceReparse
  import opened Insert
  import opened Append

  /** The outline of two runs of lines, the first leaving no fence open and the second starting with a heading. */
  lemma {:induction false} OutlineConcat(f: Fence, x: seq<string>, y: seq<string>)
    requires FenceAfter(f, x) == NoFence && OutlineFrom(NoFence, y).pre == []
    ensures var a, b := OutlineFrom(f, x), OutlineFrom(NoFence, y);
      OutlineFrom(f, x + y) == Doc(a.pre, a.blocks + b.blocks)
    decreases |x|
  {
    if x == [] {
      hide Head, Next;
      assert x + y == y;
    } else {
      hide Head, Next, OutlineFrom;
      assert (x + y)[1..] == x[1..] + y;
      OutlineConcat(Next(f, x[0]), x[1..], y);
      OutlineIsCons(f, x + y);
      OutlineIsCons(f, x);
      ConsThen(Head(f, x[0]), x[0], OutlineFrom(Next(f, x[0]), x[1..]), OutlineFrom(NoFence, y).blocks);
    }
  }

  lemma ConsThen(h: Option<Heading>, line: string, d: Doc, more: seq<Block>)
    ensures ConsLine(h, line, Doc(d.pre, d.blocks + more)) ==
      Doc(ConsLine(h, line, d).pre, ConsLine(h, line, d).blocks + more)
  {
  }

  /** Where a text is cut before a heading, the cut is that heading's offset. */
  lemma OffOfSeam(a: string, b: string)
    requires Seam(a, b) && FenceEnd(a) == NoFence && OutlineOf(b).pre == []
    ensures var n := |HeadsIn(a)|; n <= |OutlineOf(a + b).blocks| && Off(OutlineOf(a + b), n) == |a|
  {
    hide OutlineFrom, SplitLines, FenceAfter, HeadsFrom, Seam, Join, BlockLines, Shape;
    var x, y := SplitLines(a), SplitLines(b);
    SplitSeam(a, b);
    OutlineConcat(NoFence, x, y);
    var d, e := OutlineFrom(NoFence, x), OutlineOf(a + b);
    HeadsAreShape(NoFence, x);
    ShapeLen(d.blocks);
    LinesOfOutline(NoFence, x);
    assert e.blocks[..|d.blocks|] == d.blocks;
    JoinSplit(a);
  }

  lemma TailStartsWithHead(text: string, m: nat)
    requires m <= |OutlineOf(text).blocks| && Off(OutlineOf(text), m) <= |text|
    ensures OutlineOf(text[Off(OutlineOf(text), m)..]).pre == []
  {
    hide OutlineFrom, SplitLines, BlocksOk;
    var d := OutlineOf(text);
    OffCut(text, m);
    TextOfOutline(text);
    assert d.blocks[m..|d.blocks|] == d.blocks[m..];
    BlocksOkSlice(d.blocks, m, |d.blocks|);
    OutlineOfLines(text[Off(d, m)..], Doc([], d.blocks[m..]));
  }

  lemma HeadStarts(head: string, rest: string)
    requires OneLine(head) && EndsWith(head, "\n") && Head(NoFence, head).Some?
    ensures OutlineOf(head + rest).pre == []
  {
    hide Head, OneLine, Seam;
    NewlineSeam(head, rest);
    SplitCons(head, rest);
  }

  lemma SeamFirst(a: string, b: string, c: string)
    requires Seam(a, b) && b != "" && c != "" && b[0] == c[0]
    ensures Seam(a, c)
  {
  }

  lemma SeamBeforeHead(text: string, i: nat)
    requires i < |OutlineOf(text).blocks| && Off(OutlineOf(text), i) <= |text|
    ensures Seam(text[..Off(OutlineOf(text), i)], text[Off(OutlineOf(text), i)..])
  {
    hide OutlineOf, Off, SplitLines, BlocksOk, Seam, Join, GoodLines, Quiet, Balanced;
    var d := OutlineOf(text);
    TextOfOutline(text);
    OffCut(text, i);
    BlocksOkSlice(d.blocks, i, |d.blocks|);
    assert d.blocks[i..|d.blocks|] == d.blocks[i..];
    BeforeHeadTerminated(text, i);
    HeadSeam(LinesBefore(d, i), d.blocks[i..]);
  }

  /** A heading whose line and everything before it stay keeps its offset. */
  lemma OffKept(text: string, text': string, i: nat)
    requires i < |OutlineOf(text).blocks| && EndsWith(OutlineOf(text).blocks[i].head, "\n")
    requires var p := Off(OutlineOf(text), i) + |OutlineOf(text).blocks[i].head|;
      p <= |text| && p <= |text'| && text'[..p] == text[..p]
    ensures i <= |OutlineOf(text').blocks| && Off(OutlineOf(text'), i) == Off(OutlineOf(text), i)
    ensures AfterNewline(text', Off(OutlineOf(text), i)) == Off(OutlineOf(text), i) + |OutlineOf(text).blocks[i].head|
  {
    hide OutlineOf, SplitLines, HeadsIn, FenceEnd, Head, Seam, OneLine, AfterNewline, Off, BlocksOk;
    var d := OutlineOf(text);
    var o, head := Off(d, i), d.blocks[i].head;
    OffCut(text, i);
    HeadIsLine(text, i);
    TextOfOutline(text);
    assert BlockOk(d.blocks[i]) by { BlockIsOk(d.blocks, i); }
    HeadsSplit(text, i);
    SeamBeforeHead(text, i);
    var a, rest := text'[..o], text'[o + |head|..];
    SameParts(text, text', o, head);
    HeadStarts(head, rest);
    NewlineNotEmpty(head);
    SeamFirst(a, text[o..], head + rest);
    OffOfSeam(a, head + rest);
    HeadNewline(text', o, head);
  }

  lemma SameParts(text: string, text': string, o: nat, head: string)
    requires o + |head| <= |text| && o + |head| <= |text'| && text'[..o + |head|] == text[..o + |head|]
    requires text[o..o + |head|] == head
    ensures text'[..o] == text[..o] && text'[o..o + |head|] == head && text' == text'[..o] + (head + text'[o + |head|..])
    ensures head != "" ==> text[o..] != "" && text[o..][0] == (head + text'[o + |head|..])[0]
  {
    assert text'[..o] == text'[..o + |head|][..o] == text[..o + |head|][..o];
    assert text'[o..o + |head|] == text'[..o + |head|][o..] == text[..o + |head|][o..];
    assert head != "" ==> text[o..][0] == text[o..o + |head|][0];
  }

  lemma NewlineNotEmpty(s: string)
    requires EndsWith(s, "\n")
    ensures s != ""
  {
  }

  lemma BlockIsOk(blocks: seq<Block>, i: nat)
    requires BlocksOk(blocks) && i < |blocks|
    ensures BlockOk(blocks[i])
  {
  }

  lemma EndIdxSame(a: seq<Block>, b: seq<Block>, i: nat)
    requires |a| == |b| && SameHeads(a, b, |a|) && i < |a|
    ensures EndIdx(a, i) == EndIdx(b, i)
  {
    hide NextAtMost;
    NextSame(a, b, |a|, a[i].level, i + 1);
  }

  /** Texts with the same headings have the same nesting. */
  lemma SameHeadsSameEnds(text: string, text': string, i: nat)
    requires HeadsIn(text) == HeadsIn(text') && i < |OutlineOf(text).blocks|
    ensures |OutlineOf(text').blocks| == |OutlineOf(text).blocks|
    ensures EndIdx(OutlineOf(text').blocks, i) == EndIdx(OutlineOf(text).blocks, i)
  {
    hide OutlineFrom, HeadsFrom, SplitLines, EndIdx, Shape;
    var d, d' := OutlineOf(text), OutlineOf(text');
    HeadsAreShape(NoFence, SplitLines(text));
    HeadsAreShape(NoFence, SplitLines(text'));
    ShapeLen(d.blocks);
    ShapeLen(d'.blocks);
    forall u | 0 <= u < |d.blocks|
      ensures d.blocks[u].level == d'.blocks[u].level && d.blocks[u].heading == d'.blocks[u].heading
    {
      ShapeAt(d.blocks, u);
      ShapeAt(d'.blocks, u);
    }
    EndIdxSame(d.blocks, d'.blocks, i);
  }

  /** Where the appended section ends in the new text. */
  lemma AppendEnd(text: string, k: nat, added: string)
    requires k < |SectionsOf(text)| && HeadingEnded(text, k)
    requires SectionsOf(text)[k].end == |text| ==> FenceEnd(text) == NoFence
    requires PlainBody(NewBody(text, k, added))
    ensures var text', sec, m := AppendSection(text, k, added).0, SectionsOf(text)[k], NextKept(text, k) - 1;
      && sec.start <= sec.end <= |text|
      && text' == text[..sec.start] + Appended(text, k, added) + text[sec.end..]
      && m <= |OutlineOf(text').blocks| && Off(OutlineOf(text'), m) == sec.start + |Appended(text, k, added)|
  {
    hide OutlineOf, SectionsOf, HeadsIn, FenceEnd, PadBody, StripLeadingHeading, PlainBody, HeadingEnded, Off, HeadAt, EndIdx, Ended,
      Seam;
    var sec, m := SectionsOf(text)[k], NextKept(text, k) - 1;
    SectionBounds(text, k);
    SectionIsBlock(text, k);
    PreambleIs(text);
    OffEnd(text);
    var s, cur, after := text[..sec.start], text[sec.start..sec.end], text[sec.end..];
    assert s + cur == text[..sec.end];
    if k > 0 {
      NewlineBefore(text, sec.start);
    }
    HeadsSplit(text, m);
    AppendedPrefix(s, cur, NewBody(text, k, added), after);
    var y := s + Appended(text, k, added);
    NewlineSeam(y, after);
    TailStartsWithHead(text, m);
    OffOfSeam(y, after);
  }

  /** After an append the section reads as its old body, its last line ended, then the fragment; the rest is untouched. */
  lemma AppendReadsBack(text: string, k: nat, added: string)
    requires k < |SectionsOf(text)| && HeadingEnded(text, k)
    requires SectionsOf(text)[k].end == |text| ==> FenceEnd(text) == NoFence
    requires PlainBody(NewBody(text, k, added))
    ensures var text', sec := AppendSection(text, k, added).0, SectionsOf(text)[k];
      && k < |SectionsOf(text')|
      && ReadsBack(text, sec, text', SectionsOf(text')[k], Appended(text, k, added))
      && sec.start <= sec.end <= |text| && Ended(text[sec.start..sec.end]) + NewBody(text, k, added) <= Appended(text, k, added)
  {
    hide OutlineOf, SectionsOf, HeadsIn, FenceEnd, AppendSection, PlainBody, HeadingEnded, NewBody, Off, HeadAt, EndIdx, Ended,
      SlashJoin, StackAt, AfterNewline, ReadsBack, Appended;
    var text', sec, p := AppendSection(text, k, added).0, SectionsOf(text)[k], Appended(text, k, added);
    AppendEnd(text, k, added);
    AppendKeepsPaths(text, k, added, k);
    AppendKeepsHeads(text, k, added);
    PreambleIs(text);
    PreambleIs(text');
    SectionIsBlock(text, k);
    AppendedExtends(text, k, added);
    Parts(text[..sec.start], p, text[sec.end..]);
    if k > 0 {
      StartKept(text, text', k);
      SameHeadsSameEnds(text, text', k - 1);
      SectionsAre(text', k - 1);
    }
    ReadsParts(text, sec, text', SectionsOf(text')[k], p);
  }

  lemma Parts(a: string, p: string, b: string)
    ensures (a + p + b)[..|a|] == a && (a + p + b)[|a|..|a| + |p|] == p && (a + p + b)[|a| + |p|..] == b
  {
  }

  lemma ReadsParts(text: string, sec: Section, text': string, sec': Section, p: string)
    requires sec.start <= sec.end <= |text| && text' == text[..sec.start] + p + text[sec.end..]
    requires sec'.level == sec.level && sec'.heading == sec.heading && sec'.path == sec.path
    requires sec'.start == sec.start && sec'.end == sec.start + |p|
    ensures ReadsBack(text, sec, text', sec', p)
  {
    Parts(text[..sec.start], p, text[sec.end..]);
  }

  lemma AppendedExtends(text: string, k: nat, added: string)
    requires k < |SectionsOf(text)| && SectionsOf(text)[k].start <= SectionsOf(text)[k].end <= |text|
    ensures var sec := SectionsOf(text)[k];
      Ended(text[sec.start..sec.end]) + NewBody(text, k, added) <= Appended(text, k, added)
  {
    hide SectionsOf, NewBody, Ended;
    var sec := SectionsOf(text)[k];
    PadExtends(Ended(text[sec.start..sec.end]) + NewBody(text, k, added), text[sec.end..]);
    assert Slice(text, sec.start, sec.end) == text[sec.start..sec.end];
  }

  lemma PadExtends(body: string, after: string)
    ensures body <= PadBody(body, after)
  {
  }

  /** The section starts where it did as long as the text up to there is the same. */
  lemma StartKept(text: string, text': string, k: nat)
    requires 1 <= k < |SectionsOf(text)| && k < |SectionsOf(text')| && HeadingEnded(text, k)
    requires var start := SectionsOf(text)[k].start; start <= |text| && start <= |text'| && text'[..start] == text[..start]
    ensures SectionsOf(text')[k].start == SectionsOf(text)[k].start
  {
    hide OutlineOf, SectionsOf, Off, HeadAt, AfterNewline, SplitLines, EndIdx, StackAt, SlashJoin, HeadingEnded;
    PreambleIs(text);
    PreambleIs(text');
    SectionsAre(text, k - 1);
    SectionsAre(text', k - 1);
    SectionIsBlock(text, k);
    HeadIsLine(text, k - 1);
    EndedHead(text, k);
    OffKept(text, text', k - 1);
  }

  lemma EndedHead(text: string, k: nat)
    requires 1 <= k < |SectionsOf(text)| && HeadingEnded(text, k)
    ensures k - 1 < |OutlineOf(text).blocks| && EndsWith(OutlineOf(text).blocks[k - 1].head, "\n")
  {
    hide OutlineOf, SectionsOf, Off, AfterNewline, SplitLines, EndIdx, StackAt, SlashJoin;
    PreambleIs(text);
    SectionsAre(text, k - 1);
    HeadIsLine(text, k - 1);
  }
}
