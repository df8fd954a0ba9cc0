/** Appending to the body of one section. */
module Append {
  import opened Text
  import opened MarkdownFence
  import opened Outline
  import opened Sections
  import opened Splice
  import opened Edits
  import opened Body
  import opened Replace
  import opened ReplaceReparse
  import opened Insert

  function AppendSection(text: string, k: nat, added: string): (string, bool)
    requires k < |SectionsOf(text)|
  {
    var sec := SectionsOf(text)[k];
    SectionBounds(text, k);
    var (frag, normalized) := StripLeadingHeading(added, sec.level, sec.heading);
    var cur := Slice(text, sec.start, sec.end);
    (SetSectionBody(text, sec, Ended(cur) + frag), normalized)
  }

  /** What the section reads as after the append. */
  function Appended(text: string, k: nat, added: string): string
    requires k < |SectionsOf(text)|
  {
    var sec := SectionsOf(text)[k];
    SectionBounds(text, k);
    PadBody(Ended(Slice(text, sec.start, sec.end)) + NewBody(text, k, added), text[sec.end..])
  }

  lemma EndedHeads(s: string, cur: string)
    requires FenceEnd(s + cur) == NoFence && (s == "" || EndsWith(s, "\n"))
    ensures var ended := Ended(cur);
      && HeadsIn(s + ended) == HeadsIn(s + cur) && FenceEnd(s + ended) == NoFence
      && (s + ended == "" || EndsWith(s + ended, "\n"))
  {
    hide HeadsIn, FenceEnd;
    AddEol(s + cur, "\n");
    assert s + (cur + "\n") == s + cur + "\n";
    EndsWithRight(s + cur, "\n");
    if cur == "" {
      assert s + cur == s;
    } else if EndsWith(cur, "\n") {
      EndsWithRight(s, cur);
    }
  }

  lemma PaddedHeads(s: string, body: string, after: string)
    requires FenceEnd(s + body) == NoFence && (s == "" || EndsWith(s, "\n"))
    ensures var y := s + PadBody(body, after);
      HeadsIn(y) == HeadsIn(s + body) && FenceEnd(y) == NoFence && (y == "" || EndsWith(y, "\n"))
  {
    hide HeadsIn, FenceEnd, PadBody;
    EndedHeads(s, body);
    var ended := Ended(body);
    AddEol(s + ended, "\n");
    assert s + (ended + "\n") == s + ended + "\n";
    EndsWithRight(s + ended, "\n");
    PadBodyIs(body, after);
  }

  lemma PadBodyIs(body: string, after: string)
    ensures var ended := Ended(body);
      PadBody(body, after) == ended || PadBody(body, after) == ended + "\n"
  {
  }

  /** The text up to the end of the section, once the fragment is in. */
  lemma AppendedPrefix(s: string, cur: string, frag: string, after: string)
    requires FenceEnd(s + cur) == NoFence && (s == "" || EndsWith(s, "\n")) && PlainBody(frag)
    ensures var y := s + PadBody(Ended(cur) + frag, after);
      HeadsIn(y) == HeadsIn(s + cur) && FenceEnd(y) == NoFence && (y == "" || EndsWith(y, "\n"))
  {
    hide HeadsIn, FenceEnd, PadBody, Seam;
    EndedHeads(s, cur);
    NewlineSeam(s + Ended(cur), frag);
    HeadsSeam(s + Ended(cur), frag);
    assert s + (Ended(cur) + frag) == s + Ended(cur) + frag;
    PaddedHeads(s, Ended(cur) + frag, after);
  }

  lemma AppendTextHeads(s: string, cur: string, frag: string, after: string)
    requires FenceEnd(s + cur) == NoFence && (s == "" || EndsWith(s, "\n")) && PlainBody(frag)
    ensures HeadsIn(s + PadBody(Ended(cur) + frag, after) + after) == HeadsIn(s + cur) + HeadsIn(after)
  {
    hide HeadsIn, FenceEnd, PadBody, Seam;
    AppendedPrefix(s, cur, frag, after);
    var y := s + PadBody(Ended(cur) + frag, after);
    NewlineSeam(y, after);
    HeadsSeam(y, after);
  }

  lemma NewlineBefore(text: string, n: nat)
    requires 0 < n <= |text| && text[n - 1] == '\n'
    ensures EndsWith(text[..n], "\n")
  {
    assert text[..n][n - 1..] == [text[n - 1]];
  }

  /** Appending a plain fragment to a section leaves the headings of the document as they are. */
  lemma AppendKeepsHeads(text: string, k: nat, added: string)
    requires k < |SectionsOf(text)| && HeadingEnded(text, k)
    requires SectionsOf(text)[k].end == |text| ==> FenceEnd(text) == NoFence
    requires PlainBody(NewBody(text, k, added))
    ensures HeadsIn(AppendSection(text, k, added).0) == HeadsIn(text)
  {
    hide OutlineOf, SectionsOf, HeadsIn, FenceEnd, PadBody, StripLeadingHeading, PlainBody, HeadingEnded, Off, HeadAt, EndIdx;
    var sec, m := SectionsOf(text)[k], NextKept(text, k) - 1;
    SectionBounds(text, k);
    SectionIsBlock(text, k);
    PreambleIs(text);
    OffEnd(text);
    var s, cur, after := text[..sec.start], text[sec.start..sec.end], text[sec.end..];
    assert s + cur == text[..sec.end];
    if k > 0 {
      NewlineBefore(text, sec.start);
    }
    HeadsSplit(text, m);
    AppendTextHeads(s, cur, NewBody(text, k, added), after);
  }

  /** Two texts with the same headings have the same section names, levels and paths. */
  lemma SameHeadsSamePaths(text: string, text': string, t: nat)
    requires HeadsIn(text) == HeadsIn(text') && t < |SectionsOf(text)|
    ensures |SectionsOf(text')| == |SectionsOf(text)|
    ensures var a, b := SectionsOf(text)[t], SectionsOf(text')[t];
      a.heading == b.heading && a.level == b.level && a.path == b.path
  {
    hide OutlineFrom, SectionsOf, HeadsFrom, SplitLines, Off, HeadAt, EndIdx, StackAt, SlashJoin, Shape;
    var d, d' := OutlineOf(text), OutlineOf(text');
    PreambleIs(text);
    PreambleIs(text');
    HeadsAreShape(NoFence, SplitLines(text));
    HeadsAreShape(NoFence, SplitLines(text'));
    ShapeLen(d.blocks);
    ShapeLen(d'.blocks);
    forall u | 0 <= u < |d.blocks|
      ensures d.blocks[u].level == d'.blocks[u].level && d.blocks[u].heading == d'.blocks[u].heading
    {
      ShapeAt(d.blocks, u);
      ShapeAt(d'.blocks, u);
    }
    if t > 0 {
      SectionsAre(text, t - 1);
      SectionsAre(text', t - 1);
      StackSame(d.blocks, d'.blocks, t);
    }
  }

  /** So appending changes no heading, level or path of the list. */
  lemma AppendKeepsPaths(text: string, k: nat, added: string, t: nat)
    requires k < |SectionsOf(text)| && HeadingEnded(text, k) && t < |SectionsOf(text)|
    requires SectionsOf(text)[k].end == |text| ==> FenceEnd(text) == NoFence
    requires PlainBody(NewBody(text, k, added))
    ensures var text' := AppendSection(text, k, added).0;
      && |SectionsOf(text')| == |SectionsOf(text)|
      && var a, b := SectionsOf(text)[t], SectionsOf(text')[t];
      a.heading == b.heading && a.level == b.level && a.path == b.path
  {
    hide SectionsOf, HeadsIn, FenceEnd, AppendSection, PlainBody, HeadingEnded, NewBody;
    AppendKeepsHeads(text, k, added);
    SameHeadsSamePaths(text, AppendSection(text, k, added).0, t);
  }
}
