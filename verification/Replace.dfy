/** Replacing the body of one section. */
module Replace {
  import opened Text
  import opened MarkdownFence
  import opened Outline
  import opened Sections
  import opened Splice
  import opened Edits
  import opened Body

  lemma FirstHeadingBounds(content: string)
    requires |SectionsOf(content)| > 1
    ensures var first := SectionsOf(content)[1];
      && first.start <= |content| && 1 <= first.line <= |SplitLines(content)| + 1
      && Upto(SplitLines(content), first.line - 1) <= |content|
  {
    hide SectionsOf, SplitLines, Upto;
    SectionBounds(content, 1);
    CutAt(content, SectionsOf(content)[1].line - 1);
  }

  function StripAt(content: string, first: Section, level: nat, heading: string): (string, bool)
    requires first.start <= |content| && 1 <= first.line <= |SplitLines(content)| + 1
    requires Upto(SplitLines(content), first.line - 1) <= |content|
  {
    var h0 := Upto(SplitLines(content), first.line - 1);
    if Strip(content[..h0]) == "" && first.level == level && first.heading == heading
    then (content[first.start..], true) else (content, false)
  }

  /** Drops a leading heading line that repeats `level` and `heading`; says whether it did. */
  function StripLeadingHeading(content: string, level: nat, heading: string): (string, bool) {
    if |SectionsOf(content)| <= 1 then (content, false)
    else
      FirstHeadingBounds(content);
      StripAt(content, SectionsOf(content)[1], level, heading)
  }

  /** The padding of `_set_section_body`: a final newline, and a blank line before following text. */
  function PadBody(body: string, after: string): string {
    var ended := Ended(body);
    if after != "" && ended != "" && !EndsWith(ended, "\n\n") then ended + "\n" else ended
  }

  function SetSectionBody(text: string, sec: Section, body: string): string
    requires sec.start <= |text| && sec.end <= |text|
  {
    text[..sec.start] + PadBody(body, text[sec.end..]) + text[sec.end..]
  }

  /** The body that a replacement of section `k` installs, before padding. */
  function NewBody(text: string, k: nat, content: string): string
    requires k < |SectionsOf(text)|
  {
    StripLeadingHeading(content, SectionsOf(text)[k].level, SectionsOf(text)[k].heading).0
  }

  function ReplaceSection(text: string, k: nat, content: string): (string, bool)
    requires k < |SectionsOf(text)|
  {
    var sec := SectionsOf(text)[k];
    SectionBounds(text, k);
    var (body, normalized) := StripLeadingHeading(content, sec.level, sec.heading);
    (SetSectionBody(text, sec, body), normalized)
  }

  /** What the section reads as after the replacement. */
  function Installed(text: string, k: nat, content: string): string
    requires k < |SectionsOf(text)|
  {
    SectionBounds(text, k);
    PadBody(NewBody(text, k, content), text[SectionsOf(text)[k].end..])
  }

  /** The heading line of the section ends in "\n", so that the body starts on the next line. */
  predicate HeadingEnded(text: string, k: nat)
    requires k < |SectionsOf(text)|
  {
    SectionBounds(text, k);
    var at := SectionsOf(text)[k].line - 1;
    k == 0 || (at < |SplitLines(text)| && EndsWith(SplitLines(text)[at], "\n"))
  }

  /* ---------- padding ---------- */

  lemma PadPlain(body: string, after: string)
    requires PlainBody(body)
    ensures PlainBody(PadBody(body, after))
    ensures PadBody(body, after) == "" || EndsWith(PadBody(body, after), "\n")
  {
    hide HeadsIn, FenceEnd;
    AddEol(body, "\n");
    AddEol(body + "\n", "\n");
    var ended := Ended(body);
    AddEol(ended, "\n");
    assert (body + "\n")[|body|..] == "\n";
    assert (ended + "\n")[|ended|..] == "\n";
  }

  lemma NewlineSeam(a: string, b: string)
    requires a == "" || EndsWith(a, "\n")
    ensures Seam(a, b)
  {
    if a != "" {
      assert a[|a| - 1] == a[|a| - 1..][0];
    }
  }

  /* ---------- the outline after a replacement ---------- */

  /** Where the body of block `i` starts in the text when its heading line ends in "\n". */
  lemma BodyStart(text: string, i: nat)
    requires i < |OutlineOf(text).blocks| && EndsWith(OutlineOf(text).blocks[i].head, "\n")
    ensures var d := OutlineOf(text); var head := d.blocks[i].head; var p := Off(d, i) + |head|;
      && p <= Off(d, EndIdx(d.blocks, i)) <= |text|
      && text[..p] == Join(LinesBefore(d, i)) + head && text[p - 1] == '\n'
      && AfterNewline(text, Off(d, i)) == p
      && SplitLines(text[..p]) == LinesBefore(d, i) + [head]
  {
    hide OutlineOf, SplitLines, GoodLines, EndIdx;
    var d := OutlineOf(text);
    var head := d.blocks[i].head;
    var before := LinesBefore(d, i);
    OffCut(text, i);
    var j := EndIdx(d.blocks, i);
    OffInText(text);
    OffPastHead(text, i, j);
    assert text[Off(d, i)..] == Join(BlockLines(d.blocks[i..]));
    HeadIsLine(text, i);
    assert text == text[..Off(d, i)] + text[Off(d, i)..];
    HeadNewline(text, Off(d, i), head);
    HeadLineSplit(text, i);
  }

  lemma OffPastHead(text: string, i: nat, j: nat)
    requires i < j <= |OutlineOf(text).blocks|
    ensures var d := OutlineOf(text);
      Off(d, i) + |d.blocks[i].head| <= Off(d, j) && HeadAt(d, i) < HeadAt(d, j)
  {
    hide OutlineOf;
    var d := OutlineOf(text);
    LinesBeforeStep(d, i, j);
    assert d.blocks[i..j][0] == d.blocks[i];
    JoinConcat(LinesBefore(d, i), BlockLines(d.blocks[i..j]));
  }

  lemma HeadIsLine(text: string, i: nat)
    requires i < |OutlineOf(text).blocks|
    ensures var d := OutlineOf(text); var head := d.blocks[i].head;
      && OneLine(head) && HeadAt(d, i) < |SplitLines(text)| && SplitLines(text)[HeadAt(d, i)] == head
      && Off(d, i) + |head| <= |text| && text[Off(d, i)..Off(d, i) + |head|] == head
  {
    hide OutlineOf, SplitLines, OneLine, Join, Off;
    var d := OutlineOf(text);
    UptoHead(text, i);
    SplitGood(text);
    OffCut(text, i);
    var rest := BlockLines(d.blocks[i..]);
    assert rest[0] == d.blocks[i].head;
    assert SplitLines(text)[HeadAt(d, i)..][0] == rest[0];
    JoinStarts(rest);
    assert text[Off(d, i)..][..|rest[0]|] == rest[0];
  }

  lemma JoinStarts(lines: seq<string>)
    requires lines != []
    ensures lines[0] <= Join(lines)
  {
  }

  lemma HeadNewline(text: string, o: nat, head: string)
    requires o + |head| <= |text| && text[o..o + |head|] == head && OneLine(head) && EndsWith(head, "\n")
    ensures AfterNewline(text, o) == o + |head| && text[o + |head| - 1] == '\n'
  {
    OneLineNewline(head);
    var i := o + |head| - 1;
    assert text[i] == head[|head| - 1];
    forall t | o <= t < i ensures text[t] != '\n' {
      assert text[t] == head[t - o];
    }
    AfterNewlineAt(text, o, i);
  }

  lemma {:induction false} OneLineNewline(l: string)
    requires OneLine(l) && EndsWith(l, "\n")
    ensures forall t :: 0 <= t < |l| ==> (l[t] == '\n' <==> t == |l| - 1)
  {
    assert l[|l| - 1] == l[|l| - 1..][0];
    if |l| > 1 && !IsBreak(l[0]) {
      assert l[1..][|l[1..]| - 1..] == "\n";
      OneLineNewline(l[1..]);
      forall t | 0 <= t < |l| ensures l[t] == '\n' <==> t == |l| - 1 {
        if t > 0 {
          assert l[t] == l[1..][t - 1];
        }
      }
    }
  }

  lemma HeadLineSplit(text: string, i: nat)
    requires i < |OutlineOf(text).blocks|
    ensures var d := OutlineOf(text); var head := d.blocks[i].head;
      && Off(d, i) + |head| <= |text|
      && text[..Off(d, i) + |head|] == Join(LinesBefore(d, i)) + head
      && SplitLines(text[..Off(d, i) + |head|]) == LinesBefore(d, i) + [head]
  {
    hide OutlineOf, SplitLines, OneLine, Off, LinesBefore;
    var d := OutlineOf(text);
    var head, lines, n := d.blocks[i].head, SplitLines(text), HeadAt(d, i);
    HeadIsLine(text, i);
    OffCut(text, i);
    UptoHead(text, i);
    assert text[..Off(d, i) + |head|] == text[..Off(d, i)] + text[Off(d, i)..Off(d, i) + |head|];
    CutAt(text, n + 1);
    assert lines[..n + 1] == lines[..n] + [head];
    JoinConcat(lines[..n], [head]);
    assert Join([head]) == head;
  }

  function ReplacedDoc(d: Doc, k: nat, body: string): Doc
    requires k <= |d.blocks|
  {
    if k == 0 then Doc(SplitLines(body), d.blocks)
    else
      var i := k - 1;
      Doc(d.pre, d.blocks[..i] + [d.blocks[i].(body := SplitLines(body))] + d.blocks[EndIdx(d.blocks, i)..])
  }

  lemma ReplacedDocOk(d: Doc, k: nat, body: string)
    requires DocOk(d) && k <= |d.blocks| && PlainBody(body)
    ensures DocOk(ReplacedDoc(d, k, body))
  {
    hide Quiet, SplitLines, EndIdx, PlainBody, BlocksOk, FenceAfter;
    PlainBodyLines(body);
    if k > 0 {
      var i := k - 1;
      var j := EndIdx(d.blocks, i);
      var front, back := d.blocks[..i], d.blocks[j..];
      assert d.blocks[0..i] == front && d.blocks[j..|d.blocks|] == back;
      BlocksOkSlice(d.blocks, 0, i);
      BlocksOkSlice(d.blocks, j, |d.blocks|);
      var b := d.blocks[i].(body := SplitLines(body));
      OneBlockOk(d.blocks, i, SplitLines(body));
      BlocksOkSplice(front, [b]);
      BlocksOkSplice(front + [b], back);
    }
  }

  lemma ReplacedLines(d: Doc, k: nat, body: string)
    requires k <= |d.blocks|
    ensures LinesOf(ReplacedDoc(d, k, body)) ==
      if k == 0 then SplitLines(body) + BlockLines(d.blocks)
      else LinesBefore(d, k - 1) + [d.blocks[k - 1].head] + (SplitLines(body) + BlockLines(d.blocks[EndIdx(d.blocks, k - 1)..]))
  {
    hide SplitLines, EndIdx;
    if k > 0 {
      var i := k - 1;
      var b := d.blocks[i].(body := SplitLines(body));
      var front, back := d.blocks[..i], d.blocks[EndIdx(d.blocks, i)..];
      BlockLinesConcat(front, [b]);
      BlockLinesConcat(front + [b], back);
      OneBlockLines(b);
    }
  }

  lemma OneBlockLines(b: Block)
    ensures BlockLines([b]) == [b.head] + b.body
  {
  }

  lemma OneBlockOk(blocks: seq<Block>, i: nat, body: seq<string>)
    requires BlocksOk(blocks) && i < |blocks| && Quiet(NoFence, body)
    ensures BlocksOk([blocks[i].(body := body)])
  {
    hide Head, Quiet;
    assert BlockOk(blocks[i]);
  }

  /** The lines of the new text: the heading line and all before it, the new body, and what followed. */
  lemma ReplaceLines(text: string, k: nat, p: string)
    requires k < |SectionsOf(text)| && HeadingEnded(text, k) && (p == "" || EndsWith(p, "\n"))
    ensures var sec, d := SectionsOf(text)[k], OutlineOf(text);
      && k <= |d.blocks| && sec.start <= |text| && sec.end <= |text|
      && SplitLines(text[..sec.start] + p + text[sec.end..]) == LinesOf(ReplacedDoc(d, k, p))
  {
    hide OutlineOf, SectionsOf, SplitLines, Off, EndIdx, LinesOf, Seam, ReplacedDoc, Join, BlockLines, LinesBefore,
      HeadingEnded, EndsWith;
    var sec, d := SectionsOf(text)[k], OutlineOf(text);
    PartLines(text, k);
    var a, after := text[..sec.start], text[sec.end..];
    assert a + p + after == a + (p + after);
    NewlineSeam(p, after);
    SplitSeam(p, after);
    ReplacedLines(d, k, p);
    if k == 0 {
      assert a + (p + after) == p + after;
    } else {
      NewlineSeam(a, p + after);
      SplitSeam(a, p + after);
    }
  }

  lemma PartLines(text: string, k: nat)
    requires k < |SectionsOf(text)| && HeadingEnded(text, k)
    ensures var sec, d := SectionsOf(text)[k], OutlineOf(text);
      && k <= |d.blocks| && sec.start <= |text| && sec.end <= |text|
      && (k == 0 ==> sec.start == 0 && SplitLines(text[sec.end..]) == BlockLines(d.blocks))
      && (k > 0 ==> EndsWith(text[..sec.start], "\n")
                    && SplitLines(text[..sec.start]) == LinesBefore(d, k - 1) + [d.blocks[k - 1].head]
                    && SplitLines(text[sec.end..]) == BlockLines(d.blocks[EndIdx(d.blocks, k - 1)..]))
  {
    hide OutlineOf, SectionsOf, SplitLines, Off, EndIdx, Join, BlockLines, LinesBefore;
    var sec, d := SectionsOf(text)[k], OutlineOf(text);
    PreambleIs(text);
    SectionBounds(text, k);
    if k == 0 {
      OffCut(text, 0);
      assert d.blocks[0..] == d.blocks;
    } else {
      SectionsAre(text, k - 1);
      HeadIsLine(text, k - 1);
      BodyStart(text, k - 1);
      OffCut(text, EndIdx(d.blocks, k - 1));
      assert text[..sec.start][sec.start - 1..] == [text[sec.start - 1]];
    }
  }

  lemma ReplaceOutline(text: string, k: nat, content: string)
    requires k < |SectionsOf(text)| && HeadingEnded(text, k) && PlainBody(NewBody(text, k, content))
    ensures k <= |OutlineOf(text).blocks|
    ensures OutlineOf(ReplaceSection(text, k, content).0) == ReplacedDoc(OutlineOf(text), k, Installed(text, k, content))
  {
    hide OutlineOf, SectionsOf, SplitLines, DocOk, LinesOf, StripLeadingHeading, PlainBody, PadBody, HeadingEnded, ReplacedDoc;
    var d, sec, p := OutlineOf(text), SectionsOf(text)[k], Installed(text, k, content);
    TextOfOutline(text);
    SectionBounds(text, k);
    PadPlain(NewBody(text, k, content), text[sec.end..]);
    ReplaceLines(text, k, p);
    ReplacedDocOk(d, k, p);
    OutlineOfLines(ReplaceSection(text, k, content).0, ReplacedDoc(d, k, p));
  }
}
