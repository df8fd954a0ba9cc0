/** Line-anchored XML blocks, found by two nested fence-aware scans. */
module XmlBlocks {
  import opened Text
  import opened MarkdownFence
  import opened Outline
  import opened Sections

  predicate IsNameChar(c: char) {
    'a' <= c <= 'z' || '0' <= c <= '9' || c == '_'
  }

  function NameLen(s: string): (n: nat)
    ensures n <= |s|
  {
    if s != "" && IsNameChar(s[0]) then 1 + NameLen(s[1..]) else 0
  }

  /** `open`, then `[a-z][a-z0-9_]*`, then `>` and only blanks. */
  function TagAfter(s: string, open: string): Option<string> {
    if !(open <= s) then None
    else
      var t := s[|open|..];
      var n := NameLen(t);
      if 0 < n < |t| && 'a' <= t[0] <= 'z' && t[n] == '>' && Blank(t[n + 1..]) then Some(t[..n]) else None
  }

  function OpenTag(line: string): Option<string> {
    TagAfter(ChopBreak(line), "<")
  }

  function CloseTag(line: string): Option<string> {
    TagAfter(ChopBreak(line), "</")
  }

  /** The one fence scan over the whole document. */
  function FenceAt(lines: seq<string>, i: nat): Fence
    requires i <= |lines|
  {
    FenceAfter(NoFence, lines[..i])
  }

  predicate Shown(lines: seq<string>, i: nat)
    requires i < |lines|
  {
    Visible(FenceAt(lines, i), lines[i])
  }

  predicate Opens(lines: seq<string>, i: nat, tag: string)
    requires i < |lines|
  {
    Shown(lines, i) && OpenTag(lines[i]) == Some(tag)
  }

  predicate Closes(lines: seq<string>, i: nat, tag: string)
    requires i < |lines|
  {
    Shown(lines, i) && CloseTag(lines[i]) == Some(tag)
  }

  /** The first line at or after `c` that closes `tag` outside any fence, else the line count. */
  function FirstClose(lines: seq<string>, tag: string, c: nat): (r: nat)
    requires c <= |lines|
    ensures c <= r <= |lines|
    ensures r < |lines| ==> Closes(lines, r, tag)
    ensures forall t :: c <= t < r ==> !Closes(lines, t, tag)
    decreases |lines| - c
  {
    if c == |lines| || Closes(lines, c, tag) then c else FirstClose(lines, tag, c + 1)
  }

  datatype XmlBlock = XmlBlock(tag: string, open: nat, close: nat)

  /** Where the scan goes after line `i`, and the block it reports there. */
  function BlockAt(lines: seq<string>, i: nat): Option<XmlBlock>
    requires i < |lines|
  {
    if !Shown(lines, i) then None
    else
      match OpenTag(lines[i])
      case None => None
      case Some(tag) =>
        var c := FirstClose(lines, tag, i + 1);
        if c < |lines| then Some(XmlBlock(tag, i, c)) else None
  }

  function BlocksFrom(lines: seq<string>, i: nat): seq<XmlBlock>
    requires i <= |lines|
    decreases |lines| - i
  {
    if i == |lines| then []
    else
      match BlockAt(lines, i)
      case None => BlocksFrom(lines, i + 1)
      case Some(b) => [b] + BlocksFrom(lines, b.close + 1)
  }

  function XmlKey(tag: string): string {
    "<" + tag + ">"
  }

  function XmlSection(lines: seq<string>, b: XmlBlock): Section
    requires b.open < b.close < |lines|
  {
    var start, end := Upto(lines, b.open + 1), Upto(lines, b.close);
    Section(XmlKey(b.tag), 1, XmlKey(b.tag), b.open + 1, start, end, Span(start, end))
  }

  predicate InLines(lines: seq<string>, blocks: seq<XmlBlock>) {
    forall t :: 0 <= t < |blocks| ==> blocks[t].open < blocks[t].close < |lines|
  }

  function XmlSections(lines: seq<string>, blocks: seq<XmlBlock>): seq<Section>
    requires InLines(lines, blocks)
  {
    seq(|blocks|, t requires 0 <= t < |blocks| => XmlSection(lines, blocks[t]))
  }

  /* ---------- the scan ---------- */

  lemma ShownNext(lines: seq<string>, i: nat)
    requires i < |lines|
    ensures FenceAt(lines, i + 1) == Next(FenceAt(lines, i), lines[i])
    ensures Shown(lines, i) ==> FenceAt(lines, i + 1) == NoFence
  {
    hide Next, FenceAfter;
    FenceAfterSnoc(NoFence, lines, i);
  }

  /** The inner scan, started afresh after the opening tag. */
  method FindClose(lines: seq<string>, openLine: nat, tag: string) returns (closeLine: nat, found: bool)
    requires openLine < |lines| && Shown(lines, openLine)
    ensures closeLine == FirstClose(lines, tag, openLine + 1) && found == (closeLine < |lines|)
  {
    hide Next, FenceAt, CloseTag, Visible;
    ShownNext(lines, openLine);
    closeLine := openLine + 1;
    var innerFence := NoFence;
    while closeLine < |lines|
      invariant openLine < closeLine <= |lines| && innerFence == FenceAt(lines, closeLine)
      invariant FirstClose(lines, tag, closeLine) == FirstClose(lines, tag, openLine + 1)
    {
      var shown;
      ShownNext(lines, closeLine);
      innerFence, shown := FenceLine(innerFence, lines[closeLine]);
      if shown && CloseTag(lines[closeLine]) == Some(tag) {
        return closeLine, true;
      }
      closeLine := closeLine + 1;
    }
    found := false;
  }

  /** The outer scan: it jumps past each block it finds and always moves on. */
  method ParseXmlBlockSections(text: string) returns (sections: seq<Section>)
    ensures InLines(SplitLines(text), BlocksFrom(SplitLines(text), 0))
    ensures sections == XmlSections(SplitLines(text), BlocksFrom(SplitLines(text), 0))
  {
    hide Next, FenceAt, OpenTag, Visible, SplitLines, Upto, FirstClose;
    var lines := SplitLines(text);
    sections := [];
    ghost var blocks: seq<XmlBlock> := [];
    var fence := NoFence;
    var lineIdx := 0;
    assert FenceAt(lines, 0) == NoFence by { ScanStart(lines); }
    while lineIdx < |lines|
      invariant lineIdx <= |lines| && fence == FenceAt(lines, lineIdx)
      invariant blocks + BlocksFrom(lines, lineIdx) == BlocksFrom(lines, 0)
      invariant InLines(lines, blocks) && sections == XmlSections(lines, blocks)
      decreases |lines| - lineIdx
    {
      var line, shown := lines[lineIdx], false;
      ShownNext(lines, lineIdx);
      fence, shown := FenceLine(fence, line);
      var open := OpenTag(line);
      if !shown || open.None? {
        lineIdx := lineIdx + 1;
      } else {
        var closeLine, found := FindClose(lines, lineIdx, open.value);
        if found {
          ShownNext(lines, closeLine);
          var start, end := Upto(lines, lineIdx + 1), Upto(lines, closeLine);
          sections := sections
            + [Section(XmlKey(open.value), 1, XmlKey(open.value), lineIdx + 1, start, end, Span(start, end))];
          blocks := blocks + [XmlBlock(open.value, lineIdx, closeLine)];
          lineIdx := closeLine + 1;
        } else {
          lineIdx := lineIdx + 1;
        }
      }
    }
    assert blocks + [] == blocks;
  }

  lemma ScanStart(lines: seq<string>)
    ensures FenceAt(lines, 0) == NoFence
  {
  }

  /* ---------- what the scan finds ---------- */

  /** A reported block: opened and closed outside every fence, at its first matching close. */
  predicate Sound(lines: seq<string>, b: XmlBlock) {
    && b.open < b.close < |lines|
    && Opens(lines, b.open, b.tag) && Closes(lines, b.close, b.tag)
    && forall t :: b.open < t < b.close ==> !Closes(lines, t, b.tag)
  }

  predicate Ordered(blocks: seq<XmlBlock>) {
    forall s, t :: 0 <= s < t < |blocks| ==> blocks[s].close < blocks[t].open
  }

  lemma {:induction false} BlocksSound(lines: seq<string>, i: nat)
    requires i <= |lines|
    ensures var blocks := BlocksFrom(lines, i);
      && Ordered(blocks)
      && forall t :: 0 <= t < |blocks| ==> i <= blocks[t].open && Sound(lines, blocks[t])
    decreases |lines| - i
  {
    hide Shown, OpenTag, CloseTag;
    if i < |lines| {
      match BlockAt(lines, i)
      case None =>
        BlocksSound(lines, i + 1);
      case Some(b) =>
        BlocksSound(lines, b.close + 1);
    }
  }

  /** No tag pair outside the fences is missed: it starts in a block, or nothing ever closes it. */
  lemma {:induction false} BlocksComplete(lines: seq<string>, i: nat, o: nat, tag: string)
    requires i <= o < |lines| && Opens(lines, o, tag) && FirstClose(lines, tag, o + 1) < |lines|
    ensures exists b :: b in BlocksFrom(lines, i) && b.open <= o <= b.close
    decreases |lines| - i
  {
    hide Shown, OpenTag, CloseTag;
    match BlockAt(lines, i)
    case None =>
      if i < o {
        BlocksComplete(lines, i + 1, o, tag);
      }
    case Some(b) =>
      if b.close < o {
        BlocksComplete(lines, b.close + 1, o, tag);
        var c :| c in BlocksFrom(lines, b.close + 1) && c.open <= o <= c.close;
        assert c in BlocksFrom(lines, i);
      } else {
        assert b in BlocksFrom(lines, i);
      }
  }

  /**
   * The nested scans agree with one fence scan of the document: blocks open and close only outside its
   * fences, each at its first matching close; they come in order and pairwise disjoint, as text too.
   */
  lemma XmlScanAgrees(text: string, s: nat, t: nat)
    requires var blocks := BlocksFrom(SplitLines(text), 0); s < t < |blocks|
    ensures var lines := SplitLines(text); var blocks := BlocksFrom(lines, 0);
      && InLines(lines, blocks) && Sound(lines, blocks[s]) && Sound(lines, blocks[t])
      && blocks[s].close < blocks[t].open
      && XmlSection(lines, blocks[s]).end < XmlSection(lines, blocks[t]).start
  {
    hide SplitLines, BlocksFrom, Shown, FirstClose, Opens, Closes;
    var lines := SplitLines(text);
    var blocks := BlocksFrom(lines, 0);
    BlocksSound(lines, 0);
    assert Sound(lines, blocks[s]) && Sound(lines, blocks[t]);
    SplitGood(text);
    UptoGrows(lines, blocks[s].close, blocks[t].open + 1);
  }

  lemma UptoGrows(lines: seq<string>, i: nat, j: nat)
    requires GoodLines(lines) && i < j <= |lines|
    ensures Upto(lines, i) < Upto(lines, j)
  {
    assert lines[..j] == lines[..i] + lines[i..j];
    JoinConcat(lines[..i], lines[i..j]);
    assert OneLine(lines[i]);
    assert lines[i..j][0] == lines[i];
  }
}
